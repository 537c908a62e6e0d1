# Verified models of the build tool's core

Dafny models of the parts of expo-builder-local in which a small mistake is hard to see: the build run
with its four goroutines, the byte stream it reads and the dashboard it draws, the encoders whose
decoders must undo them, and the text transformations that must keep structure. `dafny verify
dfyconfig.toml` checks everything.

**The build run.** `BuildRun` is a transition system of main, the attach goroutine, the cancel watcher,
the status goroutine and the daemon's container, with the mutex, the channels and every captured
variable. A run is any sequence of possible steps; `BuildRunSafety` and `BuildRunFrames` hold what every
step keeps, `BuildRunTheorems` and `BuildRunHistory` what follows for all runs, `BuildRunLiveness` why main returns in every
fair infinite execution, `BuildRunWitnesses` runs that show where the code promises less.
`OutputSink` is the callback that splits chunks into lines and acts on them, with `Progress` (the Go
tracker and its C++ twin) and `StripAnsi`. `Terminal` interprets bytes as a terminal does;
`PullProgress`, `StatusView` and `TuiMenu` are proved against what is on its screen. `LineSplitter` is
the orchestrator's own line splitter.

**Encoders.** `Json`, `JsonParser`, `JsonRoundTrip` and `JsonUnicode` (printer, recursive-descent parser,
UTF-8); `WindowsArgv` and `WindowsCommandLine` (argument quoting, the same code in
cli-cpp-legacy/src/metrics.cpp and in cli-cpp-legacy/src/host_process.cpp); `TarWriter`; `Base64`; `HttpResponse` (framing over a pipe that
delivers the stream in arbitrary pieces).

**Text transformations.** `SigningPatch` and `PatchedBuild` (the Gradle patch with its brace scanner, and
what the patched file holds), `Redactor`.

`Text`, `Numerals` and `Wrappers` are shared helpers. Strings hold one character per byte, except in the
JavaScript parts, where a character is a code unit. Objects the source updates in place are classes whose
methods are proved equal to a specification function; the lemmas are about those functions.

Properties that turned out narrower than the code's comments are stated with their exact condition:
a chunked response is read right if and only if no size or trailer line is cut by the pipe; a pull's
screen is right if and only if no status line lies below a redrawn layer (or the texts coincide); a
secret can survive redaction if and only if it can overlap the mask; the signing patch is idempotent if
and only if the release build type has no second debug reference; the arguments of a command line come
back if and only if the quoted program name ends where it should; the last dashboard frame is stale if
and only if the status goroutine still held an older snapshot while main drew and drew nothing
afterwards; a removal is requested if and only if the start succeeded or the watcher took a signal and
got to it, so after a failed start main never asks for one.

## Model

| member | source | states |
|---|---|---|
| `BuildRunTheorems.ExactlyOneRemoval` | cli/internal/commands/build_run.go:286-332 | in every complete run past the start exactly one removal is requested, by the watcher if it took the signal and by main otherwise; a removal answered without error leaves no container |
| `BuildRunTheorems.NeverTwoRemovals` | cli/internal/commands/build_run.go:109-126 | no run, complete or not, requests two removals |
| `BuildRunTheorems.ExitCodes` | cli/internal/commands/build_run.go:319-419 | the exit code is 130 exactly when the signal was taken, 0 exactly when removal, wait and metrics succeeded with status 0 and an artifact, 1 otherwise |
| `BuildRunTheorems.FailedStart` | cli/internal/commands/build_run.go:286-288 | in every run whose start fails main returns 1 without asking for a removal; one is requested, and the container removed, only by a watcher that took a signal |
| `BuildRunTheorems.ReturnedRuns` | cli/internal/commands/build_run.go:286-332 | in every run in which main has returned: one removal was requested exactly when the start succeeded or the watcher got to it, and the exit code is 130 exactly when the start succeeded and the signal was taken |
| `BuildRunTheorems.AllJoined` | cli/internal/commands/build_run.go:292-312 | when main returns, the attach, watcher and status goroutines have ended and nobody holds the mutex |
| `BuildRunTheorems.ReportCoversOutput` | cli/internal/commands/build_run.go:338-418 | unless streaming ended early, the artifact, engine, build number, error and dumped log come from the whole output of the container |
| `BuildRunTheorems.OnlyRenderingRaces` | cli/internal/commands/build_run.go:131-140 | in every reachable state there is no data race on the cancel flag, the results or the status state; the line count of the view is raced on exactly while main and the status goroutine are both about to render |
| `BuildRunTheorems.FramesNeverGoBack` | cli/internal/commands/build_run.go:251-281 | the percentages of the frames drawn by the status goroutine never fall, and no frame's is ahead of the board's |
| `BuildRunHistory.FramesFollowOutput` | cli/internal/commands/build_run.go:170-281 | every frame shows the board after some number of the output's critical sections, and that number never falls from one frame of the status goroutine to the next |
| `BuildRunHistory.RecentLinesAdvance` | cli/internal/commands/build_run.go:199-281 | the recent lines of a frame are the last 8 of a beginning of the kept lines, and those beginnings never get shorter from one frame of the status goroutine to the next |
| `BuildRunTheorems.FinalFrameIsComplete` | cli/internal/commands/build_run.go:294-307 | main's own frame shows everything the container printed, unless streaming ended early |
| `BuildRunTheorems.LastFrameStaleExactly` | cli/internal/commands/build_run.go:272-307 | the last frame differs from main's exactly when the status goroutine held an older, different snapshot while main drew and drew nothing else later |
| `BuildRunSafety.StepKeeps` | cli/internal/commands/build_run.go:104-332 | every step of every thread keeps the mutex, join, removal and exit-code invariants |
| `BuildRunFrames.SinkKept` | cli/internal/commands/build_run.go:147-227 | at every moment the callback's variables are the fold of the lines taken so far, and the shared status state lags only by the critical sections still open |
| `BuildRunFrames.SectionsLead` | cli/internal/commands/build_run.go:170-222 | the separate critical sections of a line, one after the other, do to the status state what the line means |
| `BuildRunFrames.ScreenKept` | cli/internal/commands/build_run.go:251-307 | every step keeps the order of the frames and the place of main's frame among them |
| `BuildRunLiveness.NoDeadlock` | cli/internal/commands/build_run.go:286-312 | in every reachable state after the container has stopped, the goroutine main depends on can take a step, or the holder of the mutex it waits for can, without counting on any error |
| `BuildRunLiveness.HelperStep` | cli/internal/commands/build_run.go:286-312 | each step of the goroutine main waits for decreases a lexicographic measure |
| `BuildRunLiveness.OtherStep` | cli/internal/commands/build_run.go:235-284 | steps of the other goroutines leave everything main's progress depends on as it was |
| `BuildRunLiveness.MainReturns` | cli/internal/commands/build_run.go:286-419 | in every strongly fair infinite execution main returns once the container has stopped, with the goroutines it started ended |
| `BuildRunWitnesses.FailedStartLeavesContainer` | cli/internal/commands/build_run.go:286-288 | the failed start that `BuildRunTheorems.FailedStart` describes happens with the container left in place, even running |
| `BuildRunWitnesses.EarlySignalGivesOne` | cli/internal/commands/build_run.go:109-126 | a signal before the start is taken and the container removed, yet the exit code is 1 |
| `BuildRunWitnesses.RenderingRaceHappens` | cli/internal/commands/build_run.go:272-307 | the rendering race is reachable |
| `BuildRunWitnesses.StaleLastFrameHappens` | cli/internal/commands/build_run.go:272-307 | a complete run whose last frame is older than main's |
| `OutputSink.LogSink.OnChunk` | cli/internal/commands/build_run.go:147-227 | a chunk leaves the unfinished line and the fold of the completed lines, whatever was pending |
| `OutputSink.LogSink.Stream` | cli/internal/commands/build_run.go:147-227 | for every chunking the final state is a function of the bytes alone |
| `OutputSink.LogSink.ApplyMarker` | cli/internal/commands/build_run.go:158-186 | a marker sets the variable it names, an engine marker also switches the tracker |
| `OutputSink.LogSink.AdvanceProgress` | cli/internal/commands/build_run.go:188-197 | with a dashboard every line feeds the tracker, and its answer becomes the shown percentage |
| `OutputSink.LogSink.KeepContent` | cli/internal/commands/build_run.go:199-225 | markers are never shown; other lines are cleaned and kept in bounded tails, or passed through |
| `OutputSink.LinesAppend` | cli/internal/commands/build_run.go:147-156 | more input leaves ended lines alone and continues the unfinished one |
| `OutputSink.TailsAreSuffixes` | cli/internal/commands/build_run.go:203-222 | the recent lines are the last 8 and the log the last 200 of the cleaned non-blank non-marker lines |
| `OutputSink.KeptEntriesClean` | cli/internal/commands/build_run.go:203-211 | no kept entry is empty, holds a control byte other than tab, or has white space at an end |
| `OutputSink.PassThrough` | cli/internal/commands/build_run.go:199-225 | without a dashboard exactly the non-marker lines are printed and nothing is kept |
| `OutputSink.ResultsAreLastPayloads` | cli/internal/commands/build_run.go:160-169 | engine, artifact, error and build number are the payloads of the last such markers |
| `OutputSink.TrackerFollowsStream` | cli/internal/commands/build_run.go:161-197 | the tracker has run over exactly the stream's events, and the percentage shown is its own |
| `Progress.Tracker.SetEngine` | cli/internal/progress/progress.go:80-86 | switches between the two weight tables and changes nothing else |
| `Progress.Tracker.ClampAdvance` | cli/internal/progress/progress.go:111-120 | the percentage becomes the larger of itself and the rounded, capped target |
| `Progress.Tracker.HandleLine` | cli/internal/progress/progress.go:126-180 | state and answer after a line are those of the shared specification with Go's number parsing |
| `Progress.BuildProgressTracker.HandleLine` | cli-cpp-legacy/src/build_progress_tracker.cpp:80-128 | the same specification with the C++ number parsing |
| `Progress.PercentIsMaximum` | cli/internal/progress/progress.go:111-180 | over any lines and engine switches the percentage is the maximum of all capped targets |
| `Progress.RunAppend` | cli/internal/progress/progress.go:111-180 | later events never lower the percentage |
| `Progress.WeightsTotal` | cli/internal/progress/progress.go:29-34 | both weight tables sum to 100 |
| `Progress.DoneIsComplete` | cli/internal/progress/progress.go:126-140 | a done marker brings the percentage to 100 under either engine from any state |
| `Progress.MilestonesFireOnce` | cli/internal/progress/progress.go:54-61 | between phase markers the milestones fire in list order, so none fires twice |
| `Progress.MarkerStaysInPhase` | cli/internal/progress/progress.go:95-109 | a progress marker aims inside its own phase's share, which ends where the next begins |
| `Progress.TwinsAgreeExactly` | cli-cpp-legacy/src/build_progress_tracker.cpp:93-99 | the two trackers do the same with a line exactly when both number parsers accept its payload or both refuse it |
| `Progress.TwinsAgree` | cli-cpp-legacy/src/build_progress_tracker.cpp:57-128 | on plain decimal payloads the twins stay in the same state over every run |
| `Progress.TwinsDifferOnTrailingText` | cli-cpp-legacy/src/build_progress_tracker.cpp:93-99 | concrete payloads on which they differ |
| `StripAnsi.StripAnsiEscapes` | cli/internal/commands/build.go:326-370 | computes the stripped text and emits no control byte but tab |
| `StripAnsi.StripIdempotent` | cli/internal/commands/build.go:326-370 | stripping again changes nothing, on every input |
| `StripAnsi.SegmentsStripped` | cli/internal/commands/build.go:326-370 | from printable text interleaved with well-formed control sequences exactly the text is left |
| `StripAnsi.ColorStripped` | cli/internal/color/color.go:33-38 | stripping undoes the colouring of printable text |
| `PullProgress.Renderer.OnEvent` | cli/internal/pullprogress/pullprogress.go:49-77 | the bytes sent and the remembered order and indices after an event |
| `PullProgress.ScreenIsDrawn` | cli/internal/pullprogress/pullprogress.go:49-77 | for events whose texts only show (styled or plain), below what was there the terminal shows exactly the drawn lines, where a redraw lands too low by the status lines below the layer |
| `PullProgress.RightExactly` | cli/internal/pullprogress/pullprogress.go:71-76 | from a right screen an event leaves a right screen if and only if no status line lies below the layer or the texts coincide |
| `PullProgress.AlwaysRightExactly` | cli/internal/pullprogress/pullprogress.go:49-77 | the screen is right after every event of a pull if and only if every event is harmless |
| `PullProgress.EdgesAreRight` | cli/internal/pullprogress/pullprogress.go:49-77 | with status lines only before the first and after the last layer event every screen is right |
| `PullProgress.ScreenAtEdges` | cli/internal/pullprogress/pullprogress.go:49-77 | such a pull leaves on the terminal what was above and then exactly the rows, as a viewer reads them |
| `PullProgress.OneRowPerLayer` | cli/internal/pullprogress/pullprogress.go:63-71 | a layer seen has exactly one row, which holds the text of its last event |
| `PullProgress.FirstSeenOrder` | cli/internal/pullprogress/pullprogress.go:63-69 | the rows of the layers are in the order of their first events |
| `PullProgress.StatusBetweenUpdates` | cli/internal/pullprogress/pullprogress.go:58-61 | a status line between two updates of a layer is overwritten by the second |
| `PullProgress.PlainOutput` | cli/internal/pullprogress/pullprogress.go:58-61 | where output is not a terminal every event is a plain line |
| `Terminal.Repaint` | cli/internal/buildstatusview/buildstatusview.go:122-130 | moving up by the previous line count, erasing and printing replaces the old frame and nothing above it |
| `Terminal.OnlyLatestFrame` | cli/internal/buildstatusview/buildstatusview.go:85-131 | after any number of frames the screen is what was above, then exactly the latest one |
| `Terminal.ShowsStripped` | cli/internal/commands/build.go:326-370 | text with styles of any number of parameters, operating-system commands and bells shows on a terminal as exactly what stripping leaves of it |
| `Terminal.CursorCodeMisplaces` | cli/internal/buildstatusview/buildstatusview.go:100-130 | a field that ends by moving the cursor up leaves it one row too high, on the line just printed |
| `StatusView.View.Render` | cli/internal/buildstatusview/buildstatusview.go:95-131 | what is sent, and that the line count kept is the number of line feeds of the frame |
| `StatusView.ScreenIsLatestFrame` | cli/internal/buildstatusview/buildstatusview.go:95-131 | after any renders the earlier contents are followed by exactly the latest frame, with or without colours; the application label and the phase may be any newline-free bytes that only show text, such as styled ones, the figures and log lines hold no control byte but tab |
| `StatusView.ViewShowsLatest` | cli/internal/buildstatusview/buildstatusview.go:85-131 | the same, under the same conditions, for the bytes a view has sent |
| `StatusView.BarFill` | cli/internal/buildstatusview/buildstatusview.go:47-60 | the bar has the asked-for width, filled in proportion, and is full exactly at 100 percent |
| `StatusView.Truncate` | cli/internal/buildstatusview/buildstatusview.go:62-67 | short lines are unchanged, long ones keep their first characters and end in three dots |
| `TuiMenu.Select` | cli/internal/tuimenu/tuimenu.go:21-75 | Enter returns (clamped default + Downs - Ups) mod n, Escape and an empty menu -1; for all titles and options the bytes sent are the repainted menus |
| `TuiMenu.Render` | cli/internal/tuimenu/tuimenu.go:34-56 | one menu is painted over the previous one, and its line feeds are counted |
| `TuiMenu.ScreenShowsMenu` | cli/internal/tuimenu/tuimenu.go:34-75 | after any keys the screen shows one menu, marking exactly the current position; title and options may be any newline-free bytes that only show text |
| `LineSplitter.LineBuffer.Push` | orchestrator/src/util/lineBuffer.ts:10-15 | returns the non-empty lines that what was kept and the chunk complete, and keeps the unfinished one |
| `LineSplitter.LineBuffer.Flush` | orchestrator/src/util/lineBuffer.ts:17-21 | returns the unfinished line if it has text, and forgets it |
| `LineSplitter.LineBuffer.Collect` | orchestrator/src/util/lineBuffer.ts:7-22 | for any chunking, all pushes and the flush give the non-empty lines of the whole input |
| `LineSplitter.SplitIsLines` | orchestrator/src/util/lineBuffer.ts:10-15 | treating a carriage return and line feed as one line end or two differs only in empty lines |
| `LineSplitter.AgreesWithSink` | cli/internal/commands/build_run.go:147-156 | apart from an unterminated last line the non-empty lines are those of the command-line tool's splitter |
| `Json.SetMember` | cli-cpp-legacy/src/json.cpp:34-44 | the search loop overwrites the first entry with the key or appends one |
| `Json.Cell.Assign` | cli-cpp-legacy/src/json.cpp:34-44 | null becomes an object, another non-object throws and stays, an object gets the member |
| `Json.Cell.PushBack` | cli-cpp-legacy/src/json.cpp:58-62 | null becomes an array, another non-array throws and stays, an array gets the item |
| `Json.SetReadsBack` | cli-cpp-legacy/src/json.cpp:18-44 | a set key reads back, every other key keeps its value |
| `Json.SetKeepsDistinct` | cli-cpp-legacy/src/json.cpp:34-44 | set keeps the keys of an object distinct |
| `Json.SetWellFormed` | cli-cpp-legacy/src/json.cpp:34-44 | set keeps keys distinct at every level |
| `Json.EscapeStringTo` | cli-cpp-legacy/src/json.cpp:89-109 | appends the escaped string |
| `Json.DumpTo` | cli-cpp-legacy/src/json.cpp:123-162 | appends exactly the value's tokens, numbers being integers below 10^15 |
| `JsonParser.Parser.ParseValue` | cli-cpp-legacy/src/json.cpp:178-188 | value, error and final position are those of the specification; terminates on every text |
| `JsonParser.Parser.ParseString` | cli-cpp-legacy/src/json.cpp:215-252 | likewise for strings with all escapes |
| `JsonParser.Parser.ParseCodePoint` | cli-cpp-legacy/src/json.cpp:237-246 | likewise for unicode escapes with unchecked surrogate pairs, modulo 2^32 |
| `JsonParser.Parser.ParseHex4` | cli-cpp-legacy/src/json.cpp:254-259 | likewise for four characters read by std::stoul with its leniency |
| `JsonParser.Parser.ParseNumber` | cli-cpp-legacy/src/json.cpp:261-276 | likewise for numbers |
| `JsonParser.Parser.ParseArray` | cli-cpp-legacy/src/json.cpp:278-295 | likewise for arrays |
| `JsonParser.Parser.ParseObject` | cli-cpp-legacy/src/json.cpp:297-318 | likewise for objects, a repeated key overwriting |
| `JsonRoundTrip.ValueSpelled` | cli-cpp-legacy/src/json.cpp:178-318 | wherever a text spells a value's tokens with white space between them, the parser returns that value and stops right after it |
| `JsonRoundTrip.SpacedDumpParses` | cli-cpp-legacy/src/json.cpp:123-318 | a dump with any JSON white space before its tokens parses back to the value, consuming exactly that text |
| `JsonRoundTrip.DumpParses` | cli-cpp-legacy/src/json.cpp:164-326 | parsing a dump gives the value back |
| `JsonRoundTrip.ParsedWellFormed` | cli-cpp-legacy/src/json.cpp:178-318 | whatever the text, a parsed value has distinct keys at every level |
| `JsonUnicode.DecodeEncoded` | cli-cpp-legacy/src/json.cpp:71-87 | the bytes written for a scalar value decode, by section 3 of RFC 3629, to it and to nothing more |
| `JsonUnicode.EncodeDecoded` | cli-cpp-legacy/src/json.cpp:71-87 | the encoder writes the only well-formed sequence for a code point |
| `JsonUnicode.EscapedTextDecodes` | cli-cpp-legacy/src/json.cpp:237-259 | a string of escapes and surrogate pairs for any scalar values parses to UTF-8 that decodes to them |
| `WindowsArgv.QuoteWindowsArg` | cli-cpp-legacy/src/metrics.cpp:72-92 | the quoting loop computes the specified quotation |
| `WindowsArgv.CommandLine` | cli-cpp-legacy/src/host_process.cpp:52-56 | the quoted arguments joined by single blanks |
| `WindowsCommandLine.ArgumentsSurviveExactly` | cli-cpp-legacy/src/metrics.cpp:69-106 | splitting by the documented argv rules, under either rule for doubled quotes, returns every argument after the program name if and only if the quoted name has no blank outside quotes and does not end inside them when arguments follow |
| `WindowsCommandLine.QuoteFreeNameEnds` | cli-cpp-legacy/src/metrics.cpp:69-106 | every program name without a double quote meets that condition |
| `WindowsCommandLine.NameWithQuoteSpoils` | cli-cpp-legacy/src/metrics.cpp:69-106 | a program name with a quote and a blank does not: part of it comes back as an argument |
| `WindowsArgv.ProgramNameSurvives` | cli-cpp-legacy/src/metrics.cpp:69-106 | the program name survives exactly when it holds no double quote and no trailing backslash of a quoted name is doubled |
| `TarWriter.WriteOctalField` | cli-cpp-legacy/src/tar_writer.cpp:36-38 | writes the padded, truncated and terminated digits in place and nothing else |
| `TarWriter.MakeHeader` | cli-cpp-legacy/src/tar_writer.cpp:40-69 | fills the 512-byte buffer as specified, or refuses a name of 100 bytes or more |
| `TarWriter.Checksum` | cli-cpp-legacy/src/tar_writer.cpp:60-61 | the loop sums all bytes of the header |
| `TarWriter.CreateTar` | cli-cpp-legacy/src/tar_writer.cpp:79-107 | the archive of a list of files, or the first refused name |
| `TarWriter.FittedReadsBack` | cli-cpp-legacy/src/tar_writer.cpp:36-38 | an octal field of w digits holds a number exactly when it is below 8^w |
| `TarWriter.ChecksumFits` | cli-cpp-legacy/src/tar_writer.cpp:60-66 | every checksum fits six octal digits and reads back |
| `TarWriter.HeaderReads` | cli-cpp-legacy/src/tar_writer.cpp:40-69 | a ustar reader accepts every header, checksum included, and no header is a zero block |
| `TarWriter.RoundTripExactly` | cli-cpp-legacy/src/tar_writer.cpp:40-107 | reading an archive returns names, permissions and contents in order if and only if no name holds a zero byte and every size is below 8^11 |
| `TarWriter.RefusedExactly` | cli-cpp-legacy/src/tar_writer.cpp:40-43 | archives are refused exactly for a name of 100 bytes or more |
| `TarWriter.LengthIsBlocks` | cli-cpp-legacy/src/tar_writer.cpp:71-75 | an archive is a whole number of 512-byte blocks |
| `Base64.Encode` | cli-cpp-legacy/src/base64.cpp:19-46 | the loop computes the encoding of section 4 of RFC 4648 |
| `Base64.BuildDecodeTable` | cli-cpp-legacy/src/base64.cpp:11-16 | the table holds every letter's value and -1 elsewhere |
| `Base64.Decode` | cli-cpp-legacy/src/base64.cpp:48-67 | with a 32-bit wrapping accumulator the result is that of an unbounded one |
| `Base64.LowBits` | cli-cpp-legacy/src/base64.cpp:59-64 | a byte read out, at most four bits up, depends only on the low twelve bits |
| `Base64.RoundTrip` | cli-cpp-legacy/src/base64.cpp:19-67 | decoding an encoding, with line breaks inserted anywhere, returns the original bytes |
| `Base64.RefusedExactly` | cli-cpp-legacy/src/base64.cpp:55-58 | exactly the texts with a foreign character are refused |
| `HttpResponse.Connection.ReadResponseHead` | cli-cpp-legacy/src/http_client_win.cpp:150-203 | the exact outcome: the parsed head and the position after the first blank line, or too large when the read that completes it, or a stream without one, passes 1 MiB, or closed early |
| `HttpResponse.Connection.Refill` | cli-cpp-legacy/src/http_client_win.cpp:205-210 | reads only when nothing is pending, and fails only at the end of the stream |
| `HttpResponse.Connection.TakeBytes` | cli-cpp-legacy/src/http_client_win.cpp:212-224 | returns exactly the next n bytes of the stream, or fails when there are fewer |
| `HttpResponse.Connection.ReadLine` | cli-cpp-legacy/src/http_client_win.cpp:226-238 | the line at the position if the piece at hand holds it whole; otherwise it never returns |
| `HttpResponse.Connection.ReadChunked` | cli-cpp-legacy/src/http_client_win.cpp:244-263 | the calls of the callback and the ending are those of the chunked specification |
| `HttpResponse.Connection.DeliverLength` | cli-cpp-legacy/src/http_client_win.cpp:264-278 | hands on the first Content-Length bytes, fewer only if the pipe closes |
| `HttpResponse.Connection.DeliverRest` | cli-cpp-legacy/src/http_client_win.cpp:279-286 | hands on everything until the pipe closes |
| `HttpResponse.Connection.DeliverBody` | cli-cpp-legacy/src/http_client_win.cpp:240-289 | hands on the body as its framing says (sections 6.3 and 7.1 of RFC 9112) |
| `HttpResponse.Connection.Receive` | cli-cpp-legacy/src/http_client_win.cpp:291-300 | a whole response: exactly the outcome of reading the head, and after an accepted head exactly its body and ending |
| `HttpResponse.HeadIgnoresCuts` | cli-cpp-legacy/src/http_client_win.cpp:150-163 | the cuts decide the outcome only of a head that ends within one read of the size limit |
| `HttpResponse.DeliveryIgnoresCuts` | cli-cpp-legacy/src/http_client_win.cpp:205-289 | the body handed on depends only on the byte stream; for chunked bodies if and only if no size or trailer line is cut, otherwise the reader spins after handing on a prefix of the uncut body |
| `HttpResponse.ChunkedDecided` | cli-cpp-legacy/src/http_client_win.cpp:226-263 | the same from every position: whole lines mean the uncut result, a cut line means no progress after a prefix of it |
| `HttpResponse.ChunkedRoundTrip` | cli-cpp-legacy/src/http_client_win.cpp:244-263 | a body encoded in chunks is handed on chunk by chunk, exactly when its lines arrive whole |
| `HttpResponse.SplitSizeLineSpins` | cli-cpp-legacy/src/http_client_win.cpp:226-238 | a size line cut in two makes no progress |
| `SigningPatch.LocateBlock` | docker/runner/scripts/patch-android-signing.js:36-50 | the scanning loop computes the specified block |
| `SigningPatch.FindBlockExactly` | docker/runner/scripts/patch-android-signing.js:36-50 | a block is found if and only if the brace named really closes the header's brace |
| `SigningPatch.ClosesAround` | docker/runner/scripts/patch-android-signing.js:136-140 | a balanced edit inside a block shifts its closing brace by exactly the change in length |
| `SigningPatch.ConfigFlat` | docker/runner/scripts/patch-android-signing.js:125-135 | the inserted configuration is balanced |
| `SigningPatch.NoNewReference` | docker/runner/scripts/patch-android-signing.js:159-163 | the replacement neither is a debug reference nor completes one with the text around it |
| `SigningPatch.Patch` | docker/runner/scripts/patch-android-signing.js:96-175 | the three edits in order, with the four ways to fail |
| `PatchedBuild.PatchedIsSigned` | docker/runner/scripts/patch-android-signing.js:96-175 | a patched file names the properties file, has a release signing configuration, and its release build type is the one before the third edit with the first debug reference replaced; it names signingConfigs.release exactly when the script does not warn |
| `PatchedBuild.UsesExactly` | docker/runner/scripts/patch-android-signing.js:159-172 | the third edit leaves a text that names signingConfigs.release exactly when it found a debug reference or the text did so before |
| `PatchedBuild.ScriptSurvives` | docker/runner/scripts/patch-android-signing.js:96-118 | a build file that did not name the properties file holds the whole script that loads it after all three edits |
| `PatchedBuild.SecondReferenceHappens` | docker/runner/scripts/patch-android-signing.js:159-163 | a concrete build file with a second debug reference, which a second run changes again |
| `SigningPatch.PatchTwice` | docker/runner/scripts/patch-android-signing.js:96-175 | patching a patched file succeeds, and changes nothing if and only if the release build type has no second debug reference |
| `Redactor.Redactor.Redact` | orchestrator/src/util/redact.ts:26-34 | one split-and-join pass per secret, in the prepared order |
| `Redactor.SortedLongestFirst` | orchestrator/src/util/redact.ts:21-22 | sorting rearranges the secrets by falling length and keeps each once |
| `Redactor.PreparedHas` | orchestrator/src/util/redact.ts:20-22 | the redactor is made for exactly the given secrets of six characters or more |
| `Redactor.PassLacks` | orchestrator/src/util/redact.ts:28-32 | for a text that cannot overlap the mask, a pass removes it if it is the pass's secret and never brings it back if it was gone |
| `Redactor.RedactedLacks` | orchestrator/src/util/redact.ts:26-34 | a secret that cannot overlap the mask is gone, whatever the other secrets are |
| `Redactor.RedactTwice` | orchestrator/src/util/redact.ts:19-35 | when no secret can overlap the mask none is left and redaction is idempotent |
| `Redactor.LeaksExactly` | orchestrator/src/util/redact.ts:19-35 | a secret can be left in some output if and only if it can overlap the mask |
| `Redactor.AsteriskLeaks` | orchestrator/src/util/redact.ts:19-34 | for instance every secret of six characters or more that begins or ends with an asterisk can survive |

## Left out

- Docker, pipe, process, file and git calls: their outcomes are nondeterministic steps, parameters or sequences of pieces; timeouts and read errors of the pipe are not modelled.
- Everything `runBuildContainer` does before the goroutines start (image, volumes, creation): it only returns early with code 1.
- Process exit: after main has returned, goroutines of a run that failed to start may still take steps in the model.
- Chunk granularity in the interleaving: the attach goroutine takes whole lines there, which `OutputSink.LogSink.OnChunk` justifies; what only that goroutine can see of a line changes in one step.
- Wall-clock time: sleeps, elapsed seconds and durations are not part of the state; a frame is its phase, percentage, recent lines and one number for the usage sample.
- Floating point: tracker fractions are exact reals, rounding is the floor of x + 1/2; CPU and memory figures are given as text; JSON numbers written as integers below 10^15 are exact; one that is larger or written with a fraction or an exponent is known by its text only, even if its value is an integer.
- Regular expressions: the Gradle and EAS patterns are parameters shared by both trackers; the signing patch's two patterns are written out as searches.
- JsonRoundTrip.DumpParses: values hold integers below 10^15 in size, because printing other doubles depends on floating-point formatting.
- Redactor.LeaksExactly: the secret lacks at least one character, which stands for a filler around the mask.
- Json.DumpTo: numbers are integers below 10^15, because printing other doubles depends on floating-point formatting.
- PullProgress.ScreenIsDrawn: event texts only show (see `Terminal.ShowsStripped`), they do not move the cursor or erase.
- StatusView.ScreenIsLatestFrame: a label or phase that moves the cursor or breaks the line misplaces what follows (`Terminal.CursorCodeMisplaces`); the figures are formatted numbers and the log lines have been stripped.
- TuiMenu.ScreenShowsMenu: title and options only show and hold no line feed, as for the dashboard.
- Terminal width, wrapping, scrolling past the top and the appearance of styles.
- StatusView.View.Render: a render is one step; the race on the line count of two concurrent renders is shown to be reachable, not what it does to the screen.
- TuiMenu.Select: keys are given as a list, decoding them from the keyboard is not part of this model.
- SigningPatch.Patch: argument checks, the keystore copy and keystore.properties; the warning for a build type without a debug reference changes nothing.
- TarWriter.CreateTar: the files are a given list; walking the directory and reading it can fail in ways not modelled.
- Path translation of artifacts (`toHostArtifactPath`) is a parameter; version comparison, percent-encoding, argument parsing, AES-GCM and SQL plumbing would only add easy members.
- cli-cpp-legacy/src/commands/build.cpp, the older twin of the Go build run.
