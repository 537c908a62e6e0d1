/**
 The callback that receives the container's output: it splits arbitrary chunks into lines, acts on
 the markers, feeds the progress tracker and keeps bounded tails of the cleaned text.
 */
module OutputSink {
  import Numerals
  import Progress
  import StripAnsi
  import opened Text
  import opened Wrappers

  const RECENT_CAP: nat := 8
  const FULL_CAP: nat := 200

  const ENGINE: string := "@@ENGINE:"
  const ARTIFACT: string := "@@ARTIFACT:"
  const ERROR: string := "@@ERROR:"
  const BUILD_NUMBER: string := "@@BUILD_NUMBER:"
  const PHASE: string := Progress.PHASE_MARKER

  /** `hostPath` translates an artifact path from the container to the host. */
  datatype Config = Config(dashboard: bool, patterns: Progress.Patterns, hostPath: string -> string)

  /** What the status goroutine and the last frame show of the build's output. */
  datatype Shown = Shown(phaseId: string, phaseLabel: string, percent: int, recent: seq<string>)

  /** Every variable the callback writes, apart from the unfinished line. */
  datatype Sink = Sink(
    engine: string, artifact: string, error: string, buildNumber: string,
    shown: Shown, fullLog: seq<string>, printed: seq<string>, tracker: Progress.ValidState)

  const START: Sink := Sink("", "", "", "", Shown("setup", "Starting...", 0, []), [], [], Progress.START)

  // ----- Lines -----

  predicate Break(c: char) { c == '\r' || c == '\n' }

  function FirstBreak(s: string): (e: nat)
    ensures e <= |s| && (e < |s| ==> Break(s[e]))
    ensures forall i :: 0 <= i < e ==> !Break(s[i])
  {
    FirstIndex(s, Break, 0)
  }

  /** The lines that a carriage return or a line feed ends, each without it. */
  function Lines(s: string): seq<string> {
    var e := FirstBreak(s);
    if e == |s| then [] else [s[..e]] + Lines(s[e + 1..])
  }

  /** What follows the last line end. */
  function Residue(s: string): (r: string)
    ensures forall i :: 0 <= i < |r| ==> !Break(r[i])
  {
    var e := FirstBreak(s);
    if e == |s| then s else Residue(s[e + 1..])
  }

  lemma FirstBreakExtends(a: string, b: string)
    requires FirstBreak(a) < |a|
    ensures FirstBreak(a + b) == FirstBreak(a)
  {
    hide FirstBreak;
    var e, f := FirstBreak(a), FirstBreak(a + b);
    assert (a + b)[e] == a[e];
    assert f < |a| ==> (a + b)[f] == a[f];
  }

  /** More input leaves the lines already ended alone and continues the unfinished one. */
  lemma {:induction false} LinesAppend(a: string, b: string)
    ensures Lines(a + b) == Lines(a) + Lines(Residue(a) + b)
    ensures Residue(a + b) == Residue(Residue(a) + b)
    decreases |a|
  {
    hide FirstBreak;
    var e := FirstBreak(a);
    if e < |a| {
      FirstBreakExtends(a, b);
      assert (a + b)[..e] == a[..e] && (a + b)[e + 1..] == a[e + 1..] + b;
      LinesAppend(a[e + 1..], b);
      Assoc([a[..e]], Lines(a[e + 1..]), Lines(Residue(a[e + 1..]) + b));
    } else {
      assert [] + Lines(a + b) == Lines(a + b);
    }
  }

  // ----- White space, as strings.TrimSpace sees it in UTF-8 text -----

  const SPACES2: seq<string> := [[0xC2 as char, 0x85 as char], [0xC2 as char, 0xA0 as char]]

  predicate Space3(a: char, b: char, c: char) {
    var x, y, z := a as nat, b as nat, c as nat;
    || (x == 0xE1 && y == 0x9A && z == 0x80)
    || (x == 0xE2 && y == 0x80 && (0x80 <= z <= 0x8A || z == 0xA8 || z == 0xA9 || z == 0xAF))
    || (x == 0xE2 && y == 0x81 && z == 0x9F)
    || (x == 0xE3 && y == 0x80 && z == 0x80)
  }

  /** Length of the white-space character at the front, or 0. */
  function SpaceAtFront(s: string): (n: nat)
    ensures n <= |s| && (n == 0 || n == 1 || n == 2 || n == 3)
  {
    if s != "" && Numerals.IsSpace(s[0]) then 1
    else if |s| >= 2 && s[..2] in SPACES2 then 2
    else if |s| >= 3 && Space3(s[0], s[1], s[2]) then 3
    else 0
  }

  /** Length of the white-space character at the end, or 0. */
  function SpaceAtEnd(s: string): (n: nat)
    ensures n <= |s| && (n == 0 || n == 1 || n == 2 || n == 3)
  {
    var m := |s|;
    if s != "" && Numerals.IsSpace(s[m - 1]) then 1
    else if m >= 2 && s[m - 2..] in SPACES2 then 2
    else if m >= 3 && Space3(s[m - 3], s[m - 2], s[m - 1]) then 3
    else 0
  }

  function TrimLeft(s: string): string {
    if SpaceAtFront(s) == 0 then s else TrimLeft(s[SpaceAtFront(s)..])
  }

  function TrimRight(s: string): string {
    if SpaceAtEnd(s) == 0 then s else TrimRight(s[..|s| - SpaceAtEnd(s)])
  }

  function TrimSpace(s: string): string { TrimRight(TrimLeft(s)) }

  lemma {:induction false} TrimLeftEffect(s: string)
    ensures SpaceAtFront(TrimLeft(s)) == 0
    ensures StripAnsi.Printable(s) ==> StripAnsi.Printable(TrimLeft(s))
    decreases |s|
  {
    hide SpaceAtFront;
    if SpaceAtFront(s) > 0 { TrimLeftEffect(s[SpaceAtFront(s)..]); }
  }

  lemma {:induction false} TrimRightEffect(s: string)
    ensures SpaceAtEnd(TrimRight(s)) == 0 && TrimRight(s) <= s
    decreases |s|
  {
    hide SpaceAtEnd;
    if SpaceAtEnd(s) > 0 { TrimRightEffect(s[..|s| - SpaceAtEnd(s)]); }
  }

  lemma SpaceAtFrontOfPrefix(p: string, s: string)
    requires p <= s && SpaceAtFront(s) == 0
    ensures SpaceAtFront(p) == 0
  {
    if |p| >= 2 { assert p[..2] == s[..2]; }
  }

  /** A trimmed text has no white space at either end, and stays printable. */
  lemma TrimSpaceEffect(s: string)
    ensures var t := TrimSpace(s);
            && SpaceAtFront(t) == 0 && SpaceAtEnd(t) == 0
            && (StripAnsi.Printable(s) ==> StripAnsi.Printable(t))
  {
    hide SpaceAtFront, SpaceAtEnd, TrimLeft, TrimRight;
    TrimLeftEffect(s);
    TrimRightEffect(TrimLeft(s));
    SpaceAtFrontOfPrefix(TrimRight(TrimLeft(s)), TrimLeft(s));
  }

  /** A line as the dashboard keeps it. */
  function Clean(line: string): string { TrimSpace(StripAnsi.Strip(line, 0)) }

  // ----- One line -----

  predicate Marker(line: string) { "@@" <= line }

  function Payload(line: string, marker: string): string
    requires marker <= line
  {
    line[|marker|..]
  }

  /** Phase id and label, split at the first colon. */
  function PhaseParts(rest: string): (string, string) {
    var sep := Find(rest, ":", 0);
    if sep == -1 then (rest, "") else (rest[..sep], rest[sep + 1..])
  }

  /** Appends, dropping the oldest entry when the cap is passed. */
  function Push(tail: seq<string>, x: string, cap: nat): seq<string> {
    var t := tail + [x];
    if |t| > cap then t[1..] else t
  }

  function OnMarker(cfg: Config, k: Sink, line: string): Sink {
    if ENGINE <= line then
      k.(engine := Payload(line, ENGINE), tracker := Progress.WithEngine(k.tracker, Payload(line, ENGINE)))
    else if ARTIFACT <= line then k.(artifact := cfg.hostPath(Payload(line, ARTIFACT)))
    else if ERROR <= line then k.(error := Payload(line, ERROR))
    else if BUILD_NUMBER <= line then k.(buildNumber := Payload(line, BUILD_NUMBER))
    else if PHASE <= line && cfg.dashboard then
      var parts := PhaseParts(Payload(line, PHASE));
      k.(shown := k.shown.(phaseId := parts.0, phaseLabel := parts.1))
    else k
  }

  function OnProgress(cfg: Config, k: Sink, line: string): Sink
  {
    if cfg.dashboard then
      var h := Progress.Handle(cfg.patterns, k.tracker, line, Progress.GoWithin(line));
      k.(tracker := h.0, shown := if h.1.Some? then k.shown.(percent := h.1.value) else k.shown)
    else k
  }

  function OnContent(cfg: Config, k: Sink, line: string): Sink {
    if Marker(line) then k
    else if !cfg.dashboard then k.(printed := k.printed + [line])
    else if Clean(line) == "" then k
    else k.(shown := k.shown.(recent := Push(k.shown.recent, Clean(line), RECENT_CAP)),
            fullLog := Push(k.fullLog, Clean(line), FULL_CAP))
  }

  function OnLine(cfg: Config, k: Sink, line: string): Sink
  {
    OnContent(cfg, OnProgress(cfg, OnMarker(cfg, k, line), line), line)
  }

  /** The captured variables after a whole sequence of lines. */
  function Fold(cfg: Config, k: Sink, lines: seq<string>): Sink
    decreases |lines|
  {
    if lines == [] then k else OnLine(cfg, Fold(cfg, k, lines[..|lines| - 1]), lines[|lines| - 1])
  }

  lemma {:induction false} FoldAppend(cfg: Config, k: Sink, a: seq<string>, b: seq<string>)
    ensures Fold(cfg, k, a + b) == Fold(cfg, Fold(cfg, k, a), b)
    decreases |b|
  {
    hide OnLine;
    if b == [] {
      assert a + b == a;
    } else {
      var n := |b| - 1;
      assert (a + b)[..|a| + n] == a + b[..n] && (a + b)[|a| + n] == b[n];
      FoldAppend(cfg, k, a, b[..n]);
    }
  }

  lemma FoldOne(cfg: Config, k: Sink, line: string)
    ensures Fold(cfg, k, [line]) == OnLine(cfg, k, line)
  {
    hide OnLine;
    assert [line][..0] == [];
  }

  // ----- The callback -----

  class LogSink {
    const cfg: Config
    const progressTracker: Progress.Tracker
    var residual: string
    var resolvedEngine: string
    var artifactPath: string
    var errorMessage: string
    var buildNumber: string
    var statusState: Shown
    var fullLogBuffer: seq<string>
    var printed: seq<string>

    ghost predicate Ok()
      reads this, progressTracker
    {
      progressTracker.Ok() && progressTracker.p == cfg.patterns
    }

    /** Everything but the unfinished line, as one value. */
    ghost function Now(): Sink
      requires progressTracker.Ok()
      reads this, progressTracker
    {
      Sink(resolvedEngine, artifactPath, errorMessage, buildNumber, statusState, fullLogBuffer, printed,
           progressTracker.Now())
    }

    constructor (cfg: Config)
      ensures this.cfg == cfg && Ok() && Now() == START && residual == "" && fresh(progressTracker)
    {
      this.cfg := cfg;
      progressTracker := new Progress.Tracker(cfg.patterns);
      residual, resolvedEngine, artifactPath, errorMessage, buildNumber := "", "", "", "", "";
      statusState := Shown("setup", "Starting...", 0, []);
      fullLogBuffer, printed := [], [];
    }

    method ApplyMarker(line: string)
      requires Ok()
      modifies this, progressTracker
      ensures Ok() && residual == old(residual) && Now() == OnMarker(cfg, old(Now()), line)
    {
      hide PhaseParts;
      if ENGINE <= line {
        resolvedEngine := line[|ENGINE|..];
        progressTracker.SetEngine(resolvedEngine);
      } else if ARTIFACT <= line {
        artifactPath := cfg.hostPath(line[|ARTIFACT|..]);
      } else if ERROR <= line {
        errorMessage := line[|ERROR|..];
      } else if BUILD_NUMBER <= line {
        buildNumber := line[|BUILD_NUMBER|..];
      } else if PHASE <= line {
        if cfg.dashboard {
          var parts := PhaseParts(line[|PHASE|..]);
          statusState := statusState.(phaseId := parts.0, phaseLabel := parts.1);
        }
      }
    }

    method AdvanceProgress(line: string)
      requires Ok()
      modifies this, progressTracker
      ensures Ok() && residual == old(residual) && Now() == OnProgress(cfg, old(Now()), line)
    {
      hide Progress.Handle;
      if cfg.dashboard {
        var pct := progressTracker.HandleLine(line);
        if pct.Some? {
          statusState := statusState.(percent := pct.value);
        }
      }
    }

    method KeepContent(line: string)
      requires Ok()
      modifies this
      ensures Ok() && residual == old(residual) && Now() == OnContent(cfg, old(Now()), line)
    {
      hide StripAnsi.Strip, TrimSpace;
      if "@@" <= line { return; }
      if cfg.dashboard {
        var stripped := StripAnsi.StripAnsiEscapes(line);
        var clean := TrimSpace(stripped);
        if clean != "" {
          var recent := statusState.recent + [clean];
          if |recent| > RECENT_CAP { recent := recent[1..]; }
          statusState := statusState.(recent := recent);
          fullLogBuffer := fullLogBuffer + [clean];
          if |fullLogBuffer| > FULL_CAP { fullLogBuffer := fullLogBuffer[1..]; }
        }
      } else {
        printed := printed + [line];
      }
    }

    /** One chunk: every line it completes takes effect in order, the rest waits. */
    method OnChunk(chunk: string)
      requires Ok()
      modifies this, progressTracker
      ensures Ok()
      ensures residual == Residue(old(residual) + chunk)
      ensures Now() == Fold(cfg, old(Now()), Lines(old(residual) + chunk))
    {
      hide OnMarker, OnProgress, OnContent, FirstBreak;
      residual := residual + chunk;
      ghost var k0, whole, done := Now(), residual, [];
      assert done + Lines(residual) == Lines(whole);
      while true
        invariant Ok()
        invariant done + Lines(residual) == Lines(whole) && Residue(residual) == Residue(whole)
        invariant Now() == Fold(cfg, k0, done)
        decreases |residual|
      {
        var idx := FirstBreak(residual);
        if idx == |residual| { break; }
        var line := residual[..idx];
        ghost var rest := residual[idx + 1..];
        assert Lines(residual) == [line] + Lines(rest) && Residue(residual) == Residue(rest);
        residual := residual[idx + 1..];
        ApplyMarker(line);
        AdvanceProgress(line);
        KeepContent(line);
        FoldOne(cfg, Fold(cfg, k0, done), line);
        FoldAppend(cfg, k0, done, [line]);
        Assoc(done, [line], Lines(rest));
        done := done + [line];
      }
      assert Lines(residual) == [] && done + [] == done;
    }

    /**
     A whole stream, however it was cut: the final state is a function of the bytes alone.
     */
    method Stream(chunks: seq<string>)
      requires Ok() && residual == "" && Now() == START
      modifies this, progressTracker
      ensures Ok()
      ensures residual == Residue(Flatten(chunks))
      ensures Now() == Fold(cfg, START, Lines(Flatten(chunks)))
    {
      hide OnMarker, OnProgress, OnContent, FirstBreak, Lines, Residue, OnLine, Fold;
      EmptyStream(cfg);
      assert chunks[..0] == [];
      for i := 0 to |chunks|
        invariant Ok()
        invariant residual == Residue(Flatten(chunks[..i]))
        invariant Now() == Fold(cfg, START, Lines(Flatten(chunks[..i])))
      {
        ghost var before := Flatten(chunks[..i]);
        OnChunk(chunks[i]);
        assert chunks[..i + 1] == chunks[..i] + [chunks[i]];
        FlattenSnoc(chunks[..i], chunks[i]);
        LinesAppend(before, chunks[i]);
        FoldAppend(cfg, START, Lines(before), Lines(Residue(before) + chunks[i]));
      }
      assert chunks[..|chunks|] == chunks;
    }
  }

  lemma EmptyStream(cfg: Config)
    ensures Lines("") == [] && Residue("") == "" && Fold(cfg, START, []) == START && Flatten<char>([]) == ""
  {
  }

  // ----- What the final state is, read off the stream -----

  /** The lines the dashboard keeps, cleaned, in order. */
  function Kept(lines: seq<string>): seq<string> {
    if lines == [] then []
    else
      var n := |lines| - 1;
      Kept(lines[..n]) + if Marker(lines[n]) || Clean(lines[n]) == "" then [] else [Clean(lines[n])]
  }

  /** The lines passed through when there is no dashboard. */
  function Raw(lines: seq<string>): seq<string> {
    if lines == [] then []
    else
      var n := |lines| - 1;
      Raw(lines[..n]) + if Marker(lines[n]) then [] else [lines[n]]
  }

  /** The payload of the last line that carries the marker. */
  function LastPayload(lines: seq<string>, marker: string): Option<string> {
    if lines == [] then None
    else if marker <= lines[|lines| - 1] then Some(Payload(lines[|lines| - 1], marker))
    else LastPayload(lines[..|lines| - 1], marker)
  }

  /** What the tracker is told: an engine line switches the engine and is then a line like any other. */
  function Events(dashboard: bool, lines: seq<string>): seq<Progress.Event> {
    if lines == [] then []
    else
      var n := |lines| - 1;
      Events(dashboard, lines[..n])
      + (if ENGINE <= lines[n] then [Progress.Engine(Payload(lines[n], ENGINE))] else [])
      + (if dashboard then [Progress.Line(lines[n])] else [])
  }

  function OrElse(o: Option<string>, otherwise: string): string { if o.Some? then o.value else otherwise }

  lemma PushKeepsTail(all: seq<string>, x: string, cap: nat)
    requires cap > 0
    ensures Push(LastN(all, cap), x, cap) == LastN(all + [x], cap)
  {
    if |all| < cap {
    } else {
      assert (LastN(all, cap) + [x])[1..] == LastN(all + [x], cap);
    }
  }

  lemma OneMarker(line: string)
    ensures (if ENGINE <= line then 1 else 0) + (if ARTIFACT <= line then 1 else 0) + (if ERROR <= line then 1 else 0)
          + (if BUILD_NUMBER <= line then 1 else 0) + (if PHASE <= line then 1 else 0) <= 1
  {
    assert ENGINE <= line ==> line[2] == 'E' && line[3] == 'N';
    assert ARTIFACT <= line ==> line[2] == 'A';
    assert ERROR <= line ==> line[2] == 'E' && line[3] == 'R';
    assert BUILD_NUMBER <= line ==> line[2] == 'B';
    assert PHASE <= line ==> line[2] == 'P';
  }

  lemma TailsOfLine(cfg: Config, k: Sink, line: string)
    ensures var r := OnLine(cfg, k, line);
            if !cfg.dashboard then
              && r.shown == k.shown && r.fullLog == k.fullLog
              && r.printed == k.printed + if Marker(line) then [] else [line]
            else
              && r.printed == k.printed
              && r.shown.recent == (if Marker(line) || Clean(line) == "" then k.shown.recent
                                    else Push(k.shown.recent, Clean(line), RECENT_CAP))
              && r.fullLog == (if Marker(line) || Clean(line) == "" then k.fullLog
                               else Push(k.fullLog, Clean(line), FULL_CAP))
  {
    hide Clean, Push, PhaseParts, Progress.Handle, Progress.GoWithin;
  }

  lemma ResultsOfLine(cfg: Config, k: Sink, line: string)
    ensures var r := OnLine(cfg, k, line);
            && r.engine == (if ENGINE <= line then Payload(line, ENGINE) else k.engine)
            && r.artifact == (if ARTIFACT <= line then cfg.hostPath(Payload(line, ARTIFACT)) else k.artifact)
            && r.error == (if ERROR <= line then Payload(line, ERROR) else k.error)
            && r.buildNumber == (if BUILD_NUMBER <= line then Payload(line, BUILD_NUMBER) else k.buildNumber)
  {
    hide Clean, Push, PhaseParts, Progress.Handle, Progress.GoWithin;
    OneMarker(line);
  }

  lemma TrackerOfLine(cfg: Config, k: Sink, line: string)
    ensures var r, p := OnLine(cfg, k, line), cfg.patterns;
            var t := if ENGINE <= line then Progress.Step(p, k.tracker, Progress.Engine(Payload(line, ENGINE)))
                     else k.tracker;
            && r.tracker == (if cfg.dashboard then Progress.Step(p, t, Progress.Line(line)) else t)
            && (cfg.dashboard && k.shown.percent == k.tracker.percent ==> r.shown.percent == r.tracker.percent)
  {
    hide Clean, Push, PhaseParts, Progress.Handle, Progress.GoWithin;
    OneMarker(line);
  }

  /** The bounded tails are the last 8 and the last 200 of the kept lines. */
  lemma {:induction false} TailsAreSuffixes(cfg: Config, lines: seq<string>)
    requires cfg.dashboard
    ensures var k := Fold(cfg, START, lines);
            && k.shown.recent == LastN(Kept(lines), RECENT_CAP)
            && k.fullLog == LastN(Kept(lines), FULL_CAP)
            && k.printed == []
    decreases |lines|
  {
    hide Clean, LastN, Push, OnLine;
    if lines == [] {
      NoTail();
    } else {
      var n := |lines| - 1;
      TailsAreSuffixes(cfg, lines[..n]);
      TailsOfLine(cfg, Fold(cfg, START, lines[..n]), lines[n]);
      PushKeepsTail(Kept(lines[..n]), Clean(lines[n]), RECENT_CAP);
      PushKeepsTail(Kept(lines[..n]), Clean(lines[n]), FULL_CAP);
      assert Kept(lines[..n]) + [] == Kept(lines[..n]);
    }
  }

  lemma NoTail()
    ensures forall cap: nat :: LastN<string>([], cap) == []
  {
  }

  /** Each entry is printable, not empty and free of white space at both ends. */
  lemma {:induction false} KeptEntriesClean(lines: seq<string>, i: nat)
    requires i < |Kept(lines)|
    ensures var e := Kept(lines)[i];
            e != "" && StripAnsi.Printable(e) && SpaceAtFront(e) == 0 && SpaceAtEnd(e) == 0
    decreases |lines|
  {
    hide TrimSpace, SpaceAtFront, SpaceAtEnd, StripAnsi.Strip, StripAnsi.Printable;
    var n := |lines| - 1;
    if i < |Kept(lines[..n])| {
      KeptEntriesClean(lines[..n], i);
    } else {
      TrimSpaceEffect(StripAnsi.Strip(lines[n], 0));
    }
  }

  /** Without a dashboard every line that is not a marker is passed through, and nothing is kept. */
  lemma {:induction false} PassThrough(cfg: Config, lines: seq<string>)
    requires !cfg.dashboard
    ensures var k := Fold(cfg, START, lines);
            k.printed == Raw(lines) && k.shown == START.shown && k.fullLog == []
    decreases |lines|
  {
    hide OnLine;
    if lines != [] {
      var n := |lines| - 1;
      PassThrough(cfg, lines[..n]);
      TailsOfLine(cfg, Fold(cfg, START, lines[..n]), lines[n]);
    }
  }

  /** The results main reports are the payloads of the last markers of each kind. */
  lemma {:induction false} ResultsAreLastPayloads(cfg: Config, lines: seq<string>)
    ensures var k := Fold(cfg, START, lines);
            && k.engine == OrElse(LastPayload(lines, ENGINE), "")
            && k.error == OrElse(LastPayload(lines, ERROR), "")
            && k.buildNumber == OrElse(LastPayload(lines, BUILD_NUMBER), "")
            && k.artifact == (var a := LastPayload(lines, ARTIFACT); if a.Some? then cfg.hostPath(a.value) else "")
    decreases |lines|
  {
    hide OnLine;
    if lines != [] {
      var n := |lines| - 1;
      ResultsAreLastPayloads(cfg, lines[..n]);
      ResultsOfLine(cfg, Fold(cfg, START, lines[..n]), lines[n]);
    }
  }

  lemma RunSnoc(p: Progress.Patterns, t: Progress.State, events: seq<Progress.Event>, e: Progress.Event)
    requires Progress.Valid(t)
    ensures Progress.Run(p, t, events + [e]) == Progress.Step(p, Progress.Run(p, t, events), e)
  {
    hide Progress.Step;
    Progress.RunAppend(p, t, events, [e]);
    assert [e][1..] == [];
  }

  /** The tracker has run over exactly the stream's events, and the percentage shown is its own. */
  lemma {:induction false} TrackerFollowsStream(cfg: Config, lines: seq<string>)
    ensures var k := Fold(cfg, START, lines);
            && k.tracker == Progress.Run(cfg.patterns, Progress.START, Events(cfg.dashboard, lines))
            && (cfg.dashboard ==> k.shown.percent == k.tracker.percent)
    decreases |lines|
  {
    hide OnLine, Progress.Run, Progress.Step;
    if lines == [] {
      NoEvents(cfg.patterns);
    } else {
      var n := |lines| - 1;
      var line, before := lines[n], Events(cfg.dashboard, lines[..n]);
      TrackerFollowsStream(cfg, lines[..n]);
      TrackerOfLine(cfg, Fold(cfg, START, lines[..n]), line);
      var engine := if ENGINE <= line then [Progress.Engine(Payload(line, ENGINE))] else [];
      if ENGINE <= line {
        RunSnoc(cfg.patterns, Progress.START, before, engine[0]);
      } else {
        assert before + engine == before;
      }
      if cfg.dashboard {
        RunSnoc(cfg.patterns, Progress.START, before + engine, Progress.Line(line));
      } else {
        assert before + engine + [] == before + engine;
      }
    }
  }

  lemma NoEvents(p: Progress.Patterns)
    ensures Progress.Run(p, Progress.START, []) == Progress.START
  {
  }
}
