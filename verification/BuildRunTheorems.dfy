/** Statements about whole runs of the build protocol, under every interleaving. */
module BuildRunTheorems {
  import opened BuildRun
  import opened BuildRunFrames
  import opened BuildRunSafety
  import opened OutputSink
  import opened Text
  import opened Wrappers

  ghost predicate Inv(c: Setup, s: State) { StateInv(c, s) && SinkInv(c, s) && ScreenInv(c, s) }

  lemma InvInit(c: Setup)
    ensures Inv(c, Init(c))
  {
    InitKeeps(c);
    hide StateInv;
    InitSink(c);
  }

  lemma InitSink(c: Setup)
    ensures SinkInv(c, Init(c))
  {
    EmptyStream(c.cfg);
    assert Init(c).daemon.emitted[..0] == [];
  }

  lemma InvKept(c: Setup, s: State, a: Action)
    requires Inv(c, s) && Next(c, s, a).Some?
    ensures Inv(c, Next(c, s, a).value)
  {
    StateParts(c, s);
    hide Next, StateInv, SinkInv, ScreenInv, LockInv, JoinInv;
    StepKeeps(c, s, a);
    SinkKept(c, s, a);
    ScreenKept(c, s, a);
  }

  lemma StateParts(c: Setup, s: State)
    ensures StateInv(c, s) ==> LockInv(s) && JoinInv(c, s) && EndInv(s) && RemovalInv(s) && CodeInv(c, s)
  {
  }

  lemma {:induction false} InvAfter(c: Setup, s: State, run: seq<Action>)
    requires Inv(c, s) && After(c, s, run).Some?
    ensures Inv(c, After(c, s, run).value)
    decreases |run|
  {
    hide Inv, Next;
    if run != [] {
      InvKept(c, s, run[0]);
      InvAfter(c, Next(c, s, run[0]).value, run[1..]);
    }
  }

  /** Every invariant holds in every reachable state. */
  lemma Reachable(c: Setup, run: seq<Action>, s: State)
    requires After(c, Init(c), run) == Some(s)
    ensures Inv(c, s)
  {
    hide Inv, Next, Init;
    InvInit(c);
    InvAfter(c, Init(c), run);
  }

  // ----- Reading a run -----

  predicate IsRemoval(a: Action) {
    (a.MainDoes? && a.m.RemoveByMain?) || (a.WatcherDoes? && a.v.RemoveByWatcher?)
  }

  /** The threads that ask for the removal, in the order of the run. */
  function Requests(run: seq<Action>): seq<Thread> {
    if run == [] then []
    else (if IsRemoval(run[0]) then [By(run[0]).value] else []) + Requests(run[1..])
  }

  predicate Took(w: WatcherPc) { !w.Watching? && w != WatcherClosing(false) && w != WatcherDone(false) }

  lemma StepRecords(c: Setup, s: State, a: Action)
    requires Next(c, s, a).Some?
    ensures var t := Next(c, s, a).value;
            && t.removals.requests == s.removals.requests + Requests([a])
            && (Took(t.watcher.pc) <==> Took(s.watcher.pc) || a == WatcherDoes(TakeSignal))
            && (t.main.started <==> s.main.started || a == MainDoes(StartSucceeds))
  {
    hide Verdict, OnLine, Sections, Enter;
    assert [a][1..] == [];
    var r := s.removals.requests;
    assert r + [] == r;
    assert a.MainDoes? && a.m.RemoveByMain? ==> Next(c, s, a).value.removals.requests == r + [MainThread];
  }

  /** What the state records is what the run did. */
  lemma {:induction false} RunRecords(c: Setup, s: State, run: seq<Action>)
    requires After(c, s, run).Some?
    ensures var t := After(c, s, run).value;
            && t.removals.requests == s.removals.requests + Requests(run)
            && (Took(t.watcher.pc) <==> Took(s.watcher.pc) || WatcherDoes(TakeSignal) in run)
            && (t.main.started <==> s.main.started || MainDoes(StartSucceeds) in run)
    decreases |run|
  {
    hide Next, Took;
    if run != [] {
      var t := Next(c, s, run[0]).value;
      StepRecords(c, s, run[0]);
      RunRecords(c, t, run[1..]);
      assert [run[0]][1..] == [];
      Assoc(s.removals.requests, Requests([run[0]]), Requests(run[1..]));
      assert run == [run[0]] + run[1..];
    }
  }

  lemma InitRecords(c: Setup)
    ensures Init(c).removals.requests == [] && !Took(Init(c).watcher.pc) && !Init(c).main.started
  {
  }

  /** A complete run: main has returned, and the container had been started. */
  ghost predicate Complete(c: Setup, run: seq<Action>, s: State) {
    After(c, Init(c), run) == Some(s) && s.main.pc.Returned? && MainDoes(StartSucceeds) in run
  }

  lemma CompleteInv(c: Setup, run: seq<Action>, s: State)
    requires Complete(c, run, s)
    ensures StateInv(c, s) && SinkInv(c, s) && ScreenInv(c, s) && s.main.started && Past(s, 11)
    ensures s.removals.requests == Requests(run)
    ensures Took(s.watcher.pc) <==> WatcherDoes(TakeSignal) in run
  {
    Reachable(c, run, s);
    InvParts(c, s);
    RunRecords(c, Init(c), run);
    InitRecords(c);
    hide Init, After, Took, Inv, StateInv, SinkInv, ScreenInv, Requests, JoinInv;
    assert [] + Requests(run) == Requests(run);
  }

  lemma InvParts(c: Setup, s: State)
    requires Inv(c, s)
    ensures StateInv(c, s) && SinkInv(c, s) && ScreenInv(c, s)
    ensures s.main.pc.Returned? && s.main.started ==> Past(s, 11)
  {
    hide StateInv, SinkInv, ScreenInv;
  }

  // ----- Safety -----

  /**
   Exactly one removal request: the watcher's if it took the signal, main's otherwise. After a
   request the daemon answered without an error, the container is gone.
   */
  lemma ExactlyOneRemoval(c: Setup, run: seq<Action>, s: State)
    requires Complete(c, run, s)
    ensures Requests(run) == [if WatcherDoes(TakeSignal) in run then WatcherThread else MainThread]
    ensures s.removals.ok.Some? && (s.removals.ok == Some(true) ==> s.daemon.container.Removed?)
  {
    CompleteInv(c, run, s);
    hide Requests, SinkInv, ScreenInv, Complete, CodeInv, EndInv, LockInv;
  }

  lemma {:induction false} RemovedByRequest(c: Setup, s: State, run: seq<Action>)
    requires After(c, s, run).Some? && !s.daemon.container.Removed?
    ensures After(c, s, run).value.daemon.container.Removed? ==> Requests(run) != []
    decreases |run|
  {
    hide Next;
    if run != [] {
      RemovedByStep(c, s, run[0]);
      if !IsRemoval(run[0]) { RemovedByRequest(c, Next(c, s, run[0]).value, run[1..]); }
    }
  }

  lemma RemovedByStep(c: Setup, s: State, a: Action)
    requires Next(c, s, a).Some? && !s.daemon.container.Removed?
    ensures Next(c, s, a).value.daemon.container.Removed? ==> IsRemoval(a)
  {
    hide Verdict, OnLine, Sections, Enter;
  }

  /**
   Every run whose start fails: main returns 1 without asking for a removal, so the container is
   removed only if the watcher asked, because it took a signal.
   */
  lemma FailedStart(c: Setup, run: seq<Action>, s: State)
    requires After(c, Init(c), run) == Some(s) && s.main.pc.Returned? && MainDoes(StartSucceeds) !in run
    ensures s.main.pc == Returned(1, Abandoned)
    ensures Requests(run) == if WatcherRequested(s.watcher.pc) then [WatcherThread] else []
    ensures s.daemon.container.Removed? ==> WatcherRequested(s.watcher.pc)
    ensures WatcherRequested(s.watcher.pc) ==> WatcherDoes(TakeSignal) in run
  {
    Reachable(c, run, s);
    InvParts(c, s);
    RunRecords(c, Init(c), run);
    InitRecords(c);
    assert !Init(c).daemon.container.Removed?;
    RemovedByRequest(c, Init(c), run);
    hide Init, After, Requests, SinkInv, ScreenInv, CodeInv, EndInv, LockInv;
    assert [] + Requests(run) == Requests(run);
  }

  /** Whatever happened to the start, once main has returned: who asked, and when the code is 130 or 0. */
  lemma ReturnedRuns(c: Setup, run: seq<Action>, s: State)
    requires After(c, Init(c), run) == Some(s) && s.main.pc.Returned?
    ensures |Requests(run)| == 1 <==> MainDoes(StartSucceeds) in run || WatcherRequested(s.watcher.pc)
    ensures s.main.pc.code == 130 <==> MainDoes(StartSucceeds) in run && WatcherDoes(TakeSignal) in run
    ensures s.main.pc.code == 0 ==> MainDoes(StartSucceeds) in run && WatcherDoes(TakeSignal) !in run
  {
    hide Requests, WatcherRequested, After, Init;
    if MainDoes(StartSucceeds) in run {
      ExactlyOneRemoval(c, run, s);
      ExitCodes(c, run, s);
    } else {
      FailedStart(c, run, s);
    }
  }

  /** At no point of any run, complete or not, have two removals been requested. */
  lemma NeverTwoRemovals(c: Setup, run: seq<Action>)
    requires After(c, Init(c), run).Some?
    ensures |Requests(run)| <= 1
  {
    var s := After(c, Init(c), run).value;
    Reachable(c, run, s);
    RunRecords(c, Init(c), run);
    InitRecords(c);
    hide Init, After, Took, Requests, SinkInv, ScreenInv, CodeInv, EndInv, LockInv, JoinInv;
    assert [] + Requests(run) == Requests(run);
  }

  /** 130 exactly after a signal; 0 exactly when all went well; 1 otherwise. */
  lemma ExitCodes(c: Setup, run: seq<Action>, s: State)
    requires Complete(c, run, s)
    ensures var code := s.main.pc.code;
            && (code == 130 <==> WatcherDoes(TakeSignal) in run)
            && (code == 0 <==> && WatcherDoes(TakeSignal) !in run && s.removals.ok == Some(true) && !s.main.waitErr
                               && s.main.exitStatus == 0 && s.attach.sink.artifact != "" && s.main.metricsOk)
            && (code == 0 || code == 1 || code == 130)
  {
    CompleteInv(c, run, s);
    hide Requests, SinkInv, ScreenInv, Complete, EndInv, LockInv, FailureMessage;
  }

  /** When main returns every goroutine it started has ended. */
  lemma AllJoined(c: Setup, run: seq<Action>, s: State)
    requires Complete(c, run, s)
    ensures s.attach.pc.Ended? && s.watcher.pc.WatcherDone? && s.status.StatusDone? && s.sync.lock.None?
  {
    CompleteInv(c, run, s);
    StateParts(c, s);
    hide StateInv, SinkInv, ScreenInv, Complete, LockInv, JoinInv;
    JoinedParts(c, s);
  }

  lemma JoinedParts(c: Setup, s: State)
    requires LockInv(s) && JoinInv(c, s) && Past(s, 11)
    ensures s.attach.pc.Ended? && s.watcher.pc.WatcherDone? && s.status.StatusDone? && s.sync.lock.None?
  {
    match s.sync.lock
    case None =>
    case Some(MainThread) =>
    case Some(AttachThread) =>
    case Some(WatcherThread) =>
    case Some(StatusThread) =>
  }

  /**
   Unless streaming ended early, what main reports comes from the whole output: the last artifact,
   engine, build number and error markers, and the last 200 kept lines.
   */
  lemma ReportCoversOutput(c: Setup, run: seq<Action>, s: State)
    requires Complete(c, run, s) && s.attach.pc == Ended(false)
    ensures var lines, r := s.daemon.emitted, s.main.pc.report;
            && (r.Success? ==>
                  && LastPayload(lines, ARTIFACT).Some?
                  && r.artifact == c.cfg.hostPath(LastPayload(lines, ARTIFACT).value) != ""
                  && r.buildNumber == OrElse(LastPayload(lines, BUILD_NUMBER), "")
                  && (var e := OrElse(LastPayload(lines, ENGINE), ""); r.engine == if e != "" then e else c.engine))
            && (r.Failure? ==>
                  && r.log == (if c.cfg.dashboard then LastN(Kept(lines), FULL_CAP) else [])
                  && (var e := OrElse(LastPayload(lines, ERROR), "");
                      if e != "" then r.message == e else "Build process exited with status " <= r.message))
  {
    CompleteInv(c, run, s);
    hide Requests, ScreenInv, Complete, LockInv, JoinInv, RemovalInv, Fold, Kept, LastPayload;
    var lines := s.daemon.emitted;
    assert lines[..|lines|] == lines;
    ResultsAreLastPayloads(c.cfg, lines);
    if c.cfg.dashboard { TailsAreSuffixes(c.cfg, lines); }
  }

  // ----- Data races -----

  datatype Variable = CancelFlag | Results | BoardFields | LinesRendered

  datatype Access = Access(v: Variable, write: bool)

  /** What a goroutine's next statement touches. */
  function Touches(s: State, t: Thread): Option<Access> {
    match t
    case MainThread =>
      if s.main.pc.FinalHold? then Some(Access(BoardFields, false))
      else if s.main.pc.FinalDraw? then Some(Access(LinesRendered, true))
      else if s.main.pc.Deciding? then Some(Access(CancelFlag, false))
      else if s.main.pc.Concluding? then Some(Access(Results, false))
      else None
    case WatcherThread => if s.watcher.pc.Marking? then Some(Access(CancelFlag, true)) else None
    case AttachThread =>
      if !s.attach.pc.Streaming? then None
      else if s.attach.pc.holding then Some(Access(BoardFields, true))
      else if s.attach.pc.todo == [] then Some(Access(Results, true))
      else None
    case StatusThread =>
      if s.status.HoldStats? then Some(Access(BoardFields, true))
      else if s.status.HoldSnap? then Some(Access(BoardFields, false))
      else if s.status.Drawing? then Some(Access(LinesRendered, true))
      else None
  }

  predicate Conflict(a: Option<Access>, b: Option<Access>, v: Variable) {
    a.Some? && b.Some? && a.value.v == v == b.value.v && (a.value.write || b.value.write)
  }

  /** Two goroutines are about to touch the variable at once, and one of them writes. */
  ghost predicate Race(s: State, v: Variable) {
    exists t, u :: t != u && Conflict(Touches(s, t), Touches(s, u), v)
  }

  /**
   The captured variables are free of data races in every run: the results main reads are settled.
   The only race is on the dashboard's count of rendered lines, exactly while main and the status
   goroutine are both about to render.
   */
  lemma OnlyRenderingRaces(c: Setup, run: seq<Action>, s: State, v: Variable)
    requires After(c, Init(c), run) == Some(s)
    ensures Race(s, v) <==> v == LinesRendered && s.main.pc.FinalDraw? && s.status.Drawing?
  {
    Reachable(c, run, s);
    InvParts(c, s);
    StateParts(c, s);
    hide Inv, StateInv, SinkInv, ScreenInv, After, Init, LockInv, JoinInv, RemovalInv, CodeInv, EndInv, Touches, Race;
    RacesAt(c, s, v);
  }

  lemma RacesAt(c: Setup, s: State, v: Variable)
    requires LockInv(s) && JoinInv(c, s) && RemovalInv(s)
    ensures Race(s, v) <==> v == LinesRendered && s.main.pc.FinalDraw? && s.status.Drawing?
  {
    NoOtherConflict(c, s, v);
    hide LockInv, JoinInv, RemovalInv, Touches;
    if Race(s, v) {
      var t, u :| t != u && Conflict(Touches(s, t), Touches(s, u), v);
      PairUp(s, t, u, v);
    }
    assert Conflict(Touches(s, MainThread), Touches(s, StatusThread), v) ==> Race(s, v);
  }

  lemma PairUp(s: State, t: Thread, u: Thread, v: Variable)
    requires t != u && Conflict(Touches(s, t), Touches(s, u), v)
    ensures || Conflict(Touches(s, MainThread), Touches(s, WatcherThread), v)
            || Conflict(Touches(s, MainThread), Touches(s, AttachThread), v)
            || Conflict(Touches(s, MainThread), Touches(s, StatusThread), v)
            || Conflict(Touches(s, WatcherThread), Touches(s, AttachThread), v)
            || Conflict(Touches(s, WatcherThread), Touches(s, StatusThread), v)
            || Conflict(Touches(s, AttachThread), Touches(s, StatusThread), v)
  {
    hide Touches;
  }

  lemma NoOtherConflict(c: Setup, s: State, v: Variable)
    requires LockInv(s) && JoinInv(c, s) && RemovalInv(s)
    ensures !Conflict(Touches(s, MainThread), Touches(s, WatcherThread), v)
    ensures !Conflict(Touches(s, MainThread), Touches(s, AttachThread), v)
    ensures !Conflict(Touches(s, WatcherThread), Touches(s, AttachThread), v)
    ensures !Conflict(Touches(s, WatcherThread), Touches(s, StatusThread), v)
    ensures !Conflict(Touches(s, AttachThread), Touches(s, StatusThread), v)
    ensures Conflict(Touches(s, MainThread), Touches(s, StatusThread), v)
       <==> v == LinesRendered && s.main.pc.FinalDraw? && s.status.Drawing?
  {
  }

  // ----- The dashboard -----

  /** The status goroutine's frames never go backwards, and none is ahead of the build. */
  lemma FramesNeverGoBack(c: Setup, run: seq<Action>, s: State)
    requires After(c, Init(c), run) == Some(s)
    ensures forall i, j :: 0 <= i < j < |s.screen.frames|
                           && s.screen.frames[i].drawer == s.screen.frames[j].drawer == StatusThread ==>
              s.screen.frames[i].shown.percent <= s.screen.frames[j].shown.percent
    ensures forall i :: 0 <= i < |s.screen.frames| ==>
              s.screen.frames[i].shown.percent <= s.board.shown.percent
  {
    Reachable(c, run, s);
    InvParts(c, s);
    hide Inv, SinkInv, StateInv, FinalInv, OrderInv, After, Init;
    OrderParts(s);
  }

  lemma OrderParts(s: State)
    requires OrderInv(s)
    ensures forall i, j :: 0 <= i < j < |s.screen.frames|
                           && s.screen.frames[i].drawer == s.screen.frames[j].drawer == StatusThread ==>
              s.screen.frames[i].shown.percent <= s.screen.frames[j].shown.percent
    ensures forall i :: 0 <= i < |s.screen.frames| ==>
              s.screen.frames[i].shown.percent <= s.board.shown.percent
  {
  }

  /** Main's own frame shows everything the container printed, unless streaming ended early. */
  lemma FinalFrameIsComplete(c: Setup, run: seq<Action>, s: State)
    requires Complete(c, run, s) && c.cfg.dashboard
    ensures s.screen.final.Some? && s.screen.final.value < |s.screen.frames|
    ensures var f := s.screen.frames[s.screen.final.value];
            && f.drawer == MainThread && f.shown == s.board.shown
            && (s.attach.pc == Ended(false) ==> f.shown == Fold(c.cfg, START, s.daemon.emitted).shown)
  {
    CompleteInv(c, run, s);
    hide Complete, LockInv, RemovalInv, CodeInv, OrderInv, Fold, Requests;
    var lines := s.daemon.emitted;
    assert lines[..|lines|] == lines;
  }

  /**
   The last frame differs from main's exactly when the status goroutine held an older, different
   snapshot while main drew, and drew nothing after it.
   */
  lemma LastFrameStaleExactly(c: Setup, run: seq<Action>, s: State)
    requires Complete(c, run, s) && c.cfg.dashboard
    ensures s.screen.final.Some? && s.screen.final.value < |s.screen.frames|
    ensures var f := s.screen.frames;
            var m := s.screen.final.value;
            f[|f| - 1].shown != f[m].shown
            <==> s.screen.held.Some? && s.screen.held.value.shown != f[m].shown && |f| == m + 2
  {
    CompleteInv(c, run, s);
    hide Complete, LockInv, RemovalInv, CodeInv, OrderInv, EndInv, SinkInv, Requests;
  }
}
