/** Runs that show why the statements about the build run are no stronger. */
module BuildRunWitnesses {
  import Progress
  import StripAnsi
  import opened BuildRun
  import opened BuildRunSafety
  import opened BuildRunTheorems
  import opened OutputSink
  import opened Wrappers

  lemma {:induction false} Extend(c: Setup, s: State, run: seq<Action>, a: Action)
    requires After(c, s, run).Some?
    ensures After(c, s, run + [a]) == Next(c, After(c, s, run).value, a)
    decreases |run|
  {
    hide Next;
    if run == [] {
      assert (run + [a])[1..] == [];
    } else {
      assert (run + [a])[0] == run[0] && (run + [a])[1..] == run[1..] + [a];
      Extend(c, Next(c, s, run[0]).value, run[1..], a);
    }
  }

  lemma Go(c: Setup, run: seq<Action>, s: State, a: Action) returns (run': seq<Action>, t: State)
    requires After(c, Init(c), run) == Some(s) && Next(c, s, a).Some?
    ensures run' == run + [a] && t == Next(c, s, a).value && After(c, Init(c), run') == Some(t)
  {
    Extend(c, Init(c), run, a);
    run', t := run + [a], Next(c, s, a).value;
  }

  // ----- Before the container has started -----

  /** Runs whose start fails and that leave the container in place, even running. */
  lemma FailedStartLeavesContainer(c: Setup, running: bool) returns (run: seq<Action>, s: State)
    ensures After(c, Init(c), run) == Some(s) && s.main.pc.Returned? && Requests(run) == []
    ensures s.daemon.container == if running then Running else Created
  {
    hide After;
    NoSteps(c);
    run, s := Go(c, [], Init(c), MainDoes(StartFails(running)));
    RunRecords(c, Init(c), run);
    assert [] + Requests(run) == Requests(run);
  }

  lemma NoSteps(c: Setup)
    ensures After(c, Init(c), []) == Some(Init(c))
  {
  }

  /** A signal taken before the start makes the start fail: the run is cancelled, yet the code is 1. */
  lemma EarlySignalGivesOne(c: Setup) returns (run: seq<Action>, s: State)
    ensures After(c, Init(c), run) == Some(s) && s.main.pc == Returned(1, Abandoned)
    ensures WatcherDoes(TakeSignal) in run && Requests(run) == [WatcherThread] && s.daemon.container.Removed?
  {
    hide After;
    NoSteps(c);
    run, s := Go(c, [], Init(c), World(Signal));
    run, s := Go(c, run, s, WatcherDoes(TakeSignal));
    run, s := Go(c, run, s, WatcherDoes(MarkCancelled));
    run, s := Go(c, run, s, WatcherDoes(RemoveByWatcher(true, true)));
    run, s := Go(c, run, s, MainDoes(StartFails(false)));
    RunRecords(c, Init(c), run);
    assert [] + Requests(run) == Requests(run);
  }

  // ----- A stale last frame -----

  function Later(c: Setup): Sink { OnLine(c.cfg, START, "x") }

  function Old(): Frame { Frame(StatusThread, START.shown, 0) }

  function Fresh(c: Setup): Frame { Frame(MainThread, Later(c).shown, 0) }

  /** The status goroutine has copied the board and not drawn yet. */
  function Held(c: Setup): State { Init(c).(status := Drawing(Old())) }

  /** One line of output later the stream and the container have ended. */
  function Streamed(c: Setup): State {
    Held(c).(daemon := Daemon(Stopped(0), ["x"]), main := MainVars(Waiting, true, 0, false, false),
             attach := AttachVars(Ended(false), 1, Later(c)), board := Board(Later(c).shown, 0))
  }

  /** Main and the status goroutine are both about to render. */
  function BothDrawing(c: Setup): State {
    Streamed(c).(main := MainVars(FinalDraw(Fresh(c)), true, 0, false, false))
  }

  function BothDrawn(c: Setup): State {
    BothDrawing(c).(main := MainVars(AwaitCancel, true, 0, false, false), status := Sleeping,
                    sync := Sync(None, false, true, false, false),
                    screen := Screen([Fresh(c), Old()], Some(0), Some(Old())))
  }

  lemma LineSections(c: Setup)
    requires c.cfg.dashboard
    ensures Sections(c.cfg, START, "x") == [AddRecent("x")]
    ensures Later(c).shown == START.shown.(recent := ["x"])
  {
    LineClean();
    var h := Progress.Handle(c.cfg.patterns, OnMarker(c.cfg, START, "x").tracker, "x", Progress.GoWithin("x"));
    assert h.1.None?;
    hide Clean;
  }

  lemma LineClean()
    ensures Clean("x") == "x"
  {
    assert StripAnsi.Printable("x");
    StripAnsi.PrintableKept("x", 0);
    assert SpaceAtFront("x") == 0 && SpaceAtEnd("x") == 0;
  }

  lemma ToHeld(c: Setup) returns (run: seq<Action>)
    requires c.cfg.dashboard
    ensures After(c, Init(c), run) == Some(Held(c))
  {
    hide After;
    NoSteps(c);
    var s;
    run, s := Go(c, [], Init(c), StatusDoes(CheckFinished));
    run, s := Go(c, run, s, StatusDoes(FetchStats(None)));
    run, s := Go(c, run, s, StatusDoes(LockSnap));
    run, s := Go(c, run, s, StatusDoes(CopySnap));
  }

  lemma ToStreamed(c: Setup, before: seq<Action>) returns (run: seq<Action>)
    requires c.cfg.dashboard && After(c, Init(c), before) == Some(Held(c))
    ensures After(c, Init(c), run) == Some(Streamed(c))
  {
    hide After, OnLine, Sections;
    LineSections(c);
    var s;
    run, s := Go(c, before, Held(c), MainDoes(StartSucceeds));
    run, s := Go(c, run, s, World(Emit("x")));
    run, s := Go(c, run, s, World(Exit(0)));
    assert s.daemon.emitted == ["x"];
    run, s := Go(c, run, s, AttachDoes(TakeLine));
    assert s.attach == AttachVars(Streaming([AddRecent("x")], false), 1, Later(c));
    assert [AddRecent("x")][1..] == [] && Push([], "x", RECENT_CAP) == ["x"];
    run, s := Go(c, run, s, AttachDoes(LockSection));
    run, s := Go(c, run, s, AttachDoes(RunSection));
    run, s := Go(c, run, s, AttachDoes(EndStream(false)));
  }

  lemma ToBothDrawing(c: Setup, before: seq<Action>) returns (run: seq<Action>)
    requires c.cfg.dashboard && After(c, Init(c), before) == Some(Streamed(c))
    ensures After(c, Init(c), run) == Some(BothDrawing(c))
  {
    hide After, OnLine, Sections;
    var s;
    run, s := Go(c, before, Streamed(c), MainDoes(WaitReturns(0, false)));
    run, s := Go(c, run, s, MainDoes(JoinAttach));
    run, s := Go(c, run, s, MainDoes(LockFinal));
    run, s := Go(c, run, s, MainDoes(CopyFinal));
  }

  /** The rendering race is reachable whenever there is a dashboard. */
  lemma RenderingRaceHappens(c: Setup) returns (run: seq<Action>, s: State)
    requires c.cfg.dashboard
    ensures After(c, Init(c), run) == Some(s) && Race(s, LinesRendered)
  {
    hide After, OnLine, Init;
    run := ToHeld(c);
    run := ToStreamed(c, run);
    run := ToBothDrawing(c, run);
    s := BothDrawing(c);
    OnlyRenderingRaces(c, run, s, LinesRendered);
  }

  lemma ToBothDrawn(c: Setup, before: seq<Action>) returns (run: seq<Action>)
    requires c.cfg.dashboard && After(c, Init(c), before) == Some(BothDrawing(c))
    ensures After(c, Init(c), run) == Some(BothDrawn(c))
  {
    hide After, OnLine, Sections;
    var s;
    run, s := Go(c, before, BothDrawing(c), MainDoes(DrawFinal));
    run, s := Go(c, run, s, StatusDoes(DrawSnap));
    assert s.screen.frames == [Fresh(c), Old()];
    run, s := Go(c, run, s, MainDoes(CloseFinished));
  }

  lemma ToReturned(c: Setup, before: seq<Action>) returns (run: seq<Action>, s: State)
    requires c.cfg.dashboard && After(c, Init(c), before) == Some(BothDrawn(c))
    ensures After(c, Init(c), run) == Some(s) && s.main.started && s.main.pc.Returned?
    ensures s.screen == BothDrawn(c).screen
  {
    hide After, OnLine, Sections, Verdict;
    run, s := Go(c, before, BothDrawn(c), WatcherDoes(SeeFinished));
    run, s := Go(c, run, s, WatcherDoes(CloseDone));
    run, s := Go(c, run, s, StatusDoes(Wake));
    run, s := Go(c, run, s, StatusDoes(CheckFinished));
    run, s := Go(c, run, s, MainDoes(JoinCancel));
    run, s := Go(c, run, s, MainDoes(JoinStatus));
    run, s := Go(c, run, s, MainDoes(Decide));
    run, s := Go(c, run, s, MainDoes(RemoveByMain(true, true)));
    VerdictReturns(c, s.main.(metricsOk := true), s.removals.ok == Some(true), s.attach.sink);
    run, s := Go(c, run, s, MainDoes(Conclude(true)));
  }

  /** A complete run whose last frame is older than main's own. */
  lemma StaleLastFrameHappens(c: Setup) returns (run: seq<Action>, s: State)
    requires c.cfg.dashboard
    ensures Complete(c, run, s)
    ensures var f := s.screen.frames;
            && s.screen.final == Some(|f| - 2)
            && |f[|f| - 1].shown.recent| < |f[|f| - 2].shown.recent|
  {
    hide After, OnLine, Init, Sections;
    run := ToHeld(c);
    run := ToStreamed(c, run);
    run := ToBothDrawing(c, run);
    run := ToBothDrawn(c, run);
    run, s := ToReturned(c, run);
    RunRecords(c, Init(c), run);
    InitRecords(c);
    LineSections(c);
  }
}
