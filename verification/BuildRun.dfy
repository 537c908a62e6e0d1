/**
 The build run as an interleaving of four goroutines and the daemon's container: main, the attach
 goroutine that feeds the output callback, the cancel watcher and the status goroutine, sharing a
 mutex, closed-once channels and captured variables.
 */
module BuildRun {
  import Progress
  import opened Numerals
  import opened OutputSink
  import opened Wrappers

  /** `engine` is the one asked for on the command line. */
  datatype Setup = Setup(cfg: Config, engine: string)

  datatype Thread = MainThread | AttachThread | WatcherThread | StatusThread

  datatype Container = Created | Running | Stopped(code: int) | Removed

  predicate Halted(k: Container) { k.Stopped? || k.Removed? }

  /** A dashboard frame: who drew it and the snapshot it shows. */
  datatype Frame = Frame(drawer: Thread, shown: Shown, usage: int)

  /** What main tells the user. `Abandoned` is an error before any verdict on the build. */
  datatype Report =
    | Abandoned
    | Cancelled
    | Success(artifact: string, engine: string, buildNumber: string)
    | Failure(message: string, log: seq<string>)

  // ----- Program counters: each names the statement that comes next -----

  datatype MainPc =
    | Starting
    | Waiting
    | Joining
    | FinalLock
    | FinalHold
    | FinalDraw(frame: Frame)
    | Closing
    | AwaitCancel
    | AwaitStatus
    | Deciding
    | Removing
    | Concluding
    | Returned(code: int, report: Report)

  datatype WatcherPc = Watching | Marking | Killing | WatcherClosing(took: bool) | WatcherDone(took: bool)

  /** A critical section the callback still has to run for the line at hand. */
  datatype Section = SetPhase(id: string, name: string) | SetPercent(percent: int) | AddRecent(text: string)

  datatype AttachPc = Streaming(todo: seq<Section>, holding: bool) | Ended(failed: bool)

  datatype StatusPc =
    | Checking
    | Fetching
    | WantStats(sample: int)
    | HoldStats(sample: int)
    | WantSnap
    | HoldSnap
    | Drawing(frame: Frame)
    | Sleeping
    | StatusDone

  // ----- State, grouped by who may write it -----

  datatype Daemon = Daemon(container: Container, emitted: seq<string>)

  datatype MainVars = MainVars(pc: MainPc, started: bool, exitStatus: int, waitErr: bool, metricsOk: bool)

  datatype WatcherVars = WatcherVars(pc: WatcherPc, wasCancelled: bool)

  /** `sink` holds the callback's captured variables; `sink.shown` is where the open sections lead. */
  datatype AttachVars = AttachVars(pc: AttachPc, taken: nat, sink: Sink)

  /** The mutex, the signal channel (one deep) and the channels that are only ever closed. */
  datatype Sync = Sync(
    lock: Option<Thread>, pendingSignal: bool, buildFinished: bool, cancelDone: bool, statusDone: bool)

  /** The status state, which the mutex protects. */
  datatype Board = Board(shown: Shown, usage: int)

  /** Record of the removal requests, in order, and of the daemon's answer. */
  datatype Removals = Removals(requests: seq<Thread>, ok: Option<bool>)

  /**
   Record of the frames drawn: `final` is the index of main's own frame, `held` the snapshot the
   status goroutine was about to draw at that moment.
   */
  datatype Screen = Screen(frames: seq<Frame>, final: Option<nat>, held: Option<Frame>)

  datatype State = State(
    daemon: Daemon, main: MainVars, watcher: WatcherVars, attach: AttachVars, status: StatusPc,
    sync: Sync, board: Board, removals: Removals, screen: Screen)

  function Init(c: Setup): State {
    State(
      Daemon(Created, []), MainVars(Starting, false, 0, false, false), WatcherVars(Watching, false),
      AttachVars(Streaming([], false), 0, START), if c.cfg.dashboard then Checking else StatusDone,
      Sync(None, false, false, false, !c.cfg.dashboard), Board(START.shown, 0), Removals([], None),
      Screen([], None, None))
  }

  // ----- Steps -----

  datatype WorldStep = Idle | Signal | Emit(line: string) | Exit(code: int)

  datatype MainStep =
    | StartSucceeds
    | StartFails(running: bool)
    | WaitReturns(status: int, failed: bool)
    | JoinAttach
    | LockFinal
    | CopyFinal
    | DrawFinal
    | CloseFinished
    | JoinCancel
    | JoinStatus
    | Decide
    | RemoveByMain(ok: bool, gone: bool)
    | Conclude(metricsOk: bool)

  datatype WatcherStep = TakeSignal | SeeFinished | MarkCancelled | RemoveByWatcher(ok: bool, gone: bool) | CloseDone

  datatype AttachStep = TakeLine | LockSection | RunSection | EndStream(failed: bool)

  datatype StatusStep =
    | CheckFinished
    | FetchStats(sample: Option<int>)
    | LockStats
    | StoreStats
    | LockSnap
    | CopySnap
    | DrawSnap
    | Wake

  datatype Action =
    | World(w: WorldStep)
    | MainDoes(m: MainStep)
    | WatcherDoes(v: WatcherStep)
    | AttachDoes(t: AttachStep)
    | StatusDoes(u: StatusStep)

  function By(a: Action): Option<Thread> {
    match a
    case World(_) => None
    case MainDoes(_) => Some(MainThread)
    case WatcherDoes(_) => Some(WatcherThread)
    case AttachDoes(_) => Some(AttachThread)
    case StatusDoes(_) => Some(StatusThread)
  }

  /** Signals are buffered one deep; the container prints lines and exits while it runs. */
  function NextWorld(s: State, e: WorldStep): Option<State> {
    match e
    case Idle => Some(s)
    case Signal => Some(s.(sync := s.sync.(pendingSignal := true)))
    case Emit(line) =>
      if s.daemon.container.Running?
      then Some(s.(daemon := s.daemon.(emitted := s.daemon.emitted + [line]))) else None
    case Exit(code) =>
      if s.daemon.container.Running? then Some(s.(daemon := s.daemon.(container := Stopped(code)))) else None
  }

  /** A forced removal: after success the container is gone; an error leaves that open. */
  function Remove(s: State, who: Thread, ok: bool, gone: bool): State {
    s.(removals := Removals(s.removals.requests + [who], Some(ok)),
       daemon := s.daemon.(container := if ok || gone then Removed else s.daemon.container))
  }

  function FailureMessage(k: Sink, status: int): string {
    if k.error != "" then k.error
    else "Build process exited with status " + (if status < 0 then "-" + NumText(-status, 10) else NumText(status, 10))
  }

  /** What main returns after its removal request, in the order it checks. */
  function Verdict(c: Setup, m: MainVars, removed: bool, k: Sink): MainPc {
    if !removed || m.waitErr then Returned(1, Abandoned)
    else if m.exitStatus == 0 && k.artifact != "" then
      if !m.metricsOk then Returned(1, Abandoned)
      else Returned(0, Success(k.artifact, if k.engine != "" then k.engine else c.engine, k.buildNumber))
    else Returned(1, Failure(FailureMessage(k, m.exitStatus), if c.cfg.dashboard then k.fullLog else []))
  }

  function At(s: State, pc: MainPc): State { s.(main := s.main.(pc := pc)) }

  function NextMain(c: Setup, s: State, m: MainStep): Option<State> {
    var pc := s.main.pc;
    match m
    case StartSucceeds =>
      if pc.Starting? && s.daemon.container.Created?
      then Some(s.(main := s.main.(pc := Waiting, started := true), daemon := s.daemon.(container := Running)))
      else None
    case StartFails(running) =>
      if pc.Starting? && (running ==> s.daemon.container.Created?)
      then Some(At(s, Returned(1, Abandoned)).(daemon :=
                  s.daemon.(container := if running then Running else s.daemon.container)))
      else None
    case WaitReturns(status, failed) =>
      if pc.Waiting? && (failed || s.daemon.container == Stopped(status) || s.daemon.container.Removed?)
      then Some(s.(main := s.main.(pc := Joining, exitStatus := status, waitErr := failed))) else None
    case JoinAttach =>
      if pc.Joining? && s.attach.pc.Ended?
      then Some(At(s, if c.cfg.dashboard then FinalLock else Closing)) else None
    case LockFinal =>
      if pc.FinalLock? && s.sync.lock.None?
      then Some(At(s, FinalHold).(sync := s.sync.(lock := Some(MainThread)))) else None
    case CopyFinal =>
      if pc.FinalHold?
      then Some(At(s, FinalDraw(Frame(MainThread, s.board.shown, s.board.usage))).(sync := s.sync.(lock := None)))
      else None
    case DrawFinal =>
      if pc.FinalDraw?
      then Some(At(s, Closing).(screen := Screen(
                  s.screen.frames + [pc.frame], Some(|s.screen.frames|),
                  if s.status.Drawing? then Some(s.status.frame) else None)))
      else None
    case CloseFinished =>
      if pc.Closing? then Some(At(s, AwaitCancel).(sync := s.sync.(buildFinished := true))) else None
    case JoinCancel =>
      if pc.AwaitCancel? && s.sync.cancelDone then Some(At(s, AwaitStatus)) else None
    case JoinStatus =>
      if pc.AwaitStatus? && s.sync.statusDone then Some(At(s, Deciding)) else None
    case Decide =>
      if pc.Deciding? then Some(At(s, if s.watcher.wasCancelled then Returned(130, Cancelled) else Removing)) else None
    case RemoveByMain(ok, gone) =>
      if pc.Removing? then Some(At(Remove(s, MainThread, ok, gone), Concluding)) else None
    case Conclude(metricsOk) =>
      if pc.Concluding? then
        var v := s.main.(metricsOk := metricsOk);
        Some(s.(main := v.(pc := Verdict(c, v, s.removals.ok == Some(true), s.attach.sink))))
      else None
  }

  function NextWatcher(s: State, v: WatcherStep): Option<State> {
    var pc := s.watcher.pc;
    match v
    case TakeSignal =>
      if pc.Watching? && s.sync.pendingSignal
      then Some(s.(watcher := s.watcher.(pc := Marking), sync := s.sync.(pendingSignal := false))) else None
    case SeeFinished =>
      if pc.Watching? && s.sync.buildFinished
      then Some(s.(watcher := s.watcher.(pc := WatcherClosing(false)))) else None
    case MarkCancelled =>
      if pc.Marking? then Some(s.(watcher := WatcherVars(Killing, true))) else None
    case RemoveByWatcher(ok, gone) =>
      if pc.Killing?
      then Some(Remove(s, WatcherThread, ok, gone).(watcher := s.watcher.(pc := WatcherClosing(true)))) else None
    case CloseDone =>
      if pc.WatcherClosing?
      then Some(s.(watcher := s.watcher.(pc := WatcherDone(pc.took)), sync := s.sync.(cancelDone := true))) else None
  }

  /** The critical sections a line calls for, in the order the callback enters them. */
  function Sections(cfg: Config, k: Sink, line: string): seq<Section> {
    if !cfg.dashboard then []
    else
      var h := Progress.Handle(cfg.patterns, OnMarker(cfg, k, line).tracker, line, Progress.GoWithin(line));
      (if PHASE <= line then
         var parts := PhaseParts(Payload(line, PHASE));
         [SetPhase(parts.0, parts.1)]
       else [])
      + (if h.1.Some? then [SetPercent(h.1.value)] else [])
      + (if !Marker(line) && Clean(line) != "" then [AddRecent(Clean(line))] else [])
  }

  function Enter(shown: Shown, n: Section): Shown {
    match n
    case SetPhase(id, name) => shown.(phaseId := id, phaseLabel := name)
    case SetPercent(percent) => shown.(percent := percent)
    case AddRecent(text) => shown.(recent := Push(shown.recent, text, RECENT_CAP))
  }

  /**
   Taking a line does at once what only this goroutine can see; the sections that touch the board
   follow one by one, each under the mutex.
   */
  function NextAttach(c: Setup, s: State, t: AttachStep): Option<State> {
    var pc, v := s.attach.pc, s.attach;
    match t
    case TakeLine =>
      if pc.Streaming? && pc.todo == [] && v.taken < |s.daemon.emitted| then
        var line := s.daemon.emitted[v.taken];
        Some(s.(attach := AttachVars(
                  Streaming(Sections(c.cfg, v.sink, line), false), v.taken + 1, OnLine(c.cfg, v.sink, line))))
      else None
    case LockSection =>
      if pc.Streaming? && pc.todo != [] && !pc.holding && s.sync.lock.None?
      then Some(s.(attach := v.(pc := Streaming(pc.todo, true)), sync := s.sync.(lock := Some(AttachThread))))
      else None
    case RunSection =>
      if pc.Streaming? && pc.todo != [] && pc.holding
      then Some(s.(attach := v.(pc := Streaming(pc.todo[1..], false)), sync := s.sync.(lock := None),
                   board := s.board.(shown := Enter(s.board.shown, pc.todo[0]))))
      else None
    case EndStream(failed) =>
      if && pc.Streaming? && pc.todo == [] && !pc.holding
         && (failed || (Halted(s.daemon.container) && v.taken == |s.daemon.emitted|))
      then Some(s.(attach := v.(pc := Ended(failed)))) else None
  }

  function NextStatus(s: State, u: StatusStep): Option<State> {
    var pc := s.status;
    match u
    case CheckFinished =>
      if !pc.Checking? then None
      else if s.sync.buildFinished then Some(s.(status := StatusDone, sync := s.sync.(statusDone := true)))
      else Some(s.(status := Fetching))
    case FetchStats(sample) =>
      if pc.Fetching? then Some(s.(status := if sample.Some? then WantStats(sample.value) else WantSnap)) else None
    case LockStats =>
      if pc.WantStats? && s.sync.lock.None?
      then Some(s.(status := HoldStats(pc.sample), sync := s.sync.(lock := Some(StatusThread)))) else None
    case StoreStats =>
      if pc.HoldStats?
      then Some(s.(status := WantSnap, sync := s.sync.(lock := None), board := s.board.(usage := pc.sample))) else None
    case LockSnap =>
      if pc.WantSnap? && s.sync.lock.None?
      then Some(s.(status := HoldSnap, sync := s.sync.(lock := Some(StatusThread)))) else None
    case CopySnap =>
      if pc.HoldSnap?
      then Some(s.(status := Drawing(Frame(StatusThread, s.board.shown, s.board.usage)),
                   sync := s.sync.(lock := None)))
      else None
    case DrawSnap =>
      if pc.Drawing?
      then Some(s.(status := Sleeping, screen := s.screen.(frames := s.screen.frames + [pc.frame]))) else None
    case Wake =>
      if pc.Sleeping? then Some(s.(status := Checking)) else None
  }

  /** The state after one step, or None when the step is not possible. */
  function Next(c: Setup, s: State, a: Action): Option<State> {
    match a
    case World(w) => NextWorld(s, w)
    case MainDoes(m) => NextMain(c, s, m)
    case WatcherDoes(v) => NextWatcher(s, v)
    case AttachDoes(t) => NextAttach(c, s, t)
    case StatusDoes(u) => NextStatus(s, u)
  }

  /** The state after a run, or None when some step of it was not possible. */
  function After(c: Setup, s: State, run: seq<Action>): Option<State>
    decreases |run|
  {
    if run == [] then Some(s)
    else
      var n := Next(c, s, run[0]);
      if n.None? then None else After(c, n.value, run[1..])
  }
}
