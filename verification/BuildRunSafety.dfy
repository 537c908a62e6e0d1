/** What every step of the build run keeps, and what follows for whole runs. */
module BuildRunSafety {
  import opened BuildRun
  import opened OutputSink
  import opened Wrappers

  function Order(m: MainPc): nat {
    match m
    case Starting => 0
    case Waiting => 1
    case Joining => 2
    case FinalLock => 3
    case FinalHold => 4
    case FinalDraw(_) => 5
    case Closing => 6
    case AwaitCancel => 7
    case AwaitStatus => 8
    case Deciding => 9
    case Removing => 10
    case Concluding => 11
    case Returned(_, _) => 12
  }

  /** The container was started and main has passed the statement with this number. */
  predicate Past(s: State, n: nat) { s.main.started && Order(s.main.pc) > n }

  // ----- The invariants -----

  predicate AttachHolds(pc: AttachPc) { pc.Streaming? && pc.holding }

  predicate StatusHolds(pc: StatusPc) { pc.HoldStats? || pc.HoldSnap? }

  /** The mutex is held exactly by the goroutine inside a critical section. */
  predicate LockInv(s: State) {
    && (s.sync.lock == Some(MainThread) <==> s.main.pc.FinalHold?)
    && (s.sync.lock == Some(AttachThread) <==> AttachHolds(s.attach.pc))
    && (s.sync.lock == Some(StatusThread) <==> StatusHolds(s.status))
    && s.sync.lock != Some(WatcherThread)
    && (AttachHolds(s.attach.pc) ==> s.attach.pc.todo != [])
  }

  /** Channels are closed where the goroutines say, and main has waited for what it joined. */
  predicate JoinInv(c: Setup, s: State) {
    && (s.main.started ==> !s.main.pc.Starting? && !s.daemon.container.Created?)
    && (!s.main.started ==> s.main.pc.Starting? || s.main.pc == Returned(1, Abandoned))
    && (s.sync.buildFinished <==> Past(s, 6))
    && (s.sync.cancelDone <==> s.watcher.pc.WatcherDone?)
    && (s.sync.statusDone <==> s.status.StatusDone?)
    && (Past(s, 2) ==> s.attach.pc.Ended?)
    && (Past(s, 7) ==> s.sync.cancelDone)
    && (Past(s, 8) ==> s.sync.statusDone)
    && (!c.cfg.dashboard ==> s.sync.statusDone && (Order(s.main.pc) < 3 || Order(s.main.pc) > 5))
  }

  /** A stream that ended without an error was read to its end, and stays so. */
  predicate EndInv(s: State) {
    s.attach.pc == Ended(false) ==> Halted(s.daemon.container) && s.attach.taken == |s.daemon.emitted|
  }

  predicate Committed(w: WatcherPc) { w.Killing? || w == WatcherClosing(true) || w == WatcherDone(true) }

  predicate WatcherRequested(w: WatcherPc) { w == WatcherClosing(true) || w == WatcherDone(true) }

  predicate MainRequested(s: State) {
    s.main.started && !s.watcher.wasCancelled && (s.main.pc.Concluding? || s.main.pc.Returned?)
  }

  /** Who has asked for the removal so far. */
  predicate RemovalInv(s: State) {
    && (s.watcher.wasCancelled <==> Committed(s.watcher.pc))
    && (s.main.pc.Removing? || s.main.pc.Concluding? ==> !s.watcher.wasCancelled)
    && s.removals.requests == (if WatcherRequested(s.watcher.pc) then [WatcherThread]
                               else if MainRequested(s) then [MainThread] else [])
    && (s.removals.ok.Some? <==> s.removals.requests != [])
    && (s.removals.ok == Some(true) ==> s.daemon.container.Removed?)
  }

  function Outcome(c: Setup, s: State): MainPc {
    if s.watcher.wasCancelled then Returned(130, Cancelled)
    else Verdict(c, s.main, s.removals.ok == Some(true), s.attach.sink)
  }

  predicate CodeInv(c: Setup, s: State) {
    s.main.started && s.main.pc.Returned? ==> s.main.pc == Outcome(c, s)
  }

  predicate StateInv(c: Setup, s: State) {
    LockInv(s) && JoinInv(c, s) && EndInv(s) && RemovalInv(s) && CodeInv(c, s)
  }

  lemma WorldKeeps(c: Setup, s: State, w: WorldStep)
    requires StateInv(c, s) && NextWorld(s, w).Some?
    ensures StateInv(c, NextWorld(s, w).value)
  {
    hide Verdict, Committed, WatcherRequested;
  }

  lemma WatcherKeeps(c: Setup, s: State, v: WatcherStep)
    requires StateInv(c, s) && NextWatcher(s, v).Some?
    ensures StateInv(c, NextWatcher(s, v).value)
  {
    hide Verdict;
  }

  lemma AttachKeeps(c: Setup, s: State, t: AttachStep)
    requires StateInv(c, s) && NextAttach(c, s, t).Some?
    ensures StateInv(c, NextAttach(c, s, t).value)
  {
    hide Verdict, OnLine, Sections, Enter, Committed, WatcherRequested;
  }

  lemma StatusKeeps(c: Setup, s: State, u: StatusStep)
    requires StateInv(c, s) && NextStatus(s, u).Some?
    ensures StateInv(c, NextStatus(s, u).value)
  {
    hide Verdict, Committed, WatcherRequested;
  }

  lemma VerdictReturns(c: Setup, m: MainVars, removed: bool, k: Sink)
    ensures Verdict(c, m, removed, k).Returned?
    ensures m.pc == Concluding ==>
              Verdict(c, m, removed, k) == Verdict(c, m.(pc := Verdict(c, m, removed, k)), removed, k)
  {
    hide FailureMessage;
  }

  lemma MainKeepsLock(c: Setup, s: State, m: MainStep)
    requires StateInv(c, s) && NextMain(c, s, m).Some?
    ensures LockInv(NextMain(c, s, m).value) && JoinInv(c, NextMain(c, s, m).value)
  {
    hide Verdict, Committed, WatcherRequested;
    if m.Conclude? {
      VerdictReturns(c, s.main.(metricsOk := m.metricsOk), s.removals.ok == Some(true), s.attach.sink);
    }
  }

  lemma MainKeepsRemoval(c: Setup, s: State, m: MainStep)
    requires StateInv(c, s) && NextMain(c, s, m).Some?
    ensures EndInv(NextMain(c, s, m).value) && RemovalInv(NextMain(c, s, m).value)
  {
    hide Verdict;
    if m.Conclude? {
      VerdictReturns(c, s.main.(metricsOk := m.metricsOk), s.removals.ok == Some(true), s.attach.sink);
    }
  }

  lemma MainKeepsCode(c: Setup, s: State, m: MainStep)
    requires StateInv(c, s) && NextMain(c, s, m).Some?
    ensures CodeInv(c, NextMain(c, s, m).value)
  {
    hide Verdict, Committed, WatcherRequested;
    if m.Conclude? {
      VerdictReturns(c, s.main.(metricsOk := m.metricsOk), s.removals.ok == Some(true), s.attach.sink);
    }
  }

  /** Every step keeps every invariant. */
  lemma StepKeeps(c: Setup, s: State, a: Action)
    requires StateInv(c, s) && Next(c, s, a).Some?
    ensures StateInv(c, Next(c, s, a).value)
  {
    hide StateInv, NextWorld, NextMain, NextWatcher, NextAttach, NextStatus;
    match a
    case World(w) => WorldKeeps(c, s, w);
    case MainDoes(m) => MainKeeps(c, s, m);
    case WatcherDoes(v) => WatcherKeeps(c, s, v);
    case AttachDoes(t) => AttachKeeps(c, s, t);
    case StatusDoes(u) => StatusKeeps(c, s, u);
  }

  lemma MainKeeps(c: Setup, s: State, m: MainStep)
    requires StateInv(c, s) && NextMain(c, s, m).Some?
    ensures StateInv(c, NextMain(c, s, m).value)
  {
    MainKeepsLock(c, s, m);
    MainKeepsRemoval(c, s, m);
    MainKeepsCode(c, s, m);
    hide LockInv, JoinInv, EndInv, RemovalInv, CodeInv, NextMain;
  }

  lemma InitKeeps(c: Setup)
    ensures StateInv(c, Init(c))
  {
  }
}
