/**
 Once the container has stopped, main returns: no reachable state is deadlocked, and in every fair
 infinite execution a decreasing measure brings main to its end.
 */
module BuildRunLiveness {
  import Progress
  import opened BuildRun
  import opened BuildRunFrames
  import opened BuildRunSafety
  import opened BuildRunTheorems
  import opened OutputSink
  import opened Wrappers

  /** The goroutine main's progress depends on. */
  function Helper(s: State): Thread {
    if s.main.pc.Joining? && !s.attach.pc.Ended? then AttachThread
    else if s.main.pc.AwaitCancel? && !s.sync.cancelDone then WatcherThread
    else if s.main.pc.AwaitStatus? && !s.sync.statusDone then StatusThread
    else MainThread
  }

  /** The goroutine's next statement is Lock. */
  predicate WantsLock(s: State, t: Thread) {
    match t
    case MainThread => s.main.pc.FinalLock?
    case WatcherThread => false
    case AttachThread => s.attach.pc.Streaming? && s.attach.pc.todo != [] && !s.attach.pc.holding
    case StatusThread => s.status.WantStats? || s.status.WantSnap?
  }

  predicate Blocked(s: State, t: Thread) { WantsLock(s, t) && s.sync.lock.Some? }

  /** An error that ends a wait early, which nothing obliges to happen. */
  predicate CutShort(a: Action) { (a.MainDoes? && a.m.WaitReturns? && a.m.failed) || a == AttachDoes(EndStream(true)) }

  /** The goroutine can take a step of its own accord. */
  ghost predicate CanMove(c: Setup, s: State, t: Thread) {
    exists a :: By(a) == Some(t) && Next(c, s, a).Some? && !CutShort(a)
  }

  function Move(s: State, t: Thread): (a: Action)
    ensures By(a) == Some(t) && !CutShort(a)
  {
    match t
    case MainThread => MainDoes(MainMove(s))
    case WatcherThread => WatcherDoes(WatcherMove(s))
    case AttachThread => AttachDoes(AttachMove(s))
    case StatusThread => StatusDoes(StatusMove(s))
  }

  function MainMove(s: State): (m: MainStep)
    ensures m.WaitReturns? ==> !m.failed
  {
    match s.main.pc
    case Starting => if s.daemon.container.Created? then StartSucceeds else StartFails(false)
    case Waiting => WaitReturns(if s.daemon.container.Stopped? then s.daemon.container.code else 0, false)
    case Joining => JoinAttach
    case FinalLock => LockFinal
    case FinalHold => CopyFinal
    case FinalDraw(_) => DrawFinal
    case Closing => CloseFinished
    case AwaitCancel => JoinCancel
    case AwaitStatus => JoinStatus
    case Deciding => Decide
    case Removing => RemoveByMain(true, true)
    case Concluding => Conclude(true)
    case Returned(_, _) => Decide
  }

  function WatcherMove(s: State): WatcherStep {
    match s.watcher.pc
    case Watching => SeeFinished
    case Marking => MarkCancelled
    case Killing => RemoveByWatcher(true, true)
    case WatcherClosing(_) => CloseDone
    case WatcherDone(_) => CloseDone
  }

  function AttachMove(s: State): (t: AttachStep)
    ensures t != EndStream(true)
  {
    if s.attach.pc.Streaming? && s.attach.pc.holding then RunSection
    else if s.attach.pc.Streaming? && s.attach.pc.todo != [] then LockSection
    else if s.attach.taken < |s.daemon.emitted| then TakeLine
    else EndStream(false)
  }

  function StatusMove(s: State): StatusStep {
    match s.status
    case Checking => CheckFinished
    case Fetching => FetchStats(None)
    case WantStats(_) => LockStats
    case HoldStats(_) => StoreStats
    case WantSnap => LockSnap
    case HoldSnap => CopySnap
    case Drawing(_) => DrawSnap
    case Sleeping => Wake
    case StatusDone => Wake
  }

  lemma Moves(c: Setup, s: State, t: Thread)
    requires Next(c, s, Move(s, t)).Some?
    ensures CanMove(c, s, t)
  {
    hide Next, Move;
  }

  /** The helper is never stuck on anything but the lock. */
  lemma HelperMoves(c: Setup, s: State)
    requires StateInv(c, s) && SinkInv(c, s) && Halted(s.daemon.container) && !s.main.pc.Returned?
    requires !Blocked(s, Helper(s))
    ensures CanMove(c, s, Helper(s))
  {
    HelperNext(c, s);
    Moves(c, s, Helper(s));
  }

  lemma HelperNext(c: Setup, s: State)
    requires StateInv(c, s) && SinkInv(c, s) && Halted(s.daemon.container) && !s.main.pc.Returned?
    requires !Blocked(s, Helper(s))
    ensures Next(c, s, Move(s, Helper(s))).Some?
  {
    hide OnLine, Sections, Verdict, Enter, Fold, EnterAll, Rises, RemovalInv, CodeInv;
  }

  /** Whoever holds the lock can move, keeps it until it does, and then lets go of it. */
  lemma HolderMoves(c: Setup, s: State, t: Thread)
    requires LockInv(s) && s.sync.lock == Some(t)
    ensures CanMove(c, s, t)
  {
    hide OnLine, Sections, Verdict, Enter;
    assert Next(c, s, Move(s, t)).Some?;
    Moves(c, s, t);
  }

  lemma LockChanges(c: Setup, s: State, t: Thread, a: Action)
    requires LockInv(s) && s.sync.lock == Some(t) && Next(c, s, a).Some?
    ensures Next(c, s, a).value.sync.lock == if By(a) == Some(t) then None else Some(t)
  {
    hide LockInv, NextMain, NextAttach, NextWatcher, NextStatus;
    match a
    case World(w) =>
    case MainDoes(m) => LockByMain(c, s, m);
    case WatcherDoes(v) => LockByWatcher(s, v);
    case AttachDoes(step) => LockByAttach(c, s, step);
    case StatusDoes(u) => LockByStatus(s, u);
  }

  lemma LockByMain(c: Setup, s: State, m: MainStep)
    requires LockInv(s) && s.sync.lock.Some? && NextMain(c, s, m).Some?
    ensures NextMain(c, s, m).value.sync.lock == if s.sync.lock == Some(MainThread) then None else s.sync.lock
  {
    hide Verdict, AttachHolds, StatusHolds;
  }

  lemma LockByWatcher(s: State, v: WatcherStep)
    requires LockInv(s) && NextWatcher(s, v).Some?
    ensures s.sync.lock != Some(WatcherThread) && NextWatcher(s, v).value.sync.lock == s.sync.lock
  {
  }

  lemma LockByAttach(c: Setup, s: State, t: AttachStep)
    requires LockInv(s) && s.sync.lock.Some? && NextAttach(c, s, t).Some?
    ensures NextAttach(c, s, t).value.sync.lock == if s.sync.lock == Some(AttachThread) then None else s.sync.lock
  {
    hide OnLine, Sections, Enter, StatusHolds;
  }

  lemma LockByStatus(s: State, u: StatusStep)
    requires LockInv(s) && s.sync.lock.Some? && NextStatus(s, u).Some?
    ensures NextStatus(s, u).value.sync.lock == if s.sync.lock == Some(StatusThread) then None else s.sync.lock
  {
    hide AttachHolds;
  }

  /**
   No reachable state is deadlocked once the container has stopped: the goroutine main depends on can
   move, or else it waits for the mutex and the goroutine holding that can.
   */
  lemma NoDeadlock(c: Setup, run: seq<Action>, s: State)
    requires After(c, Init(c), run) == Some(s)
    requires Halted(s.daemon.container) && !s.main.pc.Returned?
    ensures CanMove(c, s, if Blocked(s, Helper(s)) then s.sync.lock.value else Helper(s))
  {
    Reachable(c, run, s);
    hide After, Init, CanMove, SinkInv, ScreenInv, Helper, WantsLock;
    if Blocked(s, Helper(s)) {
      HolderMoves(c, s, s.sync.lock.value);
    } else {
      HelperMoves(c, s);
    }
  }

  // ----- The measure -----

  function MainLeft(s: State): int { 12 - Order(s.main.pc) }

  function WatcherLeft(w: WatcherPc): nat {
    match w
    case Watching => 4
    case Marking => 3
    case Killing => 2
    case WatcherClosing(_) => 1
    case WatcherDone(_) => 0
  }

  function StatusLeft(u: StatusPc): nat {
    match u
    case Fetching => 8
    case WantStats(_) => 7
    case HoldStats(_) => 6
    case WantSnap => 5
    case HoldSnap => 4
    case Drawing(_) => 3
    case Sleeping => 2
    case Checking => 1
    case StatusDone => 0
  }

  function AttachLeft(s: State): int {
    var pc := s.attach.pc;
    if !pc.Streaming? then 0
    else 8 * (|s.daemon.emitted| - s.attach.taken) + 2 * |pc.todo| + if pc.holding then 0 else 1
  }

  /** Steps the helper still has to take before main can go on. */
  function HelperLeft(s: State): int {
    match Helper(s)
    case MainThread => 0
    case AttachThread => AttachLeft(s)
    case WatcherThread => WatcherLeft(s.watcher.pc)
    case StatusThread => StatusLeft(s.status)
  }

  predicate Closer(t: State, s: State) {
    MainLeft(t) < MainLeft(s) || (MainLeft(t) == MainLeft(s) && HelperLeft(t) < HelperLeft(s))
  }

  /** Nothing main's progress depends on has changed. */
  predicate Steady(s: State, t: State) {
    && MainLeft(t) == MainLeft(s) && Helper(t) == Helper(s) && HelperLeft(t) == HelperLeft(s)
    && WantsLock(t, Helper(s)) == WantsLock(s, Helper(s))
  }

  lemma FewSections(cfg: Config, k: Sink, line: string)
    ensures |Sections(cfg, k, line)| <= 3
  {
    hide Clean, OnMarker, Progress.Handle, Progress.GoWithin, PhaseParts;
  }

  lemma HaltedStays(c: Setup, s: State, a: Action)
    requires Halted(s.daemon.container) && StateInv(c, s) && Next(c, s, a).Some?
    ensures Halted(Next(c, s, a).value.daemon.container)
    ensures !s.main.pc.Returned? ==> Next(c, s, a).value.daemon.emitted == s.daemon.emitted
  {
    hide OnLine, Sections, Verdict, Enter, RemovalInv, CodeInv, LockInv, EndInv;
  }

  /** Each step of the helper brings main closer to its end. */
  lemma HelperStep(c: Setup, s: State, a: Action)
    requires StateInv(c, s) && SinkInv(c, s) && Halted(s.daemon.container) && !s.main.pc.Returned?
    requires By(a) == Some(Helper(s)) && Next(c, s, a).Some?
    ensures Closer(Next(c, s, a).value, s)
  {
    hide StateInv, SinkInv, NextMain, NextAttach, NextWatcher, NextStatus;
    match a
    case MainDoes(m) => MainCloser(c, s, m);
    case WatcherDoes(v) => WatcherCloser(c, s, v);
    case AttachDoes(t) => AttachCloser(c, s, t);
    case StatusDoes(u) => StatusCloser(c, s, u);
  }

  lemma MainCloser(c: Setup, s: State, m: MainStep)
    requires NextMain(c, s, m).Some?
    ensures MainLeft(NextMain(c, s, m).value) < MainLeft(s)
  {
    VerdictReturns(c, s.main.(metricsOk := if m.Conclude? then m.metricsOk else false),
                   s.removals.ok == Some(true), s.attach.sink);
    hide Verdict;
  }

  lemma WatcherCloser(c: Setup, s: State, v: WatcherStep)
    requires StateInv(c, s) && Helper(s) == WatcherThread && NextWatcher(s, v).Some?
    ensures Closer(NextWatcher(s, v).value, s)
  {
    hide LockInv, RemovalInv, CodeInv, EndInv;
  }

  lemma StatusCloser(c: Setup, s: State, u: StatusStep)
    requires StateInv(c, s) && Helper(s) == StatusThread && NextStatus(s, u).Some?
    ensures Closer(NextStatus(s, u).value, s)
  {
    hide LockInv, RemovalInv, CodeInv, EndInv;
  }

  lemma AttachCloser(c: Setup, s: State, t: AttachStep)
    requires StateInv(c, s) && SinkInv(c, s) && Helper(s) == AttachThread && NextAttach(c, s, t).Some?
    ensures Closer(NextAttach(c, s, t).value, s)
  {
    hide JoinInv, RemovalInv, CodeInv, EndInv, OnLine, Sections, Enter, Fold, EnterAll, Rises;
    if t.TakeLine? { FewSections(c.cfg, s.attach.sink, s.daemon.emitted[s.attach.taken]); }
  }

  /** Steps of the others leave everything main's progress depends on as it was. */
  lemma OtherStep(c: Setup, s: State, a: Action)
    requires StateInv(c, s) && Halted(s.daemon.container) && !s.main.pc.Returned?
    requires By(a) != Some(Helper(s)) && Next(c, s, a).Some?
    ensures Steady(s, Next(c, s, a).value)
  {
    hide StateInv, Steady, NextMain, NextAttach, NextWatcher, NextStatus;
    match a
    case World(w) => WorldSteady(s, w);
    case MainDoes(m) => MainWaits(c, s, m);
    case WatcherDoes(v) => WatcherSteady(c, s, v);
    case AttachDoes(t) => AttachSteady(c, s, t);
    case StatusDoes(u) => StatusSteady(c, s, u);
  }

  lemma WorldSteady(s: State, w: WorldStep)
    requires Halted(s.daemon.container) && NextWorld(s, w).Some?
    ensures Steady(s, NextWorld(s, w).value)
  {
  }

  /** While another goroutine is the helper, main waits for it. */
  lemma MainWaits(c: Setup, s: State, m: MainStep)
    requires StateInv(c, s) && Helper(s) != MainThread
    ensures NextMain(c, s, m).None?
  {
    hide LockInv, RemovalInv, CodeInv, EndInv, Verdict;
  }

  lemma WatcherSteady(c: Setup, s: State, v: WatcherStep)
    requires StateInv(c, s) && Helper(s) != WatcherThread && NextWatcher(s, v).Some?
    ensures Steady(s, NextWatcher(s, v).value)
  {
    hide LockInv, RemovalInv, CodeInv, EndInv;
  }

  lemma AttachSteady(c: Setup, s: State, t: AttachStep)
    requires StateInv(c, s) && Helper(s) != AttachThread && NextAttach(c, s, t).Some?
    ensures Steady(s, NextAttach(c, s, t).value)
  {
    hide LockInv, RemovalInv, CodeInv, EndInv, OnLine, Sections, Enter;
  }

  lemma StatusSteady(c: Setup, s: State, u: StatusStep)
    requires StateInv(c, s) && Helper(s) != StatusThread && NextStatus(s, u).Some?
    ensures Steady(s, NextStatus(s, u).value)
  {
    hide LockInv, RemovalInv, CodeInv, EndInv;
  }

  lemma MeasureBounded(c: Setup, s: State)
    requires SinkInv(c, s)
    ensures MainLeft(s) >= 0 && HelperLeft(s) >= 0
  {
    hide Fold, EnterAll, Rises;
  }

  // ----- Infinite executions -----

  /** `tr(i)` is the i-th state and `act(i)` the step out of it. */
  ghost predicate Execution(c: Setup, tr: nat -> State, act: nat -> Action) {
    tr(0) == Init(c) && forall i: nat :: Next(c, tr(i), act(i)) == Some(tr(i + 1))
  }

  ghost predicate MovesAfter(act: nat -> Action, t: Thread, n: nat) {
    exists m: nat :: m >= n && By(act(m)) == Some(t)
  }

  ghost predicate CanMoveAfter(c: Setup, tr: nat -> State, t: Thread, n: nat) {
    exists m: nat :: m >= n && CanMove(c, tr(m), t)
  }

  ghost predicate OftenAble(c: Setup, tr: nat -> State, t: Thread) {
    forall n: nat :: CanMoveAfter(c, tr, t, n)
  }

  ghost predicate OftenMoves(act: nat -> Action, t: Thread) {
    forall n: nat :: MovesAfter(act, t, n)
  }

  /** Strong fairness: a goroutine that can move again and again does move again and again. */
  ghost predicate Fair(c: Setup, tr: nat -> State, act: nat -> Action) {
    forall t :: OftenAble(c, tr, t) ==> OftenMoves(act, t)
  }

  lemma {:induction false} InvAlways(c: Setup, tr: nat -> State, act: nat -> Action, n: nat)
    requires Execution(c, tr, act)
    ensures Inv(c, tr(n))
  {
    hide Inv, Next, Init;
    if n == 0 {
      InvInit(c);
    } else {
      InvAlways(c, tr, act, n - 1);
      assert Next(c, tr(n - 1), act(n - 1)) == Some(tr(n - 1 + 1));
      InvKept(c, tr(n - 1), act(n - 1));
    }
  }

  lemma PartsAlways(c: Setup, tr: nat -> State, act: nat -> Action, n: nat)
    requires Execution(c, tr, act)
    ensures StateInv(c, tr(n)) && SinkInv(c, tr(n)) && LockInv(tr(n))
  {
    InvAlways(c, tr, act, n);
    StateParts(c, tr(n));
    InvParts(c, tr(n));
    hide StateInv, SinkInv, LockInv, Inv, Execution;
  }

  lemma {:induction false} HaltedFrom(c: Setup, tr: nat -> State, act: nat -> Action, n: nat, m: nat)
    requires Execution(c, tr, act) && n <= m && Halted(tr(n).daemon.container)
    ensures Halted(tr(m).daemon.container)
    decreases m - n
  {
    hide StateInv, SinkInv, LockInv, Next, Init;
    if n < m {
      HaltedFrom(c, tr, act, n, m - 1);
      PartsAlways(c, tr, act, m - 1);
      assert Next(c, tr(m - 1), act(m - 1)) == Some(tr(m - 1 + 1));
      HaltedStays(c, tr(m - 1), act(m - 1));
    }
  }

  /** While `t` makes no step, a lock it holds stays its own. */
  lemma {:induction false} LockStays(c: Setup, tr: nat -> State, act: nat -> Action, t: Thread, n: nat, m: nat)
    requires Execution(c, tr, act) && n <= m && tr(n).sync.lock == Some(t)
    requires forall i: nat :: n <= i < m ==> By(act(i)) != Some(t)
    ensures tr(m).sync.lock == Some(t)
    decreases m - n
  {
    hide StateInv, SinkInv, LockInv, Next, Init;
    if n < m {
      LockStays(c, tr, act, t, n, m - 1);
      PartsAlways(c, tr, act, m - 1);
      assert Next(c, tr(m - 1), act(m - 1)) == Some(tr(m - 1 + 1));
      LockChanges(c, tr(m - 1), t, act(m - 1));
    }
  }

  /** The first step of `t` from `n` on. */
  lemma FirstMove(act: nat -> Action, t: Thread, n: nat) returns (k: nat)
    requires MovesAfter(act, t, n)
    ensures k >= n && By(act(k)) == Some(t) && forall i: nat :: n <= i < k ==> By(act(i)) != Some(t)
  {
    var m: nat :| m >= n && By(act(m)) == Some(t);
    k := n;
    while By(act(k)) != Some(t)
      invariant n <= k <= m && forall i: nat :: n <= i < k ==> By(act(i)) != Some(t)
      decreases m - k
    {
      k := k + 1;
    }
  }

  /** A held lock is let go of. */
  lemma LockReleased(c: Setup, tr: nat -> State, act: nat -> Action, n: nat) returns (k: nat)
    requires Execution(c, tr, act) && Fair(c, tr, act)
    ensures k >= n && tr(k).sync.lock == None
  {
    hide StateInv, SinkInv, LockInv, Next, Init, CanMove;
    if tr(n).sync.lock.None? { return n; }
    var t := tr(n).sync.lock.value;
    HolderGetsOn(c, tr, act, t, n);
    var m := FirstMove(act, t, n);
    LockStays(c, tr, act, t, n, m);
    PartsAlways(c, tr, act, m);
    assert Next(c, tr(m), act(m)) == Some(tr(m + 1));
    LockChanges(c, tr(m), t, act(m));
    k := m + 1;
  }

  lemma HolderGetsOn(c: Setup, tr: nat -> State, act: nat -> Action, t: Thread, n: nat)
    requires Execution(c, tr, act) && Fair(c, tr, act) && tr(n).sync.lock == Some(t)
    ensures MovesAfter(act, t, n)
  {
    hide StateInv, SinkInv, LockInv, Next, Init, CanMove, Execution;
    forall j: nat ensures CanMoveAfter(c, tr, t, j) || MovesAfter(act, t, n) {
      if !MovesAfter(act, t, n) {
        var m := if j < n then n else j;
        assert forall i: nat :: n <= i < m ==> By(act(i)) != Some(t);
        LockStays(c, tr, act, t, n, m);
        PartsAlways(c, tr, act, m);
        HolderMoves(c, tr(m), t);
        assert m >= j;
      }
    }
    assert OftenAble(c, tr, t) || MovesAfter(act, t, n);
  }

  lemma {:induction false} SteadyUntil(c: Setup, tr: nat -> State, act: nat -> Action, n: nat, m: nat)
    requires Execution(c, tr, act) && n <= m && Halted(tr(n).daemon.container) && !tr(n).main.pc.Returned?
    requires forall i: nat :: n <= i < m ==> By(act(i)) != Some(Helper(tr(n)))
    ensures Steady(tr(n), tr(m)) && !tr(m).main.pc.Returned?
    decreases m - n
  {
    hide StateInv, SinkInv, LockInv, Next, Init, Helper, HelperLeft, WantsLock;
    if n < m {
      SteadyUntil(c, tr, act, n, m - 1);
      PartsAlways(c, tr, act, m - 1);
      HaltedFrom(c, tr, act, n, m - 1);
      assert Next(c, tr(m - 1), act(m - 1)) == Some(tr(m - 1 + 1));
      OtherStep(c, tr(m - 1), act(m - 1));
    }
  }

  /** The helper does take a step. */
  lemma HelperGetsOn(c: Setup, tr: nat -> State, act: nat -> Action, n: nat)
    requires Execution(c, tr, act) && Fair(c, tr, act)
    requires Halted(tr(n).daemon.container) && !tr(n).main.pc.Returned?
    ensures MovesAfter(act, Helper(tr(n)), n)
  {
    hide StateInv, SinkInv, LockInv, Next, Init, CanMove, Execution, Helper, HelperLeft, WantsLock, MainLeft;
    var h := Helper(tr(n));
    forall j: nat ensures CanMoveAfter(c, tr, h, j) || MovesAfter(act, h, n) {
      if !MovesAfter(act, h, n) {
        var m := LockReleased(c, tr, act, if j < n then n else j);
        assert forall i: nat :: n <= i < m ==> By(act(i)) != Some(h);
        SteadyUntil(c, tr, act, n, m);
        PartsAlways(c, tr, act, m);
        HaltedFrom(c, tr, act, n, m);
        HelperMoves(c, tr(m));
        assert m >= j;
      }
    }
    assert OftenAble(c, tr, h) || MovesAfter(act, h, n);
  }

  /**
   In every fair execution main returns once the container has stopped, and if it had been started
   every goroutine has then ended. The proof recurses on the measure (MainLeft, HelperLeft).
   */
  lemma {:induction false} MainReturns(c: Setup, tr: nat -> State, act: nat -> Action, n: nat) returns (k: nat)
    requires Execution(c, tr, act) && Fair(c, tr, act) && Halted(tr(n).daemon.container)
    ensures k >= n && tr(k).main.pc.Returned?
    ensures tr(k).main.started ==>
              tr(k).attach.pc.Ended? && tr(k).watcher.pc.WatcherDone? && tr(k).status.StatusDone?
    decreases MainLeft(tr(n)), HelperLeft(tr(n))
  {
    hide StateInv, SinkInv, LockInv, Next, Init, CanMove, Fair, Helper, HelperLeft, WantsLock, MainLeft;
    if tr(n).main.pc.Returned? {
      InvAlways(c, tr, act, n);
      if tr(n).main.started { AllEnded(c, tr(n)); }
      return n;
    }
    HelperGetsOn(c, tr, act, n);
    var m := FirstMove(act, Helper(tr(n)), n);
    SteadyUntil(c, tr, act, n, m);
    PartsAlways(c, tr, act, m);
    HaltedFrom(c, tr, act, n, m + 1);
    HaltedFrom(c, tr, act, n, m);
    assert Next(c, tr(m), act(m)) == Some(tr(m + 1));
    HelperStep(c, tr(m), act(m));
    PartsAlways(c, tr, act, m + 1);
    MeasureBounded(c, tr(m + 1));
    k := MainReturns(c, tr, act, m + 1);
  }

  lemma AllEnded(c: Setup, s: State)
    requires Inv(c, s) && s.main.pc.Returned? && s.main.started
    ensures s.attach.pc.Ended? && s.watcher.pc.WatcherDone? && s.status.StatusDone?
  {
    InvParts(c, s);
    StateParts(c, s);
    hide Inv, StateInv, SinkInv, ScreenInv, LockInv, JoinInv;
    JoinedParts(c, s);
  }
}
