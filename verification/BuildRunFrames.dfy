/** What the dashboard shows during a run, against the lines the container has printed. */
module BuildRunFrames {
  import Progress
  import opened BuildRun
  import opened BuildRunSafety
  import opened OutputSink
  import opened Text
  import opened Wrappers

  // ----- The board lags the callback only by the open sections -----

  function EnterAll(shown: Shown, todo: seq<Section>): Shown
    decreases |todo|
  {
    if todo == [] then shown else EnterAll(Enter(shown, todo[0]), todo[1..])
  }

  /** The percentages still to be entered never go down. */
  predicate Rises(percent: int, todo: seq<Section>)
    decreases |todo|
  {
    if todo == [] then true
    else if todo[0].SetPercent? then percent <= todo[0].percent && Rises(todo[0].percent, todo[1..])
    else Rises(percent, todo[1..])
  }

  function Todo(pc: AttachPc): seq<Section> { if pc.Streaming? then pc.todo else [] }

  predicate SinkInv(c: Setup, s: State) {
    && s.attach.taken <= |s.daemon.emitted|
    && s.attach.sink == Fold(c.cfg, START, s.daemon.emitted[..s.attach.taken])
    && EnterAll(s.board.shown, Todo(s.attach.pc)) == s.attach.sink.shown
    && Rises(s.board.shown.percent, Todo(s.attach.pc))
  }

  function Entered(cfg: Config, k: Sink, line: string): (Option<Section>, Option<Section>, Option<Section>) {
    if !cfg.dashboard then (None, None, None)
    else
      var h := Progress.Handle(cfg.patterns, OnMarker(cfg, k, line).tracker, line, Progress.GoWithin(line));
      var parts := if PHASE <= line then PhaseParts(Payload(line, PHASE)) else ("", "");
      (if PHASE <= line then Some(SetPhase(parts.0, parts.1)) else None,
       if h.1.Some? then Some(SetPercent(h.1.value)) else None,
       if !Marker(line) && Clean(line) != "" then Some(AddRecent(Clean(line))) else None)
  }

  function Opt(o: Option<Section>): seq<Section> { if o.Some? then [o.value] else [] }

  function EnterOpt(shown: Shown, o: Option<Section>): Shown { if o.Some? then Enter(shown, o.value) else shown }

  lemma EnterThree(shown: Shown, a: Option<Section>, b: Option<Section>, d: Option<Section>)
    ensures EnterAll(shown, Opt(a) + Opt(b) + Opt(d)) == EnterOpt(EnterOpt(EnterOpt(shown, a), b), d)
  {
    EnterAppend(shown, Opt(a) + Opt(b), Opt(d));
    EnterAppend(shown, Opt(a), Opt(b));
    EnterOne(shown, a);
    EnterOne(EnterOpt(shown, a), b);
    EnterOne(EnterOpt(EnterOpt(shown, a), b), d);
  }

  lemma EnterOne(shown: Shown, o: Option<Section>)
    ensures EnterAll(shown, Opt(o)) == EnterOpt(shown, o)
  {
    hide Enter;
    if o.Some? { assert Opt(o)[1..] == []; }
  }

  lemma {:induction false} EnterAppend(shown: Shown, a: seq<Section>, b: seq<Section>)
    ensures EnterAll(shown, a + b) == EnterAll(EnterAll(shown, a), b)
    decreases |a|
  {
    hide Enter;
    if a == [] {
      assert a + b == b;
    } else {
      assert (a + b)[0] == a[0] && (a + b)[1..] == a[1..] + b;
      EnterAppend(Enter(shown, a[0]), a[1..], b);
    }
  }

  lemma SectionsAre(cfg: Config, k: Sink, line: string)
    ensures var e := Entered(cfg, k, line); Sections(cfg, k, line) == Opt(e.0) + Opt(e.1) + Opt(e.2)
  {
    hide Clean, OnMarker, Progress.Handle, Progress.GoWithin, PhaseParts;
  }

  lemma EnteredLeads(cfg: Config, k: Sink, line: string)
    ensures var e := Entered(cfg, k, line);
            EnterOpt(EnterOpt(EnterOpt(k.shown, e.0), e.1), e.2) == OnLine(cfg, k, line).shown
  {
    hide Clean, Push, Progress.Handle, Progress.GoWithin, PhaseParts;
    OneMarker(line);
  }

  /** The sections of a line, one after the other, do to the board what the line means. */
  lemma SectionsLead(cfg: Config, k: Sink, line: string)
    ensures EnterAll(k.shown, Sections(cfg, k, line)) == OnLine(cfg, k, line).shown
  {
    hide Sections, Entered, OnLine, EnterOpt, EnterAll, Opt;
    var e := Entered(cfg, k, line);
    SectionsAre(cfg, k, line);
    EnterThree(k.shown, e.0, e.1, e.2);
    EnteredLeads(cfg, k, line);
  }

  lemma SectionsRise(cfg: Config, k: Sink, line: string)
    requires cfg.dashboard ==> k.shown.percent <= k.tracker.percent
    ensures Rises(k.shown.percent, Sections(cfg, k, line))
  {
    hide Clean, PhaseParts, Progress.Handle, Progress.GoWithin;
    var e, s := Entered(cfg, k, line), Sections(cfg, k, line);
    SectionsAre(cfg, k, line);
    MarkerKeepsPercent(cfg, k, line);
    RisesOpt(k.shown.percent, e.0, Opt(e.1) + Opt(e.2));
    RisesOpt(k.shown.percent, e.1, Opt(e.2));
    Assoc(Opt(e.0), Opt(e.1), Opt(e.2));
    RisesText(if e.1.Some? then e.1.value.percent else k.shown.percent, e.2);
  }

  lemma MarkerKeepsPercent(cfg: Config, k: Sink, line: string)
    ensures OnMarker(cfg, k, line).tracker.percent == k.tracker.percent
  {
    hide PhaseParts;
  }

  lemma RisesOpt(percent: int, o: Option<Section>, rest: seq<Section>)
    ensures Rises(percent, Opt(o) + rest) ==
            if o.None? then Rises(percent, rest)
            else if o.value.SetPercent? then percent <= o.value.percent && Rises(o.value.percent, rest)
            else Rises(percent, rest)
  {
    if o.None? {
      assert Opt(o) + rest == rest;
    } else {
      assert (Opt(o) + rest)[0] == o.value && (Opt(o) + rest)[1..] == rest;
    }
  }

  lemma RisesText(percent: int, o: Option<Section>)
    requires o.None? || o.value.AddRecent?
    ensures Rises(percent, Opt(o))
  {
    if o.Some? { assert Opt(o)[1..] == []; }
  }

  lemma SinkKeptByLine(c: Setup, s: State)
    requires SinkInv(c, s) && NextAttach(c, s, TakeLine).Some?
    ensures SinkInv(c, NextAttach(c, s, TakeLine).value)
  {
    hide OnLine, Sections, Enter;
    var k, n, lines := s.attach.sink, s.attach.taken, s.daemon.emitted;
    SectionsLead(c.cfg, k, lines[n]);
    TrackerFollowsStream(c.cfg, lines[..n]);
    SectionsRise(c.cfg, k, lines[n]);
    FoldSnoc(c.cfg, lines, n);
    hide Fold, Rises, EnterAll;
  }

  lemma FoldSnoc(cfg: Config, lines: seq<string>, n: nat)
    requires n < |lines|
    ensures Fold(cfg, START, lines[..n + 1]) == OnLine(cfg, Fold(cfg, START, lines[..n]), lines[n])
  {
    hide OnLine;
    assert lines[..n + 1][..n] == lines[..n];
  }

  lemma SinkKept(c: Setup, s: State, a: Action)
    requires LockInv(s) && SinkInv(c, s) && Next(c, s, a).Some?
    ensures SinkInv(c, Next(c, s, a).value)
  {
    hide OnLine, Sections, Fold, Verdict, NextMain, NextWatcher, NextStatus, NextAttach, NextWorld, LockInv;
    hide SinkInv, Leaves;
    var t := Next(c, s, a).value;
    match a
    case World(w) => WorldLeaves(s, w); SinkLeft(c, s, t);
    case MainDoes(m) => MainLeaves(c, s, m); SinkLeft(c, s, t);
    case WatcherDoes(v) => WatcherLeaves(s, v); SinkLeft(c, s, t);
    case StatusDoes(u) => StatusLeaves(s, u); SinkLeft(c, s, t);
    case AttachDoes(step) => if step == TakeLine { SinkKeptByLine(c, s); } else { SinkKeptBySection(c, s, step); }
  }

  lemma SinkLeft(c: Setup, s: State, t: State)
    requires SinkInv(c, s) && Leaves(s, t)
    ensures SinkInv(c, t)
  {
    hide Fold, EnterAll, Rises, Todo;
    assert t.daemon.emitted[..s.attach.taken] == s.daemon.emitted[..s.attach.taken];
  }

  lemma SinkKeptBySection(c: Setup, s: State, t: AttachStep)
    requires LockInv(s) && SinkInv(c, s) && t != TakeLine && NextAttach(c, s, t).Some?
    ensures SinkInv(c, NextAttach(c, s, t).value)
  {
    hide OnLine, Sections, Fold, Enter;
    if t.RunSection? { RisesHead(s.board.shown, s.attach.pc.todo); }
  }

  lemma RisesHead(shown: Shown, todo: seq<Section>)
    requires todo != [] && Rises(shown.percent, todo)
    ensures shown.percent <= Enter(shown, todo[0]).percent && Rises(Enter(shown, todo[0]).percent, todo[1..])
  {
  }

  /** Apart from new output, only the attach goroutine touches its variables and the build's part of the board. */
  ghost predicate Leaves(s: State, t: State) {
    t.attach == s.attach && t.board.shown == s.board.shown && s.daemon.emitted <= t.daemon.emitted
  }

  lemma WorldLeaves(s: State, w: WorldStep)
    requires NextWorld(s, w).Some?
    ensures Leaves(s, NextWorld(s, w).value)
  {
  }

  lemma MainLeaves(c: Setup, s: State, m: MainStep)
    requires NextMain(c, s, m).Some?
    ensures Leaves(s, NextMain(c, s, m).value)
  {
    hide Verdict;
  }

  lemma WatcherLeaves(s: State, v: WatcherStep)
    requires NextWatcher(s, v).Some?
    ensures Leaves(s, NextWatcher(s, v).value)
  {
  }

  lemma StatusLeaves(s: State, u: StatusStep)
    requires NextStatus(s, u).Some?
    ensures Leaves(s, NextStatus(s, u).value)
  {
  }

  // ----- Frames -----

  /** Percentages of the status goroutine's frames never go down, and no frame is ahead of the board. */
  ghost predicate OrderInv(s: State) {
    var f, now := s.screen.frames, s.board.shown.percent;
    && (forall i :: 0 <= i < |f| ==> f[i].shown.percent <= now)
    && (forall i, j :: 0 <= i < j < |f| && f[i].drawer == f[j].drawer == StatusThread ==>
          f[i].shown.percent <= f[j].shown.percent)
    && (s.status.Drawing? ==>
          && s.status.frame.drawer == StatusThread && s.status.frame.shown.percent <= now
          && forall i :: 0 <= i < |f| && f[i].drawer == StatusThread ==>
               f[i].shown.percent <= s.status.frame.shown.percent)
    && (s.main.pc.FinalDraw? ==>
          s.main.pc.frame.drawer == MainThread && s.main.pc.frame.shown == s.board.shown)
  }

  /** Main draws once, from the settled board; only a snapshot taken before that can differ from it later. */
  ghost predicate FinalInv(c: Setup, s: State) {
    var f, fin, held, now := s.screen.frames, s.screen.final, s.screen.held, s.board.shown;
    && (fin.Some? <==> c.cfg.dashboard && Past(s, 5))
    && (fin.None? ==> held.None? && forall i :: 0 <= i < |f| ==> f[i].drawer == StatusThread)
    && (s.status.Drawing? ==> s.status.frame.drawer == StatusThread)
    && (fin.Some? ==>
          var m := fin.value;
          && m < |f| && f[m].drawer == MainThread && f[m].shown == now
          && (forall i :: 0 <= i < |f| && i != m ==> f[i].drawer == StatusThread)
          && (forall i :: m + 1 < i < |f| ==> f[i].shown == now)
          && (|f| > m + 1 ==> f[m + 1].shown == (if held.Some? then held.value.shown else now))
          && (held.Some? && |f| == m + 1 ==> s.status == Drawing(held.value))
          && (s.status.Drawing? && (held.None? || |f| > m + 1) ==> s.status.frame.shown == now))
  }

  ghost predicate ScreenInv(c: Setup, s: State) { OrderInv(s) && FinalInv(c, s) }

  /** Nothing the screen invariants speak of has changed, except that main may have moved between other statements. */
  ghost predicate SameScreen(c: Setup, s: State, t: State) {
    && t.screen == s.screen && t.board.shown == s.board.shown
    && (t.status == s.status || (!t.status.Drawing? && !s.status.Drawing?))
    && (t.main == s.main || (&& !s.main.pc.FinalDraw? && !t.main.pc.FinalDraw?
                             && (c.cfg.dashboard ==> (Past(t, 5) <==> Past(s, 5)))))
  }

  lemma SameScreenKept(c: Setup, s: State, t: State)
    requires ScreenInv(c, s) && SameScreen(c, s, t)
    ensures ScreenInv(c, t)
  {
  }

  lemma ScreenKeptByAttach(c: Setup, s: State, t: AttachStep)
    requires JoinInv(c, s) && SinkInv(c, s) && ScreenInv(c, s) && NextAttach(c, s, t).Some?
    ensures ScreenInv(c, NextAttach(c, s, t).value)
  {
    hide OnLine, Sections, Fold, EnterAll, Enter;
    if t.RunSection? {
      RisesHead(s.board.shown, s.attach.pc.todo);
      assert !Past(s, 2) && s.screen.final.None?;
      assert OrderInv(NextAttach(c, s, t).value);
      assert FinalInv(c, NextAttach(c, s, t).value);
    } else {
      SameScreenKept(c, s, NextAttach(c, s, t).value);
    }
  }

  lemma ScreenKeptByStatus(c: Setup, s: State, u: StatusStep)
    requires ScreenInv(c, s) && NextStatus(s, u).Some?
    ensures ScreenInv(c, NextStatus(s, u).value)
  {
    var t := NextStatus(s, u).value;
    if u.CopySnap? {
      SnapKeeps(c, s, t);
    } else if u.DrawSnap? {
      OrderKeptByDraw(c, s, t);
      FinalKeptByDraw(c, s, t);
    } else {
      hide ScreenInv;
      SameScreenKept(c, s, t);
    }
  }

  lemma SnapKeeps(c: Setup, s: State, t: State)
    requires ScreenInv(c, s) && NextStatus(s, CopySnap) == Some(t)
    ensures ScreenInv(c, t)
  {
  }

  lemma OrderKeptByDraw(c: Setup, s: State, t: State)
    requires ScreenInv(c, s) && NextStatus(s, DrawSnap) == Some(t)
    ensures OrderInv(t)
  {
    hide FinalInv;
  }

  lemma FinalKeptByDraw(c: Setup, s: State, t: State)
    requires ScreenInv(c, s) && NextStatus(s, DrawSnap) == Some(t)
    ensures FinalInv(c, t)
  {
    hide OrderInv;
  }

  lemma ScreenKeptByMain(c: Setup, s: State, m: MainStep)
    requires JoinInv(c, s) && ScreenInv(c, s) && NextMain(c, s, m).Some?
    ensures ScreenInv(c, NextMain(c, s, m).value)
  {
    hide Verdict;
    var t := NextMain(c, s, m).value;
    if m.CopyFinal? {
      hide FinalInv;
      CopyKeepsFinal(c, s, t);
    } else if m.DrawFinal? {
      DrawFinalKeepsOrder(c, s, t);
      DrawFinalKeepsFinal(c, s, t);
    } else {
      MainSame(c, s, m);
      hide ScreenInv, SameScreen, NextMain, JoinInv;
      SameScreenKept(c, s, t);
    }
  }

  lemma MainSame(c: Setup, s: State, m: MainStep)
    requires JoinInv(c, s) && NextMain(c, s, m).Some? && m != CopyFinal && m != DrawFinal
    ensures SameScreen(c, s, NextMain(c, s, m).value)
  {
    hide Verdict;
    if m.Conclude? {
      VerdictReturns(c, s.main.(metricsOk := m.metricsOk), s.removals.ok == Some(true), s.attach.sink);
    }
  }

  lemma CopyKeepsFinal(c: Setup, s: State, t: State)
    requires ScreenInv(c, s) && NextMain(c, s, CopyFinal) == Some(t)
    ensures FinalInv(c, t)
  {
    hide OrderInv;
  }

  lemma DrawFinalKeepsOrder(c: Setup, s: State, t: State)
    requires ScreenInv(c, s) && NextMain(c, s, DrawFinal) == Some(t)
    ensures OrderInv(t)
  {
    hide FinalInv;
  }

  lemma DrawFinalKeepsFinal(c: Setup, s: State, t: State)
    requires JoinInv(c, s) && ScreenInv(c, s) && NextMain(c, s, DrawFinal) == Some(t)
    ensures FinalInv(c, t)
  {
  }

  lemma ScreenKept(c: Setup, s: State, a: Action)
    requires LockInv(s) && JoinInv(c, s) && SinkInv(c, s) && ScreenInv(c, s) && Next(c, s, a).Some?
    ensures ScreenInv(c, Next(c, s, a).value)
  {
    hide NextMain, NextWatcher, NextStatus, NextAttach, NextWorld, LockInv, JoinInv, SinkInv, ScreenInv;
    match a
    case World(w) => WorldSame(c, s, w); SameScreenKept(c, s, Next(c, s, a).value);
    case MainDoes(m) => ScreenKeptByMain(c, s, m);
    case WatcherDoes(v) => WatcherSame(c, s, v); SameScreenKept(c, s, Next(c, s, a).value);
    case AttachDoes(t) => ScreenKeptByAttach(c, s, t);
    case StatusDoes(u) => ScreenKeptByStatus(c, s, u);
  }

  lemma WorldSame(c: Setup, s: State, w: WorldStep)
    requires NextWorld(s, w).Some?
    ensures SameScreen(c, s, NextWorld(s, w).value)
  {
  }

  lemma WatcherSame(c: Setup, s: State, v: WatcherStep)
    requires NextWatcher(s, v).Some?
    ensures SameScreen(c, s, NextWatcher(s, v).value)
  {
  }
}
