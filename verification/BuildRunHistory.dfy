/** Which part of the output each dashboard frame shows. */
module BuildRunHistory {
  import opened BuildRun
  import opened BuildRunFrames
  import opened BuildRunSafety
  import opened BuildRunTheorems
  import opened OutputSink
  import opened Text
  import opened Wrappers

  /** The critical sections of all the lines, in the order the callback enters them. */
  function AllSections(cfg: Config, lines: seq<string>): seq<Section> {
    if lines == [] then []
    else
      var n := |lines| - 1;
      AllSections(cfg, lines[..n]) + Sections(cfg, Fold(cfg, START, lines[..n]), lines[n])
  }

  /** What the board shows after the first `n` sections. */
  function ShownAfter(cfg: Config, lines: seq<string>, n: nat): Shown
    requires n <= |AllSections(cfg, lines)|
  {
    EnterAll(START.shown, AllSections(cfg, lines)[..n])
  }

  /** The texts that sections add to the recent lines. */
  function Added(todo: seq<Section>): seq<string> {
    if todo == [] then []
    else
      var n := |todo| - 1;
      Added(todo[..n]) + if todo[n].AddRecent? then [todo[n].text] else []
  }

  lemma {:induction false} AddedAppend(a: seq<Section>, b: seq<Section>)
    ensures Added(a + b) == Added(a) + Added(b)
    decreases |b|
  {
    if b == [] {
      assert a + b == a;
    } else {
      var n := |b| - 1;
      assert (a + b)[..|a| + n] == a + b[..n] && (a + b)[|a| + n] == b[n];
      AddedAppend(a, b[..n]);
      Assoc(Added(a), Added(b[..n]), if b[n].AddRecent? then [b[n].text] else []);
    }
  }

  lemma AddedOpt(o: Option<Section>)
    ensures Added(Opt(o)) == if o.Some? && o.value.AddRecent? then [o.value.text] else []
  {
    if o.Some? { assert Opt(o)[..0] == []; }
  }

  lemma AddedByLine(cfg: Config, k: Sink, line: string)
    requires cfg.dashboard
    ensures Added(Sections(cfg, k, line)) == if !Marker(line) && Clean(line) != "" then [Clean(line)] else []
  {
    hide Sections, Opt, Clean, OnMarker, Progress.Handle, Progress.GoWithin, PhaseParts;
    var e := Entered(cfg, k, line);
    SectionsAre(cfg, k, line);
    AddedAppend(Opt(e.0) + Opt(e.1), Opt(e.2));
    AddedAppend(Opt(e.0), Opt(e.1));
    AddedOpt(e.0);
    AddedOpt(e.1);
    AddedOpt(e.2);
  }

  /** All the sections together add exactly the kept lines. */
  lemma {:induction false} AddedIsKept(cfg: Config, lines: seq<string>)
    requires cfg.dashboard
    ensures Added(AllSections(cfg, lines)) == Kept(lines)
    decreases |lines|
  {
    hide Sections, Clean, OnLine;
    if lines != [] {
      var n := |lines| - 1;
      var k := Fold(cfg, START, lines[..n]);
      AddedIsKept(cfg, lines[..n]);
      AddedAppend(AllSections(cfg, lines[..n]), Sections(cfg, k, lines[n]));
      AddedByLine(cfg, k, lines[n]);
    }
  }

  lemma {:induction false} RecentEntered(todo: seq<Section>)
    ensures EnterAll(START.shown, todo).recent == LastN(Added(todo), RECENT_CAP)
    decreases |todo|
  {
    hide Push, LastN;
    if todo == [] {
      NoTail();
    } else {
      var n := |todo| - 1;
      RecentEntered(todo[..n]);
      assert todo == todo[..n] + [todo[n]];
      EnterAppend(START.shown, todo[..n], [todo[n]]);
      assert [todo[n]][1..] == [];
      if todo[n].AddRecent? { PushKeepsTail(Added(todo[..n]), todo[n].text, RECENT_CAP); }
      assert Added(todo[..n]) + [] == Added(todo[..n]);
    }
  }

  /** How many kept lines the first `n` sections have added. */
  function LinesAfter(cfg: Config, lines: seq<string>, n: nat): nat
    requires n <= |AllSections(cfg, lines)|
  {
    |Added(AllSections(cfg, lines)[..n])|
  }

  /** After any number of sections the recent lines are the last 8 of a beginning of the kept lines. */
  lemma RecentIsTail(cfg: Config, lines: seq<string>, n: nat)
    requires cfg.dashboard && n <= |AllSections(cfg, lines)|
    ensures LinesAfter(cfg, lines, n) <= |Kept(lines)|
    ensures ShownAfter(cfg, lines, n).recent == LastN(Kept(lines)[..LinesAfter(cfg, lines, n)], RECENT_CAP)
  {
    hide AllSections, Added, EnterAll;
    var all := AllSections(cfg, lines);
    RecentEntered(all[..n]);
    AddedIsKept(cfg, lines);
    AddedAppend(all[..n], all[n..]);
    assert all[..n] + all[n..] == all;
    assert Kept(lines)[..|Added(all[..n])|] == Added(all[..n]);
  }

  /** More sections have added no fewer lines. */
  lemma LinesGrow(cfg: Config, lines: seq<string>, m: nat, n: nat)
    requires m <= n <= |AllSections(cfg, lines)|
    ensures LinesAfter(cfg, lines, m) <= LinesAfter(cfg, lines, n)
  {
    hide AllSections, Added;
    var all := AllSections(cfg, lines);
    AddedAppend(all[..m], all[m..n]);
    assert all[..m] + all[m..n] == all[..n];
  }

  // ----- Where each frame stands -----

  /** Sections entered so far, and entered when each frame, drawn or about to be drawn, was copied. */
  datatype Places = Places(now: nat, frames: seq<nat>, held: nat, final: nat)

  function Move(p: Places, a: Action): Places {
    if a == AttachDoes(RunSection) then p.(now := p.now + 1)
    else if a == StatusDoes(CopySnap) then p.(held := p.now)
    else if a == MainDoes(CopyFinal) then p.(final := p.now)
    else if a == StatusDoes(DrawSnap) then p.(frames := p.frames + [p.held])
    else if a == MainDoes(DrawFinal) then p.(frames := p.frames + [p.final])
    else p
  }

  /** The frame was copied after the first `n` sections of the lines. */
  ghost predicate Stands(cfg: Config, lines: seq<string>, f: Frame, n: nat) {
    n <= |AllSections(cfg, lines)| && f.shown == ShownAfter(cfg, lines, n)
  }

  ghost predicate BoardStands(cfg: Config, lines: seq<string>, shown: Shown, todo: seq<Section>, n: nat) {
    && n <= |AllSections(cfg, lines)| && todo == AllSections(cfg, lines)[n..]
    && shown == ShownAfter(cfg, lines, n)
  }

  function Taken(s: State): seq<string>
    requires s.attach.taken <= |s.daemon.emitted|
  {
    s.daemon.emitted[..s.attach.taken]
  }

  ghost predicate DrawnInv(cfg: Config, lines: seq<string>, s: State, p: Places) {
    var f := s.screen.frames;
    && |p.frames| == |f|
    && (forall i :: 0 <= i < |f| ==> Stands(cfg, lines, f[i], p.frames[i]))
    && (s.status.Drawing? ==> Stands(cfg, lines, s.status.frame, p.held))
    && (s.main.pc.FinalDraw? ==> Stands(cfg, lines, s.main.pc.frame, p.final))
  }

  ghost predicate OrderedInv(s: State, p: Places) {
    var f := s.screen.frames;
    && |p.frames| == |f|
    && (forall i :: 0 <= i < |f| && f[i].drawer == StatusThread ==> p.frames[i] <= p.now)
    && (forall i, j :: 0 <= i < j < |f| && f[i].drawer == f[j].drawer == StatusThread ==> p.frames[i] <= p.frames[j])
    && (s.status.Drawing? ==>
          && p.held <= p.now
          && forall i :: 0 <= i < |f| && f[i].drawer == StatusThread ==> p.frames[i] <= p.held)
    && (s.main.pc.FinalDraw? ==> s.main.pc.frame.drawer == MainThread)
  }

  ghost predicate PlacesInv(c: Setup, s: State, p: Places) {
    && s.attach.taken <= |s.daemon.emitted|
    && BoardStands(c.cfg, Taken(s), s.board.shown, Todo(s.attach.pc), p.now)
    && DrawnInv(c.cfg, Taken(s), s, p)
    && OrderedInv(s, p)
  }

  // ----- More lines only add sections -----

  lemma {:induction false} SectionsGrow(cfg: Config, lines: seq<string>, n: nat)
    requires n <= |lines|
    ensures AllSections(cfg, lines[..n]) <= AllSections(cfg, lines)
    decreases |lines|
  {
    hide Sections;
    if n == |lines| {
      assert lines[..n] == lines;
    } else {
      SectionsGrow(cfg, lines[..|lines| - 1], n);
      assert lines[..|lines| - 1][..n] == lines[..n];
    }
  }

  lemma StandsKept(cfg: Config, lines: seq<string>, n: nat, f: Frame, k: nat)
    requires n <= |lines| && Stands(cfg, lines[..n], f, k)
    ensures Stands(cfg, lines, f, k)
  {
    hide AllSections, EnterAll;
    SectionsGrow(cfg, lines, n);
    assert AllSections(cfg, lines)[..k] == AllSections(cfg, lines[..n])[..k];
  }

  lemma DrawnKept(cfg: Config, lines: seq<string>, n: nat, s: State, p: Places)
    requires n <= |lines| && DrawnInv(cfg, lines[..n], s, p)
    ensures DrawnInv(cfg, lines, s, p)
  {
    hide Stands;
    var f := s.screen.frames;
    forall i | 0 <= i < |f| ensures Stands(cfg, lines, f[i], p.frames[i]) {
      StandsKept(cfg, lines, n, f[i], p.frames[i]);
    }
    if s.status.Drawing? { StandsKept(cfg, lines, n, s.status.frame, p.held); }
    if s.main.pc.FinalDraw? { StandsKept(cfg, lines, n, s.main.pc.frame, p.final); }
  }

  // ----- Every step keeps the places -----

  lemma CopyStands(cfg: Config, lines: seq<string>, shown: Shown, todo: seq<Section>, n: nat, f: Frame)
    requires BoardStands(cfg, lines, shown, todo, n) && f.shown == shown
    ensures Stands(cfg, lines, f, n)
  {
  }

  /** No frame has been drawn or copied, and main and the status goroutine may have moved elsewhere. */
  ghost predicate Quiet(s: State, t: State, p: Places, q: Places) {
    && t.screen == s.screen
    && (t.status == s.status || !t.status.Drawing?)
    && (t.main.pc == s.main.pc || !t.main.pc.FinalDraw?)
    && q == p.(now := q.now) && p.now <= q.now
  }

  lemma QuietKeeps(cfg: Config, lines: seq<string>, s: State, t: State, p: Places, q: Places)
    requires DrawnInv(cfg, lines, s, p) && OrderedInv(s, p) && Quiet(s, t, p, q)
    ensures DrawnInv(cfg, lines, t, q) && OrderedInv(t, q)
  {
    hide Stands;
  }

  lemma MainQuiet(c: Setup, s: State, m: MainStep, p: Places)
    requires NextMain(c, s, m).Some? && m != CopyFinal && m != DrawFinal
    ensures Quiet(s, NextMain(c, s, m).value, p, Move(p, MainDoes(m)))
  {
    hide Verdict;
    if m.Conclude? {
      VerdictReturns(c, s.main.(metricsOk := m.metricsOk), s.removals.ok == Some(true), s.attach.sink);
    }
  }

  lemma StatusQuiet(s: State, u: StatusStep, p: Places)
    requires NextStatus(s, u).Some? && u != CopySnap && u != DrawSnap
    ensures Quiet(s, NextStatus(s, u).value, p, Move(p, StatusDoes(u)))
  {
  }

  lemma OthersQuiet(c: Setup, s: State, a: Action, p: Places)
    requires Next(c, s, a).Some? && !a.MainDoes? && !a.StatusDoes?
    ensures Quiet(s, Next(c, s, a).value, p, Move(p, a))
  {
    hide OnLine, Sections, Enter;
  }

  /** Copying the board, or drawing what was copied. */
  lemma DrawerKeeps(c: Setup, s: State, a: Action, p: Places)
    requires a in {MainDoes(CopyFinal), MainDoes(DrawFinal), StatusDoes(CopySnap), StatusDoes(DrawSnap)}
    requires PlacesInv(c, s, p) && Next(c, s, a).Some?
    ensures var t, q := Next(c, s, a).value, Move(p, a);
            DrawnInv(c.cfg, Taken(s), t, q) && OrderedInv(t, q)
  {
    hide Stands, BoardStands, Taken;
    var shown, todo := s.board.shown, Todo(s.attach.pc);
    CopyStands(c.cfg, Taken(s), shown, todo, p.now, Frame(StatusThread, shown, s.board.usage));
    CopyStands(c.cfg, Taken(s), shown, todo, p.now, Frame(MainThread, shown, s.board.usage));
    hide Todo;
  }

  lemma FramesKept(c: Setup, s: State, a: Action, p: Places)
    requires PlacesInv(c, s, p) && Next(c, s, a).Some?
    ensures var t, q := Next(c, s, a).value, Move(p, a);
            DrawnInv(c.cfg, Taken(s), t, q) && OrderedInv(t, q)
  {
    hide NextMain, NextStatus, NextAttach, NextWatcher, NextWorld, DrawnInv, OrderedInv, BoardStands, Quiet, Move;
    match a
    case MainDoes(m) =>
      if m == CopyFinal || m == DrawFinal {
        DrawerKeeps(c, s, a, p);
      } else {
        MainQuiet(c, s, m, p);
        QuietKeeps(c.cfg, Taken(s), s, Next(c, s, a).value, p, Move(p, a));
      }
    case StatusDoes(u) =>
      if u == CopySnap || u == DrawSnap {
        DrawerKeeps(c, s, a, p);
      } else {
        StatusQuiet(s, u, p);
        QuietKeeps(c.cfg, Taken(s), s, Next(c, s, a).value, p, Move(p, a));
      }
    case _ =>
      OthersQuiet(c, s, a, p);
      QuietKeeps(c.cfg, Taken(s), s, Next(c, s, a).value, p, Move(p, a));
  }

  lemma SameOutput(c: Setup, s: State, a: Action)
    requires Next(c, s, a).Some? && !a.AttachDoes? && s.attach.taken <= |s.daemon.emitted|
    ensures var t := Next(c, s, a).value;
            && t.attach == s.attach && t.board.shown == s.board.shown && s.attach.taken <= |t.daemon.emitted|
            && Taken(t) == Taken(s)
  {
    hide Verdict;
  }

  lemma OnlySections(p: Places, a: Action)
    ensures Move(p, a).now == p.now + if a == AttachDoes(RunSection) then 1 else 0
  {
  }

  /** Neither the lines taken nor the board change. */
  lemma OtherStepPlaces(c: Setup, s: State, a: Action, p: Places)
    requires PlacesInv(c, s, p) && Next(c, s, a).Some? && !a.AttachDoes?
    ensures PlacesInv(c, Next(c, s, a).value, Move(p, a))
  {
    FramesKept(c, s, a, p);
    SameOutput(c, s, a);
    OnlySections(p, a);
    hide Next, Taken, Move, DrawnInv, OrderedInv, BoardStands;
  }

  lemma SectionEntered(cfg: Config, lines: seq<string>, n: nat)
    requires n < |AllSections(cfg, lines)|
    ensures ShownAfter(cfg, lines, n + 1) == Enter(ShownAfter(cfg, lines, n), AllSections(cfg, lines)[n])
  {
    hide AllSections, Enter;
    var all := AllSections(cfg, lines);
    assert all[..n + 1] == all[..n] + [all[n]];
    EnterAppend(START.shown, all[..n], [all[n]]);
    assert [all[n]][1..] == [];
  }

  lemma SectionStep(c: Setup, s: State, t: AttachStep)
    requires NextAttach(c, s, t).Some? && t != TakeLine && s.attach.taken <= |s.daemon.emitted|
    ensures var u, todo := NextAttach(c, s, t).value, Todo(s.attach.pc);
            && u.attach.taken == s.attach.taken <= |u.daemon.emitted| && Taken(u) == Taken(s)
            && if t == RunSection
               then todo != [] && Todo(u.attach.pc) == todo[1..] && u.board.shown == Enter(s.board.shown, todo[0])
               else Todo(u.attach.pc) == todo && u.board == s.board
  {
    hide Enter;
  }

  lemma SectionPlaces(c: Setup, s: State, t: AttachStep, p: Places)
    requires PlacesInv(c, s, p) && NextAttach(c, s, t).Some? && t != TakeLine
    ensures PlacesInv(c, NextAttach(c, s, t).value, Move(p, AttachDoes(t)))
  {
    FramesKept(c, s, AttachDoes(t), p);
    OnlySections(p, AttachDoes(t));
    SectionStep(c, s, t);
    assert Next(c, s, AttachDoes(t)) == NextAttach(c, s, t);
    hide Next, NextAttach, Todo, Taken, DrawnInv, OrderedInv, BoardStands, Enter, Move;
    if t.RunSection? { BoardEntered(c.cfg, Taken(s), s.board.shown, Todo(s.attach.pc), p.now); }
  }

  lemma BoardEntered(cfg: Config, lines: seq<string>, shown: Shown, todo: seq<Section>, n: nat)
    requires BoardStands(cfg, lines, shown, todo, n) && todo != []
    ensures BoardStands(cfg, lines, Enter(shown, todo[0]), todo[1..], n + 1)
  {
    hide AllSections, EnterAll, Enter;
    SectionEntered(cfg, lines, n);
    hide ShownAfter;
  }

  lemma BoardTaken(cfg: Config, lines: seq<string>, shown: Shown, n: nat)
    requires lines != [] && BoardStands(cfg, lines[..|lines| - 1], shown, [], n)
    ensures var m := |lines| - 1;
            BoardStands(cfg, lines, shown, Sections(cfg, Fold(cfg, START, lines[..m]), lines[m]), n)
  {
    hide EnterAll, Sections, Fold;
    var m := |lines| - 1;
    var before := AllSections(cfg, lines[..m]);
    assert n == |before| && AllSections(cfg, lines)[..n] == before == before[..n];
  }

  lemma LineStep(c: Setup, s: State)
    requires NextAttach(c, s, TakeLine).Some?
    ensures var u, n := NextAttach(c, s, TakeLine).value, s.attach.taken;
            && u.daemon == s.daemon && u.board == s.board && u.attach.taken == n + 1 <= |s.daemon.emitted|
            && Todo(s.attach.pc) == []
            && Todo(u.attach.pc) == Sections(c.cfg, s.attach.sink, s.daemon.emitted[n])
  {
    hide Sections, OnLine;
  }

  lemma LinePlaces(c: Setup, s: State, p: Places)
    requires PlacesInv(c, s, p) && SinkInv(c, s) && NextAttach(c, s, TakeLine).Some?
    ensures PlacesInv(c, NextAttach(c, s, TakeLine).value, p)
  {
    FramesKept(c, s, AttachDoes(TakeLine), p);
    LineStep(c, s);
    hide NextAttach, Todo, OrderedInv, DrawnInv, BoardStands, EnterAll, Sections, Fold, Rises;
    var n, t := s.attach.taken, NextAttach(c, s, TakeLine).value;
    var lines := Taken(t);
    assert lines[..n] == Taken(s) && lines[n] == s.daemon.emitted[n];
    DrawnKept(c.cfg, lines, n, t, p);
    BoardTaken(c.cfg, lines, s.board.shown, p.now);
  }

  lemma PlacesKept(c: Setup, s: State, a: Action, p: Places)
    requires PlacesInv(c, s, p) && SinkInv(c, s) && Next(c, s, a).Some?
    ensures PlacesInv(c, Next(c, s, a).value, Move(p, a))
  {
    hide PlacesInv, SinkInv, NextAttach;
    if !a.AttachDoes? {
      OtherStepPlaces(c, s, a, p);
    } else if a.t == TakeLine {
      LinePlaces(c, s, p);
    } else {
      SectionPlaces(c, s, a.t, p);
    }
  }

  lemma InitPlaces(c: Setup)
    ensures PlacesInv(c, Init(c), Places(0, [], 0, 0))
  {
    assert Taken(Init(c)) == [];
  }

  lemma {:induction false} PlacesAfter(c: Setup, s: State, run: seq<Action>, p: Places) returns (q: Places)
    requires Inv(c, s) && PlacesInv(c, s, p) && After(c, s, run).Some?
    ensures PlacesInv(c, After(c, s, run).value, q)
    decreases |run|
  {
    hide StateInv, ScreenInv, SinkInv, PlacesInv, Next;
    q := p;
    if run != [] {
      PlacesKept(c, s, run[0], p);
      InvKept(c, s, run[0]);
      q := PlacesAfter(c, Next(c, s, run[0]).value, run[1..], Move(p, run[0]));
    }
  }

  /**
   Every frame shows the board after some number of the output's critical sections, and that number
   never falls from one frame of the status goroutine to the next.
   */
  lemma FramesFollowOutput(c: Setup, run: seq<Action>, s: State) returns (places: seq<nat>)
    requires After(c, Init(c), run) == Some(s)
    ensures var f, lines := s.screen.frames, s.daemon.emitted;
            && |places| == |f|
            && (forall i :: 0 <= i < |f| ==> Stands(c.cfg, lines, f[i], places[i]))
            && (forall i, j :: 0 <= i < j < |f| && f[i].drawer == f[j].drawer == StatusThread ==>
                  places[i] <= places[j])
  {
    hide Inv, After, Init, Stands, BoardStands;
    InitPlaces(c);
    InvInit(c);
    var p := PlacesAfter(c, Init(c), run, Places(0, [], 0, 0));
    DrawnKept(c.cfg, s.daemon.emitted, s.attach.taken, s, p);
    places := p.frames;
  }

  /** In particular the recent lines of its frames are the last 8 of longer and longer parts of the output. */
  lemma RecentLinesAdvance(c: Setup, run: seq<Action>, s: State) returns (counts: seq<nat>)
    requires After(c, Init(c), run) == Some(s) && c.cfg.dashboard
    ensures var f, kept := s.screen.frames, Kept(s.daemon.emitted);
            && |counts| == |f|
            && (forall i :: 0 <= i < |f| ==>
                  counts[i] <= |kept| && f[i].shown.recent == LastN(kept[..counts[i]], RECENT_CAP))
            && (forall i, j :: 0 <= i < j < |f| && f[i].drawer == f[j].drawer == StatusThread ==>
                  counts[i] <= counts[j])
  {
    hide After, Init, AllSections, ShownAfter, LinesAfter, Kept, LastN;
    var places := FramesFollowOutput(c, run, s);
    var cfg, lines := c.cfg, s.daemon.emitted;
    counts := seq(|places|, i requires 0 <= i < |places| => LinesAfter(cfg, lines, places[i]));
    forall i | 0 <= i < |places|
      ensures counts[i] <= |Kept(lines)|
              && s.screen.frames[i].shown.recent == LastN(Kept(lines)[..counts[i]], RECENT_CAP)
    {
      RecentIsTail(cfg, lines, places[i]);
    }
    forall i, j | 0 <= i < |places| && 0 <= j < |places| && places[i] <= places[j] ensures counts[i] <= counts[j] {
      LinesGrow(cfg, lines, places[i], places[j]);
    }
  }
}
