/**
 The build's progress percentage: phase markers against fixed weights, Gradle's live percentages,
 and milestones in EAS output, blended into one number. The Go tracker and its C++ twin.
 Fractions are exact; the regular expressions are parameters both trackers share.
 */
module Progress {
  import opened Numerals
  import opened Text
  import opened Wrappers

  const PHASES: seq<string> := ["setup", "install", "prebuild", "signing", "gradle", "eas", "collect", "done"]
  const GRADLE_WEIGHTS: seq<nat> := [2, 15, 10, 3, 65, 0, 5, 0]
  const EAS_WEIGHTS: seq<nat> := [2, 15, 0, 3, 0, 75, 5, 0]
  const MILESTONES: seq<real> := [0.1, 0.2, 0.35, 0.45, 0.55, 0.95]

  const PHASE_MARKER: string := "@@PHASE:"
  const PROGRESS_MARKER: string := "@@PROGRESS:"

  /** `gradle` gives the percentage a line shows, `eas(line, i)` whether milestone i matches it. */
  datatype Patterns = Patterns(gradle: string -> Option<nat>, eas: (string, nat) -> bool)

  /** Everything but the percentage. */
  datatype Mode = Mode(eas: bool, phase: nat, milestone: nat)

  datatype State = State(mode: Mode, percent: int)

  const START: State := State(Mode(false, 0, 0), 0)

  ghost predicate Sound(m: Mode) { m.phase < |PHASES| && m.milestone <= |MILESTONES| }

  ghost predicate Valid(t: State) { Sound(t.mode) && 0 <= t.percent <= 100 }

  type ValidState = t: State | Valid(t) witness START

  function Weights(eas: bool): (w: seq<nat>)
    ensures |w| == |PHASES|
  {
    if eas then EAS_WEIGHTS else GRADLE_WEIGHTS
  }

  function Sum(w: seq<nat>): nat { if w == [] then 0 else Sum(w[..|w| - 1]) + w[|w| - 1] }

  function PhaseBase(m: Mode): nat
    requires Sound(m)
  {
    Sum(Weights(m.eas)[..m.phase])
  }

  function PhaseWeight(m: Mode): nat
    requires Sound(m)
  {
    Weights(m.eas)[m.phase]
  }

  function PhaseIndex(id: string, from: nat): (i: int)
    requires from <= |PHASES|
    ensures i == -1 || (from <= i < |PHASES| && PHASES[i] == id)
    ensures i == -1 ==> forall k :: from <= k < |PHASES| ==> PHASES[k] != id
    decreases |PHASES| - from
  {
    if from == |PHASES| then -1 else if PHASES[from] == id then from else PhaseIndex(id, from + 1)
  }

  function UpToColon(s: string): string {
    var sep := Find(s, ":", 0);
    if sep == -1 then s else s[..sep]
  }

  function FirstMilestone(p: Patterns, line: string, from: nat): (i: nat)
    requires from <= |MILESTONES|
    ensures from <= i <= |MILESTONES|
    decreases |MILESTONES| - from
  {
    if from == |MILESTONES| || p.eas(line, from) then from else FirstMilestone(p, line, from + 1)
  }

  function Clamp(n: int): int { if n < 0 then 0 else if n > 100 then 100 else n }

  function Blend(base: nat, weight: nat, fraction: real): real { base as real + weight as real * fraction }

  function Part(m: Mode, fraction: real): real
    requires Sound(m)
  {
    Blend(PhaseBase(m), PhaseWeight(m), fraction)
  }

  function PhaseOf(line: string): (i: int)
    requires PHASE_MARKER <= line
    ensures i < |PHASES|
  {
    PhaseIndex(UpToColon(line[|PHASE_MARKER|..]), 0)
  }

  /**
   What a line aims the percentage at, and the mode after it; `within` is how the payload of a
   progress marker reads. None: the line does not affect progress.
   */
  function Aim(p: Patterns, m: Mode, line: string, within: Option<int>): (r: (Mode, Option<real>))
    requires Sound(m)
    ensures Sound(r.0)
  {
    if PHASE_MARKER <= line then
      if PhaseOf(line) < 0 then (m, None)
      else
        var m' := m.(phase := PhaseOf(line), milestone := 0);
        (m', Some(PhaseBase(m') as real))
    else if PROGRESS_MARKER <= line then
      (m, if within.None? then None else Some(Part(m, Clamp(within.value) as real / 100.0)))
    else if !m.eas && PHASES[m.phase] == "gradle" then
      var n := p.gradle(line);
      (m, if n.None? then None else Some(Part(m, n.value as real / 100.0)))
    else if m.eas && PHASES[m.phase] == "eas" then
      var i := FirstMilestone(p, line, m.milestone);
      if i == |MILESTONES| then (m, None)
      else (m.(milestone := i + 1), Some(Part(m, MILESTONES[i])))
    else (m, None)
  }

  function Round(x: real): int { (x + 0.5).Floor }

  function Max(a: int, b: int): int { if a < b then b else a }

  function Capped(x: real): int { if Round(x) > 100 then 100 else Round(x) }

  /** One line: the percentage becomes the larger of itself and the capped target. */
  function Handle(p: Patterns, t: State, line: string, within: Option<int>): (r: (State, Option<int>))
    requires Valid(t)
    ensures Valid(r.0) && r.0.percent >= t.percent
    ensures r.1.Some? ==> r.1.value == r.0.percent
    ensures r.1.None? ==> r.0.percent == t.percent
  {
    var aim := Aim(p, t.mode, line, within);
    if aim.1.None? then (State(aim.0, t.percent), None)
    else
      var percent := Max(t.percent, Capped(aim.1.value));
      (State(aim.0, percent), Some(percent))
  }

  function Payload(line: string): string
    requires PROGRESS_MARKER <= line
  {
    line[|PROGRESS_MARKER|..]
  }

  /** How the Go tracker reads a progress marker's payload. */
  function GoWithin(line: string): Option<int> {
    if PROGRESS_MARKER <= line then Atoi(Payload(line)) else None
  }

  /** How the C++ tracker reads it; a conversion error is caught. */
  function CppWithin(line: string): Option<int> {
    if PROGRESS_MARKER <= line then ParseSigned(Payload(line), TWO_TO_THE_31) else None
  }

  function WithEngine(t: State, engine: string): State { t.(mode := t.mode.(eas := engine == "eas")) }

  // ----- The Go tracker -----

  class Tracker {
    const p: Patterns
    var engine: string
    var phaseIndex: nat
    var percent: int
    var easMilestoneIdx: nat

    ghost predicate Ok()
      reads this
    {
      Valid(Now())
    }

    ghost function Now(): State
      reads this
    {
      State(Mode(engine == "eas", phaseIndex, easMilestoneIdx), percent)
    }

    constructor (p: Patterns)
      ensures this.p == p && Ok() && Now() == START
    {
      this.p := p;
      engine, phaseIndex, percent, easMilestoneIdx := "", 0, 0, 0;
    }

    method SetEngine(engine: string)
      requires Ok()
      modifies this`engine
      ensures Ok() && Now() == WithEngine(old(Now()), engine)
    {
      if engine == "eas" {
        this.engine := "eas";
      } else {
        this.engine := "gradle";
      }
    }

    method BaseForCurrentPhase() returns (base: nat)
      requires Ok()
      ensures base == PhaseBase(Now().mode)
    {
      var weights := Weights(engine == "eas");
      base := 0;
      for i := 0 to phaseIndex
        invariant base == Sum(weights[..i])
      {
        assert weights[..i + 1][..i] == weights[..i];
        base := base + weights[i];
      }
    }

    method ClampAdvance(pct: real) returns (r: int)
      requires Ok()
      modifies this`percent
      ensures Ok() && percent == Max(old(percent), Capped(pct)) == r
    {
      var rounded := (pct + 0.5).Floor;
      if rounded > percent { percent := rounded; }
      if percent > 100 { percent := 100; }
      return percent;
    }

    method HandleLine(line: string) returns (pct: Option<int>)
      requires Ok()
      modifies this
      ensures Ok() && (Now(), pct) == Handle(p, old(Now()), line, GoWithin(line))
      ensures (engine == "eas") == old(engine == "eas")
    {
      hide PhaseBase, FirstMilestone, PhaseOf, Atoi, ParseSigned, Round, Blend, Capped;
      if PHASE_MARKER <= line {
        var idx := PhaseOf(line);
        if idx < 0 { return None; }
        phaseIndex := idx;
        easMilestoneIdx := 0;
        var base := BaseForCurrentPhase();
        var r := ClampAdvance(base as real);
        return Some(r);
      }
      var weight := Weights(engine == "eas")[phaseIndex];
      var base := BaseForCurrentPhase();
      if PROGRESS_MARKER <= line {
        var within := Atoi(Payload(line));
        if within.None? { return None; }
        var fraction := Clamp(within.value) as real / 100.0;
        var r := ClampAdvance(Blend(base, weight, fraction));
        return Some(r);
      }
      if engine != "eas" && PHASES[phaseIndex] == "gradle" {
        var n := p.gradle(line);
        if n.None? { return None; }
        var r := ClampAdvance(Blend(base, weight, (n.value as real / 100.0)));
        return Some(r);
      }
      if engine == "eas" && PHASES[phaseIndex] == "eas" {
        var i := MatchMilestone(line);
        if i == |MILESTONES| { return None; }
        easMilestoneIdx := i + 1;
        var r := ClampAdvance(Blend(base, weight, MILESTONES[i]));
        return Some(r);
      }
      return None;
    }

    method MatchMilestone(line: string) returns (i: nat)
      requires Ok()
      ensures i == FirstMilestone(p, line, easMilestoneIdx)
    {
      i := easMilestoneIdx;
      while i < |MILESTONES| && !p.eas(line, i)
        invariant i <= |MILESTONES|
        invariant FirstMilestone(p, line, i) == FirstMilestone(p, line, easMilestoneIdx)
      {
        i := i + 1;
      }
    }
  }

  // ----- The C++ twin -----

  class BuildProgressTracker {
    const p: Patterns
    var engine_: string
    var phaseIndex_: nat
    var percent_: int
    var easMilestoneIdx_: nat

    ghost predicate Ok()
      reads this
    {
      Valid(Now()) && (engine_ == "gradle" || engine_ == "eas")
    }

    ghost function Now(): State
      reads this
    {
      State(Mode(engine_ == "eas", phaseIndex_, easMilestoneIdx_), percent_)
    }

    constructor (p: Patterns)
      ensures this.p == p && Ok() && Now() == START
    {
      this.p := p;
      engine_, phaseIndex_, percent_, easMilestoneIdx_ := "gradle", 0, 0, 0;
    }

    method SetEngine(engine: string)
      requires Ok()
      modifies this`engine_
      ensures Ok() && Now() == WithEngine(old(Now()), engine)
    {
      engine_ := if engine == "eas" then "eas" else "gradle";
    }

    method BaseForCurrentPhase() returns (base: nat)
      requires Ok()
      ensures base == PhaseBase(Now().mode)
    {
      var weights := if engine_ == "eas" then EAS_WEIGHTS else GRADLE_WEIGHTS;
      base := 0;
      for i := 0 to phaseIndex_
        invariant base == Sum(weights[..i])
      {
        assert weights[..i + 1][..i] == weights[..i];
        base := base + weights[i];
      }
    }

    method ClampAdvance(pct: real) returns (r: int)
      requires Ok()
      modifies this`percent_
      ensures Ok() && percent_ == Max(old(percent_), Capped(pct)) == r
    {
      var rounded := (pct + 0.5).Floor;
      percent_ := Max(percent_, if rounded < 100 then rounded else 100);
      return percent_;
    }

    method HandleLine(line: string) returns (pct: Option<int>)
      requires Ok()
      modifies this
      ensures Ok() && (Now(), pct) == Handle(p, old(Now()), line, CppWithin(line))
    {
      hide PhaseBase, FirstMilestone, PhaseOf, Atoi, ParseSigned, Round, Blend, Capped;
      if PHASE_MARKER <= line {
        var idx := PhaseOf(line);
        if idx < 0 { return None; }
        phaseIndex_ := idx;
        easMilestoneIdx_ := 0;
        var base := BaseForCurrentPhase();
        var r := ClampAdvance(base as real);
        return Some(r);
      }
      var weight := Weights(engine_ == "eas")[phaseIndex_];
      var base := BaseForCurrentPhase();
      if PROGRESS_MARKER <= line {
        var within := ParseSigned(Payload(line), TWO_TO_THE_31);
        if within.None? { return None; }
        var clamped := if within.value < 100 then within.value else 100;
        var fraction := (if clamped < 0 then 0 else clamped) as real / 100.0;
        var r := ClampAdvance(Blend(base, weight, fraction));
        return Some(r);
      }
      if engine_ == "gradle" && PHASES[phaseIndex_] == "gradle" {
        var n := p.gradle(line);
        if n.None? { return None; }
        var r := ClampAdvance(Blend(base, weight, (n.value as real / 100.0)));
        return Some(r);
      }
      if engine_ == "eas" && PHASES[phaseIndex_] == "eas" {
        var i := MatchMilestone(line);
        if i == |MILESTONES| { return None; }
        easMilestoneIdx_ := i + 1;
        var r := ClampAdvance(Blend(base, weight, MILESTONES[i]));
        return Some(r);
      }
      return None;
    }

    method MatchMilestone(line: string) returns (i: nat)
      requires Ok()
      ensures i == FirstMilestone(p, line, easMilestoneIdx_)
    {
      for k := easMilestoneIdx_ to |MILESTONES|
        invariant FirstMilestone(p, line, k) == FirstMilestone(p, line, easMilestoneIdx_)
      {
        if p.eas(line, k) { return k; }
      }
      return |MILESTONES|;
    }
  }

  // ----- Whole runs -----

  datatype Event = Line(text: string) | Engine(name: string)

  function Step(p: Patterns, t: State, e: Event): (r: State)
    requires Valid(t)
    ensures Valid(r) && r.percent >= t.percent
  {
    match e
    case Line(text) => Handle(p, t, text, GoWithin(text)).0
    case Engine(name) => WithEngine(t, name)
  }

  function Run(p: Patterns, t: State, events: seq<Event>): (r: State)
    requires Valid(t)
    ensures Valid(r)
    decreases |events|
  {
    if events == [] then t else Run(p, Step(p, t, events[0]), events[1..])
  }

  function Maximum(x: int, s: seq<int>): (r: int)
    ensures r == x || r in s
    ensures r >= x && forall i :: 0 <= i < |s| ==> s[i] <= r
  {
    if s == [] then x else Max(s[|s| - 1], Maximum(x, s[..|s| - 1]))
  }

  /** The mode after an event; the percentage plays no part in it. */
  function Advance(p: Patterns, m: Mode, e: Event): (r: Mode)
    requires Sound(m)
    ensures Sound(r)
  {
    match e
    case Line(text) => Aim(p, m, text, GoWithin(text)).0
    case Engine(name) => m.(eas := name == "eas")
  }

  /** Every target the events aim at, capped at 100, in order. */
  function Targets(p: Patterns, m: Mode, events: seq<Event>): seq<int>
    requires Sound(m)
    decreases |events|
  {
    if events == [] then []
    else
      var aimed := if events[0].Line? then Aim(p, m, events[0].text, GoWithin(events[0].text)).1 else None;
      (if aimed.Some? then [Capped(aimed.value)] else []) + Targets(p, Advance(p, m, events[0]), events[1..])
  }

  lemma {:induction false} MaximumFirst(x: int, y: int, s: seq<int>)
    ensures Maximum(x, [y] + s) == Maximum(Max(x, y), s)
  {
    if s == [] {
      assert ([y] + s)[..0] == [];
    } else {
      assert ([y] + s)[..|s|] == [y] + s[..|s| - 1];
      MaximumFirst(x, y, s[..|s| - 1]);
    }
  }

  /** The percentage is the largest target seen so far, whatever the order and the engine switches. */
  lemma {:induction false} PercentIsMaximum(p: Patterns, t: State, events: seq<Event>)
    requires Valid(t)
    ensures Run(p, t, events).percent == Maximum(t.percent, Targets(p, t.mode, events))
    decreases |events|
  {
    hide Aim, Capped, GoWithin, Maximum;
    if events == [] {
      MaximumNone(t.percent);
    } else {
      var t', rest := Step(p, t, events[0]), events[1..];
      PercentIsMaximum(p, t', rest);
      assert t'.mode == Advance(p, t.mode, events[0]);
      var later := Targets(p, t'.mode, rest);
      if events[0].Line? {
        var aimed := Aim(p, t.mode, events[0].text, GoWithin(events[0].text)).1;
        if aimed.Some? {
          MaximumFirst(t.percent, Capped(aimed.value), later);
        } else {
          assert [] + later == later;
        }
      } else {
        assert [] + later == later;
      }
    }
  }

  lemma MaximumNone(x: int)
    ensures Maximum(x, []) == x
  {
  }

  lemma {:induction false} RunAppend(p: Patterns, t: State, a: seq<Event>, b: seq<Event>)
    requires Valid(t)
    ensures Run(p, t, a + b) == Run(p, Run(p, t, a), b)
    ensures Run(p, t, a + b).percent >= Run(p, t, a).percent
    decreases |a| + |b|
  {
    hide Step;
    if a != [] {
      assert (a + b)[0] == a[0] && (a + b)[1..] == a[1..] + b;
      RunAppend(p, Step(p, t, a[0]), a[1..], b);
    } else {
      assert a + b == b;
      if b != [] {
        RunAppend(p, Step(p, t, b[0]), [], b[1..]);
        assert [] + b[1..] == b[1..];
      }
    }
  }

  lemma WeightsTotal(eas: bool)
    ensures Sum(Weights(eas)[..7]) == 100
  {
    var w := Weights(eas);
    SumStep(w, 0);
    SumStep(w, 1);
    SumStep(w, 2);
    SumStep(w, 3);
    SumStep(w, 4);
    SumStep(w, 5);
    SumStep(w, 6);
  }

  lemma PhaseDone()
    ensures PhaseIndex("done", 0) == 7
  {
  }

  /** A done marker brings the percentage to 100 under either engine, whatever came before. */
  lemma DoneIsComplete(p: Patterns, t: State, line: string)
    requires Valid(t) && PHASE_MARKER <= line && UpToColon(line[|PHASE_MARKER|..]) == "done"
    ensures Step(p, t, Line(line)).percent == 100
  {
    hide UpToColon, PhaseIndex;
    PhaseDone();
    WeightsTotal(t.mode.eas);
    var m := t.mode.(phase := 7, milestone := 0);
    assert Aim(p, t.mode, line, GoWithin(line)) == (m, Some(PhaseBase(m) as real));
  }

  /** The milestones that fire, as indices into the list. */
  function Fired(p: Patterns, m: Mode, events: seq<Event>): seq<nat>
    requires Sound(m)
    decreases |events|
  {
    if events == [] then []
    else
      var m' := Advance(p, m, events[0]);
      (if m'.milestone > m.milestone then [m'.milestone - 1] else []) + Fired(p, m', events[1..])
  }

  /** Strictly increasing indices into the list, from `low` on. */
  ghost predicate Rising(f: seq<nat>, low: nat) {
    && (forall i :: 0 <= i < |f| ==> low <= f[i] < |MILESTONES|)
    && (forall i, j :: 0 <= i < j < |f| ==> f[i] < f[j])
  }

  lemma RisingCons(x: nat, f: seq<nat>, low: nat)
    requires low <= x < |MILESTONES| && Rising(f, x + 1)
    ensures Rising([x] + f, low)
  {
  }

  /** Between phase markers milestones fire in list order, so none fires twice. */
  lemma {:induction false} MilestonesFireOnce(p: Patterns, m: Mode, events: seq<Event>)
    requires Sound(m)
    requires forall i :: 0 <= i < |events| && events[i].Line? ==> !(PHASE_MARKER <= events[i].text)
    ensures Rising(Fired(p, m, events), m.milestone)
    decreases |events|
  {
    hide Part, Capped, GoWithin, PhaseOf;
    if events != [] {
      assert events[0].Line? ==> !(PHASE_MARKER <= events[0].text);
      var m' := Advance(p, m, events[0]);
      MilestonesFireOnce(p, m', events[1..]);
      var later := Fired(p, m', events[1..]);
      if m'.milestone > m.milestone {
        RisingCons(m'.milestone - 1, later, m.milestone);
      } else {
        assert m'.milestone == m.milestone && [] + later == later;
      }
    }
  }

  // ----- The phases do not overlap -----

  lemma {:induction false} SumStep(w: seq<nat>, i: nat)
    requires i < |w|
    ensures Sum(w[..i + 1]) == Sum(w[..i]) + w[i]
  {
    assert w[..i + 1][..i] == w[..i];
  }

  lemma {:induction false} SumMonotone(w: seq<nat>, i: nat, j: nat)
    requires i <= j <= |w|
    ensures Sum(w[..i]) <= Sum(w[..j])
    decreases j
  {
    if i < j {
      SumStep(w, j - 1);
      SumMonotone(w, i, j - 1);
    }
  }

  lemma Scaled(w: nat, n: int)
    requires 0 <= n <= 100
    ensures 0.0 <= w as real * (n as real / 100.0) <= w as real
  {
    assert 0.0 <= n as real / 100.0 <= 1.0;
    ScaledReal(w as real, n as real / 100.0);
  }

  lemma ScaledReal(w: real, f: real)
    requires 0.0 <= w && 0.0 <= f <= 1.0
    ensures 0.0 <= w * f <= w
  {
    assert w * f <= w * 1.0;
  }

  /** A progress marker aims inside its own phase's share, which ends where the next one starts. */
  lemma MarkerStaysInPhase(p: Patterns, m: Mode, line: string)
    requires Sound(m) && PROGRESS_MARKER <= line && GoWithin(line).Some?
    ensures var aim := Aim(p, m, line, GoWithin(line)).1;
            && aim.Some? && 0.0 <= PhaseBase(m) as real <= aim.value
            && aim.value <= (PhaseBase(m) + PhaseWeight(m)) as real <= 100.0
    ensures m.phase + 1 < |PHASES| ==> PhaseBase(m) + PhaseWeight(m) == PhaseBase(m.(phase := m.phase + 1))
  {
    hide GoWithin, Sum;
    var w := Weights(m.eas);
    assert PHASE_MARKER[3] != PROGRESS_MARKER[3] && line[3] == PROGRESS_MARKER[3];
    assert !(PHASE_MARKER <= line);
    Scaled(PhaseWeight(m), Clamp(GoWithin(line).value));
    SumStep(w, m.phase);
    SumMonotone(w, m.phase + 1, 8);
    WeightsTotal(m.eas);
    SumStep(w, 7);
  }

  // ----- Two trackers, two number parsers -----

  lemma AtoiThenStoi(s: string)
    requires Atoi(s).Some?
    ensures var v := Atoi(s).value;
            ParseSigned(s, TWO_TO_THE_31) == if -TWO_TO_THE_31 <= v < TWO_TO_THE_31 then Some(v) else None
  {
    hide Value;
    var u := Unsigned(s);
    assert IsDigit(u[0], 10);
    DropSpaceNone(s);
    assert u + "" == u;
    DigitPrefixIs(u, "", 10);
  }

  /**
   The trackers do the same with a line exactly when it is not a progress marker, or both number
   parsers accept its payload, or both refuse it.
   */
  lemma TwinsAgreeExactly(p: Patterns, t: State, line: string)
    requires Valid(t)
    ensures Handle(p, t, line, GoWithin(line)) == Handle(p, t, line, CppWithin(line))
       <==> (PROGRESS_MARKER <= line ==>
               (Atoi(Payload(line)).Some? <==> ParseSigned(Payload(line), TWO_TO_THE_31).Some?))
  {
    hide Atoi, ParseSigned, PhaseOf, Part, Capped, FirstMilestone;
    if PROGRESS_MARKER <= line {
      assert PHASE_MARKER[3] != PROGRESS_MARKER[3] && line[3] == PROGRESS_MARKER[3];
      assert !(PHASE_MARKER <= line);
      if Atoi(Payload(line)).Some? { AtoiThenStoi(Payload(line)); }
    }
  }

  /** Plain decimal payloads, with or without a sign, that fit 32 bits. */
  ghost predicate PlainDecimal(s: string) {
    && Unsigned(s) != "" && AllDigits(Unsigned(s), 10)
    && Value(Unsigned(s), 10) < TWO_TO_THE_31
  }

  ghost predicate PlainMarkers(events: seq<Event>) {
    forall i :: 0 <= i < |events| && events[i].Line? && PROGRESS_MARKER <= events[i].text ==>
      PlainDecimal(Payload(events[i].text))
  }

  function CppStep(p: Patterns, t: State, e: Event): (r: State)
    requires Valid(t)
    ensures Valid(r)
  {
    match e
    case Line(text) => Handle(p, t, text, CppWithin(text)).0
    case Engine(name) => WithEngine(t, name)
  }

  function CppRun(p: Patterns, t: State, events: seq<Event>): (r: State)
    requires Valid(t)
    decreases |events|
  {
    if events == [] then t else CppRun(p, CppStep(p, t, events[0]), events[1..])
  }

  lemma PlainBoth(s: string)
    requires PlainDecimal(s)
    ensures Atoi(s).Some? && ParseSigned(s, TWO_TO_THE_31).Some?
  {
    hide Value;
    AtoiThenStoi(s);
  }

  /** On plain decimal markers the two trackers stay in the same state throughout. */
  lemma {:induction false} TwinsAgree(p: Patterns, t: State, events: seq<Event>)
    requires Valid(t) && PlainMarkers(events)
    ensures CppRun(p, t, events) == Run(p, t, events)
    decreases |events|
  {
    hide Handle, Atoi, ParseSigned, PlainDecimal;
    if events != [] {
      if events[0].Line? {
        if PROGRESS_MARKER <= events[0].text { PlainBoth(Payload(events[0].text)); }
        TwinsAgreeExactly(p, t, events[0].text);
      }
      TwinsAgree(p, Step(p, t, events[0]), events[1..]);
    }
  }

  /** A payload with trailing text: the C++ parser takes the number, the Go parser refuses it. */
  lemma TwinsDifferOnTrailingText()
    ensures Atoi("50%") == None && ParseSigned("50%", TWO_TO_THE_31) == Some(50)
    ensures Atoi("3000000000") == Some(3_000_000_000) && ParseSigned("3000000000", TWO_TO_THE_31) == None
  {
    DropSpaceNone("50%");
    assert Unsigned("50%") == "50%";
    assert "50%"[2] == '%';
    assert "50" + "%" == "50%";
    DigitPrefixIs("50", "%", 10);
    NumFifty();
    NumBig();
    assert Unsigned("3000000000") == "3000000000";
    AtoiThenStoi("3000000000");
  }

  lemma NumFifty()
    ensures Value("50", 10) == 50
  {
    assert "50"[..1] == "5" && "5"[..0] == "";
  }

  lemma NumBig()
    ensures Value("3000000000", 10) == 3_000_000_000
  {
    assert NumText(3_000_000_000, 10) == "3000000000" by {
      assert NumText(3, 10) == "3";
      assert NumText(30, 10) == "30";
      assert NumText(300, 10) == "300";
      assert NumText(3_000, 10) == "3000";
      assert NumText(30_000, 10) == "30000";
      assert NumText(300_000, 10) == "300000";
      assert NumText(3_000_000, 10) == "3000000";
      assert NumText(30_000_000, 10) == "30000000";
      assert NumText(300_000_000, 10) == "300000000";
    }
    ValueOfNumText(3_000_000_000, 10);
  }
}
