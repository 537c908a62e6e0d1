/** Removing terminal control sequences from a line, one character per byte. */
module StripAnsi {
  import opened Text

  const ESC: char := 0x1B as char
  const BEL: char := 0x07 as char
  const TAB: char := '\t'

  predicate Control(c: char) { c < ' ' && c != TAB }

  predicate Final(c: char) { '@' <= c <= '~' }

  /** Free of control bytes other than tab. */
  ghost predicate Printable(s: string) { forall i :: 0 <= i < |s| ==> !Control(s[i]) }

  predicate StringTerminator(s: string, j: nat) { j + 1 < |s| && s[j] == ESC && s[j + 1] == '\\' }

  /** First final byte at or after `j`. */
  function CsiEnd(s: string, j: nat): (e: nat)
    requires j <= |s|
    ensures j <= e <= |s|
    decreases |s| - j
  {
    if j == |s| || Final(s[j]) then j else CsiEnd(s, j + 1)
  }

  /** First bell or string terminator at or after `j`. */
  function OscEnd(s: string, j: nat): (e: nat)
    requires j <= |s|
    ensures j <= e <= |s|
    decreases |s| - j
  {
    if j == |s| || s[j] == BEL || StringTerminator(s, j) then j else OscEnd(s, j + 1)
  }

  /** Where the sequence that starts at `i` ends. */
  function SkipSequence(s: string, i: nat): (k: nat)
    requires i + 1 < |s|
    ensures i + 2 <= k <= |s|
  {
    if s[i + 1] == '[' then
      var j := CsiEnd(s, i + 2);
      if j < |s| then j + 1 else |s|
    else if s[i + 1] == ']' then
      var j := OscEnd(s, i + 2);
      if j < |s| && s[j] == BEL then j + 1 else if j + 1 < |s| then j + 2 else |s|
    else i + 2
  }

  function Strip(s: string, i: nat): (r: string)
    requires i <= |s|
    ensures Printable(r)
    decreases |s| - i
  {
    if i == |s| then ""
    else if s[i] == ESC && i + 1 < |s| then Strip(s, SkipSequence(s, i))
    else if Control(s[i]) then Strip(s, i + 1)
    else [s[i]] + Strip(s, i + 1)
  }

  method StripAnsiEscapes(s: string) returns (out: string)
    ensures out == Strip(s, 0)
    ensures Printable(out)
  {
    hide CsiEnd, OscEnd;
    out := "";
    var i := 0;
    while i < |s|
      invariant i <= |s| && Strip(s, 0) == out + Strip(s, i)
      decreases |s| - i
    {
      var c := s[i];
      if c == ESC && i + 1 < |s| {
        var next := s[i + 1];
        if next == '[' {
          var j := ScanCsi(s, i + 2);
          i := if j < |s| then j + 1 else |s|;
          continue;
        }
        if next == ']' {
          var j := ScanOsc(s, i + 2);
          i := if j < |s| && s[j] == BEL then j + 1 else if j + 1 < |s| then j + 2 else |s|;
          continue;
        }
        i := i + 2;
        continue;
      }
      if c < ' ' && c != TAB {
        i := i + 1;
        continue;
      }
      assert out + ([c] + Strip(s, i + 1)) == out + [c] + Strip(s, i + 1);
      out := out + [c];
      i := i + 1;
    }
    assert out + "" == out;
  }

  method ScanCsi(s: string, from: nat) returns (j: nat)
    requires from <= |s|
    ensures j == CsiEnd(s, from)
  {
    j := from;
    while j < |s| && !(s[j] >= '@' && s[j] <= '~')
      invariant j <= |s| && CsiEnd(s, j) == CsiEnd(s, from)
    {
      j := j + 1;
    }
  }

  method ScanOsc(s: string, from: nat) returns (j: nat)
    requires from <= |s|
    ensures j == OscEnd(s, from)
  {
    j := from;
    while j < |s| && s[j] != BEL && !(s[j] == ESC && j + 1 < |s| && s[j + 1] == '\\')
      invariant j <= |s| && OscEnd(s, j) == OscEnd(s, from)
    {
      j := j + 1;
    }
  }

  // ----- What is left -----

  lemma {:induction false} PrintableKept(s: string, i: nat)
    requires i <= |s| && Printable(s)
    ensures Strip(s, i) == s[i..]
    decreases |s| - i
  {
    if i < |s| {
      PrintableKept(s, i + 1);
      assert !Control(s[i]) && [s[i]] + s[i + 1..] == s[i..];
    }
  }

  /** Stripping what has been stripped changes nothing. */
  lemma StripIdempotent(s: string)
    ensures Strip(Strip(s, 0), 0) == Strip(s, 0)
  {
    hide Strip;
    PrintableKept(Strip(s, 0), 0);
  }

  /** Text and the sequences a terminal does not print. */
  datatype Segment =
    | Plain(text: string)
    | Csi(parameters: string, final: char)
    | Osc(payload: string, bell: bool)
    | Pair(x: char)
    | Lone(c: char)

  ghost predicate WellFormed(g: Segment) {
    match g
    case Plain(text) => Printable(text)
    case Csi(parameters, final) => Final(final) && forall i :: 0 <= i < |parameters| ==> !Final(parameters[i])
    case Osc(payload, _) =>
      BEL !in payload && forall i :: 0 <= i < |payload| - 1 ==> !(payload[i] == ESC && payload[i + 1] == '\\')
    case Pair(x) => x != '[' && x != ']'
    case Lone(c) => Control(c) && c != ESC
  }

  function ControlSeq(parameters: string, final: char): string { [ESC, '['] + (parameters + [final]) }

  function Bytes(g: Segment): string {
    match g
    case Plain(text) => text
    case Csi(parameters, final) => ControlSeq(parameters, final)
    case Osc(payload, bell) => [ESC, ']'] + (payload + if bell then [BEL] else [ESC, '\\'])
    case Pair(x) => [ESC, x]
    case Lone(c) => [c]
  }

  function AllBytes(gs: seq<Segment>): string {
    if gs == [] then "" else Bytes(gs[0]) + AllBytes(gs[1..])
  }

  function AllText(gs: seq<Segment>): string {
    if gs == [] then "" else (if gs[0].Plain? then gs[0].text else "") + AllText(gs[1..])
  }

  lemma {:induction false} CsiEndIs(s: string, j: nat, e: nat)
    requires j <= e < |s| && Final(s[e]) && forall k :: j <= k < e ==> !Final(s[k])
    ensures CsiEnd(s, j) == e
    decreases e - j
  {
    if j < e { CsiEndIs(s, j + 1, e); }
  }

  lemma {:induction false} OscEndIs(s: string, j: nat, e: nat)
    requires j <= e < |s| && (s[e] == BEL || StringTerminator(s, e))
    requires forall k :: j <= k < e ==> s[k] != BEL && !StringTerminator(s, k)
    ensures OscEnd(s, j) == e
    decreases e - j
  {
    if j < e { OscEndIs(s, j + 1, e); }
  }

  lemma {:induction false} StripPlain(s: string, i: nat, text: string)
    requires i + |text| <= |s| && (forall k :: 0 <= k < |text| ==> s[i + k] == text[k]) && Printable(text)
    ensures Strip(s, i) == text + Strip(s, i + |text|)
    decreases |text|
  {
    hide Strip;
    var tail := Strip(s, i + |text|);
    if text != "" {
      assert s[i + 0] == text[0];
      StripKept(s, i);
      assert forall k :: 0 <= k < |text| - 1 ==> s[i + 1 + k] == s[i + (k + 1)] == text[1..][k];
      StripPlain(s, i + 1, text[1..]);
      Assoc([text[0]], text[1..], tail);
      assert [text[0]] + text[1..] == text;
    } else {
      assert text + tail == tail;
    }
  }

  lemma StripKept(s: string, i: nat)
    requires i < |s| && !Control(s[i])
    ensures Strip(s, i) == [s[i]] + Strip(s, i + 1)
  {
  }

  lemma At(s: string, i: nat, b: string)
    requires i <= |s| && b <= s[i..]
    ensures i + |b| <= |s| && forall k :: 0 <= k < |b| ==> s[i + k] == b[k]
  {
    assert forall k :: 0 <= k < |b| ==> s[i..][k] == b[k];
  }

  lemma SkipCsi(s: string, i: nat, parameters: string, final: char)
    requires i <= |s| && Bytes(Csi(parameters, final)) <= s[i..] && WellFormed(Csi(parameters, final))
    ensures i + 1 < |s| && s[i] == ESC && SkipSequence(s, i) == i + |parameters| + 3
  {
    var b := Bytes(Csi(parameters, final));
    At(s, i, b);
    var e := i + 2 + |parameters|;
    assert s[i] == b[0] && s[i + 1] == b[1] && s[e] == b[2 + |parameters|];
    forall k | i + 2 <= k < e ensures !Final(s[k]) {
      assert s[i + (k - i)] == b[k - i] == parameters[k - i - 2];
    }
    CsiEndIs(s, i + 2, e);
  }

  lemma SkipOsc(s: string, i: nat, payload: string, bell: bool)
    requires i <= |s| && Bytes(Osc(payload, bell)) <= s[i..] && WellFormed(Osc(payload, bell))
    ensures i + 1 < |s| && s[i] == ESC && SkipSequence(s, i) == i + |Bytes(Osc(payload, bell))|
  {
    var b, n := Bytes(Osc(payload, bell)), |payload|;
    At(s, i, b);
    var e := i + 2 + n;
    assert s[i] == b[0] && s[i + 1] == b[1] && s[e] == b[2 + n];
    assert !bell ==> s[e + 1] == b[3 + n];
    forall k | i + 2 <= k < e ensures s[k] != BEL && !StringTerminator(s, k) {
      assert s[k] == s[i + (k - i)] == b[k - i] == payload[k - i - 2];
      assert s[k + 1] == s[i + (k + 1 - i)] == b[k + 1 - i];
    }
    OscEndIs(s, i + 2, e);
  }

  lemma StripSegment(s: string, i: nat, g: Segment)
    requires i <= |s| && Bytes(g) <= s[i..] && WellFormed(g)
    ensures var k := i + |Bytes(g)|;
            k <= |s| && Strip(s, i) == (if g.Plain? then g.text else "") + Strip(s, k)
  {
    hide SkipSequence, Strip;
    At(s, i, Bytes(g));
    var k := i + |Bytes(g)|;
    assert "" + Strip(s, k) == Strip(s, k);
    match g
    case Plain(text) =>
      StripPlain(s, i, text);
    case Csi(parameters, final) =>
      SkipCsi(s, i, parameters, final);
      StripSequence(s, i);
    case Osc(payload, bell) =>
      SkipOsc(s, i, payload, bell);
      StripSequence(s, i);
    case Pair(x) =>
      assert s[i + 0] == Bytes(g)[0] && s[i + 1] == Bytes(g)[1];
      SkipPair(s, i);
      StripSequence(s, i);
    case Lone(c) =>
      assert s[i + 0] == Bytes(g)[0];
      StripLone(s, i);
  }

  lemma StripSequence(s: string, i: nat)
    requires i + 1 < |s| && s[i] == ESC
    ensures Strip(s, i) == Strip(s, SkipSequence(s, i))
  {
  }

  lemma StripLone(s: string, i: nat)
    requires i < |s| && Control(s[i]) && s[i] != ESC
    ensures Strip(s, i) == Strip(s, i + 1)
  {
  }

  lemma SkipPair(s: string, i: nat)
    requires i + 1 < |s| && s[i + 1] != '[' && s[i + 1] != ']'
    ensures SkipSequence(s, i) == i + 2
  {
  }

  lemma {:induction false} StripFrom(s: string, i: nat, gs: seq<Segment>)
    requires i <= |s| && s[i..] == AllBytes(gs)
    requires forall k :: 0 <= k < |gs| ==> WellFormed(gs[k])
    ensures Strip(s, i) == AllText(gs)
    decreases |gs|
  {
    hide Bytes, WellFormed, Strip;
    if gs == [] {
      StripEnd(s);
    } else {
      StripSegment(s, i, gs[0]);
      var b := Bytes(gs[0]);
      assert s[i..][|b|..] == AllBytes(gs[1..]);
      SubSlice(s, i, |s|, |b|, |s| - i);
      StripFrom(s, i + |b|, gs[1..]);
    }
  }

  lemma StripEnd(s: string)
    ensures Strip(s, |s|) == ""
  {
  }

  /** Text mixed with complete sequences and lone control bytes comes out as exactly the text. */
  lemma SegmentsStripped(gs: seq<Segment>)
    requires forall k :: 0 <= k < |gs| ==> WellFormed(gs[k])
    ensures Strip(AllBytes(gs), 0) == AllText(gs)
  {
    assert AllBytes(gs)[0..] == AllBytes(gs);
    StripFrom(AllBytes(gs), 0, gs);
  }

  /** The colour helpers: a code before the text and a reset after it. */
  function Colored(code: string, text: string): string {
    ControlSeq(code, 'm') + (text + ControlSeq("0", 'm'))
  }

  /** Stripping undoes the colouring of any printable text. */
  lemma ColorStripped(code: string, text: string)
    requires Printable(text) && forall i :: 0 <= i < |code| ==> '0' <= code[i] <= '9'
    ensures Strip(Colored(code, text), 0) == text
  {
    hide Strip, AllBytes, AllText;
    var reset := [Csi("0", 'm')];
    var rest := [Plain(text)] + reset;
    var gs := [Csi(code, 'm')] + rest;
    SegmentsStripped(gs);
    OneSegment(Csi("0", 'm'), []);
    OneSegment(Plain(text), reset);
    OneSegment(Csi(code, 'm'), rest);
    NoSegments();
    assert reset == reset + [] && ControlSeq("0", 'm') + "" == ControlSeq("0", 'm');
    assert text + "" == text && "" + text == text;
  }

  lemma OneSegment(g: Segment, gs: seq<Segment>)
    ensures AllBytes([g] + gs) == Bytes(g) + AllBytes(gs)
    ensures AllText([g] + gs) == (if g.Plain? then g.text else "") + AllText(gs)
  {
    assert ([g] + gs)[1..] == gs;
  }

  lemma NoSegments()
    ensures AllBytes([]) == "" && AllText([]) == ""
  {
  }
}
