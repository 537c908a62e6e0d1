/**
 A terminal that interprets the bytes it is sent: text, line feeds, carriage returns and the control
 sequences for moving up and down, erasing and styling. Lines fit its width, its height is
 unbounded, every character takes one cell, and styling is invisible.
 */
module Terminal {
  import opened Numerals
  import opened StripAnsi
  import opened Text

  datatype Grid = Grid(rows: seq<string>, row: nat, col: nat)

  type Term = t: Grid | t.row < |t.rows| witness Grid([""], 0, 0)

  function Put(t: Term, c: char): Term {
    var r := t.rows[t.row];
    var padded := if |r| < t.col then r + Repeat(' ', t.col - |r|) else r;
    var after := if t.col < |padded| then padded[t.col + 1..] else "";
    Grid(t.rows[t.row := padded[..t.col] + [c] + after], t.row, t.col + 1)
  }

  function Newline(t: Term): Term {
    Grid(if t.row + 1 == |t.rows| then t.rows + [""] else t.rows, t.row + 1, 0)
  }

  function Up(t: Term, n: nat): Term { t.(row := if n <= t.row then t.row - n else 0) }

  function Down(t: Term, n: nat): Term {
    var target := t.row + n;
    Grid(if target < |t.rows| then t.rows else t.rows + Repeat("", target + 1 - |t.rows|), target, t.col)
  }

  function EraseLine(t: Term): Term { t.(rows := t.rows[t.row := ""]) }

  /** Erases from the cursor on; rows with nothing on them are not kept. */
  function EraseBelow(t: Term): Term {
    var r := t.rows[t.row];
    t.(rows := t.rows[..t.row] + [if t.col < |r| then r[..t.col] else r])
  }

  /**
   A control sequence by its first parameter; a count of 0 moves by 1, as terminals do. Sequences
   that place the cursor in other ways are not part of this model.
   */
  function Obey(t: Term, n: nat, final: char): Term {
    if final == 'A' then Up(t, if n == 0 then 1 else n)
    else if final == 'B' then Down(t, if n == 0 then 1 else n)
    else if final == 'J' && n == 0 then EraseBelow(t)
    else if final == 'K' && n == 2 then EraseLine(t)
    else t
  }

  /** The number a parameter list starts with, 0 when it starts with none. */
  function FirstParameter(parameters: string): nat { Value(DigitPrefix(parameters, 10), 10) }

  /** The terminal after it has been sent `s`. */
  function Show(t: Term, s: string): Term
    decreases |s|
  {
    if s == "" then t
    else if s[0] == '\n' then Show(Newline(t), s[1..])
    else if s[0] == '\r' then Show(t.(col := 0), s[1..])
    else if s[0] == ESC && |s| >= 2 then
      if s[1] == '[' then
        var e := CsiEnd(s, 2);
        if e == |s| then t else Show(Obey(t, FirstParameter(s[2..e]), s[e]), s[e + 1..])
      else Show(t, s[SkipSequence(s, 0)..])
    else if Control(s[0]) then Show(t, s[1..])
    else Show(Put(t, s[0]), s[1..])
  }

  function PutAll(t: Term, text: string): Term
    decreases |text|
  {
    if text == "" then t else PutAll(Put(t, text[0]), text[1..])
  }

  // ----- One piece of output at a time -----

  lemma ShowNewline(t: Term, rest: string)
    ensures Show(t, "\n" + rest) == Show(Newline(t), rest)
  {
    assert ("\n" + rest)[1..] == rest;
  }

  lemma ShowReturn(t: Term, rest: string)
    ensures Show(t, "\r" + rest) == Show(t.(col := 0), rest)
  {
    assert ("\r" + rest)[1..] == rest;
  }

  lemma ShowSequence(t: Term, parameters: string, final: char, rest: string)
    requires WellFormed(Csi(parameters, final))
    ensures Show(t, ControlSeq(parameters, final) + rest) == Show(Obey(t, FirstParameter(parameters), final), rest)
  {
    hide Obey, FirstParameter;
    var s, e := ControlSeq(parameters, final) + rest, 2 + |parameters|;
    assert s == [ESC, '['] + parameters + [final] + rest;
    assert s[e] == final && s[2..e] == parameters && s[e + 1..] == rest;
    forall k | 2 <= k < e ensures !Final(s[k]) { assert s[k] == parameters[k - 2]; }
    CsiEndIs(s, 2, e);
  }

  /** A sequence whose only parameter is a number. */
  lemma ShowCsi(t: Term, digits: string, final: char, rest: string)
    requires AllDigits(digits, 10) && Final(final)
    ensures Show(t, ControlSeq(digits, final) + rest) == Show(Obey(t, Value(digits, 10), final), rest)
  {
    hide Show, Obey, Value, ControlSeq;
    DigitsNotFinal(digits);
    ShowSequence(t, digits, final, rest);
    DigitPrefixIs(digits, "", 10);
    assert digits + "" == digits;
  }

  lemma DigitsNotFinal(digits: string)
    requires AllDigits(digits, 10)
    ensures forall i :: 0 <= i < |digits| ==> !Final(digits[i])
  {
  }

  lemma {:induction false} ShowText(t: Term, text: string, rest: string)
    requires Printable(text)
    ensures Show(t, text + rest) == Show(PutAll(t, text), rest)
    decreases |text|
  {
    hide Put;
    if text == "" {
      assert text + rest == rest;
    } else {
      var s := text + rest;
      assert !Control(text[0]) && s[0] == text[0] && s[1..] == text[1..] + rest;
      ShowText(Put(t, text[0]), text[1..], rest);
    }
  }

  lemma {:induction false} PutAllAppend(t: Term, a: string, b: string)
    ensures PutAll(t, a + b) == PutAll(PutAll(t, a), b)
    decreases |a|
  {
    hide Put;
    if a == "" {
      assert a + b == b;
    } else {
      assert (a + b)[0] == a[0] && (a + b)[1..] == a[1..] + b;
      PutAllAppend(Put(t, a[0]), a[1..], b);
    }
  }

  /** Writing at the end of a row extends it. */
  lemma {:induction false} PutAtEnd(t: Term, text: string)
    requires t.col == |t.rows[t.row]|
    ensures PutAll(t, text) == Grid(t.rows[t.row := t.rows[t.row] + text], t.row, t.col + |text|)
    decreases |text|
  {
    if text == "" {
      assert t.rows[t.row] + text == t.rows[t.row];
      assert t.rows[t.row := t.rows[t.row]] == t.rows;
    } else {
      var r := t.rows[t.row];
      var u := Put(t, text[0]);
      assert r[..t.col] + [text[0]] + "" == r + [text[0]];
      assert u == Grid(t.rows[t.row := r + [text[0]]], t.row, t.col + 1);
      PutAtEnd(u, text[1..]);
      assert r + [text[0]] + text[1..] == r + text;
    }
  }

  // ----- Output that shows a text -----

  /** Sending `s` has the effect of writing `text`. */
  ghost predicate Shows(s: string, text: string) {
    forall t: Term, rest: string :: Show(t, s + rest) == Show(PutAll(t, text), rest)
  }

  lemma ShowsText(text: string)
    requires Printable(text)
    ensures Shows(text, text)
  {
    forall t: Term, rest: string ensures Show(t, text + rest) == Show(PutAll(t, text), rest) {
      ShowText(t, text, rest);
    }
  }

  /** A style, with any number of parameters. */
  lemma ShowsStyle(code: string)
    requires WellFormed(Csi(code, 'm'))
    ensures Shows(ControlSeq(code, 'm'), "")
  {
    hide Show;
    forall t: Term, rest: string ensures Show(t, ControlSeq(code, 'm') + rest) == Show(PutAll(t, ""), rest) {
      ShowSequence(t, code, 'm', rest);
    }
  }

  lemma ShowsOsc(payload: string, bell: bool)
    requires WellFormed(Osc(payload, bell))
    ensures Shows(Bytes(Osc(payload, bell)), "")
  {
    var b := Bytes(Osc(payload, bell));
    forall t: Term, rest: string ensures Show(t, b + rest) == Show(PutAll(t, ""), rest) {
      SkipOsc(b + rest, 0, payload, bell);
      assert (b + rest)[|b|..] == rest;
      hide SkipSequence;
    }
  }

  lemma ShowsBell()
    ensures Shows([BEL], "")
  {
    forall t: Term, rest: string ensures Show(t, [BEL] + rest) == Show(PutAll(t, ""), rest) {
      assert ([BEL] + rest)[1..] == rest;
    }
  }

  lemma ShowsBoth(a: string, x: string, b: string, y: string)
    requires Shows(a, x) && Shows(b, y)
    ensures Shows(a + b, x + y)
  {
    hide Show, PutAll;
    forall t: Term, rest: string ensures Show(t, a + b + rest) == Show(PutAll(t, x + y), rest) {
      Assoc(a, b, rest);
      PutAllAppend(t, x, y);
    }
  }

  /** Text, styles, operating-system commands (such as links and titles) and the bell. */
  ghost predicate Silent(g: Segment) {
    WellFormed(g) && (g.Plain? || (g.Csi? && g.final == 'm') || g.Osc? || g == Lone(BEL))
  }

  lemma SegmentShows(g: Segment)
    requires Silent(g)
    ensures Shows(Bytes(g), if g.Plain? then g.text else "")
  {
    hide Shows, ControlSeq;
    match g
    case Plain(text) => ShowsText(text);
    case Csi(parameters, _) => ShowsStyle(parameters);
    case Osc(payload, bell) => ShowsOsc(payload, bell);
    case Lone(_) => ShowsBell();
  }

  lemma {:induction false} AllShow(gs: seq<Segment>)
    requires forall k :: 0 <= k < |gs| ==> Silent(gs[k])
    ensures Shows(AllBytes(gs), AllText(gs))
    decreases |gs|
  {
    hide Shows, Bytes;
    if gs == [] {
      ShowsText("");
    } else {
      SegmentShows(gs[0]);
      AllShow(gs[1..]);
      ShowsBoth(Bytes(gs[0]), if gs[0].Plain? then gs[0].text else "", AllBytes(gs[1..]), AllText(gs[1..]));
    }
  }

  /** What a terminal shows of styled text is exactly what stripping leaves of it. */
  lemma ShowsStripped(gs: seq<Segment>)
    requires forall k :: 0 <= k < |gs| ==> Silent(gs[k])
    ensures Shows(AllBytes(gs), Strip(AllBytes(gs), 0))
  {
    hide Shows, Bytes, WellFormed, Strip;
    AllShow(gs);
    SegmentsStripped(gs);
  }

  /** The colour helpers: a style before and a reset after, or nothing when colours are off. */
  function Styled(enabled: bool, code: string, s: string): string {
    if enabled then ControlSeq(code, 'm') + s + ControlSeq("0", 'm') else s
  }

  /** The style codes in use are numbers. */
  lemma CodeDigits()
    ensures AllDigits("0", 10) && AllDigits("1", 10) && AllDigits("2", 10) && AllDigits("36", 10)
  {
  }

  lemma ShowsStyled(enabled: bool, code: string, s: string, text: string)
    requires Shows(s, text) && AllDigits(code, 10)
    ensures Shows(Styled(enabled, code, s), text)
  {
    hide Shows, ControlSeq;
    CodeDigits();
    if enabled {
      DigitsNotFinal(code);
      DigitsNotFinal("0");
      ShowsStyle(code);
      ShowsStyle("0");
      ShowsBoth(ControlSeq(code, 'm'), "", s, text);
      ShowsBoth(ControlSeq(code, 'm') + s, "" + text, ControlSeq("0", 'm'), "");
      assert "" + text + "" == text;
    }
  }

  // ----- Whole frames -----

  /** The bytes of lines that each end in a line feed. */
  function Ended(lines: seq<string>): string {
    if lines == [] then "" else lines[0] + "\n" + Ended(lines[1..])
  }

  lemma {:induction false} EndedSnoc(lines: seq<string>, line: string)
    ensures Ended(lines + [line]) == Ended(lines) + line + "\n"
  {
    if lines == [] {
      assert ([] + [line])[1..] == [];
      assert lines + [line] == [line];
    } else {
      assert (lines + [line])[0] == lines[0] && (lines + [line])[1..] == lines[1..] + [line];
      EndedSnoc(lines[1..], line);
      assert lines[0] + "\n" + (Ended(lines[1..]) + line + "\n") == lines[0] + "\n" + Ended(lines[1..]) + line + "\n";
    }
  }

  ghost predicate ShowsEach(lines: seq<string>, texts: seq<string>) {
    |lines| == |texts| && forall i :: 0 <= i < |lines| ==> Shows(lines[i], texts[i])
  }

  /** The cursor is at the start of an empty last row, below these rows. */
  function Below(rows: seq<string>): Term { Grid(rows + [""], |rows|, 0) }

  lemma ShowLine(rows: seq<string>, line: string, text: string, rest: string)
    requires Shows(line, text)
    ensures Show(Below(rows), line + "\n" + rest) == Show(Below(rows + [text]), rest)
  {
    hide Show, PutAll;
    var t := Below(rows);
    Assoc(line, "\n", rest);
    assert Show(t, line + ("\n" + rest)) == Show(PutAll(t, text), "\n" + rest);
    PutAtEnd(t, text);
    assert "" + text == text && t.rows[t.row := text] == rows + [text];
    ShowNewline(PutAll(t, text), rest);
  }

  lemma {:induction false} ShowFrame(rows: seq<string>, lines: seq<string>, texts: seq<string>, rest: string)
    requires ShowsEach(lines, texts)
    ensures Show(Below(rows), Ended(lines) + rest) == Show(Below(rows + texts), rest)
    decreases |lines|
  {
    hide Show, Shows, Below;
    if lines == [] {
      assert "" + rest == rest && rows + texts == rows;
    } else {
      var later := Ended(lines[1..]) + rest;
      assert Ended(lines) + rest == lines[0] + "\n" + later;
      ShowLine(rows, lines[0], texts[0], later);
      ShowFrame(rows + [texts[0]], lines[1..], texts[1..], rest);
      assert rows + [texts[0]] + texts[1..] == rows + texts;
    }
  }

  /** What repainting sends: when a frame of `previous` lines is on the screen it is erased first. */
  function Paint(previous: nat, lines: seq<string>): string {
    (if previous > 0 then ControlSeq(NumText(previous, 10), 'A') + ControlSeq("0", 'J') else "") + Ended(lines)
  }

  lemma ValueZero()
    ensures Value("0", 10) == 0 && AllDigits("0", 10)
  {
    assert "0"[..0] == "";
  }

  lemma ShowErase(above: seq<string>, before: seq<string>, rest: string)
    requires before != []
    ensures Show(Below(above + before), ControlSeq(NumText(|before|, 10), 'A') + ControlSeq("0", 'J') + rest)
         == Show(Below(above), rest)
  {
    hide Show, ControlSeq, Value, NumText;
    var n := |before|;
    var t := Below(above + before);
    Assoc(ControlSeq(NumText(n, 10), 'A'), ControlSeq("0", 'J'), rest);
    ShowCsi(t, NumText(n, 10), 'A', ControlSeq("0", 'J') + rest);
    ValueOfNumText(n, 10);
    ValueZero();
    ShowCsi(Up(t, n), "0", 'J', rest);
    assert t.rows[..|above|] == above;
    if n > 0 { assert t.rows[|above|] == before[0]; }
    assert EraseBelow(Up(t, n)) == Below(above);
  }

  /** Repainting replaces the previous frame and leaves everything above it. */
  lemma Repaint(above: seq<string>, before: seq<string>, lines: seq<string>, texts: seq<string>, rest: string)
    requires ShowsEach(lines, texts)
    ensures Show(Below(above + before), Paint(|before|, lines) + rest) == Show(Below(above + texts), rest)
  {
    hide Show, Below, Ended, ControlSeq, ShowsEach;
    var up := if |before| > 0 then ControlSeq(NumText(|before|, 10), 'A') + ControlSeq("0", 'J') else "";
    Assoc(up, Ended(lines), rest);
    if |before| > 0 {
      ShowErase(above, before, Ended(lines) + rest);
    } else {
      assert above + before == above && "" + (Ended(lines) + rest) == Ended(lines) + rest;
    }
    ShowFrame(above, lines, texts, rest);
  }

  /** Everything sent by painting these frames one after the other. */
  function Painted(frames: seq<seq<string>>): string {
    if frames == [] then ""
    else
      var n := |frames| - 1;
      Painted(frames[..n]) + Paint(Height(frames[..n]), frames[n])
  }

  /** Line feeds in the frame on the screen. */
  function Height(frames: seq<seq<string>>): nat {
    if frames == [] then 0 else Newlines(Ended(frames[|frames| - 1]))
  }

  function Latest(frames: seq<seq<string>>): seq<string> { if frames == [] then [] else frames[|frames| - 1] }

  /** After any number of frames the screen is what was above, then exactly the latest one. */
  lemma {:induction false} OnlyLatestFrame(above: seq<string>, frames: seq<seq<string>>, texts: seq<seq<string>>,
                                           rest: string)
    requires |frames| == |texts| && AllNewlineFree(frames)
    requires forall i :: 0 <= i < |frames| ==> ShowsEach(frames[i], texts[i])
    ensures Show(Below(above), Painted(frames) + rest) == Show(Below(above + Latest(texts)), rest)
    decreases |frames|
  {
    hide Show, Below, Paint, ShowsEach, NewlineFree;
    if frames == [] {
      assert "" + rest == rest && above + Latest(texts) == above;
    } else {
      var n := |frames| - 1;
      var next := Paint(Height(frames[..n]), frames[n]);
      Assoc(Painted(frames[..n]), next, rest);
      OnlyLatestFrame(above, frames[..n], texts[..n], next + rest);
      HeightOfLatest(frames[..n], texts[..n]);
      Repaint(above, Latest(texts[..n]), frames[n], texts[n], rest);
    }
  }

  /** Without stray line feeds, the line feeds counted are the lines to erase. */
  lemma HeightOfLatest(frames: seq<seq<string>>, texts: seq<seq<string>>)
    requires |frames| == |texts| && AllNewlineFree(frames)
    requires forall i :: 0 <= i < |frames| ==> ShowsEach(frames[i], texts[i])
    ensures Height(frames) == |Latest(texts)|
  {
    hide NewlineFree, Newlines, Ended;
    if frames != [] { NewlinesOfFrame(frames[|frames| - 1]); }
  }

  /**
   Why the lines must only show text: a line that ends by moving the cursor up leaves it one row too
   high, so that what is sent next overwrites that line.
   */
  lemma CursorCodeMisplaces(above: seq<string>, line: string)
    requires above != [] && Printable(line)
    ensures Show(Below(above), Ended([line + ControlSeq("1", 'A')])) == Grid(above + [line], |above|, 0)
  {
    hide Show, ControlSeq, Value;
    var t, up := Below(above), ControlSeq("1", 'A');
    assert [line + up][1..] == [];
    EndsText(line, up);
    ShowText(t, line, up + ("\n" + ""));
    PutAtEnd(t, line);
    assert "" + line == line && t.rows[t.row := line] == above + [line];
    ValueOne();
    ShowCsi(PutAll(t, line), "1", 'A', "\n" + "");
    var u := Up(PutAll(t, line), 1);
    ShowNewline(u, "");
    ShowNothing(Newline(u));
  }

  lemma EndsText(line: string, up: string)
    ensures Ended([line + up]) == line + (up + ("\n" + ""))
  {
    assert [line + up][1..] == [];
  }

  lemma ValueOne()
    ensures Value("1", 10) == 1 && AllDigits("1", 10)
  {
    assert "1"[..0] == "";
  }

  // ----- Building and counting frames -----

  lemma {:induction false} CountAppend(a: string, b: string, c: char)
    ensures Count(a + b, c) == Count(a, c) + Count(b, c)
  {
    if a == "" {
      assert a + b == b;
    } else {
      assert (a + b)[0] == a[0] && (a + b)[1..] == a[1..] + b;
      CountAppend(a[1..], b, c);
    }
  }

  function Count(s: string, c: char): nat {
    if s == "" then 0 else (if s[0] == c then 1 else 0) + Count(s[1..], c)
  }

  function Newlines(s: string): nat { Count(s, '\n') }

  method AppendLine(out: string, line: string, ghost lines: seq<string>) returns (r: string)
    requires out == Ended(lines)
    ensures r == Ended(lines + [line])
  {
    hide Ended;
    EndedSnoc(lines, line);
    r := out + line + "\n";
  }

  lemma NoLines()
    ensures Ended([]) == ""
  {
  }

  ghost predicate NewlineFree(lines: seq<string>) {
    forall i :: 0 <= i < |lines| ==> '\n' !in lines[i]
  }

  ghost predicate AllNewlineFree(frames: seq<seq<string>>) {
    forall i :: 0 <= i < |frames| ==> NewlineFree(frames[i])
  }

  lemma PaintText(previous: nat, lines: seq<string>, before: string)
    ensures before + Paint(previous, lines)
         == (if previous > 0 then before + (ControlSeq(NumText(previous, 10), 'A') + ControlSeq("0", 'J')) else before)
            + Ended(lines)
  {
    hide ControlSeq, Ended, NumText;
    if previous > 0 {
      Assoc(before, ControlSeq(NumText(previous, 10), 'A') + ControlSeq("0", 'J'), Ended(lines));
    } else {
      assert "" + Ended(lines) == Ended(lines);
    }
  }

  lemma PaintedSnoc(frames: seq<seq<string>>, lines: seq<string>)
    ensures Painted(frames + [lines]) == Painted(frames) + Paint(Height(frames), lines)
    ensures Height(frames + [lines]) == Newlines(Ended(lines))
  {
    hide Paint;
    assert (frames + [lines])[..|frames|] == frames;
  }

  lemma {:induction false} NewlinesOfFrame(lines: seq<string>)
    requires NewlineFree(lines)
    ensures Newlines(Ended(lines)) == |lines|
  {
    if lines != [] {
      NewlinesOfFrame(lines[1..]);
      CountAppend(lines[0] + "\n", Ended(lines[1..]), '\n');
      CountAppend(lines[0], "\n", '\n');
      CountNone(lines[0], '\n');
      assert "\n"[1..] == "";
    }
  }

  lemma {:induction false} CountNone(s: string, c: char)
    requires c !in s
    ensures Count(s, c) == 0
  {
    if s != "" { CountNone(s[1..], c); }
  }

  lemma EachBoth(a: seq<string>, x: seq<string>, b: seq<string>, y: seq<string>)
    requires ShowsEach(a, x) && ShowsEach(b, y)
    ensures ShowsEach(a + b, x + y)
  {
    hide Shows;
  }

  lemma ShowNothing(t: Term)
    ensures Show(t, "") == t
  {
  }

  lemma StyledNewlineFree(color: bool, code: string, s: string)
    requires AllDigits(code, 10) && '\n' !in s
    ensures '\n' !in Styled(color, code, s)
  {
  }
}
