/** The recursive-descent JSON parser: what it returns at a position, and the object that advances. */
module JsonParser {
  import opened Json
  import opened Numerals
  import opened Wrappers

  /** A value together with the position just after it. */
  datatype Parsed<+T> = Got(value: T, next: nat) | Fail(error: JsonError)

  predicate White(c: char) { c == ' ' || c == '\t' || c == '\n' || c == '\r' }

  function SkipWs(s: string, i: nat): (k: nat)
    requires i <= |s|
    ensures i <= k <= |s|
    ensures k < |s| ==> !White(s[k])
    decreases |s| - i
  {
    if i < |s| && White(s[i]) then SkipWs(s, i + 1) else i
  }

  // ----- Strings -----

  /** The byte truncations of the four branches; the high bits set by `|` make the sums exact. */
  function AppendUtf8(cp: nat): string {
    if cp <= 0x7F then [cp as char]
    else if cp <= 0x7FF then
      [(0xC0 + cp / 0x40) as char, (0x80 + cp % 0x40) as char]
    else if cp <= 0xFFFF then
      [(0xE0 + cp / 0x1000) as char, (0x80 + cp / 0x40 % 0x40) as char, (0x80 + cp % 0x40) as char]
    else
      [(0xF0 + cp / 0x40000 % 0x10) as char, (0x80 + cp / 0x1000 % 0x40) as char,
       (0x80 + cp / 0x40 % 0x40) as char, (0x80 + cp % 0x40) as char]
  }

  /** Four characters handed to std::stoul, which is lenient about all but the first digit. */
  function Hex4(s: string, i: nat): (r: Parsed<nat>)
    requires i <= |s|
    ensures r.Got? ==> r.next == i + 4 <= |s| && r.value < TWO_TO_THE_32
  {
    if i + 4 > |s| then Fail(InvalidEscape)
    else
      match ParseUnsigned(s[i..i + 4], 16, TWO_TO_THE_32)
      case None => Fail(InvalidEscape)
      case Some(cp) => Got(cp, i + 4)
  }

  /** The code point after `\u`: a high surrogate takes the next escape with it, unchecked, mod 2^32. */
  function CodePoint(s: string, i: nat): (r: Parsed<nat>)
    requires i <= |s|
    ensures r.Got? ==> i < r.next <= |s| && r.value < TWO_TO_THE_32
  {
    match Hex4(s, i)
    case Fail(e) => Fail(e)
    case Got(cp, k) =>
      if 0xD800 <= cp <= 0xDBFF && k + 1 < |s| && s[k] == '\\' && s[k + 1] == 'u' then
        match Hex4(s, k + 2)
        case Fail(e) => Fail(e)
        case Got(low, m) =>
          Got((0x10000 + (cp - 0xD800) * 0x400 + low + TWO_TO_THE_32 - 0xDC00) % TWO_TO_THE_32, m)
      else Got(cp, k)
  }

  /** What an escape stands for; `i` is just after the backslash. */
  function Escape(s: string, i: nat): (r: Parsed<string>)
    requires i < |s|
    ensures r.Got? ==> i < r.next <= |s|
  {
    match s[i]
    case '"' => Got("\"", i + 1)
    case '\\' => Got("\\", i + 1)
    case '/' => Got("/", i + 1)
    case 'b' => Got([8 as char], i + 1)
    case 'f' => Got([12 as char], i + 1)
    case 'n' => Got("\n", i + 1)
    case 'r' => Got("\r", i + 1)
    case 't' => Got("\t", i + 1)
    case 'u' =>
      (match CodePoint(s, i + 1)
       case Fail(e) => Fail(e)
       case Got(cp, k) => Got(AppendUtf8(cp), k))
    case _ => Fail(InvalidEscape)
  }

  function Prefixed(p: string, r: Parsed<string>): (q: Parsed<string>)
    ensures q.Got? <==> r.Got?
    ensures q.Got? ==> q.next == r.next && q.value == p + r.value
    ensures q.Fail? ==> q.error == r.error
  {
    match r
    case Got(v, k) => Got(p + v, k)
    case Fail(e) => Fail(e)
  }

  /** The rest of a string, up to and including its closing quote. */
  function Chars(s: string, i: nat): (r: Parsed<string>)
    requires i <= |s|
    ensures r.Got? ==> i < r.next <= |s|
    decreases |s| - i
  {
    if i == |s| then Fail(UnexpectedEnd)
    else if s[i] == '"' then Got("", i + 1)
    else if s[i] != '\\' then Prefixed([s[i]], Chars(s, i + 1))
    else if i + 1 == |s| then Fail(UnexpectedEnd)
    else
      match Escape(s, i + 1)
      case Fail(e) => Fail(e)
      case Got(x, k) => Prefixed(x, Chars(s, k))
  }

  /** Consumes one required character. */
  function Expect(s: string, i: nat, c: char): (r: Parsed<()>)
    requires i <= |s|
    ensures r.Got? ==> r.next == i + 1 <= |s|
  {
    if i == |s| then Fail(UnexpectedEnd)
    else if s[i] != c then Fail(Unexpected(s[i]))
    else Got((), i + 1)
  }

  function StringAt(s: string, i: nat): (r: Parsed<string>)
    requires i <= |s|
    ensures r.Got? ==> i < r.next <= |s|
  {
    match Expect(s, i, '"')
    case Fail(e) => Fail(e)
    case Got(_, k) => Chars(s, k)
  }

  // ----- Numbers -----

  function SkipDigits(s: string, i: nat): (k: nat)
    requires i <= |s|
    ensures i <= k <= |s|
    ensures forall x :: i <= x < k ==> '0' <= s[x] <= '9'
    ensures k < |s| ==> !('0' <= s[k] <= '9')
    decreases |s| - i
  {
    if i < |s| && '0' <= s[i] <= '9' then SkipDigits(s, i + 1) else i
  }

  function SkipSign(s: string, i: nat): (k: nat)
    requires i <= |s|
    ensures i <= k <= i + 1 && k <= |s|
  {
    if i < |s| && (s[i] == '-' || s[i] == '+') then i + 1 else i
  }

  function IntegerEnd(s: string, i: nat): (k: nat)
    requires i <= |s|
    ensures i <= k <= |s|
  {
    SkipDigits(s, SkipSign(s, i))
  }

  function FractionEnd(s: string, i: nat): (k: nat)
    requires i <= |s|
    ensures i <= k <= |s|
  {
    if i < |s| && s[i] == '.' then SkipDigits(s, i + 1) else i
  }

  function ExponentEnd(s: string, i: nat): (k: nat)
    requires i <= |s|
    ensures i <= k <= |s|
  {
    if i < |s| && (s[i] == 'e' || s[i] == 'E') then SkipDigits(s, SkipSign(s, i + 1)) else i
  }

  /** std::stod on a lexeme of sign, digits, fraction and exponent, all optional: it needs a digit. */
  function Convert(lexeme: string, integer: bool): Result<Json, JsonError> {
    var u := Unsigned(lexeme);
    if integer then
      if u == "" then Err(InvalidNumber)
      else
        var n: int := Value(u, 10);
        if n >= EXACT then Ok(Double(lexeme))
        else Ok(Number(if lexeme[0] == '-' then -n else n))
    else if u != "" && (IsDigit(u[0], 10) || (u[0] == '.' && |u| > 1 && IsDigit(u[1], 10))) then Ok(Double(lexeme))
    else Err(InvalidNumber)
  }

  function NumberAt(s: string, i: nat): (r: Parsed<Json>)
    requires i <= |s|
    ensures r.Got? ==> i < r.next <= |s| && (r.value.Number? || r.value.Double?)
  {
    var k := IntegerEnd(s, i);
    var e := ExponentEnd(s, FractionEnd(s, k));
    if e == i then Fail(InvalidNumber)
    else
      match Convert(s[i..e], e == k)
      case Err(err) => Fail(err)
      case Ok(v) => Got(v, e)
  }

  // ----- Values -----

  function Literal(s: string, i: nat, text: string, v: Json): (r: Parsed<Json>)
    requires i <= |s|
    ensures r.Got? ==> r.next == i + |text| <= |s| && r.value == v
  {
    if i + |text| <= |s| && s[i..i + |text|] == text then Got(v, i + |text|) else Fail(InvalidLiteral)
  }

  /** `i` drops by at least one character on every way back to a value, whatever the text. */
  function ValueAt(s: string, i: nat): (r: Parsed<Json>)
    requires i <= |s|
    ensures r.Got? ==> i < r.next <= |s|
    decreases |s| - i, 0
  {
    var k := SkipWs(s, i);
    if k == |s| then Fail(UnexpectedEnd)
    else if s[k] == '{' then
      var w := SkipWs(s, k + 1);
      if w == |s| then Fail(UnexpectedEnd)
      else if s[w] == '}' then Got(Object([]), w + 1)
      else MembersAt(s, w, [])
    else if s[k] == '[' then
      var w := SkipWs(s, k + 1);
      if w == |s| then Fail(UnexpectedEnd)
      else if s[w] == ']' then Got(Array([]), w + 1)
      else ItemsAt(s, w, [])
    else if s[k] == '"' then
      match StringAt(s, k)
      case Fail(e) => Fail(e)
      case Got(x, n) => Got(String(x), n)
    else if s[k] == 't' then Literal(s, k, "true", Boolean(true))
    else if s[k] == 'f' then Literal(s, k, "false", Boolean(false))
    else if s[k] == 'n' then Literal(s, k, "null", Null)
    else NumberAt(s, k)
  }

  /** The array loop: `acc` has been pushed, an item starts at `i`. */
  function ItemsAt(s: string, i: nat, acc: seq<Json>): (r: Parsed<Json>)
    requires i <= |s|
    ensures r.Got? ==> i < r.next <= |s|
    decreases |s| - i, 1
  {
    match ValueAt(s, i)
    case Fail(e) => Fail(e)
    case Got(v, n) => ItemsAfter(s, SkipWs(s, n), acc + [v])
  }

  function ItemsAfter(s: string, w: nat, acc: seq<Json>): (r: Parsed<Json>)
    requires w <= |s|
    ensures r.Got? ==> w < r.next <= |s|
    decreases |s| - w, 2
  {
    if w == |s| then Fail(UnexpectedEnd)
    else if s[w] == ']' then Got(Array(acc), w + 1)
    else if s[w] != ',' then Fail(Unexpected(s[w]))
    else ItemsAt(s, SkipWs(s, w + 1), acc)
  }

  /** The object loop: `acc` holds the members set so far, a key starts at or after `i`. */
  function MembersAt(s: string, i: nat, acc: seq<Member>): (r: Parsed<Json>)
    requires i <= |s|
    ensures r.Got? ==> i < r.next <= |s|
    decreases |s| - i, 1
  {
    match KeyAt(s, i)
    case Fail(e) => Fail(e)
    case Got(key, m) =>
      match ValueAt(s, m)
      case Fail(e) => Fail(e)
      case Got(v, n) => MembersAfter(s, SkipWs(s, n), Set(acc, key, v))
  }

  function MembersAfter(s: string, w: nat, acc: seq<Member>): (r: Parsed<Json>)
    requires w <= |s|
    ensures r.Got? ==> w < r.next <= |s|
    decreases |s| - w, 2
  {
    if w == |s| then Fail(UnexpectedEnd)
    else if s[w] == '}' then Got(Object(acc), w + 1)
    else if s[w] != ',' then Fail(Unexpected(s[w]))
    else MembersAt(s, w + 1, acc)
  }

  /** A key and its colon. */
  function KeyAt(s: string, i: nat): (r: Parsed<string>)
    requires i <= |s|
    ensures r.Got? ==> i < r.next <= |s|
  {
    match StringAt(s, SkipWs(s, i))
    case Fail(e) => Fail(e)
    case Got(key, k) =>
      match Expect(s, SkipWs(s, k), ':')
      case Fail(e) => Fail(e)
      case Got(_, m) => Got(key, m)
  }

  /** Json::parse: one value from the front; what follows it is not looked at. */
  function Parse(text: string): Result<Json, JsonError> {
    match ValueAt(text, 0)
    case Fail(e) => Err(e)
    case Got(v, _) => Ok(v)
  }

  // ----- The parser object -----

  class Parser {
    const s: string
    var i: nat

    constructor (text: string)
      ensures s == text && i == 0
    {
      s := text;
      i := 0;
    }

    /** The outcome of a call that started at `start`. */
    ghost predicate Agrees<T(!new)>(r: Result<T, JsonError>, p: Parsed<T>)
      reads this
    {
      match p
      case Got(v, n) => r == Ok(v) && i == n && n <= |s|
      case Fail(e) => r == Err(e)
    }

    method Skip()
      requires i <= |s|
      modifies this`i
      ensures i == SkipWs(s, old(i))
    {
      while i < |s| && White(s[i])
        invariant i <= |s| && SkipWs(s, i) == SkipWs(s, old(i))
      {
        i := i + 1;
      }
    }

    method Digits()
      requires i <= |s|
      modifies this`i
      ensures i == SkipDigits(s, old(i))
    {
      while i < |s| && '0' <= s[i] <= '9'
        invariant i <= |s| && SkipDigits(s, i) == SkipDigits(s, old(i))
      {
        i := i + 1;
      }
    }

    method ParseHex4() returns (r: Result<nat, JsonError>)
      requires i <= |s|
      modifies this`i
      ensures Agrees(r, Hex4(s, old(i)))
    {
      if i + 4 > |s| { return Err(InvalidEscape); }
      var cp := ParseUnsigned(s[i..i + 4], 16, TWO_TO_THE_32);
      if cp.None? { return Err(InvalidEscape); }
      i := i + 4;
      r := Ok(cp.value);
    }

    method ParseCodePoint() returns (r: Result<nat, JsonError>)
      requires i <= |s|
      modifies this`i
      ensures Agrees(r, CodePoint(s, old(i)))
    {
      hide Hex4;
      r := ParseHex4();
      if r.Err? { return; }
      var cp := r.value;
      if 0xD800 <= cp <= 0xDBFF && i + 1 < |s| && s[i] == '\\' && s[i + 1] == 'u' {
        i := i + 2;
        var low := ParseHex4();
        if low.Err? { return Err(low.error); }
        r := Ok((0x10000 + (cp - 0xD800) * 0x400 + low.value + TWO_TO_THE_32 - 0xDC00) % TWO_TO_THE_32);
      }
    }

    method ParseEscape() returns (r: Result<string, JsonError>)
      requires i < |s|
      modifies this`i
      ensures Agrees(r, Escape(s, old(i)))
    {
      hide CodePoint, AppendUtf8;
      var e := s[i];
      i := i + 1;
      if e == 'u' {
        var cp := ParseCodePoint();
        r := match cp case Ok(v) => Ok(AppendUtf8(v)) case Err(err) => Err(err);
        return;
      }
      match e
      case '"' => r := Ok("\"");
      case '\\' => r := Ok("\\");
      case '/' => r := Ok("/");
      case 'b' => r := Ok([8 as char]);
      case 'f' => r := Ok([12 as char]);
      case 'n' => r := Ok("\n");
      case 'r' => r := Ok("\r");
      case 't' => r := Ok("\t");
      case _ => r := Err(InvalidEscape);
    }

    method ParseString() returns (r: Result<string, JsonError>)
      requires i <= |s|
      modifies this`i
      ensures Agrees(r, StringAt(s, old(i)))
    {
      hide Escape;
      if i == |s| { return Err(UnexpectedEnd); }
      if s[i] != '"' { return Err(Unexpected(s[i])); }
      i := i + 1;
      ghost var goal := Chars(s, i);
      var out := "";
      PrefixedNothing(goal);
      while true
        invariant i <= |s| && goal == Prefixed(out, Chars(s, i))
        decreases |s| - i
      {
        if i == |s| { return Err(UnexpectedEnd); }
        var c := s[i];
        i := i + 1;
        if c == '"' { break; }
        if c != '\\' {
          PrefixedTwice(out, [c], Chars(s, i));
          out := out + [c];
        } else {
          if i == |s| { return Err(UnexpectedEnd); }
          var e := ParseEscape();
          if e.Err? { return Err(e.error); }
          PrefixedTwice(out, e.value, Chars(s, i));
          out := out + e.value;
        }
      }
      assert out + "" == out;
      r := Ok(out);
    }

    method ParseNumber() returns (r: Result<Json, JsonError>)
      requires i <= |s|
      modifies this`i
      ensures Agrees(r, NumberAt(s, old(i)))
    {
      hide SkipDigits, Convert;
      var start := i;
      if i < |s| && (s[i] == '-' || s[i] == '+') { i := i + 1; }
      Digits();
      var whole := i;
      assert whole == IntegerEnd(s, start);
      ParseFraction();
      ParseExponent();
      if i == start { return Err(InvalidNumber); }
      r := Convert(s[start..i], i == whole);
    }

    method ParseFraction()
      requires i <= |s|
      modifies this`i
      ensures i == FractionEnd(s, old(i))
    {
      if i < |s| && s[i] == '.' {
        i := i + 1;
        Digits();
      }
    }

    method ParseExponent()
      requires i <= |s|
      modifies this`i
      ensures i == ExponentEnd(s, old(i))
    {
      if i < |s| && (s[i] == 'e' || s[i] == 'E') {
        i := i + 1;
        if i < |s| && (s[i] == '+' || s[i] == '-') { i := i + 1; }
        Digits();
      }
    }

    method ParseLiteral(text: string, v: Json) returns (r: Result<Json, JsonError>)
      requires i <= |s|
      modifies this`i
      ensures Agrees(r, Literal(s, old(i), text, v))
    {
      if i + |text| > |s| || s[i..i + |text|] != text { return Err(InvalidLiteral); }
      i := i + |text|;
      r := Ok(v);
    }

    method ParseValue() returns (r: Result<Json, JsonError>)
      requires i <= |s|
      modifies this`i
      ensures Agrees(r, ValueAt(s, old(i)))
      decreases |s| - i, 1
    {
      hide SkipWs, StringAt, NumberAt, Literal, ItemsAt, MembersAt;
      Skip();
      SkipWsStops(s, i);
      if i == |s| { return Err(UnexpectedEnd); }
      var c := s[i];
      if c == '{' {
        r := ParseObject();
      } else if c == '[' {
        r := ParseArray();
      } else if c == '"' {
        var x := ParseString();
        r := match x case Ok(text) => Ok(String(text)) case Err(e) => Err(e);
      } else if c == 't' {
        r := ParseLiteral("true", Boolean(true));
      } else if c == 'f' {
        r := ParseLiteral("false", Boolean(false));
      } else if c == 'n' {
        r := ParseLiteral("null", Null);
      } else {
        r := ParseNumber();
      }
    }

    method ParseArray() returns (r: Result<Json, JsonError>)
      requires i < |s| && s[i] == '[' && SkipWs(s, i) == i
      modifies this`i
      ensures Agrees(r, ValueAt(s, old(i)))
      decreases |s| - i, 0
    {
      hide SkipWs, StringAt, NumberAt, Literal, ItemsAt, MembersAt, ItemsAfter;
      ghost var goal := ValueAt(s, i);
      i := i + 1;
      Skip();
      if i == |s| { return Err(UnexpectedEnd); }
      if s[i] == ']' {
        i := i + 1;
        return Ok(Array([]));
      }
      var items := [];
      while true
        invariant old(i) < i <= |s| && goal == ItemsAt(s, i, items)
        decreases |s| - i
      {
        ghost var at := i;
        var v := ParseValue();
        ItemsStep(s, at, items);
        if v.Err? { return Err(v.error); }
        items := items + [v.value];
        Skip();
        ItemsAfterStep(s, i, items);
        if i == |s| { return Err(UnexpectedEnd); }
        var c := s[i];
        i := i + 1;
        if c == ']' { return Ok(Array(items)); }
        if c != ',' { return Err(Unexpected(c)); }
        Skip();
      }
    }

    method ParseObject() returns (r: Result<Json, JsonError>)
      requires i < |s| && s[i] == '{' && SkipWs(s, i) == i
      modifies this`i
      ensures Agrees(r, ValueAt(s, old(i)))
      decreases |s| - i, 0
    {
      hide SkipWs, StringAt, NumberAt, Literal, ItemsAt, MembersAt, MembersAfter, Set;
      ghost var goal := ValueAt(s, i);
      i := i + 1;
      Skip();
      if i == |s| { return Err(UnexpectedEnd); }
      if s[i] == '}' {
        i := i + 1;
        return Ok(Object([]));
      }
      var members := [];
      while true
        invariant old(i) < i <= |s| && goal == MembersAt(s, i, members)
        decreases |s| - i
      {
        ghost var at := i;
        MembersStep(s, at, members);
        var key := ParseKey();
        if key.Err? { return Err(key.error); }
        var v := ParseValue();
        if v.Err? { return Err(v.error); }
        members := SetMember(members, key.value, v.value);
        Skip();
        MembersAfterStep(s, i, members);
        if i == |s| { return Err(UnexpectedEnd); }
        var c := s[i];
        i := i + 1;
        if c == '}' { return Ok(Object(members)); }
        if c != ',' { return Err(Unexpected(c)); }
      }
    }

    method ParseKey() returns (r: Result<string, JsonError>)
      requires i <= |s|
      modifies this`i
      ensures Agrees(r, KeyAt(s, old(i)))
    {
      hide SkipWs, StringAt;
      Skip();
      r := ParseString();
      if r.Err? { return; }
      Skip();
      if i == |s| { return Err(UnexpectedEnd); }
      if s[i] != ':' { return Err(Unexpected(s[i])); }
      i := i + 1;
    }
  }

  lemma SkipWsStops(s: string, i: nat)
    requires i <= |s| && (i < |s| ==> !White(s[i]))
    ensures SkipWs(s, i) == i
  {
  }

  lemma PrefixedNothing(r: Parsed<string>)
    ensures Prefixed("", r) == r
  {
    if r.Got? { assert "" + r.value == r.value; }
  }

  lemma PrefixedTwice(a: string, b: string, r: Parsed<string>)
    ensures Prefixed(a, Prefixed(b, r)) == Prefixed(a + b, r)
  {
    if r.Got? { assert a + (b + r.value) == a + b + r.value; }
  }

  lemma ItemsStep(s: string, i: nat, acc: seq<Json>)
    requires i <= |s|
    ensures var v := ValueAt(s, i);
            ItemsAt(s, i, acc) == if v.Fail? then v else ItemsAfter(s, SkipWs(s, v.next), acc + [v.value])
  {
  }

  lemma ItemsAfterStep(s: string, w: nat, acc: seq<Json>)
    requires w <= |s|
    ensures ItemsAfter(s, w, acc) == if w == |s| then Fail(UnexpectedEnd)
                                     else if s[w] == ']' then Got(Array(acc), w + 1)
                                     else if s[w] != ',' then Fail(Unexpected(s[w]))
                                     else ItemsAt(s, SkipWs(s, w + 1), acc)
  {
  }

  lemma MembersStep(s: string, i: nat, acc: seq<Member>)
    requires i <= |s|
    ensures var key := KeyAt(s, i);
            if key.Fail? then MembersAt(s, i, acc) == Fail(key.error)
            else var v := ValueAt(s, key.next);
              MembersAt(s, i, acc)
              == if v.Fail? then v else MembersAfter(s, SkipWs(s, v.next), Set(acc, key.value, v.value))
  {
  }

  lemma MembersAfterStep(s: string, w: nat, acc: seq<Member>)
    requires w <= |s|
    ensures MembersAfter(s, w, acc) == if w == |s| then Fail(UnexpectedEnd)
                                       else if s[w] == '}' then Got(Object(acc), w + 1)
                                       else if s[w] != ',' then Fail(Unexpected(s[w]))
                                       else MembersAt(s, w + 1, acc)
  {
  }
}
