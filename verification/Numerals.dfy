/** Positional numerals and the C library's conversions from text. */
module Numerals {
  import opened Wrappers

  const TWO_TO_THE_31: int := 0x8000_0000
  const TWO_TO_THE_32: nat := 0x1_0000_0000
  const TWO_TO_THE_63: int := 0x8000_0000_0000_0000
  const TWO_TO_THE_64: nat := 0x1_0000_0000_0000_0000

  /** The bases the programs use; with the base known, the arithmetic below is linear. */
  type Base = b: nat | b == 8 || b == 10 || b == 16 witness 10

  function Times(n: nat, base: Base): nat {
    if base == 8 then n * 8 else if base == 10 then n * 10 else n * 16
  }

  function Quotient(n: nat, base: Base): nat {
    if base == 8 then n / 8 else if base == 10 then n / 10 else n / 16
  }

  function Remainder(n: nat, base: Base): (r: nat)
    ensures r < base && Times(Quotient(n, base), base) + r == n
  {
    if base == 8 then n % 8 else if base == 10 then n % 10 else n % 16
  }

  /** Value of a digit in bases up to 16, or 99 for any other character. */
  function DigitValue(c: char): nat {
    if '0' <= c <= '9' then c as nat - '0' as nat
    else if 'a' <= c <= 'f' then c as nat - 'a' as nat + 10
    else if 'A' <= c <= 'F' then c as nat - 'A' as nat + 10
    else 99
  }

  predicate IsDigit(c: char, base: Base) { DigitValue(c) < base }

  predicate AllDigits(s: string, base: Base) { forall i :: 0 <= i < |s| ==> IsDigit(s[i], base) }

  function DigitChar(d: nat): (c: char)
    requires d < 16
    ensures DigitValue(c) == d && ('0' <= c <= '9' || 'a' <= c <= 'f')
  {
    if d < 10 then ('0' as nat + d) as char else ('a' as nat + d - 10) as char
  }

  /** The number a digit string stands for. */
  function Value(s: string, base: Base): nat {
    if s == "" then 0 else Times(Value(s[..|s| - 1], base), base) + DigitValue(s[|s| - 1])
  }

  /** `%llu`, `%llx` and `%llo` without padding. */
  function NumText(n: nat, base: Base): (s: string)
    ensures s != "" && AllDigits(s, base)
    ensures n > 0 ==> s[0] != '0'
  {
    if n < base then [DigitChar(n)]
    else NumText(Quotient(n, base), base) + [DigitChar(Remainder(n, base))]
  }

  lemma {:induction false} ValueOfNumText(n: nat, base: Base)
    ensures Value(NumText(n, base), base) == n
  {
    if n < base {
      assert Value([], base) == 0;
      assert NumText(n, base)[..0] == [];
    } else {
      var high, low := NumText(Quotient(n, base), base), DigitChar(Remainder(n, base));
      ValueOfNumText(Quotient(n, base), base);
      assert NumText(n, base)[..|high|] == high;
    }
  }

  predicate IsSpace(c: char) { c == ' ' || '\t' <= c <= '\r' }

  function DropSpace(s: string): string {
    if s != "" && IsSpace(s[0]) then DropSpace(s[1..]) else s
  }

  /** The longest prefix made of digits. */
  function DigitPrefix(s: string, base: Base): (d: string)
    ensures d <= s && AllDigits(d, base)
    ensures |d| < |s| ==> !IsDigit(s[|d|], base)
  {
    if s != "" && IsDigit(s[0], base) then [s[0]] + DigitPrefix(s[1..], base) else ""
  }

  lemma {:induction false} DigitPrefixIs(d: string, rest: string, base: Base)
    requires AllDigits(d, base)
    requires rest == "" || !IsDigit(rest[0], base)
    ensures DigitPrefix(d + rest, base) == d
  {
    if d == "" {
      assert d + rest == rest;
    } else {
      assert (d + rest)[1..] == d[1..] + rest;
      DigitPrefixIs(d[1..], rest, base);
    }
  }

  function Unsigned(t: string): string {
    if t != "" && (t[0] == '-' || t[0] == '+') then t[1..] else t
  }

  function DropHexPrefix(u: string, base: Base): string {
    if base == 16 && |u| >= 3 && u[0] == '0' && (u[1] == 'x' || u[1] == 'X') && IsDigit(u[2], 16) then u[2..]
    else u
  }

  /**
   std::stoull and std::stoul: leading blanks, a sign, a hexadecimal prefix and trailing text are
   all accepted; no digits or a value of `limit` or more throws; a minus sign wraps around.
   */
  function ParseUnsigned(s: string, base: Base, limit: nat): (r: Option<nat>)
    requires limit > 0
    ensures r.Some? ==> r.value < limit
  {
    var t := DropSpace(s);
    var digits := DigitPrefix(DropHexPrefix(Unsigned(t), base), base);
    if digits == "" then None
    else
      var v := Value(digits, base);
      if v >= limit then None
      else if t[0] == '-' && v > 0 then Some(limit - v)
      else Some(v)
  }

  /** std::stol and std::stoi: the same leniency, with a signed range of `-limit .. limit - 1`. */
  function ParseSigned(s: string, limit: int): (r: Option<int>)
    ensures r.Some? ==> -limit <= r.value < limit
  {
    var t := DropSpace(s);
    var digits := DigitPrefix(Unsigned(t), 10);
    if digits == "" then None
    else
      var v: int := if t[0] == '-' then 0 - Value(digits, 10) else Value(digits, 10);
      if -limit <= v < limit then Some(v) else None
  }

  /** Go's strconv.Atoi: an optional sign, then nothing but digits, within 64 bits. */
  function Atoi(s: string): Option<int> {
    var u := Unsigned(s);
    if u == "" || !AllDigits(u, 10) then None
    else
      var v: int := if s[0] == '-' then 0 - Value(u, 10) else Value(u, 10);
      if -TWO_TO_THE_63 <= v < TWO_TO_THE_63 then Some(v) else None
  }

  lemma DropSpaceNone(s: string)
    requires s == "" || !IsSpace(s[0])
    ensures DropSpace(s) == s
  {
  }

  /** Reading back a numeral, with other text after it. */
  lemma ParseUnsignedOfNumText(n: nat, base: Base, limit: nat, rest: string)
    requires n < limit
    requires rest == "" || (!IsDigit(rest[0], base) && rest[0] != 'x' && rest[0] != 'X')
    ensures ParseUnsigned(NumText(n, base) + rest, base, limit) == Some(n)
  {
    var d := NumText(n, base);
    var s := d + rest;
    assert IsDigit(s[0], base) by { assert s[0] == d[0]; }
    DropSpaceNone(s);
    NoHexPrefix(d, rest, base);
    DigitPrefixIs(d, rest, base);
    ValueOfNumText(n, base);
  }

  lemma NoHexPrefix(d: string, rest: string, base: Base)
    requires d != "" && AllDigits(d, base)
    requires rest == "" || (rest[0] != 'x' && rest[0] != 'X')
    ensures DropHexPrefix(d + rest, base) == d + rest
  {
    if |d + rest| > 1 {
      assert (d + rest)[1] == if |d| > 1 then d[1] else rest[0];
    }
  }
}
