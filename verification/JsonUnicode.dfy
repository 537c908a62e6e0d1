/** Unicode escapes in JSON strings become UTF-8 that any conforming decoder reads back. */
module JsonUnicode {
  import opened Json
  import opened JsonParser
  import JsonRoundTrip
  import opened Numerals
  import opened Wrappers

  /** Code points other than surrogates. */
  predicate Scalar(cp: nat) { cp < 0xD800 || 0xE000 <= cp < 0x110000 }

  // ----- A UTF-8 decoder (sections 3 and 4 of RFC 3629) -----

  predicate Tail(c: char) { 0x80 <= c as nat <= 0xBF }

  function Low6(c: char): nat
    requires Tail(c)
  {
    c as nat - 0x80
  }

  /** The first code point and the number of bytes it takes; None for any ill-formed sequence. */
  function DecodeFirst(b: string): (r: Option<(nat, nat)>)
    ensures r.Some? ==> 0 < r.value.1 <= |b| && Scalar(r.value.0)
  {
    if b == "" then None
    else
      var x := b[0] as nat;
      if x < 0x80 then Some((x, 1))
      else if 0xC2 <= x <= 0xDF && |b| >= 2 && Tail(b[1]) then
        Some(((x - 0xC0) * 0x40 + Low6(b[1]), 2))
      else if 0xE0 <= x <= 0xEF && |b| >= 3 && Tail(b[1]) && Tail(b[2])
              && (x == 0xE0 ==> b[1] as nat >= 0xA0) && (x == 0xED ==> b[1] as nat <= 0x9F) then
        Some((((x - 0xE0) * 0x40 + Low6(b[1])) * 0x40 + Low6(b[2]), 3))
      else if 0xF0 <= x <= 0xF4 && |b| >= 4 && Tail(b[1]) && Tail(b[2]) && Tail(b[3])
              && (x == 0xF0 ==> b[1] as nat >= 0x90) && (x == 0xF4 ==> b[1] as nat <= 0x8F) then
        Some(((((x - 0xF0) * 0x40 + Low6(b[1])) * 0x40 + Low6(b[2])) * 0x40 + Low6(b[3]), 4))
      else None
  }

  function Decode(b: string): Option<seq<nat>> {
    if b == "" then Some([])
    else
      match DecodeFirst(b)
      case None => None
      case Some(first) =>
        match Decode(b[first.1..])
        case None => None
        case Some(rest) => Some([first.0] + rest)
  }

  lemma Sextets(n: nat)
    ensures n == n / 0x40 * 0x40 + n % 0x40
    ensures n / 0x1000 == n / 0x40 / 0x40 && n / 0x40000 == n / 0x1000 / 0x40
  {
  }

  lemma DecodeTwo(cp: nat, b: string)
    requires 0x80 <= cp <= 0x7FF && AppendUtf8(cp) <= b
    ensures DecodeFirst(b) == Some((cp, 2))
  {
    Sextets(cp);
    var u := AppendUtf8(cp);
    assert b[0] == u[0] && b[1] == u[1];
    assert b[0] as nat == 0xC0 + cp / 0x40 && Low6(b[1]) == cp % 0x40;
  }

  lemma DecodeThree(cp: nat, b: string)
    requires 0x800 <= cp <= 0xFFFF && Scalar(cp) && AppendUtf8(cp) <= b
    ensures DecodeFirst(b) == Some((cp, 3))
  {
    Sextets(cp);
    Sextets(cp / 0x40);
    var u := AppendUtf8(cp);
    assert b[0] == u[0] && b[1] == u[1] && b[2] == u[2];
    assert b[0] as nat == 0xE0 + cp / 0x1000 && Low6(b[1]) == cp / 0x40 % 0x40 && Low6(b[2]) == cp % 0x40;
  }

  lemma DecodeFour(cp: nat, b: string)
    requires 0x10000 <= cp < 0x110000 && AppendUtf8(cp) <= b
    ensures DecodeFirst(b) == Some((cp, 4))
  {
    Sextets(cp);
    Sextets(cp / 0x40);
    Sextets(cp / 0x1000);
    var u := AppendUtf8(cp);
    assert b[0] == u[0] && b[1] == u[1] && b[2] == u[2] && b[3] == u[3];
    assert b[0] as nat == 0xF0 + cp / 0x40000 && Low6(b[1]) == cp / 0x1000 % 0x40;
    assert Low6(b[2]) == cp / 0x40 % 0x40 && Low6(b[3]) == cp % 0x40;
  }

  /** Every encoding decodes to its code point, and to nothing more than its own bytes. */
  lemma DecodeEncoded(cp: nat, rest: string)
    requires Scalar(cp)
    ensures DecodeFirst(AppendUtf8(cp) + rest) == Some((cp, |AppendUtf8(cp)|))
  {
    hide DecodeFirst;
    var b := AppendUtf8(cp) + rest;
    if cp < 0x80 {
      DecodeAscii(cp, b);
    } else if cp < 0x800 {
      DecodeTwo(cp, b);
    } else if cp < 0x10000 {
      DecodeThree(cp, b);
    } else {
      DecodeFour(cp, b);
    }
  }

  lemma DecodeAscii(cp: nat, b: string)
    requires cp < 0x80 && AppendUtf8(cp) <= b
    ensures DecodeFirst(b) == Some((cp, 1))
  {
  }

  /** Put together from its digits, a number has those digits. */
  lemma Joined(high: nat, low: nat)
    requires low < 0x40
    ensures (high * 0x40 + low) / 0x40 == high && (high * 0x40 + low) % 0x40 == low
  {
  }

  lemma EncodeTwo(b: string)
    requires DecodeFirst(b).Some? && DecodeFirst(b).value.1 == 2
    ensures AppendUtf8(DecodeFirst(b).value.0) == b[..2]
  {
    Joined(b[0] as nat - 0xC0, Low6(b[1]));
  }

  lemma EncodeThree(b: string)
    requires DecodeFirst(b).Some? && DecodeFirst(b).value.1 == 3
    ensures AppendUtf8(DecodeFirst(b).value.0) == b[..3]
  {
    var cp := DecodeFirst(b).value.0;
    var high := (b[0] as nat - 0xE0) * 0x40 + Low6(b[1]);
    Joined(b[0] as nat - 0xE0, Low6(b[1]));
    Joined(high, Low6(b[2]));
    Sextets(cp);
    assert cp / 0x40 == high && cp >= 0x800;
  }

  lemma EncodeFour(b: string)
    requires DecodeFirst(b).Some? && DecodeFirst(b).value.1 == 4
    ensures AppendUtf8(DecodeFirst(b).value.0) == b[..4]
  {
    var cp := DecodeFirst(b).value.0;
    var top := (b[0] as nat - 0xF0) * 0x40 + Low6(b[1]);
    var high := top * 0x40 + Low6(b[2]);
    Joined(b[0] as nat - 0xF0, Low6(b[1]));
    Joined(top, Low6(b[2]));
    Joined(high, Low6(b[3]));
    Sextets(cp);
    assert cp / 0x40 == high && cp / 0x1000 == top && cp / 0x40000 == b[0] as nat - 0xF0 && cp >= 0x10000;
  }

  /** The encoder produces the only well-formed sequence for a code point. */
  lemma EncodeDecoded(b: string)
    ensures DecodeFirst(b).Some? ==> AppendUtf8(DecodeFirst(b).value.0) == b[..DecodeFirst(b).value.1]
  {
    if DecodeFirst(b).Some? {
      var n := DecodeFirst(b).value.1;
      if n == 2 {
        EncodeTwo(b);
      } else if n == 3 {
        EncodeThree(b);
      } else if n == 4 {
        EncodeFour(b);
      }
    }
  }

  function Utf8(cps: seq<nat>): string {
    if cps == [] then "" else AppendUtf8(cps[0]) + Utf8(cps[1..])
  }

  lemma {:induction false} DecodeUtf8(cps: seq<nat>)
    requires forall i :: 0 <= i < |cps| ==> Scalar(cps[i])
    ensures Decode(Utf8(cps)) == Some(cps)
  {
    hide AppendUtf8, DecodeFirst;
    if cps != [] {
      DecodeEncoded(cps[0], Utf8(cps[1..]));
      assert Utf8(cps)[|AppendUtf8(cps[0])|..] == Utf8(cps[1..]);
      DecodeUtf8(cps[1..]);
      assert [cps[0]] + cps[1..] == cps;
    }
  }

  // ----- Escapes (section 7 of RFC 8259) -----

  function HexText(n: nat): (h: string)
    requires n < 0x10000
    ensures |h| == 4 && AllDigits(h, 16)
  {
    [DigitChar(n / 0x1000), DigitChar(n / 0x100 % 0x10), DigitChar(n / 0x10 % 0x10), DigitChar(n % 0x10)]
  }

  /** One escape, or a surrogate pair beyond the Basic Multilingual Plane. */
  function EscapeText(cp: nat): string
    requires Scalar(cp)
  {
    if cp < 0x10000 then "\\u" + HexText(cp)
    else "\\u" + HexText(0xD800 + (cp - 0x10000) / 0x400) + ("\\u" + HexText(0xDC00 + (cp - 0x10000) % 0x400))
  }

  function EscapeAll(cps: seq<nat>): string
    requires forall i :: 0 <= i < |cps| ==> Scalar(cps[i])
  {
    if cps == [] then "" else EscapeText(cps[0]) + EscapeAll(cps[1..])
  }

  lemma OneDigit(n: nat)
    ensures n == n / 0x10 * 16 + n % 16
    ensures n / 0x100 == n / 0x10 / 0x10
  {
  }

  lemma HexDigits(n: nat)
    ensures ((n / 0x1000 * 16 + n / 0x100 % 16) * 16 + n / 0x10 % 16) * 16 + n % 16 == n
  {
    OneDigit(n);
    OneDigit(n / 0x10);
    OneDigit(n / 0x100);
    assert n / 0x1000 == n / 0x100 / 0x10;
  }

  lemma HexValue(n: nat)
    requires n < 0x10000
    ensures Value(HexText(n), 16) == n
  {
    hide DigitChar, DigitValue, Value;
    HexDigits(n);
    JsonRoundTrip.ValueFour(HexText(n));
  }

  lemma HexParses(h: string)
    requires |h| == 4 && AllDigits(h, 16)
    ensures Value(h, 16) < TWO_TO_THE_32 ==> ParseUnsigned(h, 16, TWO_TO_THE_32) == Some(Value(h, 16))
  {
    hide Value;
    assert IsDigit(h[0], 16);
    DropSpaceNone(h);
    NoHexPrefix(h, "", 16);
    assert h + "" == h;
    DigitPrefixIs(h, "", 16);
  }

  lemma HexRead(s: string, i: nat, n: nat)
    requires n < 0x10000 && i <= |s| && HexText(n) <= s[i..]
    ensures Hex4(s, i) == Got(n, i + 4)
  {
    hide HexText, ParseUnsigned, Value;
    JsonRoundTrip.SliceOfPrefix(s, i, HexText(n));
    HexParses(HexText(n));
    HexValue(n);
  }

  lemma EscapeRead(s: string, i: nat, cp: nat)
    requires Scalar(cp) && i <= |s| && EscapeText(cp) <= s[i..]
    ensures var k := i + |EscapeText(cp)|;
            k <= |s| && Chars(s, i) == Prefixed(AppendUtf8(cp), Chars(s, k))
  {
    hide Hex4, HexText, AppendUtf8, Chars;
    var k := i + |EscapeText(cp)|;
    if cp < 0x10000 {
      JsonRoundTrip.PrefixParts(s, i, "\\u", HexText(cp));
      HexRead(s, i + 2, cp);
    } else {
      var high, low := 0xD800 + (cp - 0x10000) / 0x400, 0xDC00 + (cp - 0x10000) % 0x400;
      JsonRoundTrip.PrefixParts(s, i, "\\u" + HexText(high), "\\u" + HexText(low));
      JsonRoundTrip.PrefixParts(s, i, "\\u", HexText(high));
      JsonRoundTrip.PrefixParts(s, i + 6, "\\u", HexText(low));
      HexRead(s, i + 2, high);
      HexRead(s, i + 8, low);
      assert s[i + 6] == '\\' && s[i + 7] == 'u';
    }
    assert CodePoint(s, i + 2) == Got(cp, k);
    assert s[i] == '\\' && s[i + 1] == 'u';
    CharsEscape(s, i);
  }

  lemma CharsEscape(s: string, i: nat)
    requires i + 1 < |s| && s[i] == '\\' && Escape(s, i + 1).Got?
    ensures Chars(s, i) == Prefixed(Escape(s, i + 1).value, Chars(s, Escape(s, i + 1).next))
  {
  }

  lemma {:induction false} EscapesRead(s: string, i: nat, cps: seq<nat>)
    requires forall k :: 0 <= k < |cps| ==> Scalar(cps[k])
    requires i <= |s| && EscapeAll(cps) + "\"" <= s[i..]
    ensures Chars(s, i) == Got(Utf8(cps), i + |EscapeAll(cps)| + 1)
    decreases |cps|
  {
    hide AppendUtf8, EscapeText;
    if cps == [] {
      JsonRoundTrip.PrefixParts(s, i, "\"", "");
      assert "\"" + "" == EscapeAll(cps) + "\"";
    } else {
      var e, rest := EscapeText(cps[0]), EscapeAll(cps[1..]);
      assert EscapeAll(cps) + "\"" == e + (rest + "\"");
      JsonRoundTrip.PrefixParts(s, i, e, rest + "\"");
      EscapeRead(s, i, cps[0]);
      EscapesRead(s, i + |e|, cps[1..]);
    }
  }

  lemma StringFrom(s: string)
    requires s != "" && s[0] == '"' && Chars(s, 1).Got?
    ensures Parse(s) == Ok(String(Chars(s, 1).value))
  {
    SkipWsZero(s);
  }

  lemma SkipWsZero(s: string)
    requires s != "" && !White(s[0])
    ensures SkipWs(s, 0) == 0
  {
  }

  /**
   A JSON string written entirely in escapes parses to bytes that decode to exactly the code points
   it was written from.
   */
  lemma EscapedTextDecodes(cps: seq<nat>)
    requires forall k :: 0 <= k < |cps| ==> Scalar(cps[k])
    ensures Parse("\"" + EscapeAll(cps) + "\"") == Ok(String(Utf8(cps)))
    ensures Decode(Utf8(cps)) == Some(cps)
  {
    hide Chars, EscapeAll, Utf8, Decode, AppendUtf8, StringAt;
    var s := "\"" + EscapeAll(cps) + "\"";
    assert s[1..] == EscapeAll(cps) + "\"";
    EscapesRead(s, 1, cps);
    StringFrom(s);
    DecodeUtf8(cps);
  }
}
