/** Parsing what was printed, with any JSON white space between the tokens. */
module JsonRoundTrip {
  import opened Json
  import opened JsonParser
  import opened Numerals
  import opened Text
  import opened Wrappers

  /**
   Where the tokens end when they stand in `s` from `i` on, in order, each after optional white
   space (section 2 of RFC 8259); None when they do not.
   */
  function After(s: string, i: nat, tokens: seq<string>): (r: Option<nat>)
    requires i <= |s|
    ensures r.Some? ==> i <= r.value <= |s|
    decreases |tokens|
  {
    if tokens == [] then Some(i)
    else
      var k := SkipWs(s, i);
      if tokens[0] <= s[k..] then After(s, k + |tokens[0]|, tokens[1..]) else None
  }

  lemma {:induction false} AfterBoth(s: string, i: nat, a: seq<string>, b: seq<string>)
    requires i <= |s| && After(s, i, a + b).Some?
    ensures var m := After(s, i, a);
            m.Some? && After(s, i, a + b) == After(s, m.value, b)
    decreases |a|
  {
    if a == [] {
      assert a + b == b;
    } else {
      assert (a + b)[1..] == a[1..] + b;
      AfterBoth(s, SkipWs(s, i) + |a[0]|, a[1..], b);
    }
  }

  lemma AfterOne(s: string, i: nat, token: string, rest: seq<string>)
    requires i <= |s| && After(s, i, [token] + rest).Some?
    ensures var k := SkipWs(s, i);
            token <= s[k..] && After(s, i, [token] + rest) == After(s, k + |token|, rest)
  {
    assert ([token] + rest)[1..] == rest;
  }

  /** What may come right after a number: anything that cannot continue it. */
  ghost predicate Stops(s: string, e: nat) {
    e <= |s| && (e < |s| ==> !('0' <= s[e] <= '9') && s[e] != '.' && s[e] != 'e' && s[e] != 'E')
  }

  lemma StopsBefore(s: string, e: nat, token: string, rest: seq<string>)
    requires e <= |s| && After(s, e, [token] + rest).Some?
    requires token == "," || token == "]" || token == "}"
    ensures Stops(s, e)
  {
    AfterOne(s, e, token, rest);
    if SkipWs(s, e) == e {
      assert s[e..][0] == token[0];
    }
  }

  // ----- Strings -----

  lemma PrefixParts(s: string, i: nat, a: string, b: string)
    requires i <= |s| && a + b <= s[i..]
    ensures a <= s[i..] && i + |a| + |b| <= |s| && b <= s[i + |a|..]
    ensures forall x :: 0 <= x < |a| ==> s[i + x] == a[x]
  {
    assert s[i..][..|a| + |b|] == a + b;
    assert s[i..][..|a|] == a;
    SubSlice(s, i, |s|, |a|, |a| + |b|);
    assert s[i + |a|..][..|b|] == b;
    assert forall x :: 0 <= x < |a| ==> s[i..][x] == a[x];
  }

  lemma ControlEscape(s: string, i: nat, c: char)
    requires i <= |s| && EscapeChar(c) <= s[i..] && c < ' ' && c != '\n' && c != '\r' && c != '\t'
    ensures i + 6 <= |s| && Escape(s, i + 1) == Got([c], i + 6)
  {
    var d := [DigitChar(c as nat / 16), DigitChar(c as nat % 16)];
    var four := "00" + d;
    assert EscapeChar(c) == "\\u" + four;
    PrefixParts(s, i, "\\u", four);
    assert s[i + 2..i + 6] == four by {
      assert s[i + 2..][..4] == four;
      SubSlice(s, i + 2, |s|, 0, 4);
    }
    HexFour(four, c as nat);
    assert Hex4(s, i + 2) == Got(c as nat, i + 6);
    assert AppendUtf8(c as nat) == [c];
  }

  /** Two zeros and two digits, as std::stoul reads them. */
  lemma HexFour(four: string, n: nat)
    requires n < 0x20 && |four| == 4 && four[..2] == "00"
    requires four[2] == DigitChar(n / 16) && four[3] == DigitChar(n % 16)
    ensures ParseUnsigned(four, 16, TWO_TO_THE_32) == Some(n)
  {
    assert four[0] == four[..2][0] && four[1] == four[..2][1];
    DropSpaceNone(four);
    assert DropHexPrefix(four, 16) == four;
    assert AllDigits(four, 16);
    assert four + "" == four;
    DigitPrefixIs(four, "", 16);
    ValueFour(four);
  }

  lemma ValueFour(h: string)
    requires |h| == 4 && AllDigits(h, 16)
    ensures Value(h, 16)
         == ((DigitValue(h[0]) * 16 + DigitValue(h[1])) * 16 + DigitValue(h[2])) * 16 + DigitValue(h[3])
  {
    var h3, h2, h1 := h[..3], h[..2], h[..1];
    assert h3[..2] == h2 && h2[..1] == h1 && h1[..0] == "";
    assert Value(h1, 16) == DigitValue(h[0]);
    assert Value(h2, 16) == Value(h1, 16) * 16 + DigitValue(h[1]);
    assert Value(h3, 16) == Value(h2, 16) * 16 + DigitValue(h[2]);
  }

  lemma CharSpelled(s: string, i: nat, c: char)
    requires i <= |s| && EscapeChar(c) <= s[i..]
    ensures var k := i + |EscapeChar(c)|;
            k <= |s| && Chars(s, i) == Prefixed([c], Chars(s, k))
  {
    var e := EscapeChar(c);
    assert e + "" == e;
    PrefixParts(s, i, e, "");
    if c < ' ' && c != '\n' && c != '\r' && c != '\t' {
      ControlEscape(s, i, c);
    }
  }

  lemma {:induction false} CharsSpelled(s: string, i: nat, text: string)
    requires i <= |s| && EscapeChars(text) + "\"" <= s[i..]
    ensures Chars(s, i) == Got(text, i + |EscapeChars(text)| + 1)
    decreases |text|
  {
    hide EscapeChar;
    if text == "" {
      assert EscapeChars(text) + "\"" == "\"" + "";
      PrefixParts(s, i, "\"", "");
    } else {
      var c, rest := text[0], text[1..];
      assert EscapeChars(text) + "\"" == EscapeChar(c) + (EscapeChars(rest) + "\"");
      PrefixParts(s, i, EscapeChar(c), EscapeChars(rest) + "\"");
      CharSpelled(s, i, c);
      CharsSpelled(s, i + |EscapeChar(c)|, rest);
      assert [c] + rest == text;
    }
  }

  lemma StringSpelled(s: string, i: nat, text: string)
    requires i <= |s| && StringToken(text) <= s[i..]
    ensures StringAt(s, i) == Got(text, i + |StringToken(text)|)
    ensures i < |s| && s[i] == '"'
  {
    hide EscapeChars, Chars;
    PrefixParts(s, i, "\"", EscapeChars(text) + "\"");
    CharsSpelled(s, i + 1, text);
  }

  // ----- Numbers -----

  lemma {:induction false} SkipDigitsOver(s: string, i: nat, d: string)
    requires i <= |s| && d <= s[i..] && AllDigits(d, 10) && Stops(s, i + |d|)
    ensures SkipDigits(s, i) == i + |d|
    decreases |d|
  {
    if d != "" {
      assert s[i..][0] == d[0];
      assert d[1..] <= s[i + 1..] by {
        assert d == [d[0]] + d[1..];
        PrefixParts(s, i, [d[0]], d[1..]);
      }
      SkipDigitsOver(s, i + 1, d[1..]);
    }
  }

  lemma NumberConverts(n: int)
    requires -EXACT < n < EXACT
    ensures Convert(NumberToken(n), true) == Ok(Number(n))
  {
    var d := NumText(if n < 0 then -n else n, 10);
    assert IsDigit(d[0], 10);
    assert Unsigned(NumberToken(n)) == d;
    ValueOfNumText(if n < 0 then -n else n, 10);
  }

  lemma NumberEnds(s: string, i: nat, sign: string, d: string)
    requires i <= |s| && sign + d <= s[i..] && Stops(s, i + |sign| + |d|)
    requires (sign == "" || sign == "-") && d != "" && AllDigits(d, 10)
    ensures var e := i + |sign| + |d|;
            && IntegerEnd(s, i) == e && FractionEnd(s, e) == e && ExponentEnd(s, e) == e
            && s[i..e] == sign + d
            && (s[i] == '-' || '0' <= s[i] <= '9')
  {
    hide SkipDigits;
    var e, t := i + |sign| + |d|, sign + d;
    PrefixParts(s, i, sign, d);
    assert s[i + |sign|..][0] == d[0];
    assert IsDigit(d[0], 10);
    SkipDigitsOver(s, i + |sign|, d);
    SliceOfPrefix(s, i, t);
  }

  lemma SliceOfPrefix(s: string, i: nat, t: string)
    requires i <= |s| && t <= s[i..]
    ensures i + |t| <= |s| && s[i..i + |t|] == t
  {
    assert s[i..][..|t|] == t;
    SubSlice(s, i, |s|, 0, |t|);
  }

  lemma NumberSpelled(s: string, i: nat, n: int)
    requires -EXACT < n < EXACT
    requires i <= |s| && NumberToken(n) <= s[i..] && Stops(s, i + |NumberToken(n)|)
    ensures NumberAt(s, i) == Got(Number(n), i + |NumberToken(n)|)
    ensures i < |s| && (s[i] == '-' || '0' <= s[i] <= '9')
  {
    hide IntegerEnd, FractionEnd, ExponentEnd, Convert, Stops;
    var sign, d := if n < 0 then "-" else "", NumText(if n < 0 then -n else n, 10);
    assert NumberToken(n) == sign + d;
    NumberEnds(s, i, sign, d);
    NumberConverts(n);
  }

  // ----- Values -----

  lemma ScalarSpelled(s: string, i: nat, j: Json, e: nat)
    requires i <= |s| && Exact(j) && !j.Array? && !j.Object?
    requires After(s, i, Tokens(j)) == Some(e) && Stops(s, e)
    ensures ValueAt(s, i) == Got(j, e)
  {
    hide StringAt, NumberAt, StringToken, NumberToken;
    var k, t := SkipWs(s, i), Tokens(j)[0];
    assert [t] + [] == Tokens(j);
    AfterOne(s, i, t, []);
    if j.Number? {
      NumberSpelled(s, k, j.n);
    } else if j.String? {
      StringSpelled(s, k, j.s);
    } else {
      assert s[k..][..|t|] == t && s[k..][0] == t[0];
      SubSlice(s, k, |s|, 0, |t|);
    }
  }

  lemma AfterSkip(s: string, i: nat, tokens: seq<string>)
    requires i <= |s| && tokens != []
    ensures After(s, SkipWs(s, i), tokens) == After(s, i, tokens)
  {
    SkipWsStops(s, SkipWs(s, i));
  }

  lemma FirstToken(j: Json)
    requires Exact(j)
    ensures Tokens(j) != [] && Tokens(j)[0] != "" && Tokens(j)[0][0] != ']'
  {
    if j.Number? {
      var d := NumText(if j.n < 0 then -j.n else j.n, 10);
      assert IsDigit(d[0], 10);
    }
  }

  /**
   The parser returns exactly the printed value and stops exactly after its last token, for every
   text that spells the value's tokens with white space between them.
   */
  lemma {:induction false} ValueSpelled(s: string, i: nat, j: Json, e: nat)
    requires i <= |s| && Exact(j) && WellFormed(j)
    requires After(s, i, Tokens(j)) == Some(e) && Stops(s, e)
    ensures ValueAt(s, i) == Got(j, e)
    decreases j, 1, 0
  {
    hide ValueAt, After;
    if j.Array? {
      ArraySpelled(s, i, j, e);
    } else if j.Object? {
      ObjectSpelled(s, i, j, e);
    } else {
      ScalarSpelled(s, i, j, e);
    }
  }

  lemma {:induction false} ArraySpelled(s: string, i: nat, j: Json, e: nat)
    requires i <= |s| && j.Array? && Exact(j) && WellFormed(j)
    requires After(s, i, Tokens(j)) == Some(e)
    ensures ValueAt(s, i) == Got(j, e)
    decreases j, 0, |j.items| + 1
  {
    hide After, ItemsAt, MembersAt, Tokens, SkipWs;
    var k := SkipWs(s, i);
    ArrayTokens(j);
    AfterOne(s, i, "[", ItemTokens(j, 0));
    assert s[k..][0] == '[';
    var w := SkipWs(s, k + 1);
    if j.items == [] {
      LastItemTokens(j);
      assert ["]"] + [] == ["]"];
      AfterOne(s, k + 1, "]", []);
      AfterNone(s, w + 1);
      assert s[w..][0] == ']';
    } else {
      var t := Tokens(j.items[0]);
      FirstToken(j.items[0]);
      assert t + ItemTokens(j, 1) == [t[0]] + (t[1..] + ItemTokens(j, 1));
      AfterOne(s, k + 1, t[0], t[1..] + ItemTokens(j, 1));
      assert s[w..][0] == t[0][0];
      AfterSkip(s, k + 1, t + ItemTokens(j, 1));
      ItemsSpelled(s, w, j, 0, e);
      assert j.items[..0] == [];
    }
  }

  lemma ArrayTokens(j: Json)
    requires j.Array? && Exact(j)
    ensures Tokens(j) == ["["] + ItemTokens(j, 0)
    ensures forall k :: 0 <= k < |j.items| ==>
              ItemTokens(j, k) == Comma(k) + (Tokens(j.items[k]) + ItemTokens(j, k + 1))
    ensures j.items != [] ==> ItemTokens(j, 0) == Tokens(j.items[0]) + ItemTokens(j, 1)
  {
  }

  lemma AfterNone(s: string, i: nat)
    requires i <= |s|
    ensures After(s, i, []) == Some(i)
  {
  }

  lemma {:induction false} ItemsSpelled(s: string, w: nat, j: Json, k: nat, e: nat)
    requires w <= |s| && j.Array? && k < |j.items| && Exact(j) && WellFormed(j)
    requires After(s, w, Tokens(j.items[k]) + ItemTokens(j, k + 1)) == Some(e)
    ensures ItemsAt(s, w, j.items[..k]) == Got(j, e)
    decreases j, 0, |j.items| - k
  {
    hide After, ItemsAt, ValueAt, Tokens, SkipWs, MembersAt, ItemTokens;
    var item := j.items[k];
    assert item in j.items;
    ArrayTokens(j);
    LastItemTokens(j);
    AfterBoth(s, w, Tokens(item), ItemTokens(j, k + 1));
    var m := After(s, w, Tokens(item)).value;
    var last := k + 1 == |j.items|;
    var token, rest := if last then "]" else ",", if last then [] else Tokens(j.items[k + 1]) + ItemTokens(j, k + 2);
    assert ItemTokens(j, k + 1) == [token] + rest;
    StopsBefore(s, m, token, rest);
    ValueSpelled(s, w, item, m);
    ItemsStep(s, w, j.items[..k]);
    AfterOne(s, m, token, rest);
    var x := SkipWs(s, m);
    assert s[x..][0] == token[0];
    assert j.items[..k] + [item] == j.items[..k + 1];
    ItemsAfterStep(s, x, j.items[..k + 1]);
    if last {
      AfterNone(s, x + 1);
      assert j.items[..k + 1] == j.items;
    } else {
      FirstToken(j.items[k + 1]);
      AfterSkip(s, x + 1, rest);
      ItemsSpelled(s, SkipWs(s, x + 1), j, k + 1, e);
    }
  }

  lemma LastItemTokens(j: Json)
    requires Exact(j)
    ensures j.Array? ==> ItemTokens(j, |j.items|) == ["]"]
    ensures j.Object? ==> MemberTokens(j, |j.members|) == ["}"]
  {
  }

  lemma {:induction false} ObjectSpelled(s: string, i: nat, j: Json, e: nat)
    requires i <= |s| && j.Object? && Exact(j) && WellFormed(j)
    requires After(s, i, Tokens(j)) == Some(e)
    ensures ValueAt(s, i) == Got(j, e)
    decreases j, 0, |j.members| + 1
  {
    hide After, ItemsAt, MembersAt, Tokens, SkipWs, MemberTokens, StringToken;
    var k := SkipWs(s, i);
    ObjectTokens(j);
    LastItemTokens(j);
    AfterOne(s, i, "{", MemberTokens(j, 0));
    assert s[k..][0] == '{';
    var w := SkipWs(s, k + 1);
    if j.members == [] {
      assert ["}"] + [] == ["}"];
      AfterOne(s, k + 1, "}", []);
      AfterNone(s, w + 1);
      assert s[w..][0] == '}';
    } else {
      var t := MembersFrom(j, 0);
      AfterSkip(s, k + 1, t);
      StringTokenStarts(j.members[0].key);
      assert t == [t[0]] + t[1..];
      AfterOne(s, k + 1, t[0], t[1..]);
      assert s[w..][0] == t[0][0];
      MembersSpelled(s, w, j, 0, e);
      assert j.members[..0] == [];
    }
  }

  lemma StringTokenStarts(text: string)
    ensures StringToken(text) != "" && StringToken(text)[0] == '"'
  {
  }

  /** The tokens of member `k` and of everything after it. */
  function MembersFrom(j: Json, k: nat): seq<string>
    requires j.Object? && Exact(j) && k < |j.members|
  {
    [StringToken(j.members[k].key), ":"] + (Tokens(j.members[k].value) + MemberTokens(j, k + 1))
  }

  lemma ObjectTokens(j: Json)
    requires j.Object? && Exact(j)
    ensures Tokens(j) == ["{"] + MemberTokens(j, 0)
    ensures forall k :: 0 <= k < |j.members| ==> MemberTokens(j, k) == Comma(k) + MembersFrom(j, k)
    ensures j.members != [] ==> MemberTokens(j, 0) == MembersFrom(j, 0)
  {
  }

  lemma KeySpelled(s: string, i: nat, key: string, rest: seq<string>)
    requires i <= |s| && After(s, i, [StringToken(key), ":"] + rest).Some?
    ensures var r := KeyAt(s, i);
            r.Got? && r.value == key && After(s, i, [StringToken(key), ":"] + rest) == After(s, r.next, rest)
  {
    hide After, StringToken, SkipWs, StringAt;
    assert [StringToken(key), ":"] + rest == [StringToken(key)] + ([":"] + rest);
    AfterOne(s, i, StringToken(key), [":"] + rest);
    var k := SkipWs(s, i);
    StringSpelled(s, k, key);
    var m := k + |StringToken(key)|;
    AfterOne(s, m, ":", rest);
    assert s[SkipWs(s, m)..][0] == ':';
  }

  lemma OneMember(s: string, w: nat, j: Json, k: nat, e: nat)
    requires w <= |s| && j.Object? && k < |j.members| && Exact(j)
    requires After(s, w, MembersFrom(j, k)) == Some(e)
    ensures KeyAt(s, w).Got? && KeyAt(s, w).value == j.members[k].key
    ensures var m := After(s, KeyAt(s, w).next, Tokens(j.members[k].value));
            m.Some? && After(s, m.value, MemberTokens(j, k + 1)) == Some(e)
  {
    hide After, Tokens, MemberTokens, StringToken, KeyAt;
    var member := j.members[k];
    KeySpelled(s, w, member.key, Tokens(member.value) + MemberTokens(j, k + 1));
    AfterBoth(s, KeyAt(s, w).next, Tokens(member.value), MemberTokens(j, k + 1));
  }

  lemma {:induction false} MembersSpelled(s: string, w: nat, j: Json, k: nat, e: nat)
    requires w <= |s| && j.Object? && k < |j.members| && Exact(j) && WellFormed(j)
    requires After(s, w, MembersFrom(j, k)) == Some(e)
    ensures MembersAt(s, w, j.members[..k]) == Got(j, e)
    decreases j, 0, |j.members| - k
  {
    hide After, MembersAt, ValueAt, Tokens, SkipWs, ItemsAt, MemberTokens, StringToken, KeyAt, MembersFrom;
    var member := j.members[k];
    assert member in j.members;
    ObjectTokens(j);
    LastItemTokens(j);
    OneMember(s, w, j, k, e);
    var i := KeyAt(s, w).next;
    var m := After(s, i, Tokens(member.value)).value;
    var last := k + 1 == |j.members|;
    var token, rest := if last then "}" else ",", if last then [] else MembersFrom(j, k + 1);
    assert MemberTokens(j, k + 1) == [token] + rest;
    StopsBefore(s, m, token, rest);
    ValueSpelled(s, i, member.value, m);
    MembersStep(s, w, j.members[..k]);
    NextMember(j.members, k);
    AfterOne(s, m, token, rest);
    var x := SkipWs(s, m);
    assert s[x..][0] == token[0];
    MembersAfterStep(s, x, j.members[..k + 1]);
    if last {
      AfterNone(s, x + 1);
      assert j.members[..k + 1] == j.members;
    } else {
      MembersSpelled(s, x + 1, j, k + 1, e);
    }
  }

  lemma NextMember(members: seq<Member>, k: nat)
    requires Distinct(members) && k < |members|
    ensures Set(members[..k], members[k].key, members[k].value) == members[..k + 1]
  {
    assert members[k] == Member(members[k].key, members[k].value);
    assert members[..k] + [members[k]] == members[..k + 1];
  }

  // ----- The round trip -----

  ghost predicate WhiteSpace(g: string) { forall i :: 0 <= i < |g| ==> White(g[i]) }

  /** The tokens with the given white space before each of them. */
  function Spaced(tokens: seq<string>, gaps: seq<string>): string
    requires |gaps| == |tokens|
  {
    if tokens == [] then "" else gaps[0] + (tokens[0] + Spaced(tokens[1..], gaps[1..]))
  }

  ghost predicate Visible(tokens: seq<string>) {
    forall i :: 0 <= i < |tokens| ==> tokens[i] != "" && !White(tokens[i][0])
  }

  lemma {:induction false} SkipGap(s: string, i: nat, g: string)
    requires i <= |s| && g <= s[i..] && WhiteSpace(g)
    requires i + |g| == |s| || !White(s[i + |g|])
    ensures SkipWs(s, i) == i + |g|
    decreases |g|
  {
    if g != "" {
      assert s[i..][0] == g[0];
      assert g[1..] <= s[i + 1..] by {
        assert g == [g[0]] + g[1..];
        PrefixParts(s, i, [g[0]], g[1..]);
      }
      SkipGap(s, i + 1, g[1..]);
    }
  }

  lemma GapThenToken(s: string, i: nat, g: string, t: string, rest: string)
    requires i <= |s| && g + (t + rest) <= s[i..] && WhiteSpace(g) && t != "" && !White(t[0])
    ensures SkipWs(s, i) == i + |g| && t <= s[i + |g|..]
    ensures i + |g| + |t| <= |s| && rest <= s[i + |g| + |t|..]
  {
    PrefixParts(s, i, g, t + rest);
    PrefixParts(s, i + |g|, t, rest);
    assert s[i + |g|] == t[0];
    SkipGap(s, i, g);
  }

  lemma {:induction false} SpacedMatches(s: string, i: nat, tokens: seq<string>, gaps: seq<string>)
    requires |gaps| == |tokens| && Visible(tokens)
    requires forall g :: g in gaps ==> WhiteSpace(g)
    requires i <= |s| && Spaced(tokens, gaps) <= s[i..]
    ensures After(s, i, tokens) == Some(i + |Spaced(tokens, gaps)|)
    decreases |tokens|
  {
    hide SkipWs, WhiteSpace, Spaced, After, Visible;
    if tokens == [] {
      SpacedNone(s, i);
    } else {
      assert gaps[0] in gaps;
      VisibleCons(tokens);
      SpacedCons(tokens, gaps);
      GapThenToken(s, i, gaps[0], tokens[0], Spaced(tokens[1..], gaps[1..]));
      assert tokens == [tokens[0]] + tokens[1..];
      SpacedMatches(s, i + |gaps[0]| + |tokens[0]|, tokens[1..], gaps[1..]);
      AfterCons(s, i, tokens);
    }
  }

  lemma SpacedNone(s: string, i: nat)
    requires i <= |s|
    ensures Spaced([], []) == "" && After(s, i, []) == Some(i)
  {
  }

  lemma SpacedCons(tokens: seq<string>, gaps: seq<string>)
    requires |gaps| == |tokens| && tokens != []
    ensures Spaced(tokens, gaps) == gaps[0] + (tokens[0] + Spaced(tokens[1..], gaps[1..]))
  {
  }

  lemma AfterCons(s: string, i: nat, tokens: seq<string>)
    requires i <= |s| && tokens != [] && tokens[0] <= s[SkipWs(s, i)..]
    ensures After(s, i, tokens) == After(s, SkipWs(s, i) + |tokens[0]|, tokens[1..])
  {
  }

  lemma VisibleCons(tokens: seq<string>)
    requires Visible(tokens) && tokens != []
    ensures tokens[0] != "" && !White(tokens[0][0]) && Visible(tokens[1..])
  {
  }

  lemma {:induction false} TokensVisible(j: Json)
    requires Exact(j)
    ensures Visible(Tokens(j))
    decreases j, 1, 0
  {
    match j
    case Number(n) =>
      var d := NumText(if n < 0 then -n else n, 10);
      assert IsDigit(d[0], 10);
    case Array(_) =>
      ItemTokensVisible(j, 0);
    case Object(_) =>
      MemberTokensVisible(j, 0);
    case _ =>
  }

  lemma {:induction false} ItemTokensVisible(j: Json, k: nat)
    requires j.Array? && Exact(j) && k <= |j.items|
    ensures Visible(ItemTokens(j, k))
    decreases j, 0, |j.items| - k
  {
    if k < |j.items| {
      TokensVisible(j.items[k]);
      ItemTokensVisible(j, k + 1);
    }
  }

  lemma {:induction false} MemberTokensVisible(j: Json, k: nat)
    requires j.Object? && Exact(j) && k <= |j.members|
    ensures Visible(MemberTokens(j, k))
    decreases j, 0, |j.members| - k
  {
    hide StringToken;
    if k < |j.members| {
      StringTokenStarts(j.members[k].key);
      TokensVisible(j.members[k].value);
      MemberTokensVisible(j, k + 1);
    }
  }

  /** A printed value with white space inserted before any of its tokens, and text after it. */
  lemma SpacedDumpParses(j: Json, gaps: seq<string>, after: string)
    requires Exact(j) && WellFormed(j) && |gaps| == |Tokens(j)|
    requires forall g :: g in gaps ==> WhiteSpace(g)
    requires Stops(after, 0)
    ensures var text := Spaced(Tokens(j), gaps);
            ValueAt(text + after, 0) == Got(j, |text|)
  {
    hide ValueAt, Tokens, After, Spaced;
    var text := Spaced(Tokens(j), gaps);
    var s := text + after;
    TokensVisible(j);
    assert s[0..] == s;
    SpacedMatches(s, 0, Tokens(j), gaps);
    assert Stops(s, |text|) by {
      assert |s| > |text| ==> s[|text|] == after[0];
    }
    ValueSpelled(s, 0, j, |text|);
  }

  lemma {:induction false} NoGaps(tokens: seq<string>)
    ensures Spaced(tokens, Repeat("", |tokens|)) == Flatten(tokens)
  {
    if tokens != [] {
      NoGaps(tokens[1..]);
      assert Repeat("", |tokens|)[1..] == Repeat("", |tokens| - 1);
      assert "" + (tokens[0] + Flatten(tokens[1..])) == tokens[0] + Flatten(tokens[1..]);
    }
  }

  /** Parsing a dump gives the value back. */
  lemma DumpParses(j: Json)
    requires Exact(j) && WellFormed(j)
    ensures Parse(Dump(j)) == Ok(j)
  {
    hide ValueAt, Tokens, Spaced, Flatten;
    var gaps := Repeat("", |Tokens(j)|);
    NoGaps(Tokens(j));
    assert Dump(j) + "" == Dump(j);
    SpacedDumpParses(j, gaps, "");
  }

  // ----- Every parsed value has distinct keys -----

  lemma {:induction false} ParsedWellFormed(s: string, i: nat)
    requires i <= |s|
    ensures ValueAt(s, i).Got? ==> WellFormed(ValueAt(s, i).value)
    decreases |s| - i, 0
  {
    hide StringAt, NumberAt, Set;
    var k := SkipWs(s, i);
    if k < |s| && s[k] == '[' {
      var w := SkipWs(s, k + 1);
      if w < |s| && s[w] != ']' { ItemsWellFormed(s, w, []); }
    } else if k < |s| && s[k] == '{' {
      var w := SkipWs(s, k + 1);
      if w < |s| && s[w] != '}' { MembersWellFormed(s, w, []); }
    }
  }

  lemma {:induction false} ItemsWellFormed(s: string, i: nat, acc: seq<Json>)
    requires i <= |s| && forall x :: x in acc ==> WellFormed(x)
    ensures ItemsAt(s, i, acc).Got? ==> WellFormed(ItemsAt(s, i, acc).value)
    decreases |s| - i, 1
  {
    hide ItemsAt, ValueAt;
    ParsedWellFormed(s, i);
    ItemsStep(s, i, acc);
    var v := ValueAt(s, i);
    if v.Got? {
      var w := SkipWs(s, v.next);
      ItemsAfterStep(s, w, acc + [v.value]);
      if w < |s| && s[w] == ',' {
        ItemsWellFormed(s, SkipWs(s, w + 1), acc + [v.value]);
      }
    }
  }

  lemma {:induction false} MembersWellFormed(s: string, i: nat, acc: seq<Member>)
    requires i <= |s| && WellFormed(Object(acc))
    ensures MembersAt(s, i, acc).Got? ==> WellFormed(MembersAt(s, i, acc).value)
    decreases |s| - i, 1
  {
    hide MembersAt, ValueAt, KeyAt, Set;
    MembersStep(s, i, acc);
    var key := KeyAt(s, i);
    if key.Got? {
      ParsedWellFormed(s, key.next);
      var v := ValueAt(s, key.next);
      if v.Got? {
        SetWellFormed(acc, key.value, v.value);
        var w := SkipWs(s, v.next);
        MembersAfterStep(s, w, Set(acc, key.value, v.value));
        if w < |s| && s[w] == ',' {
          MembersWellFormed(s, w + 1, Set(acc, key.value, v.value));
        }
      }
    }
  }
}
