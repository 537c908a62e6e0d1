/** Masking secrets in a line of output: one split-and-join pass per secret, longest secret first. */
module Redactor {
  import opened Text

  const MIN_SECRET_LENGTH: nat := 6

  const MASK: string := "***REDACTED***"

  // ----- One pass -----

  function Split(s: string, sep: string): (parts: seq<string>)
    requires sep != ""
    ensures parts != []
    decreases |s|
  {
    var i := Find(s, sep, 0);
    if i == -1 then [s] else [s[..i]] + Split(s[i + |sep|..], sep)
  }

  function Join(parts: seq<string>, sep: string): string
    requires parts != []
  {
    if |parts| == 1 then parts[0] else parts[0] + sep + Join(parts[1..], sep)
  }

  function Pass(line: string, secret: string): string
    requires secret != ""
  {
    if Find(line, secret, 0) != -1 then Join(Split(line, secret), MASK) else line
  }

  /** Splitting loses nothing: joining with the separator gives the text back. */
  lemma {:induction false} SplitJoins(s: string, sep: string)
    requires sep != ""
    ensures Join(Split(s, sep), sep) == s
    decreases |s|
  {
    var i := Find(s, sep, 0);
    if i != -1 {
      var rest := Split(s[i + |sep|..], sep);
      SplitJoins(s[i + |sep|..], sep);
      assert ([s[..i]] + rest)[1..] == rest;
      assert s == s[..i] + sep + s[i + |sep|..];
    }
  }

  lemma OccursInPart(s: string, i: nat, j: nat, pat: string, k: int)
    requires i <= j <= |s|
    ensures OccursAt(s[i..j], pat, k) ==> OccursAt(s, pat, i + k) && i + k + |pat| <= j
  {
    if OccursAt(s[i..j], pat, k) { SubSlice(s, i, j, k, k + |pat|); }
  }

  lemma AbsentPart(s: string, pat: string, i: nat, j: nat)
    requires Absent(s, pat) && i <= j <= |s|
    ensures Absent(s[i..j], pat)
  {
    forall k ensures OccursAt(s[i..j], pat, k) ==> OccursAt(s, pat, i + k) { OccursInPart(s, i, j, pat, k); }
  }

  /** No part contains the separator, nor anything else the text does not contain. */
  lemma {:induction false} PartsLack(s: string, sep: string, pat: string)
    requires sep != "" && pat != "" && (pat == sep || Absent(s, pat))
    ensures forall j :: 0 <= j < |Split(s, sep)| ==> Absent(Split(s, sep)[j], pat)
    decreases |s|
  {
    hide Find, Absent;
    var i := Find(s, sep, 0);
    if i == -1 {
      NotFound(s, sep);
    } else {
      FirstPart(s, sep, pat);
      if pat != sep { AbsentPart(s, pat, i + |sep|, |s|); }
      assert s[i + |sep|..|s|] == s[i + |sep|..];
      PartsLack(s[i + |sep|..], sep, pat);
    }
  }

  lemma NotFound(s: string, sep: string)
    requires Find(s, sep, 0) == -1
    ensures Absent(s, sep)
  {
  }

  lemma FirstPart(s: string, sep: string, pat: string)
    requires sep != "" && pat != "" && (pat == sep || Absent(s, pat)) && Find(s, sep, 0) != -1
    ensures Absent(s[..Find(s, sep, 0)], pat)
  {
    hide Find;
    var i := Find(s, sep, 0);
    assert s[0..i] == s[..i];
    forall k ensures OccursAt(s[..i], pat, k) ==> OccursAt(s, pat, k) && k + |pat| <= i {
      OccursInPart(s, 0, i, pat, k);
    }
  }

  // ----- Secrets and the mask -----

  /** `p`, placed at offset `d` from the mask's start, agrees with it wherever they overlap. */
  predicate FitsAt(p: string, d: int) {
    forall k :: 0 <= k < |p| && 0 <= d + k < |MASK| ==> p[k] == MASK[d + k]
  }

  /** The text can occur partly or wholly inside a mask, or around one. */
  predicate CanOverlap(p: string) { exists d :: -|p| < d < |MASK| && FitsAt(p, d) }

  /** Around a mask, a text occurs beside it or overlaps it. */
  lemma OccursJoined(a: string, b: string, p: string, i: int)
    requires p != ""
    ensures OccursAt(a + MASK + b, p, i) ==>
              || OccursAt(a, p, i)
              || OccursAt(b, p, i - |a| - |MASK|)
              || (-|p| < i - |a| < |MASK| && FitsAt(p, i - |a|))
  {
    var s, d := a + MASK + b, i - |a|;
    if OccursAt(s, p, i) {
      if -|p| < d < |MASK| {
        forall k | 0 <= k < |p| && 0 <= d + k < |MASK| ensures p[k] == MASK[d + k] {
          OccursChar(s, p, i, k);
          assert s[i + k] == MASK[i + k - |a|];
        }
      } else if d < 0 {
        assert s[i..i + |p|] == a[i..i + |p|];
      } else {
        var j := d - |MASK|;
        assert s[i..i + |p|] == b[j..j + |p|];
      }
    }
  }

  lemma {:induction false} JoinLacks(parts: seq<string>, p: string)
    requires parts != [] && p != "" && !CanOverlap(p)
    requires forall j :: 0 <= j < |parts| ==> Absent(parts[j], p)
    ensures Absent(Join(parts, MASK), p)
    decreases |parts|
  {
    hide FitsAt;
    if |parts| > 1 {
      var a, b := parts[0], Join(parts[1..], MASK);
      JoinLacks(parts[1..], p);
      forall i ensures OccursAt(a + MASK + b, p, i) ==>
                         OccursAt(a, p, i) || OccursAt(b, p, i - |a| - |MASK|)
                         || (-|p| < i - |a| < |MASK| && FitsAt(p, i - |a|)) {
        OccursJoined(a, b, p, i);
      }
    }
  }

  /** A pass removes its own secret and never brings back one that was gone. */
  lemma PassLacks(line: string, secret: string, p: string)
    requires secret != "" && p != "" && !CanOverlap(p) && (p == secret || Absent(line, p))
    ensures Absent(Pass(line, secret), p)
  {
    hide Find, Absent, CanOverlap;
    if Find(line, secret, 0) != -1 {
      PartsLack(line, secret, p);
      JoinLacks(Split(line, secret), p);
    } else {
      NotFound(line, secret);
    }
  }

  // ----- The secrets a redactor is made for -----

  function Long(secrets: seq<string>): seq<string> {
    if secrets == [] then []
    else Long(secrets[..|secrets| - 1])
         + if |secrets[|secrets| - 1]| >= MIN_SECRET_LENGTH then [secrets[|secrets| - 1]] else []
  }

  function Unique(s: seq<string>): seq<string> {
    if s == [] then []
    else
      var u := Unique(s[..|s| - 1]);
      if s[|s| - 1] in u then u else u + [s[|s| - 1]]
  }

  /** Stable insertion, longest first. */
  function Insert(x: string, sorted: seq<string>): seq<string> {
    if sorted == [] then [x]
    else if |sorted[|sorted| - 1]| >= |x| then sorted + [x]
    else Insert(x, sorted[..|sorted| - 1]) + [sorted[|sorted| - 1]]
  }

  function LongestFirst(s: seq<string>): seq<string> {
    if s == [] then [] else Insert(s[|s| - 1], LongestFirst(s[..|s| - 1]))
  }

  function Prepared(secrets: seq<string>): seq<string> { LongestFirst(Unique(Long(secrets))) }

  lemma {:induction false} LongHas(secrets: seq<string>, x: string)
    ensures x in Long(secrets) <==> x in secrets && |x| >= MIN_SECRET_LENGTH
  {
    if secrets != [] {
      var n := |secrets| - 1;
      LongHas(secrets[..n], x);
      assert secrets == secrets[..n] + [secrets[n]];
    }
  }

  lemma {:induction false} UniqueHas(s: seq<string>, x: string)
    ensures x in Unique(s) <==> x in s
  {
    if s != [] {
      var n := |s| - 1;
      UniqueHas(s[..n], x);
      UniqueHas(s[..n], s[n]);
      assert s == s[..n] + [s[n]];
    }
  }

  ghost predicate Descending(s: seq<string>) { forall i, j :: 0 <= i < j < |s| ==> |s[i]| >= |s[j]| }

  lemma {:induction false} InsertKeeps(x: string, s: seq<string>)
    ensures multiset(Insert(x, s)) == multiset(s) + multiset{x}
    ensures forall y :: y in Insert(x, s) ==> y == x || y in s
    decreases |s|
  {
    if s != [] {
      var n := |s| - 1;
      assert s == s[..n] + [s[n]];
      if |s[n]| < |x| { InsertKeeps(x, s[..n]); }
    }
  }

  lemma {:induction false} InsertDescends(x: string, s: seq<string>)
    requires Descending(s)
    ensures Descending(Insert(x, s))
    decreases |s|
  {
    if s != [] {
      var n := |s| - 1;
      if |s[n]| < |x| {
        InsertDescends(x, s[..n]);
        InsertKeeps(x, s[..n]);
        var before := Insert(x, s[..n]);
        forall i | 0 <= i < |before| ensures |before[i]| >= |s[n]| { assert before[i] in before; }
      }
    }
  }

  /** Sorting rearranges the secrets by falling length and keeps each exactly once. */
  lemma {:induction false} SortedLongestFirst(s: seq<string>)
    ensures Descending(LongestFirst(s)) && multiset(LongestFirst(s)) == multiset(s)
  {
    if s != [] {
      var n := |s| - 1;
      SortedLongestFirst(s[..n]);
      InsertKeeps(s[n], LongestFirst(s[..n]));
      InsertDescends(s[n], LongestFirst(s[..n]));
      assert s == s[..n] + [s[n]];
    }
  }

  lemma PreparedHas(secrets: seq<string>, x: string)
    ensures x in Prepared(secrets) <==> x in secrets && |x| >= MIN_SECRET_LENGTH
  {
    LongHas(secrets, x);
    UniqueHas(Long(secrets), x);
    var u := Unique(Long(secrets));
    SortedLongestFirst(u);
    assert x in LongestFirst(u) <==> x in multiset(LongestFirst(u));
    assert x in u <==> x in multiset(u);
  }

  // ----- The redactor -----

  ghost predicate NonEmpty(secrets: seq<string>) { forall i :: 0 <= i < |secrets| ==> secrets[i] != "" }

  function Redacted(prepared: seq<string>, line: string): string
    requires NonEmpty(prepared)
  {
    if prepared == [] then line
    else Pass(Redacted(prepared[..|prepared| - 1], line), prepared[|prepared| - 1])
  }

  lemma PreparedNonEmpty(secrets: seq<string>)
    ensures NonEmpty(Prepared(secrets))
  {
    hide Prepared;
    var p := Prepared(secrets);
    forall i | 0 <= i < |p| ensures p[i] != "" { PreparedHas(secrets, p[i]); }
  }

  class Redactor {
    const unique: seq<string>

    constructor (secrets: seq<string>)
      ensures unique == Prepared(secrets) && NonEmpty(unique)
    {
      PreparedNonEmpty(secrets);
      unique := Prepared(secrets);
    }

    method Redact(line: string) returns (out: string)
      requires NonEmpty(unique)
      ensures out == Redacted(unique, line)
    {
      hide Find;
      out := line;
      assert unique[..0] == [];
      for i := 0 to |unique|
        invariant out == Redacted(unique[..i], line)
      {
        assert unique[..i + 1][..i] == unique[..i];
        if Find(out, unique[i], 0) != -1 {
          out := Join(Split(out, unique[i]), MASK);
        }
      }
      assert unique[..|unique|] == unique;
    }
  }

  /**
   A secret that cannot overlap the mask is gone from the line, whatever the other secrets are and
   however they overlap or nest.
   */
  lemma {:induction false} RedactedLacks(prepared: seq<string>, line: string, p: string)
    requires NonEmpty(prepared) && !CanOverlap(p) && p in prepared
    ensures Absent(Redacted(prepared, line), p)
    decreases |prepared|
  {
    hide Pass, Absent, CanOverlap;
    var n := |prepared| - 1;
    assert prepared == prepared[..n] + [prepared[n]];
    if p != prepared[n] { RedactedLacks(prepared[..n], line, p); }
    PassLacks(Redacted(prepared[..n], line), prepared[n], p);
  }

  lemma {:induction false} NothingToRedact(prepared: seq<string>, line: string)
    requires NonEmpty(prepared) && forall i :: 0 <= i < |prepared| ==> Absent(line, prepared[i])
    ensures Redacted(prepared, line) == line
    decreases |prepared|
  {
    if prepared != [] {
      var n := |prepared| - 1;
      NothingToRedact(prepared[..n], line);
      assert Absent(line, prepared[n]);
    }
  }

  /** When no secret can overlap the mask, redacting again changes nothing. */
  lemma RedactTwice(secrets: seq<string>, line: string)
    requires forall x :: x in secrets && |x| >= MIN_SECRET_LENGTH ==> !CanOverlap(x)
    ensures NonEmpty(Prepared(secrets))
    ensures var once := Redacted(Prepared(secrets), line);
            && Redacted(Prepared(secrets), once) == once
            && forall x :: x in secrets && |x| >= MIN_SECRET_LENGTH ==> Absent(once, x)
  {
    hide Prepared, Redacted, Absent, CanOverlap;
    PreparedNonEmpty(secrets);
    var p := Prepared(secrets);
    var once := Redacted(p, line);
    forall i | 0 <= i < |p| ensures Absent(once, p[i]) {
      PreparedHas(secrets, p[i]);
      RedactedLacks(p, line, p[i]);
    }
    NothingToRedact(p, once);
    forall x | x in secrets && |x| >= MIN_SECRET_LENGTH ensures Absent(once, x) {
      PreparedHas(secrets, x);
      RedactedLacks(p, line, x);
    }
  }

  // ----- The exact condition -----

  /** Some set of secrets with this one, and some line, leave it in the output. */
  ghost predicate CanLeak(p: string) {
    exists secrets: seq<string>, line: string ::
      p in secrets && NonEmpty(Prepared(secrets)) && !Absent(Redacted(Prepared(secrets), line), p)
  }

  /** What of `p` sticks out of the mask on either side when it is placed at offset `d`. */
  function Before(p: string, d: int): string
    requires -|p| < d
  {
    if d < 0 then p[..-d] else ""
  }

  function After(p: string, d: int): string
    requires -|p| < d < |MASK|
  {
    if d + |p| > |MASK| then p[|MASK| - d..] else ""
  }

  lemma AroundMask(p: string, d: int)
    requires -|p| < d < |MASK| && FitsAt(p, d)
    ensures !Absent(Before(p, d) + MASK + After(p, d), p)
  {
    var a, b := Before(p, d), After(p, d);
    var t, i := a + MASK + b, if d < 0 then 0 else d;
    assert |a| == if d < 0 then -d else 0;
    assert i + |p| <= |t|;
    forall k | 0 <= k < |p| ensures t[i + k] == p[k] {
      if d + k < 0 {
        assert t[i + k] == a[k];
      } else if d + k < |MASK| {
        assert t[i + k] == MASK[d + k];
      } else {
        assert t[i + k] == b[d + k - |MASK|];
      }
    }
    assert t[i..i + |p|] == p;
    assert OccursAt(t, p, i);
  }

  /** A text of six equal characters that do not occur in `p`. */
  function Filler(c: char): (f: string)
    ensures |f| == 6
  {
    Repeat(c, 6)
  }

  lemma SixStrangers(a: string, b: string, c: char, i: int)
    requires c !in a && c !in b
    ensures OccursAt(a + Filler(c) + b, Filler(c), i) <==> i == |a|
    ensures !OccursAt(b, Filler(c), i)
  {
    var s, q := a + Filler(c) + b, Filler(c);
    if i == |a| {
      assert s[i..i + 6] == q;
    } else if 0 <= i && i + 6 <= |s| {
      var k := if i < |a| then 0 else 5;
      assert s[i + k] == if i < |a| then a[i] else b[i + 5 - |a| - 6];
      assert s[i + k] in a || s[i + k] in b;
      Differs(s, q, i, k);
    }
    if 0 <= i && i + 6 <= |b| { Differs(b, q, i, 0); }
  }

  /** A pass for the filler puts the mask in its place. */
  lemma FillerMasked(a: string, b: string, c: char)
    requires c !in a && c !in b
    ensures Pass(a + Filler(c) + b, Filler(c)) == a + MASK + b
  {
    hide Find, Filler, OccursAt;
    var s, q := a + Filler(c) + b, Filler(c);
    forall i ensures (OccursAt(s, q, i) <==> i == |a|) && !OccursAt(b, q, i) { SixStrangers(a, b, c, i); }
    FindIs(s, q, 0, |a|);
    assert s[|a| + |q|..] == b && s[..|a|] == a;
    assert Find(b, q, 0) == -1;
    assert Split(b, q) == [b];
    assert Split(s, q) == [a] + [b];
    assert ([a] + [b])[1..] == [b] && Join([b], MASK) == b;
    assert Join([a] + [b], MASK) == a + MASK + b;
  }

  lemma NoFiller(a: string, b: string, c: char, p: string)
    requires c !in p && |a| < |p| && |b| < |p|
    ensures Absent(a + Filler(c) + b, p)
  {
    var s := a + Filler(c) + b;
    forall i ensures !OccursAt(s, p, i) {
      if 0 <= i && i + |p| <= |s| {
        var k := if i <= |a| then |a| - i else 0;
        assert s[i + k] == Filler(c)[i + k - |a|] == c;
        assert p[k] in p;
        Differs(s, p, i, k);
      }
    }
  }

  lemma PreparedPair(p: string, q: string)
    requires |p| >= |q| >= 6 && p != q
    ensures Prepared([p, q]) == [p, q]
  {
    PairLong(p, q);
    PairUnique(p, q);
    PairSorted(p, q);
  }

  lemma PairLong(p: string, q: string)
    requires |p| >= |q| >= 6
    ensures Long([p, q]) == [p, q]
  {
    assert [p, q][..1] == [p] && [p][..0] == [];
    assert Long([p]) == [] + [p];
    assert Long([p, q]) == [p] + [q];
  }

  lemma PairUnique(p: string, q: string)
    requires p != q
    ensures Unique([p, q]) == [p, q]
  {
    assert [p, q][..1] == [p] && [p][..0] == [];
    assert Unique([]) == [] && Unique([p]) == [] + [p];
    assert Unique([p, q]) == [p] + [q];
  }

  lemma PairSorted(p: string, q: string)
    requires |p| >= |q|
    ensures LongestFirst([p, q]) == [p, q]
  {
    assert [p, q][..1] == [p] && [p][..0] == [];
    assert LongestFirst([p]) == Insert(p, []) == [p];
    assert LongestFirst([p, q]) == Insert(q, [p]) == [p] + [q];
  }

  lemma RedactedPair(p: string, q: string, line: string)
    requires p != "" && q != "" && NonEmpty([p, q])
    ensures Redacted([p, q], line) == Pass(Pass(line, p), q)
  {
    hide Pass;
    assert [p, q][..1] == [p] && [p][..0] == [];
    assert Redacted([p], line) == Pass(line, p);
  }

  /**
   A secret can appear in some output exactly when it can overlap the mask. (`c` stands for any
   character the secret does not contain.)
   */
  lemma LeaksExactly(p: string, c: char)
    requires |p| >= MIN_SECRET_LENGTH && c !in p
    ensures CanLeak(p) <==> CanOverlap(p)
  {
    hide Absent, Redacted, Prepared, FitsAt, Pass;
    if CanOverlap(p) {
      var d :| -|p| < d < |MASK| && FitsAt(p, d);
      Leaks(p, c, d);
    } else {
      forall secrets: seq<string>, line: string | p in secrets && NonEmpty(Prepared(secrets))
        ensures Absent(Redacted(Prepared(secrets), line), p)
      {
        PreparedHas(secrets, p);
        RedactedLacks(Prepared(secrets), line, p);
      }
    }
  }

  lemma Leaks(p: string, c: char, d: int)
    requires |p| >= MIN_SECRET_LENGTH && c !in p && -|p| < d < |MASK| && FitsAt(p, d)
    ensures CanLeak(p)
  {
    hide Absent, FitsAt, Find, Join, Split, Prepared;
    var a, b, q := Before(p, d), After(p, d), Filler(c);
    var line := a + q + b;
    assert p[0] in p && q[0] == c;
    PreparedPair(p, q);
    NoFiller(a, b, c, p);
    NotThere(line, p);
    FillerMasked(a, b, c);
    RedactedPair(p, q, line);
    AroundMask(p, d);
    assert p in [p, q] && NonEmpty([p, q]);
  }

  lemma NotThere(line: string, p: string)
    requires p != "" && Absent(line, p)
    ensures Pass(line, p) == line
  {
  }

  /** For instance every secret that begins or ends with an asterisk, as the mask does. */
  lemma AsteriskLeaks(p: string, c: char)
    requires |p| >= MIN_SECRET_LENGTH && c !in p && (p[0] == '*' || p[|p| - 1] == '*')
    ensures CanOverlap(p) && CanLeak(p)
  {
    var n := |p|;
    assert MASK[|MASK| - 1] == '*' && MASK[0] == '*';
    assert if p[0] == '*' then FitsAt(p, |MASK| - 1) else FitsAt(p, 1 - n);
    hide CanLeak, FitsAt;
    LeaksExactly(p, c);
  }
}
