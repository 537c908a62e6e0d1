/** Sequence helpers shared by the text-processing modules. */
module Text {

  /** A character that is one byte. */
  type Octet = c: char | c as int < 256 witness 'A'

  /** `pat` occurs in `text` at index `i`. */
  predicate OccursAt<T(==)>(text: seq<T>, pat: seq<T>, i: int) {
    0 <= i && i + |pat| <= |text| && text[i..i + |pat|] == pat
  }

  /** `pat` occurs nowhere in `text`. */
  ghost predicate Absent<T(!new)>(text: seq<T>, pat: seq<T>) {
    forall i :: !OccursAt(text, pat, i)
  }

  /** Index of the first occurrence at or after `from`, or -1. */
  function Find<T(==)>(text: seq<T>, pat: seq<T>, from: nat): (r: int)
    ensures r == -1 || (from <= r && OccursAt(text, pat, r))
    ensures forall i :: from <= i && (r == -1 || i < r) ==> !OccursAt(text, pat, i)
    decreases |text| - from
  {
    if from + |pat| > |text| then -1
    else if text[from..from + |pat|] == pat then from
    else Find(text, pat, from + 1)
  }

  /** Two searches agree when one candidate is the first occurrence. */
  lemma FindIs<T>(text: seq<T>, pat: seq<T>, from: nat, r: nat)
    requires from <= r && OccursAt(text, pat, r)
    requires forall i :: from <= i < r ==> !OccursAt(text, pat, i)
    ensures Find(text, pat, from) == r
  {
  }

  /** An occurrence agrees with the pattern character by character. */
  lemma OccursChar(text: string, pat: string, i: int, k: nat)
    requires OccursAt(text, pat, i) && k < |pat|
    ensures text[i + k] == pat[k]
  {
    assert text[i..i + |pat|][k] == text[i + k];
  }

  /** One character that differs rules an occurrence out. */
  lemma Differs(text: string, pat: string, i: int, k: nat)
    requires k < |pat| && 0 <= i && i + |pat| <= |text| && text[i + k] != pat[k]
    ensures !OccursAt(text, pat, i)
  {
    assert text[i..i + |pat|][k] == text[i + k];
  }

  lemma SubSlice<T>(s: seq<T>, p: nat, e: nat, i: nat, j: nat)
    requires p <= e <= |s| && i <= j <= e - p
    ensures s[p..e][i..j] == s[p + i..p + j]
  {
    var a, b := s[p..e][i..j], s[p + i..p + j];
    assert |a| == |b| && forall k :: 0 <= k < |a| ==> a[k] == b[k];
  }

  lemma Assoc<T>(a: seq<T>, b: seq<T>, c: seq<T>)
    ensures a + (b + c) == a + b + c
  {
  }

  /** Index of the first element satisfying `p` at or after `from`, or |s|. */
  function FirstIndex<T>(s: seq<T>, p: T -> bool, from: nat): (r: nat)
    requires from <= |s|
    ensures from <= r <= |s|
    ensures forall i :: from <= i < r ==> !p(s[i])
    ensures r < |s| ==> p(s[r])
    decreases |s| - from
  {
    if from == |s| || p(s[from]) then from else FirstIndex(s, p, from + 1)
  }

  function Flatten<T>(parts: seq<seq<T>>): seq<T> {
    if parts == [] then [] else parts[0] + Flatten(parts[1..])
  }

  lemma {:induction false} FlattenAppend<T>(a: seq<seq<T>>, b: seq<seq<T>>)
    ensures Flatten(a + b) == Flatten(a) + Flatten(b)
  {
    if a == [] {
      assert a + b == b;
    } else {
      assert (a + b)[1..] == a[1..] + b;
      FlattenAppend(a[1..], b);
    }
  }

  lemma FlattenSnoc<T>(a: seq<seq<T>>, x: seq<T>)
    ensures Flatten(a + [x]) == Flatten(a) + x
  {
    FlattenAppend(a, [x]);
    assert Flatten([x]) == x;
  }

  /** The last `n` elements (all of them when there are fewer). */
  function LastN<T>(s: seq<T>, n: nat): (r: seq<T>)
    ensures |r| == if |s| <= n then |s| else n
  {
    if |s| <= n then s else s[|s| - n..]
  }

  function Repeat<T>(x: T, n: nat): (r: seq<T>)
    ensures |r| == n
    ensures forall i :: 0 <= i < n ==> r[i] == x
  {
    seq(n, _ => x)
  }
}
