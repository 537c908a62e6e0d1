/**
 The patch of a generated build.gradle that makes the release build sign with the user's keystore:
 three text edits placed by a brace scanner.
 */
module SigningPatch {
  import opened Text
  import opened Wrappers

  const MARK: string := "keystorePropertiesFile"

  const FILE_LINE: string := " = rootProject" + (".file(\"keystore" + ".properties\")\n")
  const NEW_LINE: string := "def keystore" + ("Properties = new " + "Properties()\n")
  const EXISTS_TEST: string := "if (" + MARK + ".exists()) "
  const LOAD_LINE: string := "\n    keystore" + "Properties.load(" + "new FileInputStream(" + MARK + "))\n"
  const HEADER_REST: string := FILE_LINE + NEW_LINE + EXISTS_TEST + Braced(LOAD_LINE) + "\n"

  const HEADER: string := "def " + MARK + HEADER_REST

  const SIGNING: string := "signingConfigs {"
  const BUILD_TYPES: string := "buildTypes {"
  const RELEASE: string := "release {"

  /** The debug reference is `CONFIG`, white space, `DEBUG`. */
  const CONFIG: string := "signingConfig"
  const DEBUG: string := "signingConfigs.debug"

  const BEFORE_CALL: string := "signingConfig " + MARK + ".exists"
  const CALL_TO_COLON: string := "() ? signingConfigs.release :"
  const REPLACEMENT: string := BEFORE_CALL + CALL_TO_COLON + (" " + DEBUG)

  const INDENT: string := "\n                "
  const PROPERTIES: string := "keystoreProperties"
  const STORE_FILE: string := INDENT + "storeFile file(" + PROPERTIES + "['storeFile'])"
  const STORE_PASSWORD: string := INDENT + "storePassword " + PROPERTIES + "['storePassword']"
  const KEY_ALIAS: string := INDENT + "keyAlias " + PROPERTIES + "['keyAlias']"
  const KEY_PASSWORD: string := INDENT + "keyPassword " + PROPERTIES + "['keyPassword']"
  const STORE_LINES: string := STORE_FILE + STORE_PASSWORD + KEY_ALIAS + KEY_PASSWORD + "\n            "

  /** The inner block of the release configuration: only when the properties file exists. */
  const EXISTS_BLOCK: string := ".exists()) " + Braced(STORE_LINES)
  const IF_EXISTS: string := "\n            if (" + MARK + EXISTS_BLOCK
  const RELEASE_BLOCK: string := RELEASE + IF_EXISTS + "\n        }"
  const RELEASE_CONFIG: string := "\n        " + RELEASE_BLOCK + "\n    "

  function Braced(s: string): string { "{" + s + "}" }

  datatype PatchError = NoApplyPlugin | NoSigningConfigs | NoBuildTypes | NoReleaseType

  // ----- Braces -----

  datatype Block = Block(headerIdx: nat, openBrace: nat, closeBrace: nat)

  function Change(c: char): int { if c == '{' then 1 else if c == '}' then -1 else 0 }

  /** Where the scan stops: just past the brace that brings the depth to 0. */
  function Scan(text: string, i: nat, depth: nat): (r: Option<nat>)
    requires i <= |text|
    ensures r.Some? ==> i <= r.value <= |text| && (depth > 0 ==> i < r.value && text[r.value - 1] == '}')
    decreases |text| - i
  {
    if depth == 0 then Some(i)
    else if i == |text| then None
    else Scan(text, i + 1, if text[i] == '{' then depth + 1 else if text[i] == '}' then depth - 1 else depth)
  }

  function FindBlock(text: string, header: string, from: nat): (b: Option<Block>)
    ensures b.Some? ==> from <= b.value.headerIdx <= b.value.openBrace < b.value.closeBrace < |text|
  {
    var h := Find(text, header, from);
    if h == -1 then None
    else
      var o := Find(text, "{", h);
      if o == -1 then None
      else
        var end := Scan(text, o + 1, 1);
        if end.None? then None else Some(Block(h, o, end.value - 1))
  }

  method LocateBlock(text: string, header: string, from: nat) returns (b: Option<Block>)
    ensures b == FindBlock(text, header, from)
  {
    var headerIdx := Find(text, header, from);
    if headerIdx == -1 { return None; }
    var openBrace := Find(text, "{", headerIdx);
    if openBrace == -1 { return None; }
    var depth, i := 1, openBrace + 1;
    while i < |text| && depth > 0
      invariant openBrace < i <= |text| && depth >= 0
      invariant Scan(text, i, depth) == Scan(text, openBrace + 1, 1)
    {
      if text[i] == '{' { depth := depth + 1; } else if text[i] == '}' { depth := depth - 1; }
      i := i + 1;
    }
    if depth != 0 { return None; }
    return Some(Block(headerIdx, openBrace, i - 1));
  }

  /** Opening minus closing braces. */
  function Balance(s: string): int { if s == "" then 0 else Balance(s[..|s| - 1]) + Change(s[|s| - 1]) }

  /** Nesting below brace `o` just before `j`. */
  function Depth(text: string, o: nat, j: nat): int
    requires o < j <= |text|
  {
    Balance(text[o + 1..j])
  }

  /** Brace `c` closes brace `o`: what lies between never closes more than it opens, and evens out. */
  ghost predicate Closes(text: string, o: nat, c: nat) {
    && o < c < |text| && text[c] == '}'
    && Depth(text, o, c) == 0
    && forall j :: o < j <= c ==> Depth(text, o, j) >= 0
  }

  lemma BalanceStep(text: string, a: nat, j: nat)
    requires a <= j < |text|
    ensures Balance(text[a..j + 1]) == Balance(text[a..j]) + Change(text[j])
  {
    assert text[a..j + 1][..j - a] == text[a..j];
  }

  lemma {:induction false} BalanceAppend(a: string, b: string)
    ensures Balance(a + b) == Balance(a) + Balance(b)
    decreases |b|
  {
    if b == "" {
      assert a + b == a;
    } else {
      var n := |b| - 1;
      assert (a + b)[..|a| + n] == a + b[..n] && (a + b)[|a| + n] == b[n];
      BalanceAppend(a, b[..n]);
    }
  }

  /** The scan from `o` finds exactly the brace that closes it. */
  lemma {:induction false} ScanCloses(text: string, o: nat, i: nat)
    requires o < i <= |text|
    requires forall j :: o < j <= i ==> Depth(text, o, j) >= 0
    ensures var r := Scan(text, i, 1 + Depth(text, o, i));
            && (r.Some? ==> Closes(text, o, r.value - 1))
            && (r.None? ==> forall c :: i <= c ==> !Closes(text, o, c))
    decreases |text| - i
  {
    hide Balance;
    if i < |text| {
      BalanceStep(text, o + 1, i);
      if 1 + Depth(text, o, i + 1) > 0 {
        ScanCloses(text, o, i + 1);
      } else {
        assert Scan(text, i + 1, 0) == Some(i + 1);
      }
      if text[i] == '}' && Depth(text, o, i) == 0 {
        assert Scan(text, i, 1).Some?;
      }
    }
  }

  /** At most one brace closes a given one. */
  lemma ClosesUnique(text: string, o: nat, c: nat, d: nat)
    requires Closes(text, o, c) && c < d
    ensures !Closes(text, o, d)
  {
    BalanceStep(text, o + 1, c);
    hide Balance;
    if d < |text| { assert Depth(text, o, c + 1) == -1; }
  }

  lemma EmptyBalance(text: string, o: nat)
    requires o < |text|
    ensures Depth(text, o, o + 1) == 0
  {
    assert text[o + 1..o + 1] == "";
  }

  /** A block is its header's first occurrence, the first brace from there, and the brace that closes that. */
  lemma FindBlockExactly(text: string, header: string, from: nat, b: Block)
    ensures FindBlock(text, header, from) == Some(b)
       <==> && Find(text, header, from) == b.headerIdx
            && Find(text, "{", b.headerIdx) == b.openBrace
            && Closes(text, b.openBrace, b.closeBrace)
  {
    hide Balance, Scan, Find;
    var o := Find(text, "{", b.headerIdx);
    if o != -1 {
      EmptyBalance(text, o);
      ScanCloses(text, o, o + 1);
      var r := Scan(text, o + 1, 1);
      if r.Some? {
        if r.value - 1 < b.closeBrace { ClosesUnique(text, o, r.value - 1, b.closeBrace); }
        if b.closeBrace < r.value - 1 && Closes(text, o, b.closeBrace) {
          ClosesUnique(text, o, b.closeBrace, r.value - 1);
        }
      }
    }
  }

  // ----- Edits that keep the braces matched -----

  /** Evens out and never closes more than it has opened. */
  ghost predicate Flat(x: string) { Balance(x) == 0 && forall k :: 0 <= k <= |x| ==> Balance(x[..k]) >= 0 }

  lemma {:induction false} NoBraces(x: string)
    requires '{' !in x && '}' !in x
    ensures Balance(x) == 0
  {
    if x != "" { NoBraces(x[..|x| - 1]); }
  }

  lemma NoBracesFlat(x: string)
    requires '{' !in x && '}' !in x
    ensures Flat(x)
  {
    NoBraces(x);
    forall k | 0 <= k <= |x| ensures Balance(x[..k]) >= 0 { NoBraces(x[..k]); }
  }

  lemma SameBefore(a: string, m: string, x: string, b: string, o: nat, j: nat)
    requires o < j <= |a|
    ensures Depth(a + m + b, o, j) == Depth(a + x + b, o, j)
  {
    assert (a + m + b)[o + 1..j] == a[o + 1..j] == (a + x + b)[o + 1..j];
  }

  lemma SliceInto(a: string, x: string, b: string, p: nat, j: nat)
    requires p <= |a| <= j <= |a| + |x|
    ensures (a + x + b)[p..j] == a[p..] + x[..j - |a|]
  {
    var l, r := (a + x + b)[p..j], a[p..] + x[..j - |a|];
    assert |l| == |r| && forall k :: 0 <= k < |l| ==> l[k] == r[k];
  }

  lemma SlicePast(a: string, x: string, b: string, p: nat, j: nat)
    requires p <= |a| && |a| + |x| <= j <= |a| + |x| + |b|
    ensures (a + x + b)[p..j] == a[p..] + x + b[..j - |a| - |x|]
  {
    var l, r := (a + x + b)[p..j], a[p..] + x + b[..j - |a| - |x|];
    assert |l| == |r| && forall k :: 0 <= k < |l| ==> l[k] == r[k];
  }

  /** The depth inside and after the edited part, seen from a brace before it. */
  lemma DepthThrough(a: string, x: string, b: string, o: nat, j: nat)
    requires o < |a| <= j <= |a| + |x| + |b|
    ensures Depth(a + x + b, o, j) ==
            Balance(a[o + 1..])
            + if j <= |a| + |x| then Balance(x[..j - |a|]) else Balance(x) + Balance(b[..j - |a| - |x|])
  {
    hide Balance;
    var head := a[o + 1..];
    if j <= |a| + |x| {
      SliceInto(a, x, b, o + 1, j);
      BalanceAppend(head, x[..j - |a|]);
    } else {
      var k := j - |a| - |x|;
      SlicePast(a, x, b, o + 1, j);
      BalanceAppend(head + x, b[..k]);
      BalanceAppend(head, x);
    }
  }

  /** A block around the edited part keeps its braces; the closing one shifts by the inserted length. */
  lemma ClosesAround(a: string, m: string, x: string, b: string, o: nat, c: nat)
    requires Closes(a + m + b, o, c) && o < |a| && |a| + |m| <= c && Flat(m) && Flat(x)
    ensures Closes(a + x + b, o, c - |m| + |x|)
  {
    hide Balance, Depth;
    var s, t, d := a + m + b, a + x + b, c - |m| + |x|;
    forall j | o < j <= d ensures Depth(t, o, j) >= 0 {
      if j <= |a| {
        SameBefore(a, m, x, b, o, j);
      } else {
        DepthThrough(a, x, b, o, j);
        assert j <= |a| + |x| ==> Balance(x[..j - |a|]) >= 0;
        DepthThrough(a, m, b, o, if j <= |a| + |x| then |a| else j - |x| + |m|);
        assert m[..0] == "" && Balance(m[..0]) >= 0;
        FlatEnds(m);
        FlatEnds(x);
      }
    }
    DepthThrough(a, x, b, o, d);
    DepthThrough(a, m, b, o, c);
    FlatEnds(m);
    FlatEnds(x);
    assert t[d] == b[d - |a| - |x|] == s[c];
  }

  lemma FlatEnds(x: string)
    requires Flat(x)
    ensures Balance(x[..|x|]) == 0 && Balance(x[..0]) == 0
  {
    assert x[..|x|] == x && x[..0] == "";
  }

  lemma ClosesBefore(a: string, m: string, x: string, b: string, o: nat, c: nat)
    requires Closes(a + m + b, o, c) && c < |a|
    ensures Closes(a + x + b, o, c)
  {
    hide Balance, Depth;
    forall j | o < j <= c ensures Depth(a + x + b, o, j) == Depth(a + m + b, o, j) { SameBefore(a, m, x, b, o, j); }
  }

  lemma ClosesAfter(a: string, m: string, x: string, b: string, o: nat, c: nat)
    requires Closes(a + m + b, o, c) && |a| + |m| <= o
    ensures Closes(a + x + b, o - |m| + |x|, c - |m| + |x|)
  {
    hide Balance, Depth;
    var p := o - |m| + |x|;
    forall j | p < j <= c - |m| + |x| ensures Depth(a + x + b, p, j) == Depth(a + m + b, o, j - |x| + |m|) {
      SameAfter(a, m, x, b, p, j);
    }
    assert (a + x + b)[c - |m| + |x|] == b[c - |a| - |m|] == (a + m + b)[c];
  }

  lemma SameAfter(a: string, m: string, x: string, b: string, p: nat, j: nat)
    requires |a| + |x| <= p < j <= |a| + |x| + |b|
    ensures Depth(a + x + b, p, j) == Depth(a + m + b, p - |x| + |m|, j - |x| + |m|)
  {
    var k, l := p + 1 - |a| - |x|, j - |a| - |x|;
    assert (a + x + b)[p + 1..j] == b[k..l];
    assert (a + m + b)[p - |x| + |m| + 1..j - |x| + |m|] == b[k..l];
  }

  // ----- Headers and edits -----

  /** A header: a text whose only opening brace is its last character. */
  predicate IsHeader(h: string) { h != "" && h[|h| - 1] == '{' && '{' !in h[..|h| - 1] && '}' !in h }

  /** Ends in "ug", without braces. */
  predicate EndsUg(x: string) { |x| >= 20 && x[|x| - 1] == 'g' && x[|x| - 2] == 'u' && '{' !in x && '}' !in x }

  /** No beginning of the header can be such an ending. */
  predicate Apart(h: string) { 2 <= |h| <= 20 && h[0] != 'g' && ('g' !in h || 'u' !in h) }

  lemma HeadersApart()
    ensures IsHeader(SIGNING) && IsHeader(BUILD_TYPES) && IsHeader(RELEASE)
    ensures Apart(SIGNING) && Apart(BUILD_TYPES) && Apart(RELEASE)
  {
  }

  /** A header never overlaps such a text. */
  lemma NoOverlap(a: string, x: string, b: string, h: string, i: nat)
    requires EndsUg(x) && IsHeader(h) && Apart(h)
    requires |a| < i + |h| && i < |a| + |x|
    ensures !OccursAt(a + x + b, h, i)
  {
    var s, last := a + x + b, i + |h| - 1;
    if i + |h| <= |s| {
      if last < |a| + |x| {
        assert s[last] == x[last - |a|] && x[last - |a|] in x;
        Differs(s, h, i, |h| - 1);
      } else {
        var g := |a| + |x| - 1;
        assert s[g] == x[|x| - 1] == 'g' && s[g - 1] == x[|x| - 2] == 'u';
        if h[g - i] != 'g' {
          Differs(s, h, i, g - i);
        } else {
          assert 'g' in h && h[g - 1 - i] in h;
          Differs(s, h, i, g - 1 - i);
        }
      }
    }
  }

  lemma OccursBefore(a: string, m: string, x: string, b: string, h: string, i: nat)
    requires i + |h| <= |a|
    ensures OccursAt(a + m + b, h, i) <==> OccursAt(a + x + b, h, i)
  {
    assert (a + m + b)[i..i + |h|] == a[i..i + |h|] == (a + x + b)[i..i + |h|];
  }

  lemma OccursAfter(a: string, m: string, x: string, b: string, h: string, i: nat)
    requires |a| + |x| <= i
    ensures OccursAt(a + x + b, h, i) <==> OccursAt(a + m + b, h, i - |x| + |m|)
  {
    var k := i - |a| - |x|;
    if k + |h| <= |b| {
      assert (a + x + b)[i..i + |h|] == b[k..k + |h|];
      assert (a + m + b)[i - |x| + |m|..i - |x| + |m| + |h|] == b[k..k + |h|];
    }
  }

  /** Where an index outside the edited part goes. */
  function Shifted(i: int, a: string, m: string, x: string): int { if i < |a| then i else i - |m| + |x| }

  lemma OccursOutside(a: string, m: string, x: string, b: string, h: string, i: nat)
    requires EndsUg(m) && EndsUg(x) && IsHeader(h) && Apart(h) && (i < |a| || |a| + |m| <= i)
    ensures OccursAt(a + m + b, h, i) <==> OccursAt(a + x + b, h, Shifted(i, a, m, x))
  {
    if i + |h| <= |a| {
      OccursBefore(a, m, x, b, h, i);
    } else if i < |a| {
      NoOverlap(a, m, b, h, i);
      NoOverlap(a, x, b, h, i);
    } else {
      OccursAfter(a, m, x, b, h, i - |m| + |x|);
    }
  }

  /** Replacing one such text by another carries first occurrences along. */
  lemma FindShifted(a: string, m: string, x: string, b: string, h: string, from: nat, r: nat)
    requires EndsUg(m) && EndsUg(x) && IsHeader(h) && Apart(h)
    requires Find(a + m + b, h, from) == r && from < |a|
    ensures (r < |a| || |a| + |m| <= r) && Find(a + x + b, h, from) == Shifted(r, a, m, x)
  {
    hide Find, OccursAt, EndsUg, IsHeader, Apart;
    if |a| <= r < |a| + |m| {
      HeaderNonEmpty(h);
      NoOverlap(a, m, b, h, r);
      assert false;
    }
    var q := Shifted(r, a, m, x);
    OccursOutside(a, m, x, b, h, r);
    forall i | from <= i < q ensures !OccursAt(a + x + b, h, i) {
      if |a| <= i < |a| + |x| {
        HeaderNonEmpty(h);
        NoOverlap(a, x, b, h, i);
      } else {
        OccursOutside(a, m, x, b, h, if i < |a| then i else i - |x| + |m|);
      }
    }
    FindIs(a + x + b, h, from, q);
  }

  lemma HeaderNonEmpty(h: string)
    requires IsHeader(h)
    ensures |h| > 0
  {
  }

  /** A header's opening brace is its last character. */
  lemma BraceOfHeader(text: string, h: string, i: nat)
    requires IsHeader(h) && OccursAt(text, h, i)
    ensures Find(text, "{", i) == i + |h| - 1
  {
    hide Find;
    var o := i + |h| - 1;
    OccursChar(text, h, i, |h| - 1);
    assert text[o..o + 1] == "{";
    forall j | i <= j < o ensures !OccursAt(text, "{", j) {
      OccursChar(text, h, i, j - i);
      assert h[j - i] == h[..|h| - 1][j - i];
      Differs(text, "{", j, 0);
    }
    FindIs(text, "{", i, o);
  }

  // ----- Finding the debug reference -----

  predicate Space(c: char) {
    || '\t' <= c <= '\r' || c == ' ' || c == '\U{00a0}' || c == '\U{1680}' || '\U{2000}' <= c <= '\U{200a}'
    || c == '\U{2028}' || c == '\U{2029}' || c == '\U{202f}' || c == '\U{205f}' || c == '\U{3000}' || c == '\U{feff}'
  }

  /** End of the reference that starts at `p`, or None. White space is greedy: no letter is a space. */
  function MatchEnd(s: string, p: int): (e: Option<nat>)
    ensures e.Some? ==> 0 <= p && p + 34 <= e.value <= |s|
  {
    if !OccursAt(s, CONFIG, p) then None
    else
      var w := FirstIndex(s, (c: char) => !Space(c), p + |CONFIG|);
      if w == p + |CONFIG| || !OccursAt(s, DEBUG, w) then None else Some(w + |DEBUG|)
  }

  function FindReference(s: string, from: nat): (r: int)
    ensures r == -1 || (from <= r && MatchEnd(s, r).Some?)
    ensures forall i :: from <= i && (r == -1 || i < r) ==> MatchEnd(s, i).None?
    decreases |s| - from
  {
    if from >= |s| then -1 else if MatchEnd(s, from).Some? then from else FindReference(s, from + 1)
  }

  /** The text up to the first reference, the reference and the rest. */
  function ReplaceReference(s: string): string {
    var p := FindReference(s, 0);
    if p == -1 then s else s[..p] + REPLACEMENT + s[MatchEnd(s, p).value..]
  }

  predicate LineEnd(c: char) { c == '\n' || c == '\r' || c == '\U{2028}' || c == '\U{2029}' }

  /** Start of the first line that begins with the text, at or after `from`. */
  function FindLine(text: string, start: string, from: nat): (r: int)
    requires from <= |text|
    ensures r == -1 || (from <= r <= |text| && OccursAt(text, start, r) && (r == 0 || LineEnd(text[r - 1])))
    decreases |text| - from
  {
    if OccursAt(text, start, from) && (from == 0 || LineEnd(text[from - 1])) then from
    else if from == |text| then -1
    else FindLine(text, start, from + 1)
  }

  // ----- The three edits -----

  function Includes(text: string, pat: string): bool { Find(text, pat, 0) != -1 }

  function Insert(text: string, at: nat, x: string): string
    requires at <= |text|
  {
    text[..at] + x + text[at..]
  }

  function WithHeader(g: string): Result<string, PatchError> {
    if Includes(g, MARK) then Ok(g)
    else
      var p := FindLine(g, "apply plugin:", 0);
      if p == -1 then Err(NoApplyPlugin)
      else Ok(Insert(g, FirstIndex(g, LineEnd, p), "\n\n" + HEADER))
  }

  function WithReleaseConfig(g: string): Result<string, PatchError> {
    var b := FindBlock(g, SIGNING, 0);
    if b.None? then Err(NoSigningConfigs)
    else if Includes(g[b.value.openBrace..b.value.closeBrace], RELEASE) then Ok(g)
    else Ok(Insert(g, b.value.closeBrace, RELEASE_CONFIG))
  }

  /** The release build type: the first release block from the build types' brace on. */
  function ReleaseType(g: string): (r: Result<Block, PatchError>)
    ensures r.Ok? ==> r.value.headerIdx <= r.value.openBrace < r.value.closeBrace < |g|
  {
    var types := FindBlock(g, BUILD_TYPES, 0);
    if types.None? then Err(NoBuildTypes)
    else
      var release := FindBlock(g, RELEASE, types.value.openBrace);
      if release.None? || release.value.headerIdx > types.value.closeBrace then Err(NoReleaseType)
      else Ok(release.value)
  }

  function WithReleaseSigning(g: string): Result<string, PatchError> {
    var release := ReleaseType(g);
    if release.Err? then Err(release.error)
    else
      var o, c := release.value.openBrace, release.value.closeBrace;
      Ok(g[..o] + ReplaceReference(g[o..c]) + g[c..])
  }

  function Patched(g: string): Result<string, PatchError> {
    var g1 := WithHeader(g);
    if g1.Err? then g1
    else
      var g2 := WithReleaseConfig(g1.value);
      if g2.Err? then g2 else WithReleaseSigning(g2.value)
  }

  method AddHeader(gradle: string) returns (r: Result<string, PatchError>)
    ensures r == WithHeader(gradle)
  {
    hide Find, FindLine;
    if !Includes(gradle, MARK) {
      var p := FindLine(gradle, "apply plugin:", 0);
      if p == -1 { return Err(NoApplyPlugin); }
      var insertAt := FirstIndex(gradle, LineEnd, p);
      return Ok(gradle[..insertAt] + ("\n\n" + HEADER) + gradle[insertAt..]);
    }
    return Ok(gradle);
  }

  method AddReleaseConfig(gradle: string) returns (r: Result<string, PatchError>)
    ensures r == WithReleaseConfig(gradle)
  {
    hide Find, FindBlock;
    var signing := LocateBlock(gradle, SIGNING, 0);
    if signing.None? { return Err(NoSigningConfigs); }
    var close := signing.value.closeBrace;
    if !Includes(gradle[signing.value.openBrace..close], RELEASE) {
      return Ok(gradle[..close] + RELEASE_CONFIG + gradle[close..]);
    }
    return Ok(gradle);
  }

  method UseReleaseSigning(gradle: string) returns (r: Result<string, PatchError>)
    ensures r == WithReleaseSigning(gradle)
  {
    hide Find, FindBlock, FindReference, MatchEnd;
    var types := LocateBlock(gradle, BUILD_TYPES, 0);
    if types.None? { return Err(NoBuildTypes); }
    var release := LocateBlock(gradle, RELEASE, types.value.openBrace);
    if release.None? || release.value.headerIdx > types.value.closeBrace { return Err(NoReleaseType); }
    var o, c := release.value.openBrace, release.value.closeBrace;
    var src := gradle[o..c];
    var p := FindReference(src, 0);
    if p != -1 {
      var patched := src[..p] + REPLACEMENT + src[MatchEnd(src, p).value..];
      return Ok(gradle[..o] + patched + gradle[c..]);
    }
    assert gradle[..o] + src + gradle[c..] == gradle;
    return Ok(gradle);
  }

  method Patch(source: string) returns (r: Result<string, PatchError>)
    ensures r == Patched(source)
  {
    hide WithHeader, WithReleaseConfig, WithReleaseSigning;
    r := AddHeader(source);
    if r.Err? { return; }
    r := AddReleaseConfig(r.value);
    if r.Err? { return; }
    r := UseReleaseSigning(r.value);
  }

  // ----- References -----

  lemma SliceEq(s: string, t: string, i: nat, j: nat, n: nat, u: nat, v: nat)
    requires i + n <= |s| && j + n <= |t| && t[j..j + n] == s[i..i + n] && u <= v <= n
    ensures t[j + u..j + v] == s[i + u..i + v]
  {
    SubSlice(s, i, i + n, u, v);
    SubSlice(t, j, j + n, u, v);
  }

  lemma CharEq(s: string, t: string, i: nat, j: nat, n: nat, k: nat)
    requires i + n <= |s| && j + n <= |t| && t[j..j + n] == s[i..i + n] && k < n
    ensures t[j + k] == s[i + k]
  {
    assert t[j..j + n][k] == t[j + k] && s[i..i + n][k] == s[i + k];
  }

  lemma OccursLocal(s: string, t: string, i: nat, j: nat, n: nat, u: nat, pat: string)
    requires i + n <= |s| && j + n <= |t| && t[j..j + n] == s[i..i + n] && u + |pat| <= n && OccursAt(s, pat, i + u)
    ensures OccursAt(t, pat, j + u)
  {
    SliceEq(s, t, i, j, n, u, u + |pat|);
  }

  /** A match depends only on the characters it covers. */
  lemma MatchLocal(s: string, t: string, i: nat, j: nat)
    requires MatchEnd(s, i).Some?
    requires var n := MatchEnd(s, i).value - i; j + n <= |t| && t[j..j + n] == s[i..i + n]
    ensures MatchEnd(t, j) == Some(j + MatchEnd(s, i).value - i)
  {
    hide Space, OccursAt, FirstIndex;
    var e := MatchEnd(s, i).value;
    var n := e - i;
    var w := e - |DEBUG|;
    var v := w - i;
    OccursLocal(s, t, i, j, n, 0, CONFIG);
    OccursLocal(s, t, i, j, n, v, DEBUG);
    forall k | j + |CONFIG| <= k <= j + v ensures t[k] == s[i + (k - j)] { CharEq(s, t, i, j, n, k - j); }
    FirstIndexIs(t, j + |CONFIG|, j + v);
  }

  lemma {:induction false} FirstIndexIs(t: string, from: nat, w: nat)
    requires from <= w < |t| && !Space(t[w]) && forall k :: from <= k < w ==> Space(t[k])
    ensures FirstIndex(t, (c: char) => !Space(c), from) == w
    decreases w - from
  {
    if from < w { FirstIndexIs(t, from + 1, w); }
  }

  /** The letters and spaces a match is made of. */
  lemma MatchChars(s: string, i: nat, j: nat, c: char)
    requires MatchEnd(s, i).Some? && i <= j < MatchEnd(s, i).value
    requires !Space(c) && c !in CONFIG && c !in DEBUG
    ensures s[j] != c
  {
    MatchParts(s, i);
    hide MatchEnd, Space, CONFIG, DEBUG;
    var w := MatchEnd(s, i).value - |DEBUG|;
    if j < i + |CONFIG| {
      OccursChar(s, CONFIG, i, j - i);
      assert CONFIG[j - i] in CONFIG;
    } else if w <= j {
      OccursChar(s, DEBUG, w, j - w);
      assert DEBUG[j - w] in DEBUG;
    }
  }

  lemma MatchParts(s: string, i: nat)
    requires MatchEnd(s, i).Some?
    ensures var w := MatchEnd(s, i).value - |DEBUG|;
            && i + |CONFIG| < w && OccursAt(s, CONFIG, i) && OccursAt(s, DEBUG, w)
            && forall k :: i + |CONFIG| <= k < w ==> Space(s[k])
  {
    hide Space, OccursAt;
  }

  lemma MatchCorners(s: string, i: nat)
    requires MatchEnd(s, i).Some?
    ensures var e := MatchEnd(s, i).value; s[e - 1] == 'g' && s[e - 2] == 'u' && s[i] == 's' && s[i + 1] == 'i'
    ensures Space(s[i + |CONFIG|])
  {
    hide Space;
    var e := MatchEnd(s, i).value;
    OccursChar(s, DEBUG, e - |DEBUG|, |DEBUG| - 1);
    OccursChar(s, DEBUG, e - |DEBUG|, |DEBUG| - 2);
    OccursChar(s, CONFIG, i, 0);
    OccursChar(s, CONFIG, i, 1);
  }

  lemma MatchEnds(s: string, i: nat)
    requires MatchEnd(s, i).Some?
    ensures var e := MatchEnd(s, i).value; s[e - 1] == 'g' && s[e - 2] == 'u' && s[i] == 's' && s[i + 1] == 'i'
    ensures Space(s[i + |CONFIG|]) && EndsUg(s[i..MatchEnd(s, i).value])
  {
    MatchCorners(s, i);
    hide MatchEnd;
    var e := MatchEnd(s, i).value;
    forall j | i <= j < e ensures s[j] != '{' && s[j] != '}' {
      MatchChars(s, i, j, '{');
      MatchChars(s, i, j, '}');
    }
  }

  lemma ThreeParts(a: string, b: string, c: string)
    ensures (a + b + c)[..|a|] == a && (a + b + c)[|a|..|a| + |b|] == b && (a + b + c)[|a| + |b|..] == c
  {
  }

  lemma ReplacementParts()
    ensures |REPLACEMENT| == 93 && REPLACEMENT[0] == 's' && REPLACEMENT[14] == 'k'
    ensures REPLACEMENT[43] == '(' && REPLACEMENT[71] == ':'
    ensures 'u' !in REPLACEMENT[..43]
    ensures REPLACEMENT[72..] == " " + DEBUG
    ensures EndsUg(REPLACEMENT)
  {
    ThreeParts(BEFORE_CALL, CALL_TO_COLON, " " + DEBUG);
    PartsPlain();
  }

  lemma PartsPlain()
    ensures |BEFORE_CALL| == 43 && |CALL_TO_COLON| == 29 && |DEBUG| == 20
    ensures BEFORE_CALL[0] == 's' && BEFORE_CALL[14] == 'k' && 'u' !in BEFORE_CALL
    ensures CALL_TO_COLON[0] == '(' && CALL_TO_COLON[28] == ':' && DEBUG[18] == 'u' && DEBUG[19] == 'g'
    ensures '{' !in BEFORE_CALL && '}' !in BEFORE_CALL && '{' !in CALL_TO_COLON && '}' !in CALL_TO_COLON
    ensures '{' !in DEBUG && '}' !in DEBUG
  {
    BeforeCallPlain();
    CallPlain();
    DebugPlain();
    hide BEFORE_CALL, CALL_TO_COLON, DEBUG;
  }

  lemma BeforeCallPlain()
    ensures |BEFORE_CALL| == 43 && BEFORE_CALL[0] == 's' && BEFORE_CALL[14] == 'k' && 'u' !in BEFORE_CALL
    ensures '{' !in BEFORE_CALL && '}' !in BEFORE_CALL
  {
  }

  lemma CallPlain()
    ensures |CALL_TO_COLON| == 29 && CALL_TO_COLON[0] == '(' && CALL_TO_COLON[28] == ':'
    ensures '{' !in CALL_TO_COLON && '}' !in CALL_TO_COLON
  {
  }

  lemma DebugPlain()
    ensures |DEBUG| == 20 && DEBUG[18] == 'u' && DEBUG[19] == 'g' && '{' !in DEBUG && '}' !in DEBUG
  {
  }

  lemma TailStarts(k: nat)
    requires k < 21 && (" " + DEBUG)[k] == 's'
    ensures k == 1 || k == 14
  {
    var tail := " signingConfigs.debug";
    assert " " + DEBUG == tail;
  }

  /** The replacement neither is a reference nor completes one with the text around it. */
  lemma NoNewReference(b: string, a: string, i: nat)
    requires MatchEnd(b + REPLACEMENT + a, i).Some?
    ensures MatchEnd(b + REPLACEMENT + a, i).value <= |b| || |b| + |REPLACEMENT| <= i
  {
    hide MatchEnd, REPLACEMENT, Space;
    var t, n := b + REPLACEMENT + a, |b|;
    var e := MatchEnd(t, i).value;
    ReplacementParts();
    assert forall k :: 0 <= k < 93 ==> t[n + k] == REPLACEMENT[k];
    MatchEnds(t, i);
    SpecialChars();
    EarlyEnd(t, b, e);
    LateStart(t, n, i);
    if i <= n + 43 < e {
      MatchChars(t, i, n + 43, '(');
    } else if n + 43 < i <= n + 71 {
      MatchChars(t, i, n + 71, ':');
    }
  }

  lemma SpecialChars()
    ensures !Space('(') && '(' !in CONFIG && '(' !in DEBUG
    ensures !Space(':') && ':' !in CONFIG && ':' !in DEBUG
    ensures !Space('k') && 'k' !in CONFIG && 'k' !in DEBUG
    ensures !Space('s')
  {
  }

  lemma EarlyEnd(t: string, b: string, e: nat)
    requires b + REPLACEMENT <= t && |REPLACEMENT| == 93
    ensures |b| < e <= |b| + 43 ==> t[e - 1] != 'g' || e - 2 < 0 || t[e - 2] != 'u'
  {
    hide REPLACEMENT;
    ReplacementParts();
    if |b| + 2 <= e <= |b| + 43 {
      assert t[e - 2] == REPLACEMENT[..43][e - 2 - |b|];
    } else if e == |b| + 1 {
      assert t[e - 1] == REPLACEMENT[0];
    }
  }

  lemma LateStart(t: string, n: nat, i: nat)
    requires n + 93 <= |t| && t[n..n + 93] == REPLACEMENT
    ensures n + 71 < i < n + 93 ==>
              t[i] != 's' || i + 1 >= |t| || t[i + 1] != 'i' || i + 13 >= |t| || !Space(t[i + 13])
  {
    hide REPLACEMENT;
    ReplacementParts();
    var k, tail := i - n - 72, " " + DEBUG;
    assert forall l :: 0 <= l < 21 ==> t[n + 72 + l] == t[n..n + 93][72 + l] == REPLACEMENT[72..][l] == tail[l];
    if 0 <= k < 21 && tail[k] == 's' {
      TailStarts(k);
      assert tail[15] == '.' && tail[14] == 's';
      SpecialChars();
    }
  }

  // ----- The edits, one after the other -----

  /** Another reference follows the first one. */
  predicate SecondReference(s: string) {
    FindReference(s, 0) != -1 && FindReference(s, MatchEnd(s, FindReference(s, 0)).value) != -1
  }

  lemma TextBefore(b: string, x: string, a: string, l: nat, f: nat)
    requires l <= f <= |b|
    ensures (b + x + a)[l..f] == b[l..f]
  {
  }

  lemma TextAfter(b: string, x: string, a: string, u: nat, v: nat)
    requires u <= v <= |a|
    ensures (b + x + a)[|b| + |x| + u..|b| + |x| + v] == a[u..v]
  {
  }

  /** Outside the replaced part, the references of the two texts correspond. */
  lemma ReferenceElsewhere(b: string, m: string, x: string, a: string, i: nat)
    requires MatchEnd(b + m + a, i).Some?
    requires MatchEnd(b + m + a, i).value <= |b| || |b| + |m| <= i
    ensures MatchEnd(b + x + a, Shifted(i, b, m, x)).Some?
    ensures |b| + |m| <= i ==> i - |m| + |x| >= |b| + |x|
  {
    hide MatchEnd;
    var f := MatchEnd(b + m + a, i).value;
    if f <= |b| {
      TextBefore(b, m, a, i, f);
      TextBefore(b, x, a, i, f);
      MatchLocal(b + m + a, b + x + a, i, i);
    } else {
      var u, v := i - |b| - |m|, f - |b| - |m|;
      TextAfter(b, m, a, u, v);
      TextAfter(b, x, a, u, v);
      MatchLocal(b + m + a, b + x + a, i, i - |m| + |x|);
    }
  }

  /** After the first reference is replaced, one is left exactly when there was a second. */
  lemma ReferencesLeft(s: string)
    requires FindReference(s, 0) != -1
    ensures FindReference(ReplaceReference(s), 0) != -1 <==> SecondReference(s)
  {
    hide MatchEnd, FindReference, REPLACEMENT;
    var p := FindReference(s, 0);
    var e := MatchEnd(s, p).value;
    var b, m, a := s[..p], s[p..e], s[e..];
    assert s == b + m + a;
    var t := b + REPLACEMENT + a;
    var left, second := FindReference(t, 0), FindReference(s, e);
    if left != -1 {
      NoNewReference(b, a, left);
      ReferenceElsewhere(b, REPLACEMENT, m, a, left);
    }
    if second != -1 {
      ReferenceElsewhere(b, m, REPLACEMENT, a, second);
    }
  }

  /** Replacing a reference changes the text. */
  lemma ReplaceChanges(s: string)
    ensures ReplaceReference(s) == s <==> FindReference(s, 0) == -1
  {
    hide MatchEnd, FindReference, REPLACEMENT, Space;
    var p := FindReference(s, 0);
    if p != -1 {
      ReplacementParts();
      SpecialChars();
      MatchChars(s, p, p + 14, 'k');
      assert ReplaceReference(s)[p + 14] == REPLACEMENT[14];
    }
  }

  /** A block's place after a text without braces was replaced by another. */
  lemma BlockShifted(a: string, m: string, x: string, b: string, h: string, from: nat, blk: Block)
    requires EndsUg(m) && EndsUg(x) && IsHeader(h) && Apart(h) && from < |a|
    requires FindBlock(a + m + b, h, from) == Some(blk)
    ensures var i, o := Shifted(blk.headerIdx, a, m, x), Shifted(blk.openBrace, a, m, x);
            var c := Shifted(blk.closeBrace, a, m, x);
            && 0 <= i && 0 <= o && 0 <= c && FindBlock(a + x + b, h, from) == Some(Block(i, o, c))
    ensures blk.openBrace < |a| || |a| + |m| <= blk.openBrace
    ensures blk.closeBrace < |a| || |a| + |m| <= blk.closeBrace
  {
    hide Find, FindBlock, Closes, OccursAt, EndsUg, IsHeader, Apart;
    var s, t := a + m + b, a + x + b;
    FindBlockExactly(s, h, from, blk);
    FindShifted(a, m, x, b, h, from, blk.headerIdx);
    var i := Shifted(blk.headerIdx, a, m, x);
    BraceOfHeader(s, h, blk.headerIdx);
    BraceOfHeader(t, h, i);
    BraceOutside(a, m, b, blk.openBrace);
    OpenIsBrace(s, h, blk.headerIdx);
    if |a| <= blk.closeBrace < |a| + |m| { CloseOutside(a, m, b, blk.openBrace, blk.closeBrace); }
    if |a| < blk.headerIdx + |h| && blk.headerIdx < |a| + |m| { NoOverlap(a, m, b, h, blk.headerIdx); }
    FlatUg(m);
    FlatUg(x);
    if blk.closeBrace < |a| {
      ClosesOrder(s, blk.openBrace, blk.closeBrace);
      ClosesBefore(a, m, x, b, blk.openBrace, blk.closeBrace);
    } else if blk.openBrace < |a| {
      ClosesAround(a, m, x, b, blk.openBrace, blk.closeBrace);
    } else {
      ClosesAfter(a, m, x, b, blk.openBrace, blk.closeBrace);
    }
    FindBlockExactly(t, h, from, Block(i, Shifted(blk.openBrace, a, m, x), Shifted(blk.closeBrace, a, m, x)));
  }

  lemma ClosesOrder(s: string, o: nat, c: nat)
    requires Closes(s, o, c)
    ensures o < c
  {
  }

  lemma FlatUg(x: string)
    requires EndsUg(x)
    ensures Flat(x)
  {
    NoBracesFlat(x);
  }

  lemma OpenIsBrace(s: string, h: string, i: nat)
    requires IsHeader(h) && OccursAt(s, h, i)
    ensures s[i + |h| - 1] == '{'
  {
    OccursChar(s, h, i, |h| - 1);
  }

  lemma BraceOutside(a: string, m: string, b: string, o: nat)
    requires EndsUg(m)
    ensures o < |a| + |m| + |b| && (a + m + b)[o] == '{' ==> o < |a| || |a| + |m| <= o
  {
    if |a| <= o < |a| + |m| { assert (a + m + b)[o] == m[o - |a|] && m[o - |a|] in m; }
  }

  lemma CloseOutside(a: string, m: string, b: string, o: nat, c: nat)
    requires EndsUg(m) && |a| <= c < |a| + |m|
    ensures !Closes(a + m + b, o, c)
  {
    assert (a + m + b)[c] == m[c - |a|] && m[c - |a|] in m;
  }

  // ----- Running the patch on its own output -----

  lemma IncludesIs(text: string, pat: string)
    ensures Includes(text, pat) <==> exists i: nat :: OccursAt(text, pat, i)
  {
  }

  lemma IncludesPart(a: string, x: string, b: string, pat: string)
    requires Includes(x, pat)
    ensures Includes(a + x + b, pat)
  {
    hide Find;
    var k := Find(x, pat, 0);
    assert (a + x + b)[|a| + k..|a| + k + |pat|] == x[k..k + |pat|];
    assert OccursAt(a + x + b, pat, |a| + k);
    IncludesIs(a + x + b, pat);
  }

  lemma IncludesJoined(a: string, pat: string, b: string)
    ensures Includes(a + pat + b, pat)
  {
    hide Find;
    assert (a + pat + b)[|a|..|a| + |pat|] == pat;
    assert OccursAt(a + pat + b, pat, |a|);
    IncludesIs(a + pat + b, pat);
  }

  lemma HeaderMarked()
    ensures Includes("\n\n" + HEADER, MARK)
  {
    hide HEADER_REST, Find;
    IncludesJoined("def ", MARK, HEADER_REST);
    IncludesPart("\n\n", HEADER, "", MARK);
    hide HEADER;
    assert "\n\n" + HEADER + "" == "\n\n" + HEADER;
  }

  lemma ConfigMarked()
    ensures Includes(RELEASE_CONFIG, MARK) && Includes(RELEASE_CONFIG, RELEASE)
  {
    BlockMarked();
    hide RELEASE_BLOCK, Find;
    IncludesPart("\n        ", RELEASE_BLOCK, "\n    ", MARK);
    IncludesPart("\n        ", RELEASE_BLOCK, "\n    ", RELEASE);
  }

  lemma BlockMarked()
    ensures Includes(RELEASE_BLOCK, MARK) && Includes(RELEASE_BLOCK, RELEASE)
  {
    hide EXISTS_BLOCK, Find;
    IncludesJoined("\n            if (", MARK, EXISTS_BLOCK);
    assert Includes(IF_EXISTS, MARK);
    hide IF_EXISTS;
    IncludesPart(RELEASE, IF_EXISTS, "\n        }", MARK);
    IncludesJoined("", RELEASE, IF_EXISTS + "\n        }");
    Assoc(RELEASE, IF_EXISTS, "\n        }");
    assert "" + RELEASE == RELEASE;
  }

  lemma FlatBoth(x: string, y: string)
    requires Flat(x) && Flat(y)
    ensures Flat(x + y)
  {
    hide Balance;
    BalanceAppend(x, y);
    forall k | 0 <= k <= |x + y| ensures Balance((x + y)[..k]) >= 0 {
      if k <= |x| {
        assert (x + y)[..k] == x[..k];
      } else {
        assert (x + y)[..k] == x + y[..k - |x|];
        BalanceAppend(x, y[..k - |x|]);
      }
    }
  }

  lemma FlatBraced(x: string)
    requires Flat(x)
    ensures Flat(Braced(x))
  {
    OneBrace();
    hide Balance;
    BalanceAppend("{", x);
    BalanceAppend("{" + x, "}");
    forall k | 0 <= k <= |Braced(x)| ensures Balance(Braced(x)[..k]) >= 0 {
      if k == 0 {
        assert Braced(x)[..k] == "";
      } else if k <= |x| + 1 {
        assert Braced(x)[..k] == "{" + x[..k - 1];
        BalanceAppend("{", x[..k - 1]);
      } else {
        assert Braced(x)[..k] == Braced(x);
      }
    }
  }

  lemma OneBrace()
    ensures Balance("{") == 1 && Balance("}") == -1 && Balance("") == 0
  {
    assert "{"[..0] == "" && "}"[..0] == "";
  }

  predicate Bare(s: string) { '{' !in s && '}' !in s }

  lemma SharedBare()
    ensures Bare(INDENT) && Bare(PROPERTIES)
  {
  }

  lemma LineBare(before: string, after: string)
    requires Bare(before) && Bare(after)
    ensures Bare(INDENT + before + PROPERTIES + after)
  {
    SharedBare();
    hide INDENT, PROPERTIES;
  }

  lemma StoreFileBare()
    ensures Bare(STORE_FILE)
  {
    hide INDENT, PROPERTIES;
    LineBare("storeFile file(", "['storeFile'])");
  }

  lemma StorePasswordBare()
    ensures Bare(STORE_PASSWORD)
  {
    hide INDENT, PROPERTIES;
    LineBare("storePassword ", "['storePassword']");
  }

  lemma KeyAliasBare()
    ensures Bare(KEY_ALIAS)
  {
    hide INDENT, PROPERTIES;
    LineBare("keyAlias ", "['keyAlias']");
  }

  lemma KeyPasswordBare()
    ensures Bare(KEY_PASSWORD)
  {
    hide INDENT, PROPERTIES;
    LineBare("keyPassword ", "['keyPassword']");
  }

  lemma StoreLinesFlat()
    ensures Flat(Braced(STORE_LINES))
  {
    StoreFileBare();
    StorePasswordBare();
    KeyAliasBare();
    KeyPasswordBare();
    hide STORE_FILE, STORE_PASSWORD, KEY_ALIAS, KEY_PASSWORD, Flat;
    NoBracesFlat(STORE_LINES);
    FlatBraced(STORE_LINES);
  }

  lemma IfExistsFlat()
    ensures Flat(IF_EXISTS)
  {
    StoreLinesFlat();
    hide Flat, STORE_LINES, Braced;
    NoBracesFlat("\n            if (");
    NoBracesFlat(MARK);
    NoBracesFlat(".exists()) ");
    FlatBoth(".exists()) ", Braced(STORE_LINES));
    FlatBoth("\n            if (", MARK);
    hide EXISTS_BLOCK;
    FlatBoth("\n            if (" + MARK, EXISTS_BLOCK);
  }

  lemma Regroup(r: string, o: string, i: string, s: string, c: string)
    ensures r + o + i + (s + c) == r + (o + (i + s) + c)
  {
  }

  /** The inserted configuration is balanced. */
  lemma ConfigFlat()
    ensures Flat(RELEASE_CONFIG)
  {
    IfExistsFlat();
    hide Flat, IF_EXISTS;
    NoBracesFlat("\n        ");
    NoBracesFlat("release ");
    NoBracesFlat("\n    ");
    FlatBoth(IF_EXISTS, "\n        ");
    FlatBraced(IF_EXISTS + "\n        ");
    FlatBoth("release ", Braced(IF_EXISTS + "\n        "));
    Regroup("release ", "{", IF_EXISTS, "\n        ", "}");
    assert "release " + "{" == RELEASE && "\n        " + "}" == "\n        }";
    hide RELEASE_BLOCK;
    FlatBoth("\n        ", RELEASE_BLOCK);
    FlatBoth("\n        " + RELEASE_BLOCK, "\n    ");
  }

  /** Inserting the configuration before the closing brace keeps the block and moves that brace. */
  lemma InsertedBlock(g: string, blk: Block)
    requires FindBlock(g, SIGNING, 0) == Some(blk)
    ensures var c := blk.closeBrace;
            FindBlock(Insert(g, c, RELEASE_CONFIG), SIGNING, 0)
              == Some(blk.(closeBrace := c + |RELEASE_CONFIG|))
  {
    hide Find, FindBlock, Closes, OccursAt, RELEASE_CONFIG;
    var h, o, c := blk.headerIdx, blk.openBrace, blk.closeBrace;
    var a, x, b := g[..c], RELEASE_CONFIG, g[c..];
    assert g == a + "" + b;
    FindBlockExactly(g, SIGNING, 0, blk);
    HeadersApart();
    BraceOfHeader(g, SIGNING, h);
    PrefixKept(a, x, b, h + |SIGNING|);
    assert a + b == g;
    SameFirst(g, a + x + b, SIGNING, h);
    BraceOfHeader(a + x + b, SIGNING, h);
    ConfigFlat();
    NoBracesFlat("");
    hide IsHeader, Apart, Flat;
    ClosesAround(a, "", x, b, o, c);
    FindBlockExactly(a + x + b, SIGNING, 0, Block(h, o, c + |x|));
  }

  lemma PrefixKept(a: string, x: string, b: string, n: nat)
    requires n <= |a|
    ensures (a + x + b)[..n] == a[..n] == (a + b)[..n]
    ensures a + "" + b == a + b
  {
  }

  /** The configuration is inserted once: the edited block is the same block, and now has it. */
  lemma ConfigOnce(g: string)
    requires WithReleaseConfig(g).Ok?
    ensures var g2 := WithReleaseConfig(g).value; WithReleaseConfig(g2) == Ok(g2)
    ensures Includes(g, MARK) ==> Includes(WithReleaseConfig(g).value, MARK)
  {
    hide Find, FindBlock, RELEASE_CONFIG, Includes;
    var blk := FindBlock(g, SIGNING, 0).value;
    var o, c := blk.openBrace, blk.closeBrace;
    if !Includes(g[o..c], RELEASE) {
      var a, x, b := g[..c], RELEASE_CONFIG, g[c..];
      InsertedBlock(g, blk);
      ConfigMarked();
      IncludesPart(a, x, b, MARK);
      IncludesPart(a[o..], x, "", RELEASE);
      InsertedSlice(a, x, b, o);
    }
  }

  lemma InsertedSlice(a: string, x: string, b: string, o: nat)
    requires o <= |a|
    ensures (a + x + b)[o..|a| + |x|] == a[o..] + x + ""
  {
  }

  lemma PrefixSlice(s: string, n: nat, j: nat, k: nat)
    requires j <= k <= n <= |s|
    ensures s[..n][j..k] == s[j..k]
  {
  }

  lemma SameOccurs(s: string, t: string, h: string, n: nat, j: nat)
    requires j + |h| <= n && n <= |s| && n <= |t| && t[..n] == s[..n]
    ensures OccursAt(t, h, j) <==> OccursAt(s, h, j)
  {
    PrefixSlice(s, n, j, j + |h|);
    PrefixSlice(t, n, j, j + |h|);
  }

  lemma SameFirst(s: string, t: string, h: string, i: nat)
    requires Find(s, h, 0) == i && i + |h| <= |s| && i + |h| <= |t| && t[..i + |h|] == s[..i + |h|]
    ensures Find(t, h, 0) == i
  {
    hide Find, OccursAt;
    forall j | 0 <= j <= i ensures OccursAt(t, h, j) <==> OccursAt(s, h, j) {
      SameOccurs(s, t, h, i + |h|, j);
    }
    FindIs(t, h, 0, i);
  }

  lemma SigningIs(g: string, r: Block)
    requires ReleaseType(g) == Ok(r)
    ensures WithReleaseSigning(g) ==
            Ok(g[..r.openBrace] + ReplaceReference(g[r.openBrace..r.closeBrace]) + g[r.closeBrace..])
  {
    hide ReleaseType, ReplaceReference;
  }

  /** The reference lies inside the release build type, after its brace. */
  lemma ReferenceInside(g: string)
    requires ReleaseType(g).Ok?
    ensures var o, c := ReleaseType(g).value.openBrace, ReleaseType(g).value.closeBrace;
            var src := g[o..c];
            var p := FindReference(src, 0);
            p != -1 ==> 0 < p < MatchEnd(src, p).value <= c - o && EndsUg(src[p..MatchEnd(src, p).value])
  {
    hide ReleaseType, FindReference, MatchEnd, EndsUg;
    var o, c := ReleaseType(g).value.openBrace, ReleaseType(g).value.closeBrace;
    var src := g[o..c];
    var p := FindReference(src, 0);
    if p != -1 {
      MatchEnds(src, p);
      ReleaseBrace(g);
      assert src[0] == g[o] == '{';
    }
  }

  /** The text cut around a part of one of its slices. */
  ghost predicate CutAt(g: string, o: nat, c: nat, p: nat, e: nat) {
    && o <= c <= |g| && p <= e <= c - o
    && g == g[..o + p] + g[o + p..o + e] + g[o + e..] && g[o..c][p..e] == g[o + p..o + e]
    && g[..o] + (g[o..c][..p] + REPLACEMENT + g[o..c][e..]) + g[c..] == g[..o + p] + REPLACEMENT + g[o + e..]
  }

  lemma CutThere(g: string, o: nat, c: nat, p: nat, e: nat)
    requires o <= c <= |g| && p <= e <= c - o
    ensures CutAt(g, o, c, p, e)
  {
    SubSlice(g, o, c, p, e);
    Rejoin(g, o, c, p, e);
    hide REPLACEMENT;
  }

  lemma ReplacedSlice(g: string, o: nat, c: nat)
    requires o <= c <= |g| && FindReference(g[o..c], 0) != -1
    requires var p := FindReference(g[o..c], 0); CutAt(g, o, c, p, MatchEnd(g[o..c], p).value)
    ensures var p := FindReference(g[o..c], 0);
            var e := MatchEnd(g[o..c], p).value;
            g[..o] + ReplaceReference(g[o..c]) + g[c..] == g[..o + p] + REPLACEMENT + g[o + e..]
  {
    hide FindReference, MatchEnd, REPLACEMENT;
  }

  /** Where the release build type's reference cuts the text. */
  lemma Cut(g: string)
    requires ReleaseType(g).Ok?
    ensures var o, c := ReleaseType(g).value.openBrace, ReleaseType(g).value.closeBrace;
            var p := FindReference(g[o..c], 0);
            p != -1 ==>
              var e := MatchEnd(g[o..c], p).value;
              && 0 < p && e <= c - o
              && g == g[..o + p] + g[o + p..o + e] + g[o + e..] && EndsUg(g[o + p..o + e])
              && WithReleaseSigning(g) == Ok(g[..o + p] + REPLACEMENT + g[o + e..])
  {
    hide ReleaseType, WithReleaseSigning, ReplaceReference, FindReference, MatchEnd, REPLACEMENT, EndsUg;
    var r := ReleaseType(g).value;
    var o, c := r.openBrace, r.closeBrace;
    var p := FindReference(g[o..c], 0);
    SigningIs(g, r);
    ReferenceInside(g);
    if p != -1 {
      CutThere(g, o, c, p, MatchEnd(g[o..c], p).value);
      ReplacedSlice(g, o, c);
    }
  }

  lemma Rejoin(g: string, o: nat, c: nat, p: nat, e: nat)
    requires o <= c <= |g| && p <= e <= c - o
    ensures g[..o] + (g[o..c][..p] + REPLACEMENT + g[o..c][e..]) + g[c..] == g[..o + p] + REPLACEMENT + g[o + e..]
    ensures g == g[..o + p] + g[o + p..o + e] + g[o + e..]
  {
    hide REPLACEMENT;
    assert g[..o] + g[o..c][..p] == g[..o + p];
    assert g[o..c][e..] + g[c..] == g[o + e..];
  }

  lemma ReleaseBrace(g: string)
    requires ReleaseType(g).Ok?
    ensures g[ReleaseType(g).value.openBrace] == '{'
  {
    hide Find;
    var r := ReleaseType(g).value;
    OccursChar(g, "{", r.openBrace, 0);
  }

  /** After the third edit the release build type is where it was, with the reference replaced. */
  lemma StillReleaseType(g: string)
    requires ReleaseType(g).Ok?
    ensures var r := ReleaseType(g).value;
            var src, g3 := g[r.openBrace..r.closeBrace], WithReleaseSigning(g).value;
            && ReleaseType(g3).Ok?
            && ReleaseType(g3).value.openBrace == r.openBrace
            && g3[r.openBrace..ReleaseType(g3).value.closeBrace] == ReplaceReference(src)
  {
    hide Find, FindBlock, FindReference, MatchEnd, REPLACEMENT, EndsUg, IsHeader, Apart;
    var r := ReleaseType(g).value;
    var o, c := r.openBrace, r.closeBrace;
    var src := g[o..c];
    var p := FindReference(src, 0);
    if p == -1 {
      assert g[..o] + src + g[c..] == g;
    } else {
      Cut(g);
      var e := MatchEnd(src, p).value;
      var a, m, b := g[..o + p], g[o + p..o + e], g[o + e..];
      HeadersApart();
      ReplacementParts();
      var types := FindBlock(g, BUILD_TYPES, 0).value;
      BlockShifted(a, m, REPLACEMENT, b, BUILD_TYPES, 0, types);
      BlockShifted(a, m, REPLACEMENT, b, RELEASE, types.openBrace, r);
      ThreeParts(g[..o], ReplaceReference(src), g[c..]);
    }
  }

  lemma Unreplaced(g: string)
    requires ReleaseType(g).Ok?
    ensures var o, c := ReleaseType(g).value.openBrace, ReleaseType(g).value.closeBrace;
            FindReference(g[o..c], 0) == -1 ==> WithReleaseSigning(g) == Ok(g)
  {
    hide ReleaseType, FindReference, MatchEnd, REPLACEMENT;
    var o, c := ReleaseType(g).value.openBrace, ReleaseType(g).value.closeBrace;
    assert g[..o] + g[o..c] + g[c..] == g;
  }

  /** After the third edit the signing block still has its release configuration. */
  lemma StillSigned(g: string)
    requires ReleaseType(g).Ok? && WithReleaseConfig(g) == Ok(g)
    ensures var g3 := WithReleaseSigning(g).value; WithReleaseConfig(g3) == Ok(g3)
    ensures Includes(g, MARK) ==> Includes(WithReleaseSigning(g).value, MARK)
  {
    hide WithReleaseConfig, WithReleaseSigning, FindReference, MatchEnd, REPLACEMENT, EndsUg, Includes, ReleaseType;
    var r := ReleaseType(g).value;
    var o, c := r.openBrace, r.closeBrace;
    var p := FindReference(g[o..c], 0);
    if p == -1 {
      Unreplaced(g);
    } else {
      Cut(g);
      var e := MatchEnd(g[o..c], p).value;
      SignedAround(g[..o + p], g[o + p..o + e], g[o + e..]);
    }
  }

  lemma SignedAround(a: string, m: string, b: string)
    requires WithReleaseConfig(a + m + b) == Ok(a + m + b) && EndsUg(m) && a != ""
    ensures WithReleaseConfig(a + REPLACEMENT + b) == Ok(a + REPLACEMENT + b)
    ensures Includes(a + REPLACEMENT + b, MARK)
  {
    hide Find, FindBlock, REPLACEMENT, EndsUg, IsHeader, Apart, Includes, RELEASE_CONFIG;
    HeadersApart();
    ReplacementParts();
    ReplacementMarked();
    IncludesPart(a, REPLACEMENT, b, MARK);
    AlreadySigned(a + m + b);
    var blk := FindBlock(a + m + b, SIGNING, 0).value;
    BlockShifted(a, m, REPLACEMENT, b, SIGNING, 0, blk);
    IncludesShifted(a, m, REPLACEMENT, b, blk.openBrace, blk.closeBrace);
  }

  lemma ReplacementMarked()
    ensures Includes(REPLACEMENT, MARK)
  {
    hide Find;
    IncludesJoined("signingConfig ", MARK, ".exists" + CALL_TO_COLON + (" " + DEBUG));
    assert REPLACEMENT == "signingConfig " + MARK + (".exists" + CALL_TO_COLON + (" " + DEBUG));
  }

  /** An unchanged text has the configuration: inserting would lengthen it. */
  lemma AlreadySigned(g: string)
    requires WithReleaseConfig(g) == Ok(g)
    ensures FindBlock(g, SIGNING, 0).Some?
    ensures var b := FindBlock(g, SIGNING, 0).value; Includes(g[b.openBrace..b.closeBrace], RELEASE)
  {
    hide Find, FindBlock;
    assert |RELEASE_CONFIG| > 0;
  }

  lemma IncludesSlice(s: string, o: nat, c: nat, pat: string) returns (i: nat)
    requires o <= c <= |s| && Includes(s[o..c], pat)
    ensures o <= i && i + |pat| <= c && OccursAt(s, pat, i)
  {
    hide Find;
    var k := Find(s[o..c], pat, 0);
    SubSlice(s, o, c, k, k + |pat|);
    i := o + k;
  }

  lemma SliceIncludes(t: string, u: nat, v: nat, pat: string, j: nat)
    requires u <= j && j + |pat| <= v <= |t| && OccursAt(t, pat, j)
    ensures Includes(t[u..v], pat)
  {
    hide Find;
    SubSlice(t, u, v, j - u, j - u + |pat|);
    assert OccursAt(t[u..v], pat, j - u);
    IncludesIs(t[u..v], pat);
  }

  lemma IncludesShifted(a: string, m: string, x: string, b: string, o: nat, c: nat)
    requires EndsUg(m) && EndsUg(x) && o <= c <= |a| + |m| + |b|
    requires o < |a| || |a| + |m| <= o
    requires c < |a| || |a| + |m| <= c
    requires Includes((a + m + b)[o..c], RELEASE)
    ensures 0 <= Shifted(o, a, m, x) <= Shifted(c, a, m, x) <= |a + x + b|
    ensures Includes((a + x + b)[Shifted(o, a, m, x)..Shifted(c, a, m, x)], RELEASE)
  {
    hide Find, EndsUg, IsHeader, Apart, OccursAt, Includes;
    var i := IncludesSlice(a + m + b, o, c, RELEASE);
    HeadersApart();
    if |a| < i + |RELEASE| && i < |a| + |m| {
      NoOverlap(a, m, b, RELEASE, i);
    } else {
      OccursOutside(a, m, x, b, RELEASE, i);
      SliceIncludes(a + x + b, Shifted(o, a, m, x), Shifted(c, a, m, x), RELEASE, Shifted(i, a, m, x));
    }
  }

  /** The text the third edit works on. */
  function Prepared(g: string): Result<string, PatchError> {
    var g1 := WithHeader(g);
    if g1.Err? then g1 else WithReleaseConfig(g1.value)
  }

  /** The release build type refers to the debug configuration more than once. */
  predicate RefersTwice(g: string) {
    Prepared(g).Ok? && ReleaseType(Prepared(g).value).Ok?
    && var r := ReleaseType(Prepared(g).value).value;
       SecondReference(Prepared(g).value[r.openBrace..r.closeBrace])
  }

  lemma HeaderGiven(g: string)
    requires WithHeader(g).Ok?
    ensures Includes(WithHeader(g).value, MARK)
  {
    hide Find, FindLine, HEADER;
    if !Includes(g, MARK) {
      HeaderMarked();
      var at := FirstIndex(g, LineEnd, FindLine(g, "apply plugin:", 0));
      IncludesPart(g[..at], "\n\n" + HEADER, g[at..], MARK);
    }
  }

  /**
   Running the patch on its own output succeeds, and changes nothing exactly when the release build
   type does not refer to the debug configuration a second time.
   */
  lemma PatchTwice(g: string)
    requires Patched(g).Ok?
    ensures Patched(Patched(g).value).Ok?
    ensures Patched(Patched(g).value) == Patched(g) <==> !RefersTwice(g)
  {
    hide WithReleaseConfig, ReleaseType, FindReference, MatchEnd, Find, FindLine, HEADER, REPLACEMENT;
    HeaderGiven(g);
    var g1 := WithHeader(g).value;
    ConfigOnce(g1);
    var g2 := WithReleaseConfig(g1).value;
    var r := ReleaseType(g2).value;
    var src := g2[r.openBrace..r.closeBrace];
    StillReleaseType(g2);
    StillSigned(g2);
    var g3 := WithReleaseSigning(g2).value;
    var r3 := ReleaseType(g3).value;
    var src3 := g3[r3.openBrace..r3.closeBrace];
    assert Patched(g3) == WithReleaseSigning(g3);
    SameText(g3, r3.openBrace, r3.closeBrace, ReplaceReference(src3));
    ReplaceChanges(src3);
    if FindReference(src, 0) != -1 { ReferencesLeft(src); } else { assert src3 == src; }
  }

  lemma SameText(g: string, o: nat, c: nat, x: string)
    requires o <= c <= |g|
    ensures g[..o] + x + g[c..] == g <==> x == g[o..c]
  {
    if x == g[o..c] {
      assert g[..o] + g[o..c] + g[c..] == g;
    }
    ThreeParts(g[..o], x, g[c..]);
  }
}
