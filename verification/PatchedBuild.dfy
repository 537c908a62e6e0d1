/** What a build file holds after the signing patch. */
module PatchedBuild {
  import opened SigningPatch
  import opened Text
  import opened Wrappers

  // ----- The script that loads the properties -----

  /** What the first edit inserts: define the file and the properties, and load them if it exists. */
  const SCRIPT: string := "\n\n" + HEADER

  const BEFORE_LOAD: string := "\n\n" + ("def " + MARK + (FILE_LINE + NEW_LINE + EXISTS_TEST))

  lemma Rejoined(n: string, d: string, m: string, f: string, k: string, e: string, b: string, l: string)
    ensures n + (d + m + (f + k + e + b + l)) == n + (d + m + (f + k + e)) + b + l
  {
  }

  lemma ScriptShape()
    ensures SCRIPT == BEFORE_LOAD + Braced(LOAD_LINE) + "\n"
  {
    hide MARK, FILE_LINE, NEW_LINE, EXISTS_TEST, LOAD_LINE, Braced;
    Rejoined("\n\n", "def ", MARK, FILE_LINE, NEW_LINE, EXISTS_TEST, Braced(LOAD_LINE), "\n");
  }

  /** No brace, and no capital C as the debug reference has. */
  predicate Free(s: string) { Bare(s) && 'C' !in s }

  lemma FreeBoth(x: string, y: string)
    requires Free(x) && Free(y)
    ensures Free(x + y)
  {
  }

  lemma MarkFree()
    ensures Free(MARK) && |MARK| > 0 && MARK[0] == 'k'
  {
  }

  lemma TestFree()
    ensures Free(EXISTS_TEST) && |EXISTS_TEST| > 2 && EXISTS_TEST[|EXISTS_TEST| - 2] == ')'
  {
    MarkFree();
    hide MARK;
    FreeBoth("if (", MARK);
    FreeBoth("if (" + MARK, ".exists()) ");
  }

  lemma FileWordsFree()
    ensures Free(" = rootProject") && Free(".file(\"keystore")
  {
  }

  lemma PropertiesFree()
    ensures Free(".properties\")\n")
  {
  }

  lemma FileLineFree()
    ensures Free(FILE_LINE)
  {
    FileWordsFree();
    PropertiesFree();
    hide Free;
    FreeBoth(".file(\"keystore", ".properties\")\n");
    FreeBoth(" = rootProject", ".file(\"keystore" + ".properties\")\n");
  }

  lemma NewWordsFree()
    ensures Free("def keystore") && Free("Properties = new ")
  {
  }

  lemma NewPropertiesFree()
    ensures Free("Properties()\n")
  {
  }

  lemma NewLineFree()
    ensures Free(NEW_LINE)
  {
    NewWordsFree();
    NewPropertiesFree();
    hide Free;
    FreeBoth("Properties = new ", "Properties()\n");
    FreeBoth("def keystore", "Properties = new " + "Properties()\n");
  }

  lemma LoadWordsFree()
    ensures Free("\n    keystore") && Free("Properties.load(")
  {
  }

  lemma StreamFree()
    ensures Free("new FileInputStream(") && Free("))\n")
  {
  }

  lemma LoadPartsFree()
    ensures Free("\n    keystore" + "Properties.load(" + "new FileInputStream(") && Free("))\n")
  {
    LoadWordsFree();
    StreamFree();
    hide Free;
    FreeBoth("\n    keystore", "Properties.load(");
    FreeBoth("\n    keystore" + "Properties.load(", "new FileInputStream(");
  }

  lemma LoadFree()
    ensures Free(LOAD_LINE)
  {
    MarkFree();
    LoadPartsFree();
    hide MARK, Free;
    FreeBoth("\n    keystore" + "Properties.load(" + "new FileInputStream(", MARK);
    FreeBoth("\n    keystore" + "Properties.load(" + "new FileInputStream(" + MARK, "))\n");
  }

  lemma BeforeLoad()
    ensures Free(BEFORE_LOAD) && |BEFORE_LOAD| > 8 && BEFORE_LOAD[..6] == "\n\ndef " && BEFORE_LOAD[6] == 'k'
    ensures BEFORE_LOAD[|BEFORE_LOAD| - 2] == ')'
  {
    MarkFree();
    TestFree();
    FileLineFree();
    NewLineFree();
    hide MARK, FILE_LINE, NEW_LINE, EXISTS_TEST;
    FreeBoth(FILE_LINE, NEW_LINE);
    FreeBoth(FILE_LINE + NEW_LINE, EXISTS_TEST);
    FreeBoth("def ", MARK);
    FreeBoth("def " + MARK, FILE_LINE + NEW_LINE + EXISTS_TEST);
    FreeBoth("\n\n", "def " + MARK + (FILE_LINE + NEW_LINE + EXISTS_TEST));
  }

  /** The script's corners, its only braces and the missing C. */
  lemma ScriptChars()
    ensures var p, n := |BEFORE_LOAD|, |SCRIPT|;
            && 8 < p <= n - 3 && SCRIPT[..p] == BEFORE_LOAD && SCRIPT[p] == '{' && SCRIPT[p + 1..n - 2] == LOAD_LINE
            && SCRIPT[n - 2] == '}' && SCRIPT[n - 1] == '\n'
            && SCRIPT[..n - 2] == BEFORE_LOAD + "{" + LOAD_LINE
            && 'C' !in SCRIPT
  {
    ScriptShape();
    BeforeLoad();
    LoadFree();
    hide BEFORE_LOAD, LOAD_LINE, SCRIPT;
  }

  /** The block the second edit looks for ends outside the script. */
  lemma CloseOutsideScript(a: string, b: string, blk: Block)
    requires FindBlock(a + SCRIPT + b, SIGNING, 0) == Some(blk)
    ensures blk.closeBrace < |a| || |a| + |SCRIPT| <= blk.closeBrace
  {
    hide Find, FindBlock, SCRIPT, BEFORE_LOAD, LOAD_LINE, Balance, Depth, IsHeader, Apart;
    var t, o, c := a + SCRIPT + b, blk.openBrace, blk.closeBrace;
    FindBlockExactly(t, SIGNING, 0, blk);
    if |a| <= c < |a| + |SCRIPT| {
      ScriptChars();
      HeadersApart();
      BraceOfHeader(t, SIGNING, blk.headerIdx);
      OpenIsBrace(t, SIGNING, blk.headerIdx);
      OccursChar(t, SIGNING, blk.headerIdx, |SIGNING| - 3);
      BraceInScript(a, b, c);
      if o < |a| {
        NestedInScript(a, b, o);
      } else {
        BraceInScript(a, b, o);
      }
    }
  }

  lemma BraceInScript(a: string, b: string, j: nat)
    requires |a| <= j < |a| + |SCRIPT|
    ensures var t, p := a + SCRIPT + b, |a| + |BEFORE_LOAD|;
            && (t[j] == '{' <==> j == p) && (t[j] == '}' <==> j == |a| + |SCRIPT| - 2)
            && p >= 2 && t[p - 2] == ')'
  {
    ScriptChars();
    BeforeLoad();
    LoadFree();
    hide SCRIPT, BEFORE_LOAD, LOAD_LINE;
    var k, p, n := j - |a|, |BEFORE_LOAD|, |SCRIPT|;
    assert (a + SCRIPT + b)[j] == SCRIPT[k];
    assert (a + SCRIPT + b)[|a| + p - 2] == SCRIPT[p - 2] == SCRIPT[..p][p - 2];
    if k < p {
      assert SCRIPT[k] == SCRIPT[..p][k] && BEFORE_LOAD[k] in BEFORE_LOAD;
    } else if p < k < n - 2 {
      assert SCRIPT[k] == SCRIPT[p + 1..n - 2][k - p - 1] && LOAD_LINE[k - p - 1] in LOAD_LINE;
    }
  }

  /** The script's closing brace closes the script's own opening brace. */
  lemma NestedInScript(a: string, b: string, o: nat)
    requires o < |a|
    ensures !Closes(a + SCRIPT + b, o, |a| + |SCRIPT| - 2)
  {
    hide Balance, Depth, SCRIPT, BEFORE_LOAD, LOAD_LINE;
    ScriptChars();
    BeforeLoad();
    LoadFree();
    var c := |a| + |SCRIPT| - 2;
    DepthThrough(a, SCRIPT, b, o, c);
    DepthThrough(a, SCRIPT, b, o, |a|);
    assert SCRIPT[..0] == "";
    OneBrace();
    BalanceAppend(BEFORE_LOAD + "{", LOAD_LINE);
    BalanceAppend(BEFORE_LOAD, "{");
    NoBraces(BEFORE_LOAD);
    NoBraces(LOAD_LINE);
    assert Depth(a + SCRIPT + b, o, c) == Depth(a + SCRIPT + b, o, |a|) + 1;
  }

  lemma InScript(a: string, b: string, k: nat)
    requires k < |SCRIPT|
    ensures (a + SCRIPT + b)[|a| + k] == SCRIPT[k]
    ensures (a + SCRIPT + b)[|a| + k] != 'C'
  {
    ScriptChars();
    hide SCRIPT;
    assert SCRIPT[k] in SCRIPT;
  }

  /** No debug reference touches the script. */
  lemma MatchMissesScript(a: string, b: string, i: nat)
    requires MatchEnd(a + SCRIPT + b, i).Some?
    ensures MatchEnd(a + SCRIPT + b, i).value <= |a| || |a| + |SCRIPT| <= i
  {
    hide MatchEnd, SCRIPT, BEFORE_LOAD, LOAD_LINE, Space, CONFIG, DEBUG;
    var t, n, m := a + SCRIPT + b, |a|, |SCRIPT|;
    var e := MatchEnd(t, i).value;
    ScriptCorners(a, b);
    MatchCorners(t, i);
    CapitalAt(t, i);
    BraceFree();
    EarlyStop(t, a, e);
    if i <= n + 6 < e {
      MatchChars(t, i, n + 6, 'k');
    } else if i <= n + m - 2 < e {
      MatchChars(t, i, n + m - 2, '}');
    } else if n <= i && i + 7 < n + m {
      InScript(a, b, i + 7 - n);
    }
  }

  lemma ScriptCorners(a: string, b: string)
    ensures var t, n, m := a + SCRIPT + b, |a|, |SCRIPT|;
            m > 8 && t[n + 6] == 'k' && t[n + m - 2] == '}' && t[n + m - 1] == '\n'
  {
    hide SCRIPT, BEFORE_LOAD, LOAD_LINE;
    ScriptChars();
    BeforeLoad();
    InScript(a, b, 6);
    InScript(a, b, |SCRIPT| - 2);
    InScript(a, b, |SCRIPT| - 1);
    assert SCRIPT[6] == SCRIPT[..|BEFORE_LOAD|][6];
  }

  lemma BraceFree()
    ensures !Space('}') && '}' !in CONFIG && '}' !in DEBUG
    ensures !Space('k') && 'k' !in CONFIG && 'k' !in DEBUG
    ensures |CONFIG| == 13 && |DEBUG| == 20
  {
  }

  lemma CapitalAt(t: string, i: nat)
    requires MatchEnd(t, i).Some?
    ensures t[i + 7] == 'C'
  {
    OccursChar(t, CONFIG, i, 7);
  }

  lemma EarlyStop(t: string, a: string, e: int)
    requires a + SCRIPT <= t && |SCRIPT| > 8
    ensures |a| < e <= |a| + 6 ==> t[e - 1] != 'g'
  {
    hide SCRIPT, BEFORE_LOAD, LOAD_LINE;
    ScriptChars();
    BeforeLoad();
    if |a| < e <= |a| + 6 {
      var k := e - 1 - |a|;
      assert t[e - 1] == SCRIPT[k] == SCRIPT[..|BEFORE_LOAD|][k] == BEFORE_LOAD[..6][k];
    }
  }

  // ----- The edits keep the script -----

  lemma HasScript(t: string, i: nat)
    requires OccursAt(t, SCRIPT, i)
    ensures t == t[..i] + SCRIPT + t[i + |SCRIPT|..]
  {
    hide SCRIPT;
  }

  /** Text put in before or behind the script leaves it. */
  lemma InsertKeepsScript(t: string, i: nat, at: nat, x: string) returns (j: nat)
    requires OccursAt(t, SCRIPT, i) && at <= |t| && (at <= i || i + |SCRIPT| <= at)
    ensures OccursAt(Insert(t, at, x), SCRIPT, j)
  {
    hide SCRIPT;
    assert t[..at] + "" + t[at..] == t;
    if at <= i {
      j := i + |x|;
      OccursAfter(t[..at], "", x, t[at..], SCRIPT, j);
    } else {
      j := i;
      OccursBefore(t[..at], "", x, t[at..], SCRIPT, j);
    }
  }

  lemma ConfigKeepsScript(t: string, i: nat) returns (j: nat)
    requires OccursAt(t, SCRIPT, i) && WithReleaseConfig(t).Ok?
    ensures OccursAt(WithReleaseConfig(t).value, SCRIPT, j)
  {
    hide SCRIPT, Find, FindBlock, OccursAt, RELEASE_CONFIG, Includes, Insert;
    var blk := FindBlock(t, SIGNING, 0).value;
    if Includes(t[blk.openBrace..blk.closeBrace], RELEASE) {
      j := i;
    } else {
      ScriptWithin(t, i);
      HasScript(t, i);
      CloseOutsideScript(t[..i], t[i + |SCRIPT|..], blk);
      j := InsertKeepsScript(t, i, blk.closeBrace, RELEASE_CONFIG);
    }
  }

  lemma ScriptWithin(t: string, i: nat)
    requires OccursAt(t, SCRIPT, i)
    ensures i + |SCRIPT| <= |t|
  {
    hide SCRIPT;
  }

  lemma ReferenceAt(g: string)
    requires ReleaseType(g).Ok?
    ensures var o, c := ReleaseType(g).value.openBrace, ReleaseType(g).value.closeBrace;
            var p := FindReference(g[o..c], 0);
            p != -1 ==> MatchEnd(g, o + p) == Some(o + MatchEnd(g[o..c], p).value)
  {
    hide ReleaseType, FindReference, MatchEnd;
    var o, c := ReleaseType(g).value.openBrace, ReleaseType(g).value.closeBrace;
    var p := FindReference(g[o..c], 0);
    if p != -1 {
      var e := MatchEnd(g[o..c], p).value;
      SubSlice(g, o, c, p, e);
      MatchLocal(g[o..c], g, p, o + p);
    }
  }

  lemma SigningKeepsScript(t: string, i: nat) returns (j: nat)
    requires OccursAt(t, SCRIPT, i) && ReleaseType(t).Ok?
    ensures OccursAt(WithReleaseSigning(t).value, SCRIPT, j)
  {
    hide SCRIPT, OccursAt, ReleaseType, FindReference, MatchEnd, REPLACEMENT, EndsUg, WithReleaseSigning;
    var r := ReleaseType(t).value;
    var src := t[r.openBrace..r.closeBrace];
    var p := FindReference(src, 0);
    if p == -1 {
      SigningIs(t, r);
      SameText(t, r.openBrace, r.closeBrace, src);
      j := i;
    } else {
      Cut(t);
      ReferenceAt(t);
      ScriptWithin(t, i);
      HasScript(t, i);
      var u, v := r.openBrace + p, r.openBrace + MatchEnd(src, p).value;
      MatchMissesScript(t[..i], t[i + |SCRIPT|..], u);
      j := ReplaceKeepsScript(t[..u], t[u..v], t[v..], i);
    }
  }

  lemma ReplaceKeepsScript(a: string, m: string, b: string, i: nat) returns (j: nat)
    requires OccursAt(a + m + b, SCRIPT, i) && (|a| + |m| <= i || i + |SCRIPT| <= |a|)
    ensures OccursAt(a + REPLACEMENT + b, SCRIPT, j)
  {
    hide SCRIPT, REPLACEMENT, OccursAt;
    if i + |SCRIPT| <= |a| {
      j := i;
      OccursBefore(a, m, REPLACEMENT, b, SCRIPT, j);
    } else {
      j := i - |m| + |REPLACEMENT|;
      OccursAfter(a, m, REPLACEMENT, b, SCRIPT, j);
    }
  }

  lemma HeaderInserts(g: string) returns (i: nat)
    requires WithHeader(g).Ok? && !Includes(g, MARK)
    ensures OccursAt(WithHeader(g).value, SCRIPT, i)
  {
    hide Find, FindLine, HEADER;
    i := FirstIndex(g, LineEnd, FindLine(g, "apply plugin:", 0));
    ThreeParts(g[..i], SCRIPT, g[i..]);
  }

  /** A build file that did not know the properties file loads the properties after the patch. */
  lemma ScriptSurvives(g: string)
    requires Patched(g).Ok? && !Includes(g, MARK)
    ensures Includes(Patched(g).value, SCRIPT)
  {
    hide SCRIPT, OccursAt, WithHeader, WithReleaseConfig, WithReleaseSigning, Find;
    var i := HeaderInserts(g);
    i := ConfigKeepsScript(WithHeader(g).value, i);
    SigningNeedsType(Prepared(g).value);
    i := SigningKeepsScript(Prepared(g).value, i);
    IncludesIs(Patched(g).value, SCRIPT);
  }

  lemma SigningNeedsType(g: string)
    requires WithReleaseSigning(g).Ok?
    ensures ReleaseType(g).Ok?
  {
    hide ReleaseType, FindReference;
  }

  // ----- The release build type signs with the release configuration -----

  const RELEASE_USE: string := "signingConfigs.release"

  /** The text of the release build type. */
  function ReleaseSource(g: string): string
    requires ReleaseType(g).Ok?
  {
    g[ReleaseType(g).value.openBrace..ReleaseType(g).value.closeBrace]
  }

  lemma CallUses()
    ensures Includes(CALL_TO_COLON, RELEASE_USE)
  {
    IncludesJoined("() ? ", RELEASE_USE, " :");
    hide Find, Includes;
    assert CALL_TO_COLON == "() ? " + RELEASE_USE + " :";
  }

  lemma ReplacementUses()
    ensures Includes(REPLACEMENT, RELEASE_USE)
  {
    CallUses();
    hide Find, BEFORE_CALL, CALL_TO_COLON, RELEASE_USE, Includes;
    IncludesPart(BEFORE_CALL, CALL_TO_COLON, " " + DEBUG, RELEASE_USE);
  }

  /** After the edit the text names the release configuration if it was edited or did so before. */
  lemma UsesExactly(src: string)
    ensures Includes(ReplaceReference(src), RELEASE_USE)
       <==> FindReference(src, 0) != -1 || Includes(src, RELEASE_USE)
  {
    hide Find, FindReference, MatchEnd, REPLACEMENT, RELEASE_USE, Includes;
    ReplacementUses();
    var p := FindReference(src, 0);
    if p != -1 { IncludesPart(src[..p], REPLACEMENT, src[MatchEnd(src, p).value..], RELEASE_USE); }
  }

  /** The script warns that the build may still use the debug keystore. */
  predicate Warns(g: string) {
    && Prepared(g).Ok? && ReleaseType(Prepared(g).value).Ok?
    && FindReference(ReleaseSource(Prepared(g).value), 0) == -1
    && !Includes(ReleaseSource(Prepared(g).value), RELEASE_USE)
  }

  /**
   A patched build file has a release signing configuration and a release build type, which is the
   original one with its first debug reference replaced; it names the release configuration exactly
   when there was no warning.
   */
  lemma PatchedIsSigned(g: string)
    requires Patched(g).Ok?
    ensures var out := Patched(g).value;
            && Includes(out, MARK) && FindBlock(out, SIGNING, 0).Some?
            && var b := FindBlock(out, SIGNING, 0).value; Includes(out[b.openBrace..b.closeBrace], RELEASE)
    ensures var g2, out := Prepared(g).value, Patched(g).value;
            && ReleaseType(g2).Ok? && ReleaseType(out).Ok?
            && ReleaseSource(out) == ReplaceReference(ReleaseSource(g2))
            && (Includes(ReleaseSource(out), RELEASE_USE) <==> !Warns(g))
  {
    hide WithReleaseConfig, ReleaseType, FindReference, MatchEnd, Find, FindBlock, FindLine;
    hide HEADER, REPLACEMENT, Includes, RELEASE_USE, ReplaceReference;
    HeaderGiven(g);
    ConfigOnce(WithHeader(g).value);
    var g2 := WithReleaseConfig(WithHeader(g).value).value;
    StillReleaseType(g2);
    StillSigned(g2);
    AlreadySigned(WithReleaseSigning(g2).value);
    UsesExactly(ReleaseSource(g2));
  }

  // ----- A build file on which a second run changes something -----

  const REFERENCE: string := CONFIG + " " + DEBUG
  const TWO: string := REFERENCE + " " + REFERENCE
  const SIGNING_PART: string := SIGNING + "release {}" + "}"
  const RELEASE_PART: string := RELEASE + TWO + "}"
  const TYPES_PART: string := BUILD_TYPES + RELEASE_PART + "}"

  function TwiceReferring(): string { SIGNING_PART + (TYPES_PART + MARK) }

  /** A block whose header comes first and whose body is balanced. */
  lemma BlockAt(a: string, h: string, body: string, b: string, from: nat)
    requires IsHeader(h) && Flat(body) && from <= |a|
    requires forall i :: from <= i < |a| ==> !OccursAt(a + (h + body + "}" + b), h, i)
    ensures FindBlock(a + (h + body + "}" + b), h, from)
         == Some(Block(|a|, |a| + |h| - 1, |a| + |h| + |body|))
  {
    hide Find, FindBlock, Balance, IsHeader, Flat;
    var t, n := a + (h + body + "}" + b), |a| + |h|;
    assert t[|a|..n] == h;
    HeaderNonEmpty(h);
    FindIs(t, h, from, |a|);
    BraceOfHeader(t, h, |a|);
    forall j | n <= j <= n + |body| ensures t[n..j] == body[..j - n] {}
    FlatParts(body);
    assert t[n + |body|] == '}';
    assert Closes(t, n - 1, n + |body|);
    FindBlockExactly(t, h, from, Block(|a|, n - 1, n + |body|));
  }

  lemma FlatParts(x: string)
    requires Flat(x)
    ensures Balance(x) == 0 && x[..|x|] == x && forall k :: 0 <= k <= |x| ==> Balance(x[..k]) >= 0
  {
  }

  lemma ReferenceMatches()
    ensures MatchEnd(REFERENCE, 0) == Some(|REFERENCE|) && |REFERENCE| == 34
  {
    hide Space;
    SpaceBetween();
    assert REFERENCE[..13] == CONFIG && REFERENCE[14..34] == DEBUG;
    FirstIndexIs(REFERENCE, 13, 14);
  }

  lemma SpaceBetween()
    ensures Space(' ') && !Space('s')
  {
  }

  lemma MatchWithin(a: string, b: string)
    ensures MatchEnd(a + REFERENCE + b, |a|) == Some(|a| + 34)
  {
    hide MatchEnd, REFERENCE;
    ReferenceMatches();
    assert (a + REFERENCE + b)[|a|..|a| + 34] == REFERENCE == REFERENCE[0..34];
    MatchLocal(REFERENCE, a + REFERENCE + b, 0, |a|);
  }

  lemma TwoReferences()
    ensures SecondReference("{" + TWO)
  {
    hide MatchEnd, REFERENCE, FindReference;
    ReferenceMatches();
    var t := "{" + TWO;
    MatchWithin("{", " " + REFERENCE);
    MatchWithin("{" + REFERENCE + " ", "");
    assert "{" + REFERENCE + (" " + REFERENCE) == t && "{" + REFERENCE + " " + REFERENCE + "" == t;
    assert t[0] == '{';
    if MatchEnd(t, 0).Some? { MatchCorners(t, 0); }
    assert FindReference(t, 0) == 1 && FindReference(t, 35) != -1;
  }

  lemma TwoFlat()
    ensures Flat(TWO) && Flat(RELEASE_PART) && Flat("release {}") && |TWO| == 69
  {
    ReferenceBare();
    hide REFERENCE, Flat;
    NoBracesFlat(TWO);
    FlatBraced(TWO);
    NoBracesFlat("release ");
    FlatBoth("release ", Braced(TWO));
    assert RELEASE_PART == "release " + Braced(TWO);
    NoBracesFlat("");
    FlatBraced("");
    FlatBoth("release ", Braced(""));
    assert "release {}" == "release " + Braced("");
  }

  lemma ReferenceBare()
    ensures Bare(REFERENCE) && |REFERENCE| == 34
  {
  }

  lemma SigningFound()
    ensures WithReleaseConfig(TwiceReferring()) == Ok(TwiceReferring())
  {
    TwoFlat();
    HeadersApart();
    hide Find, FindBlock, Flat, IsHeader, Apart, TYPES_PART, RELEASE_CONFIG, MARK, SIGNING, RELEASE;
    var t := TwiceReferring();
    assert t == "" + (SIGNING + "release {}" + "}" + (TYPES_PART + MARK));
    BlockAt("", SIGNING, "release {}", TYPES_PART + MARK, 0);
    SigningSource();
    var b := FindBlock(t, SIGNING, 0).value;
    assert t[b.openBrace..b.closeBrace] == SIGNING[|SIGNING| - 1..] + "release {}";
  }

  lemma SigningSource()
    ensures |SIGNING| > 0 && Includes(SIGNING[|SIGNING| - 1..] + "release {}", RELEASE)
  {
    hide Find;
    IncludesJoined("{", RELEASE, "}");
    assert SIGNING[|SIGNING| - 1..] + "release {}" == "{" + RELEASE + "}";
  }

  lemma NoBuildTypesBefore(i: nat, rest: string)
    requires i < |SIGNING_PART|
    ensures !OccursAt(SIGNING_PART + rest, BUILD_TYPES, i)
  {
    NoLetter();
    hide SIGNING_PART;
    var t := SIGNING_PART + rest;
    assert t[i] == SIGNING_PART[i] && SIGNING_PART[i] in SIGNING_PART;
    if i + |BUILD_TYPES| <= |t| { Differs(t, BUILD_TYPES, i, 0); }
  }

  lemma NoLetter()
    ensures 'b' !in SIGNING_PART && |SIGNING_PART| == 27
  {
    assert SIGNING_PART == "signingConfigs {" + "release {}" + "}";
  }

  lemma TypesFound()
    ensures var t, n := TwiceReferring(), |SIGNING_PART|;
            ReleaseType(t) == Ok(Block(n + 12, n + 20, n + 90)) && t[n + 20..n + 90] == "{" + TWO
  {
    TwoFlat();
    HeadersApart();
    HeaderLengths();
    hide Find, FindBlock, Flat, IsHeader, Apart, SIGNING_PART, TWO, MARK, BUILD_TYPES, RELEASE;
    var t, n := TwiceReferring(), |SIGNING_PART|;
    assert t == SIGNING_PART + (BUILD_TYPES + RELEASE_PART + "}" + MARK);
    forall i | 0 <= i < n ensures !OccursAt(t, BUILD_TYPES, i) { NoBuildTypesBefore(i, TYPES_PART + MARK); }
    BlockAt(SIGNING_PART, BUILD_TYPES, RELEASE_PART, MARK, 0);
    var a := SIGNING_PART + BUILD_TYPES;
    assert t == a + (RELEASE + TWO + "}" + ("}" + MARK));
    assert t[n + 11] == BUILD_TYPES[11] == '{';
    Differs(t, RELEASE, n + 11, 0);
    BlockAt(a, RELEASE, TWO, "}" + MARK, n + 11);
    TailSlice(a, RELEASE, TWO, "}" + ("}" + MARK));
    assert RELEASE + TWO + "}" + ("}" + MARK) == RELEASE + TWO + ("}" + ("}" + MARK));
  }

  lemma TailSlice(a: string, x: string, y: string, b: string)
    requires x != ""
    ensures (a + (x + y + b))[|a| + |x| - 1..|a| + |x| + |y|] == x[|x| - 1..] + y
  {
    var l, r := (a + (x + y + b))[|a| + |x| - 1..|a| + |x| + |y|], x[|x| - 1..] + y;
    assert |l| == |r| && forall k :: 0 <= k < |l| ==> l[k] == r[k];
  }

  lemma HeaderLengths()
    ensures |BUILD_TYPES| == 12 && BUILD_TYPES[11] == '{' && |RELEASE| == 9 && RELEASE[0] == 'r' && RELEASE[8..] == "{"
  {
  }

  /** A release build type that refers to the debug configuration twice: every run replaces one reference. */
  lemma SecondReferenceHappens()
    ensures var g := TwiceReferring();
            Patched(g).Ok? && RefersTwice(g) && Patched(Patched(g).value) != Patched(g)
  {
    hide Find, FindBlock, FindReference, MatchEnd, ReleaseType, WithReleaseConfig, SIGNING_PART, TYPES_PART, TWO, MARK;
    hide Includes;
    var g := TwiceReferring();
    IncludesJoined(SIGNING_PART + TYPES_PART, MARK, "");
    assert SIGNING_PART + TYPES_PART + MARK + "" == g;
    SigningFound();
    TypesFound();
    TwoReferences();
    assert Prepared(g) == Ok(g) && RefersTwice(g);
    PatchTwice(g);
  }
}
