/**
 When a whole joined command line splits into the arguments it was made of: exactly when the quoted
 program name, read by its own rule, ends where it should.
 */
module WindowsCommandLine {
  import opened WindowsArgv

  // ----- Where the program name ends -----

  /** By the program name's rule, every blank of the text is inside quotes. */
  predicate BlanksQuoted(s: string, inQuotes: bool) {
    if s == "" then true
    else if s[0] == '"' then BlanksQuoted(s[1..], !inQuotes)
    else (inQuotes || !Blank(s[0])) && BlanksQuoted(s[1..], inQuotes)
  }

  /** By the same rule, the text ends inside quotes. */
  predicate OpenAfter(s: string, inQuotes: bool) {
    if s == "" then inQuotes else OpenAfter(s[1..], if s[0] == '"' then !inQuotes else inQuotes)
  }

  /** No blank of the quoted name is outside quotes, nor does it end inside them when more follows. */
  predicate NameEnds(args: seq<string>)
    requires args != []
  {
    BlanksQuoted(Quoted(args[0]), false) && (|args| == 1 || !OpenAfter(Quoted(args[0]), false))
  }

  lemma {:induction false} NameSkips(s: string, tail: string, inQuotes: bool)
    requires BlanksQuoted(s, inQuotes)
    ensures ProgramName(s + tail, inQuotes).1 == ProgramName(tail, OpenAfter(s, inQuotes)).1
    decreases |s|
  {
    if s == "" {
      assert s + tail == tail;
    } else {
      assert (s + tail)[0] == s[0] && (s + tail)[1..] == s[1..] + tail;
      NameSkips(s[1..], tail, if s[0] == '"' then !inQuotes else inQuotes);
    }
  }

  lemma {:induction false} SlashesBetween(n: nat, s: string, inQuotes: bool)
    ensures BlanksQuoted(Slashes(n) + s, inQuotes) == BlanksQuoted(s, inQuotes)
    ensures ProgramName(Slashes(n) + s, inQuotes).1 == ProgramName(s, inQuotes).1
  {
    if n == 0 {
      assert Slashes(0) + s == s;
    } else {
      assert (Slashes(n) + s)[1..] == Slashes(n - 1) + s;
      SlashesBetween(n - 1, s, inQuotes);
    }
  }

  lemma OneMore(c: char, s: string, inQuotes: bool)
    ensures var q := if c == '"' then !inQuotes else inQuotes;
            && (BlanksQuoted([c] + s, inQuotes) <==> (inQuotes || !Blank(c)) && BlanksQuoted(s, q))
            && ProgramName([c] + s, inQuotes).1 == if inQuotes || !Blank(c) then ProgramName(s, q).1 else [c] + s
  {
    assert ([c] + s)[1..] == s;
  }

  lemma NothingQuoted(k: nat, inQuotes: bool)
    ensures BlanksQuoted(Escaped("", k) + "\"", inQuotes)
  {
    SlashesBetween(2 * k, "\"", inQuotes);
    OneMore('"', "", inQuotes);
    assert "\"" + "" == "\"";
  }

  /** A name that ends too early ends at one of its own blanks. */
  lemma {:induction false} EndsEarly(a: string, k: nat, tail: string, inQuotes: bool) returns (j: nat)
    requires !BlanksQuoted(Escaped(a, k) + "\"", inQuotes)
    ensures j < |a| && Blank(a[j])
    ensures ProgramName(Escaped(a, k) + "\"" + tail, inQuotes).1 == Escaped(a[j..], 0) + "\"" + tail
    decreases |a|
  {
    hide BlanksQuoted, ProgramName;
    if a == "" {
      NothingQuoted(k, inQuotes);
    } else if a[0] == '\\' {
      j := EndsEarly(a[1..], k + 1, tail, inQuotes);
      assert a[1..][j..] == a[j + 1..];
      j := j + 1;
    } else {
      EscapedText(a, k, "");
      EscapedText(a, k, tail);
      var n, q := if a[0] == '"' then 2 * k + 1 else k, if a[0] == '"' then !inQuotes else inQuotes;
      var more := Escaped(a[1..], 0) + "\"";
      assert more + "" == more && Escaped(a, k) + "\"" + "" == Escaped(a, k) + "\"";
      SlashesBetween(n, [a[0]] + more, inQuotes);
      SlashesBetween(n, [a[0]] + (more + tail), inQuotes);
      OneMore(a[0], more, inQuotes);
      OneMore(a[0], more + tail, inQuotes);
      if inQuotes || !Blank(a[0]) {
        j := EndsEarly(a[1..], 0, tail, q);
        assert a[1..][j..] == a[j + 1..];
        j := j + 1;
      } else {
        j := 0;
        EscapedText(a, 0, tail);
        assert a[0..] == a && Slashes(0) == "" && "" + ([a[0]] + (more + tail)) == [a[0]] + (more + tail);
      }
    }
  }

  // ----- Too early: the characters that are not blank -----

  function NonBlank(s: string): nat {
    if s == "" then 0 else (if Blank(s[0]) then 0 else 1) + NonBlank(s[1..])
  }

  lemma {:induction false} NonBlankAppend(a: string, b: string)
    ensures NonBlank(a + b) == NonBlank(a) + NonBlank(b)
  {
    if a == "" {
      assert a + b == b;
    } else {
      assert (a + b)[0] == a[0] && (a + b)[1..] == a[1..] + b;
      NonBlankAppend(a[1..], b);
    }
  }

  lemma {:induction false} NonBlankSlashes(n: nat)
    ensures NonBlank(Slashes(n)) == n
  {
    if n > 0 {
      assert Slashes(n)[1..] == Slashes(n - 1);
      NonBlankSlashes(n - 1);
    }
  }

  function TotalNonBlank(args: seq<string>): nat {
    if args == [] then 0 else NonBlank(args[0]) + TotalNonBlank(args[1..])
  }

  /** Characters other than blanks that the text stands for, whether quotes are open or not. */
  function Meant(s: string): nat
    decreases |s|, 1
  {
    MeantRun(LeadingSlashes(s), s[LeadingSlashes(s)..])
  }

  function MeantRun(n: nat, rest: string): nat
    decreases |rest|, 0
  {
    if rest == "" then n
    else if rest[0] == '"' then n / 2 + n % 2 + Meant(rest[1..])
    else n + (if Blank(rest[0]) then 0 else 1) + Meant(rest[1..])
  }

  lemma MeantAfterRun(n: nat, rest: string)
    requires rest == "" || rest[0] != '\\'
    ensures Meant(Slashes(n) + rest) == MeantRun(n, rest)
  {
    LeadingSlashesOf(n, rest);
    assert (Slashes(n) + rest)[n..] == rest;
  }

  lemma MeantBlank(s: string)
    requires s != "" && Blank(s[0])
    ensures Meant(s) == Meant(s[1..])
  {
    assert Slashes(0) + s == s;
    MeantAfterRun(0, s);
  }

  lemma MeantQuote(s: string)
    ensures Meant("\"" + s) == Meant(s)
  {
    assert Slashes(0) + ("\"" + s) == "\"" + s && ("\"" + s)[1..] == s;
    MeantAfterRun(0, "\"" + s);
  }

  /** An argument holds at least what its part of the text stands for. */
  lemma {:induction false} ParseHolds(s: string, inQuotes: bool, doubled: bool)
    ensures NonBlank(ParseArg(s, inQuotes, doubled).0) + Meant(ParseArg(s, inQuotes, doubled).1) >= Meant(s)
    decreases |s|, 1
  {
    hide ParseRun, MeantRun, NonBlank;
    RunHolds(LeadingSlashes(s), s[LeadingSlashes(s)..], inQuotes, doubled);
  }

  lemma {:induction false} RunHolds(n: nat, rest: string, inQuotes: bool, doubled: bool)
    requires rest == "" || rest[0] != '\\'
    ensures NonBlank(ParseRun(n, rest, inQuotes, doubled).0) + Meant(ParseRun(n, rest, inQuotes, doubled).1)
         >= MeantRun(n, rest)
    decreases |rest|, 0
  {
    hide ParseArg, Meant, NonBlank, Slashes;
    NonBlankSlashes(n);
    NonBlankSlashes(n / 2);
    if rest == "" {
      MeantNothing();
    } else if rest[0] == '"' {
      var m := if n % 2 == 0 && doubled && inQuotes && |rest| > 1 && rest[1] == '"' then 2 else 1;
      var q := if n % 2 == 1 || m == 2 then inQuotes else !inQuotes;
      var p := Slashes(n / 2) + if n % 2 == 1 || m == 2 then "\"" else "";
      ParseHolds(rest[m..], q, doubled);
      NonBlankAppend(p, ParseArg(rest[m..], q, doubled).0);
      NonBlankAppend(Slashes(n / 2), "\"");
      OneCharacter('"');
      assert Slashes(n / 2) + "" == Slashes(n / 2);
      if m == 2 {
        assert rest[1..] == "\"" + rest[2..];
        MeantQuote(rest[2..]);
      }
    } else if !inQuotes && Blank(rest[0]) {
      MeantBlank(rest);
    } else {
      ParseHolds(rest[1..], inQuotes, doubled);
      NonBlankAppend(Slashes(n) + [rest[0]], ParseArg(rest[1..], inQuotes, doubled).0);
      NonBlankAppend(Slashes(n), [rest[0]]);
      OneCharacter(rest[0]);
    }
  }

  lemma MeantNothing()
    ensures Meant("") == 0
  {
  }

  lemma OneCharacter(c: char)
    ensures NonBlank([c]) == if Blank(c) then 0 else 1
  {
    assert [c][1..] == "";
  }

  lemma {:induction false} SplitHolds(s: string, doubled: bool)
    ensures TotalNonBlank(SplitArgs(s, doubled)) >= Meant(s)
    decreases |s|
  {
    hide ParseArg, Meant, NonBlank;
    if s == "" {
      MeantNothing();
    } else if Blank(s[0]) {
      MeantBlank(s);
      SplitHolds(s[1..], doubled);
    } else {
      ParseHolds(s, false, doubled);
      var r := ParseArg(s, false, doubled);
      SplitHolds(r.1, doubled);
      assert ([r.0] + SplitArgs(r.1, doubled))[1..] == SplitArgs(r.1, doubled);
    }
  }

  /** Quoting stands for the argument. */
  lemma {:induction false} EscapedMeans(a: string, k: nat, tail: string)
    ensures Meant(Escaped(a, k) + "\"" + tail) == k + NonBlank(a) + Meant(tail)
    decreases |a|
  {
    hide Meant;
    if a == "" {
      assert Escaped(a, k) + "\"" + tail == Slashes(2 * k) + ("\"" + tail) && ("\"" + tail)[1..] == tail;
      MeantAfterRun(2 * k, "\"" + tail);
    } else if a[0] == '\\' {
      EscapedMeans(a[1..], k + 1, tail);
    } else {
      EscapedText(a, k, tail);
      EscapedMeans(a[1..], 0, tail);
      var more := Escaped(a[1..], 0) + "\"" + tail;
      MeantAfterRun(if a[0] == '"' then 2 * k + 1 else k, [a[0]] + more);
      assert ([a[0]] + more)[1..] == more;
    }
  }

  lemma {:induction false} PlainMeans(a: string, tail: string)
    requires (forall i :: 0 <= i < |a| ==> !Special(a[i])) && EndsArgument(tail)
    ensures Meant(a + tail) == NonBlank(a) + Meant(tail)
    decreases |a|
  {
    hide Meant, NonBlank;
    var n := LeadingSlashes(a);
    NonBlankSlashes(n);
    if n < |a| {
      var more := a[n + 1..] + tail;
      assert a + tail == Slashes(n) + ([a[n]] + more) && ([a[n]] + more)[1..] == more;
      MeantAfterRun(n, [a[n]] + more);
      PlainMeans(a[n + 1..], tail);
      assert a == Slashes(n) + ([a[n]] + a[n + 1..]);
      NonBlankAppend(Slashes(n), [a[n]] + a[n + 1..]);
      NonBlankAppend([a[n]], a[n + 1..]);
      OneCharacter(a[n]);
    } else {
      assert a == Slashes(n);
      MeantAfterRun(n, tail);
      if tail == "" { MeantNothing(); } else { MeantBlank(tail); }
    }
  }

  lemma QuotedMeans(a: string, tail: string)
    requires EndsArgument(tail)
    ensures Meant(Quoted(a) + tail) == NonBlank(a) + Meant(tail)
  {
    hide Meant, NonBlank;
    if Plain(a) {
      PlainMeans(a, tail);
    } else {
      assert Quoted(a) + tail == "\"" + (Escaped(a, 0) + "\"" + tail);
      MeantQuote(Escaped(a, 0) + "\"" + tail);
      EscapedMeans(a, 0, tail);
    }
  }

  lemma {:induction false} JoinedMeans(args: seq<string>, i: nat)
    requires 0 < i <= |args|
    ensures Meant(JoinedFrom(args, i)) == TotalNonBlank(args[i..])
    decreases |args| - i
  {
    hide Meant, NonBlank, Quoted;
    if i == |args| {
      MeantNothing();
    } else {
      var tail := JoinedFrom(args, i + 1);
      JoinedMeans(args, i + 1);
      MeantBlank(" " + (Quoted(args[i]) + tail));
      assert (" " + (Quoted(args[i]) + tail))[1..] == Quoted(args[i]) + tail;
      SplitJoinedFrom(args, i + 1, false);
      QuotedMeans(args[i], tail);
      assert args[i..][1..] == args[i + 1..];
    }
  }

  // ----- Too early: an opened quote in front of the arguments -----

  lemma {:induction false} AllBlank(a: string, tail: string, doubled: bool)
    requires NonBlank(a) == 0
    ensures Escaped(a, 0) == a
    ensures SplitArgs(a + tail, doubled) == SplitArgs(tail, doubled)
    decreases |a|
  {
    if a == "" {
      assert a + tail == tail;
    } else {
      AllBlank(a[1..], tail, doubled);
      assert (a + tail)[0] == a[0] && (a + tail)[1..] == a[1..] + tail;
      assert Slashes(0) == "" && "" + [a[0]] + a[1..] == a;
    }
  }

  lemma OpenedBlank(more: string, doubled: bool)
    ensures ParseArg("\"" + (" " + more), false, doubled) == Prepend(" ", ParseArg(more, true, doubled))
  {
    hide ParseArg, ParseRun;
    ParseOpeningQuote(" " + more, doubled);
    ParseLiteral(0, ' ', more, true, doubled);
    assert Slashes(0) == "" && Slashes(0) + (" " + more) == " " + more && Slashes(0) + [' '] == " ";
    var r := ParseArg(more, true, doubled);
    assert "" + (" " + r.0) == " " + r.0;
  }

  lemma ClosedBeforeBlank(more: string, doubled: bool)
    ensures ParseArg("\"" + (" " + more), true, doubled) == ("", " " + more)
  {
    var rest := "\"" + (" " + more);
    assert Slashes(0) + rest == rest;
    ParseAfterRun(rest, 0, rest, true, doubled);
    assert rest[1..] == " " + more && rest[1] == ' ';
    ParseNothing(" " + more, doubled);
    assert Slashes(0) == "" && "" + "" == "";
    assert ParseArg(rest[1..], false, doubled) == ("", " " + more);
  }

  /** With a quote opened in front of them the arguments do not come back. */
  lemma {:induction false} OpenedDiffers(args: seq<string>, i: nat, doubled: bool)
    requires 0 < i <= |args|
    ensures SplitArgs("\"" + JoinedFrom(args, i), doubled) != args[i..]
    decreases |args| - i
  {
    hide ParseArg, ParseRun, Quoted, Escaped;
    if i < |args| {
      var a, tail := args[i], JoinedFrom(args, i + 1);
      var s, more := "\"" + (" " + (Quoted(a) + tail)), Quoted(a) + tail;
      OpenedBlank(more, doubled);
      var r := ParseArg(s, false, doubled);
      assert SplitArgs(s, doubled) == [r.0] + SplitArgs(r.1, doubled);
      assert r.0[0] == ' ' && args[i..][0] == a;
      if a != "" && a[0] == ' ' {
        BlankFirst(a, tail);
        var behind := Escaped(a[1..], 0) + "\"" + tail;
        ClosedBeforeBlank(behind, doubled);
        assert " " + "" == " " && r == (" ", " " + behind);
        if a == " " {
          EscapedNothing();
          assert a[1..] == "" && behind == "\"" + tail;
          SplitAfterBlank("\"" + tail, doubled);
          OpenedDiffers(args, i + 1, doubled);
          assert args[i..] == [a] + args[i + 1..];
        }
      }
    }
  }

  lemma EscapedNothing()
    ensures Escaped("", 0) == ""
  {
  }

  lemma BlankFirst(a: string, tail: string)
    requires a != "" && a[0] == ' '
    ensures Quoted(a) + tail == "\"" + (" " + (Escaped(a[1..], 0) + "\"" + tail))
  {
    assert Special(a[0]) && !Plain(a);
    assert Slashes(0) == "";
    EscapedText(a, 0, tail);
    hide Quoted, Escaped, Plain, Slashes;
    QuotedText(a, tail);
    assert "" + ([a[0]] + (Escaped(a[1..], 0) + "\"" + tail)) == " " + (Escaped(a[1..], 0) + "\"" + tail);
  }

  /** A name that ends at one of its own blanks spoils the arguments. */
  lemma EarlySpoils(args: seq<string>, rest: string, doubled: bool)
    requires args != []
    ensures SplitArgs(Escaped(rest, 0) + "\"" + JoinedFrom(args, 1), doubled) != args[1..]
  {
    hide SplitArgs, Meant, Escaped, JoinedFrom, NonBlank;
    var tail := JoinedFrom(args, 1);
    var s := Escaped(rest, 0) + "\"" + tail;
    SplitHolds(s, doubled);
    EscapedMeans(rest, 0, tail);
    JoinedMeans(args, 1);
    if NonBlank(rest) == 0 {
      AllBlank(rest, "\"" + tail, doubled);
      assert s == rest + ("\"" + tail);
      OpenedDiffers(args, 1, doubled);
    }
  }

  // ----- Too late: the blanks -----

  function Blanks(s: string): nat {
    if s == "" then 0 else (if Blank(s[0]) then 1 else 0) + Blanks(s[1..])
  }

  lemma {:induction false} BlanksAppend(a: string, b: string)
    ensures Blanks(a + b) == Blanks(a) + Blanks(b)
  {
    if a == "" {
      assert a + b == b;
    } else {
      assert (a + b)[0] == a[0] && (a + b)[1..] == a[1..] + b;
      BlanksAppend(a[1..], b);
    }
  }

  lemma {:induction false} SlashesNotBlank(n: nat)
    ensures Blanks(Slashes(n)) == 0
  {
    if n > 0 {
      assert Slashes(n)[1..] == Slashes(n - 1);
      SlashesNotBlank(n - 1);
    }
  }

  lemma BlanksOf(c: char, s: string)
    ensures Blanks([c] + s) == (if Blank(c) then 1 else 0) + Blanks(s)
    ensures Blanks([c]) == if Blank(c) then 1 else 0
  {
    assert ([c] + s)[1..] == s && [c][1..] == "";
  }

  /** Every blank goes into the argument or stays behind it. */
  lemma {:induction false} ParseBlanks(s: string, inQuotes: bool, doubled: bool)
    ensures Blanks(ParseArg(s, inQuotes, doubled).0) + Blanks(ParseArg(s, inQuotes, doubled).1) == Blanks(s)
    decreases |s|, 1
  {
    hide ParseRun, Blanks;
    var n := LeadingSlashes(s);
    RunBlanks(n, s[n..], inQuotes, doubled);
    SlashesNotBlank(n);
    BlanksAppend(s[..n], s[n..]);
    assert s[..n] + s[n..] == s;
  }

  lemma {:induction false} RunBlanks(n: nat, rest: string, inQuotes: bool, doubled: bool)
    requires rest == "" || rest[0] != '\\'
    ensures Blanks(ParseRun(n, rest, inQuotes, doubled).0) + Blanks(ParseRun(n, rest, inQuotes, doubled).1)
         == Blanks(rest)
    decreases |rest|, 0
  {
    hide ParseArg, Blanks, Slashes;
    SlashesNotBlank(n);
    SlashesNotBlank(n / 2);
    if rest != "" {
      assert rest == [rest[0]] + rest[1..];
      BlanksOf(rest[0], rest[1..]);
    }
    if rest == "" {
      NoneBlank();
    } else if rest[0] == '"' {
      var m := if n % 2 == 0 && doubled && inQuotes && |rest| > 1 && rest[1] == '"' then 2 else 1;
      var q := if n % 2 == 1 || m == 2 then inQuotes else !inQuotes;
      var p := Slashes(n / 2) + if n % 2 == 1 || m == 2 then "\"" else "";
      ParseBlanks(rest[m..], q, doubled);
      BlanksAppend(p, ParseArg(rest[m..], q, doubled).0);
      BlanksAppend(Slashes(n / 2), "\"");
      BlanksOf('"', "");
      assert Slashes(n / 2) + "" == Slashes(n / 2);
      if m == 2 {
        assert rest[1..] == ['"'] + rest[2..];
        BlanksOf('"', rest[2..]);
      }
    } else if inQuotes || !Blank(rest[0]) {
      ParseBlanks(rest[1..], inQuotes, doubled);
      BlanksAppend(Slashes(n) + [rest[0]], ParseArg(rest[1..], inQuotes, doubled).0);
      BlanksAppend(Slashes(n), [rest[0]]);
      BlanksOf(rest[0], "");
    }
  }

  lemma NoneBlank()
    ensures Blanks("") == 0
  {
  }

  function TotalBlanks(args: seq<string>): nat {
    if args == [] then 0 else Blanks(args[0]) + TotalBlanks(args[1..])
  }

  /** An argument ends at a blank or at the end. */
  lemma {:induction false} ParseEnds(s: string, inQuotes: bool, doubled: bool)
    ensures EndsArgument(ParseArg(s, inQuotes, doubled).1)
    decreases |s|, 1
  {
    hide ParseRun;
    RunEnds(LeadingSlashes(s), s[LeadingSlashes(s)..], inQuotes, doubled);
  }

  lemma {:induction false} RunEnds(n: nat, rest: string, inQuotes: bool, doubled: bool)
    requires rest == "" || rest[0] != '\\'
    ensures EndsArgument(ParseRun(n, rest, inQuotes, doubled).1)
    decreases |rest|, 0
  {
    hide ParseArg;
    if rest == "" {
    } else if rest[0] == '"' {
      var m := if n % 2 == 0 && doubled && inQuotes && |rest| > 1 && rest[1] == '"' then 2 else 1;
      ParseEnds(rest[m..], if n % 2 == 1 || m == 2 then inQuotes else !inQuotes, doubled);
    } else if inQuotes || !Blank(rest[0]) {
      ParseEnds(rest[1..], inQuotes, doubled);
    }
  }

  /** A blank stands before every argument but a first one at the front. */
  lemma {:induction false} SplitBlanks(s: string, doubled: bool)
    ensures TotalBlanks(SplitArgs(s, doubled)) + |SplitArgs(s, doubled)|
         <= Blanks(s) + if EndsArgument(s) then 0 else 1
    decreases |s|
  {
    hide ParseArg, Blanks;
    if s == "" {
      NoneBlank();
    } else if Blank(s[0]) {
      assert s == [s[0]] + s[1..];
      BlanksOf(s[0], s[1..]);
      SplitBlanks(s[1..], doubled);
    } else {
      ParseBlanks(s, false, doubled);
      ParseEnds(s, false, doubled);
      var r := ParseArg(s, false, doubled);
      SplitBlanks(r.1, doubled);
      assert ([r.0] + SplitArgs(r.1, doubled))[1..] == SplitArgs(r.1, doubled);
    }
  }

  lemma {:induction false} EscapedBlanks(a: string, k: nat)
    ensures Blanks(Escaped(a, k)) == Blanks(a)
    decreases |a|
  {
    hide Blanks, Slashes;
    if a == "" {
      SlashesNotBlank(2 * k);
      NoneBlank();
    } else {
      assert a == [a[0]] + a[1..];
      BlanksOf(a[0], a[1..]);
      if a[0] == '\\' {
        EscapedBlanks(a[1..], k + 1);
      } else {
        EscapedBlanks(a[1..], 0);
        PieceBlanks(if a[0] == '"' then 2 * k + 1 else k, a[0], Escaped(a[1..], 0));
      }
    }
  }

  lemma PieceBlanks(n: nat, c: char, more: string)
    ensures Blanks(Slashes(n) + [c] + more) == (if Blank(c) then 1 else 0) + Blanks(more)
  {
    hide Blanks;
    SlashesNotBlank(n);
    BlanksOf(c, more);
    BlanksAppend(Slashes(n), [c] + more);
    assert Slashes(n) + [c] + more == Slashes(n) + ([c] + more);
  }

  lemma QuotedBlanks(a: string)
    ensures Blanks(Quoted(a)) == Blanks(a)
  {
    if !Plain(a) {
      EscapedBlanks(a, 0);
      BlanksOf('"', Escaped(a, 0) + "\"");
      BlanksAppend(Escaped(a, 0), "\"");
      BlanksOf('"', "");
      assert Quoted(a) == ['"'] + (Escaped(a, 0) + "\"");
    }
  }

  lemma {:induction false} JoinedBlanks(args: seq<string>, i: nat)
    requires 0 < i <= |args|
    ensures Blanks(JoinedFrom(args, i)) == TotalBlanks(args[i..]) + |args[i..]|
    decreases |args| - i
  {
    hide Blanks, Quoted;
    if i == |args| {
      NoneBlank();
    } else {
      var tail := JoinedFrom(args, i + 1);
      JoinedBlanks(args, i + 1);
      QuotedBlanks(args[i]);
      BlanksAppend(Quoted(args[i]), tail);
      BlanksOf(' ', Quoted(args[i]) + tail);
      assert [' '] + (Quoted(args[i]) + tail) == JoinedFrom(args, i);
      assert args[i..][1..] == args[i + 1..];
    }
  }

  /** What the name leaves starts with a blank, and no blank is counted twice. */
  lemma {:induction false} NameLeaves(s: string, inQuotes: bool)
    ensures EndsArgument(ProgramName(s, inQuotes).1) && Blanks(ProgramName(s, inQuotes).1) <= Blanks(s)
    decreases |s|
  {
    if s != "" { NameLeaves(s[1..], if s[0] == '"' then !inQuotes else inQuotes); }
  }

  /** A name still open where the arguments begin swallows their first blank, and with it an argument. */
  lemma LateSpoils(args: seq<string>, doubled: bool)
    requires |args| > 1
    ensures SplitArgs(ProgramName(JoinedFrom(args, 1), true).1, doubled) != args[1..]
  {
    hide Quoted, SplitArgs;
    var tail := JoinedFrom(args, 1);
    var rest := ProgramName(tail, true).1;
    assert tail == [' '] + tail[1..];
    BlanksOf(' ', tail[1..]);
    OneMore(' ', tail[1..], true);
    NameLeaves(tail[1..], true);
    SplitBlanks(rest, doubled);
    JoinedBlanks(args, 1);
  }

  // ----- The result -----

  /**
   Splitting a joined command line gives back every argument after the program name, whatever they
   hold and under either rule for doubled quotes, exactly when the quoted program name ends where it
   should.
   */
  lemma ArgumentsSurviveExactly(args: seq<string>, doubled: bool)
    requires args != []
    ensures ArgumentsOf(Joined(args), doubled) == args[1..] <==> NameEnds(args)
  {
    hide SplitArgs, ProgramName, Quoted, Escaped, BlanksQuoted, OpenAfter;
    var q, tail := Quoted(args[0]), JoinedFrom(args, 1);
    assert Joined(args) == q + tail;
    SplitJoinedFrom(args, 1, doubled);
    if !BlanksQuoted(q, false) {
      var rest := EndsInside(args[0], tail);
      EarlySpoils(args, rest, doubled);
    } else {
      NameSkips(q, tail, false);
      NameAtTail(tail);
      if |args| > 1 { LateSpoils(args, doubled); } else { NoMore(args); }
    }
  }

  lemma QuotedText(p: string, tail: string)
    ensures Plain(p) ==> Quoted(p) == p
    ensures !Plain(p) ==>
              && Quoted(p) == ['"'] + (Escaped(p, 0) + "\"")
              && Quoted(p) + tail == ['"'] + (Escaped(p, 0) + "\"" + tail)
  {
    hide Escaped, Plain;
  }

  lemma EndsInside(p: string, tail: string) returns (rest: string)
    requires !BlanksQuoted(Quoted(p), false)
    ensures ProgramName(Quoted(p) + tail, false).1 == Escaped(rest, 0) + "\"" + tail
  {
    hide BlanksQuoted, ProgramName, Quoted, Escaped;
    QuotedText(p, tail);
    if Plain(p) {
      PlainBlanks(p);
    } else {
      OneMore('"', Escaped(p, 0) + "\"", false);
      OneMore('"', Escaped(p, 0) + "\"" + tail, false);
      var j := EndsEarly(p, 0, tail, true);
      rest := p[j..];
    }
  }

  lemma {:induction false} PlainBlanks(p: string)
    requires forall i :: 0 <= i < |p| ==> !Special(p[i])
    ensures BlanksQuoted(p, false)
  {
    if p != "" { PlainBlanks(p[1..]); }
  }

  lemma NameAtTail(tail: string)
    requires EndsArgument(tail)
    ensures ProgramName(tail, false).1 == tail && (tail == "" ==> ProgramName(tail, true).1 == "")
  {
  }

  lemma NoMore(args: seq<string>)
    requires |args| == 1
    ensures JoinedFrom(args, 1) == "" && args[1..] == []
    ensures forall doubled: bool :: SplitArgs("", doubled) == []
  {
  }

  /** So whenever the program name holds no double quote, which no Windows file name does. */
  lemma QuoteFreeNameEnds(args: seq<string>)
    requires args != [] && '"' !in args[0]
    ensures NameEnds(args)
  {
    var p := args[0];
    if Plain(p) {
      QuoteFree(p, false);
      PlainBlanks(p);
    } else {
      EscapedWithoutQuotes(p, 0);
      var e := Escaped(p, 0);
      QuoteFree(e, true);
      QuoteCloses(e);
      assert Quoted(p) == ['"'] + (e + "\"");
      OneMore('"', e + "\"", false);
      assert (['"'] + (e + "\""))[1..] == e + "\"";
    }
  }

  lemma {:induction false} QuoteFree(s: string, inQuotes: bool)
    requires '"' !in s
    ensures OpenAfter(s, inQuotes) == inQuotes && (inQuotes ==> BlanksQuoted(s, inQuotes))
  {
    if s != "" { QuoteFree(s[1..], inQuotes); }
  }

  lemma {:induction false} QuoteCloses(e: string)
    requires '"' !in e
    ensures BlanksQuoted(e + "\"", true) && !OpenAfter(e + "\"", true)
  {
    if e == "" {
      assert e + "\"" == "\"" && "\""[1..] == "";
    } else {
      assert (e + "\"")[0] == e[0] && (e + "\"")[1..] == e[1..] + "\"";
      QuoteCloses(e[1..]);
    }
  }

  lemma OneEscaped(a: string, k: nat)
    requires a != "" && a[0] != '\\'
    ensures Escaped(a, k) == Slashes(if a[0] == '"' then 2 * k + 1 else k) + [a[0]] + Escaped(a[1..], 0)
  {
  }

  const SPOILER: string := "a\" b"

  lemma SpoilerQuoted()
    ensures Quoted(SPOILER) == "\"" + ("a\\" + ("\"" + " b\""))
  {
    hide Escaped, Plain;
    assert SPOILER[1..] == "\" b" && "\" b"[1..] == " b" && " b"[1..] == "b" && "b"[1..] == "";
    OneEscaped(SPOILER, 0);
    OneEscaped("\" b", 0);
    OneEscaped(" b", 0);
    OneEscaped("b", 0);
    EscapedNothing();
    SpoilerSpecial();
    assert Slashes(0) == "" && Slashes(1) == "\\";
  }

  lemma SpoilerSpecial()
    ensures !Plain(SPOILER)
  {
    assert Special(SPOILER[1]);
  }

  lemma SpoilerOpen()
    ensures !BlanksQuoted("\"" + ("a\\" + ("\"" + " b\"")), false)
  {
    hide BlanksQuoted;
    OneMore('"', "a\\" + ("\"" + " b\""), false);
    assert "a\\" + ("\"" + " b\"") == ['a'] + (['\\'] + ("\"" + " b\""));
    OneMore('a', ['\\'] + ("\"" + " b\""), true);
    OneMore('\\', "\"" + " b\"", true);
    OneMore('"', " b\"", true);
    assert " b\"" == [' '] + "b\"";
    OneMore(' ', "b\"", false);
  }

  /** A name with a quote and a blank: part of it comes back as an argument. */
  lemma NameWithQuoteSpoils(doubled: bool)
    ensures !NameEnds([SPOILER]) && ArgumentsOf(Joined([SPOILER]), doubled) != []
  {
    SpoilerQuoted();
    SpoilerOpen();
    hide ArgumentsOf, Joined, Quoted, BlanksQuoted, SPOILER;
    ArgumentsSurviveExactly([SPOILER], doubled);
    assert [SPOILER][1..] == [];
  }
}
