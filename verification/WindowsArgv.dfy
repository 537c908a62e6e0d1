/**
 Windows command lines: the quoting loop that joins an argument vector into one string, and
 Microsoft's documented rules for splitting such a string back into arguments.
 */
module WindowsArgv {
  import opened Text

  predicate Blank(c: char) { c == ' ' || c == '\t' }

  predicate Special(c: char) { Blank(c) || c == '"' }

  predicate Plain(a: string) { a != "" && forall i :: 0 <= i < |a| ==> !Special(a[i]) }

  function Slashes(n: nat): string { Repeat('\\', n) }

  /** The text between the quotes, when `pending` backslashes have been read but not yet written. */
  function Escaped(a: string, pending: nat): string {
    if a == "" then Slashes(pending * 2)
    else if a[0] == '\\' then Escaped(a[1..], pending + 1)
    else if a[0] == '"' then Slashes(pending * 2 + 1) + "\"" + Escaped(a[1..], 0)
    else Slashes(pending) + [a[0]] + Escaped(a[1..], 0)
  }

  function Quoted(a: string): string {
    if Plain(a) then a else "\"" + Escaped(a, 0) + "\""
  }

  /** The arguments from index `i` on, joined by single blanks. */
  function JoinedFrom(args: seq<string>, i: nat): string
    requires i <= |args|
    decreases |args| - i
  {
    if i == |args| then ""
    else (if i > 0 then " " else "") + (Quoted(args[i]) + JoinedFrom(args, i + 1))
  }

  function Joined(args: seq<string>): string { JoinedFrom(args, 0) }

  /** The quoting loop, with its counter of unwritten backslashes. */
  method QuoteWindowsArg(a: string) returns (out: string)
    ensures out == Quoted(a)
  {
    if Plain(a) { return a; }
    out := "\"";
    var backslashes := 0;
    for i := 0 to |a|
      invariant "\"" + Escaped(a, 0) == out + Escaped(a[i..], backslashes)
    {
      assert a[i..][1..] == a[i + 1..];
      if a[i] == '\\' {
        backslashes := backslashes + 1;
      } else {
        if a[i] == '"' {
          out := out + Slashes(backslashes * 2 + 1);
        } else {
          out := out + Slashes(backslashes);
        }
        backslashes := 0;
        out := out + [a[i]];
      }
    }
    assert a[|a|..] == "";
    out := out + Slashes(backslashes * 2);
    out := out + "\"";
  }

  method CommandLine(args: seq<string>) returns (cmdLine: string)
    ensures cmdLine == Joined(args)
  {
    hide Quoted;
    cmdLine := "";
    for i := 0 to |args|
      invariant cmdLine + JoinedFrom(args, i) == Joined(args)
    {
      ghost var before, after := cmdLine, JoinedFrom(args, i + 1);
      if i > 0 { cmdLine := cmdLine + " "; }
      var q := QuoteWindowsArg(args[i]);
      cmdLine := cmdLine + q;
      assert cmdLine + after == before + ((if i > 0 then " " else "") + (q + after));
    }
  }

  // ----- Microsoft's splitting rules -----

  function LeadingSlashes(s: string): (n: nat)
    ensures n <= |s|
    ensures s[..n] == Slashes(n)
    ensures n < |s| ==> s[n] != '\\'
  {
    if s != "" && s[0] == '\\' then 1 + LeadingSlashes(s[1..]) else 0
  }

  function Prepend(p: string, r: (string, string)): (string, string) { (p + r.0, r.1) }

  /**
   One argument from the front of `s`, and what is left. 2n backslashes before a quote give n and
   the quote toggles quoting; 2n+1 give n and a literal quote; other backslashes are literal. With
   `doubled`, the later runtime's rule also reads a doubled quote inside quotes as a literal quote.
   */
  function ParseArg(s: string, inQuotes: bool, doubled: bool): (r: (string, string))
    ensures |r.1| <= |s|
    ensures s != "" && (inQuotes || !Blank(s[0])) ==> |r.1| < |s|
    decreases |s|, 1
  {
    ParseRun(LeadingSlashes(s), s[LeadingSlashes(s)..], inQuotes, doubled)
  }

  /** The step after a run of `n` backslashes that `rest` does not continue. */
  function ParseRun(n: nat, rest: string, inQuotes: bool, doubled: bool): (r: (string, string))
    ensures |r.1| <= |rest|
    ensures rest != "" && (inQuotes || !Blank(rest[0])) ==> |r.1| < |rest|
    decreases |rest|, 0
  {
    if rest == "" then (Slashes(n), "")
    else if rest[0] == '"' then
      if n % 2 == 1 then
        Prepend(Slashes(n / 2) + "\"", ParseArg(rest[1..], inQuotes, doubled))
      else if doubled && inQuotes && |rest| > 1 && rest[1] == '"' then
        Prepend(Slashes(n / 2) + "\"", ParseArg(rest[2..], inQuotes, doubled))
      else
        Prepend(Slashes(n / 2), ParseArg(rest[1..], !inQuotes, doubled))
    else if !inQuotes && Blank(rest[0]) then (Slashes(n), rest)
    else Prepend(Slashes(n) + [rest[0]], ParseArg(rest[1..], inQuotes, doubled))
  }

  function SplitArgs(s: string, doubled: bool): seq<string>
    decreases |s|
  {
    if s == "" then []
    else if Blank(s[0]) then SplitArgs(s[1..], doubled)
    else
      var r := ParseArg(s, false, doubled);
      [r.0] + SplitArgs(r.1, doubled)
  }

  /** The program name has its own rule: quotes toggle, backslashes mean nothing. */
  function ProgramName(s: string, inQuotes: bool): (r: (string, string))
    decreases |s|
  {
    if s == "" then ("", "")
    else if s[0] == '"' then ProgramName(s[1..], !inQuotes)
    else if !inQuotes && Blank(s[0]) then ("", s)
    else Prepend([s[0]], ProgramName(s[1..], inQuotes))
  }

  function ArgumentsOf(cmdLine: string, doubled: bool): seq<string> {
    SplitArgs(ProgramName(cmdLine, false).1, doubled)
  }

  // ----- Splitting undoes joining -----

  ghost predicate EndsArgument(tail: string) { tail == "" || Blank(tail[0]) }

  lemma {:induction false} LeadingSlashesOf(n: nat, rest: string)
    requires rest == "" || rest[0] != '\\'
    ensures LeadingSlashes(Slashes(n) + rest) == n
  {
    if n == 0 {
      assert Slashes(0) + rest == rest;
    } else {
      assert (Slashes(n) + rest)[1..] == Slashes(n - 1) + rest;
      LeadingSlashesOf(n - 1, rest);
    }
  }

  lemma ParseAfterRun(s: string, n: nat, rest: string, inQuotes: bool, doubled: bool)
    requires s == Slashes(n) + rest
    requires rest == "" || rest[0] != '\\'
    ensures ParseArg(s, inQuotes, doubled) == ParseRun(n, rest, inQuotes, doubled)
  {
    LeadingSlashesOf(n, rest);
    assert s[n..] == rest;
  }

  lemma ParseNothing(tail: string, doubled: bool)
    requires EndsArgument(tail)
    ensures ParseArg(tail, false, doubled) == ("", tail)
  {
    assert tail == Slashes(0) + tail;
    ParseAfterRun(tail, 0, tail, false, doubled);
    assert Slashes(0) == "";
  }

  lemma ParseLiteral(n: nat, c: char, more: string, inQuotes: bool, doubled: bool)
    requires c != '\\' && c != '"' && (inQuotes || !Blank(c))
    ensures ParseArg(Slashes(n) + ([c] + more), inQuotes, doubled)
         == Prepend(Slashes(n) + [c], ParseArg(more, inQuotes, doubled))
  {
    var rest := [c] + more;
    ParseAfterRun(Slashes(n) + rest, n, rest, inQuotes, doubled);
    assert rest[1..] == more;
  }

  lemma ParseLiteralQuote(k: nat, more: string, inQuotes: bool, doubled: bool)
    ensures ParseArg(Slashes(2 * k + 1) + ("\"" + more), inQuotes, doubled)
         == Prepend(Slashes(k) + "\"", ParseArg(more, inQuotes, doubled))
  {
    var n, rest := 2 * k + 1, "\"" + more;
    ParseAfterRun(Slashes(n) + rest, n, rest, inQuotes, doubled);
    assert rest[1..] == more && n % 2 == 1 && n / 2 == k;
  }

  lemma ParseClosingQuote(k: nat, tail: string, doubled: bool)
    requires EndsArgument(tail)
    ensures ParseArg(Slashes(2 * k) + ("\"" + tail), true, doubled) == (Slashes(k), tail)
  {
    var n, rest := 2 * k, "\"" + tail;
    ParseAfterRun(Slashes(n) + rest, n, rest, true, doubled);
    assert rest[1..] == tail && n % 2 == 0 && n / 2 == k;
    ParseNothing(tail, doubled);
    assert Slashes(k) + "" == Slashes(k);
  }

  /** The escaped text after one character, up to the closing quote and what follows it. */
  lemma EscapedText(a: string, k: nat, tail: string)
    requires a != "" && a[0] != '\\'
    ensures Escaped(a, k) + "\"" + tail
         == Slashes(if a[0] == '"' then 2 * k + 1 else k) + ([a[0]] + (Escaped(a[1..], 0) + "\"" + tail))
  {
  }

  lemma {:induction false} ParseEscaped(a: string, k: nat, tail: string, doubled: bool)
    requires EndsArgument(tail)
    ensures ParseArg(Escaped(a, k) + "\"" + tail, true, doubled) == (Slashes(k) + a, tail)
    decreases |a|
  {
    hide ParseArg, ParseRun;
    if a == "" {
      ParseClosingQuote(k, tail, doubled);
      assert Escaped(a, k) + "\"" + tail == Slashes(2 * k) + ("\"" + tail);
      assert Slashes(k) + a == Slashes(k);
    } else if a[0] == '\\' {
      ParseEscaped(a[1..], k + 1, tail, doubled);
      assert Slashes(k + 1) + a[1..] == Slashes(k) + a;
    } else {
      ParseEscaped(a[1..], 0, tail, doubled);
      ParseEscapedStep(a, k, tail, doubled);
    }
  }

  lemma EscapedStepText(a: string, k: nat)
    requires a != ""
    ensures Slashes(k) + [a[0]] + (Slashes(0) + a[1..]) == Slashes(k) + a
  {
    assert a == [a[0]] + a[1..];
  }

  lemma ParseEscapedStep(a: string, k: nat, tail: string, doubled: bool)
    requires a != "" && a[0] != '\\'
    requires ParseArg(Escaped(a[1..], 0) + "\"" + tail, true, doubled) == (Slashes(0) + a[1..], tail)
    ensures ParseArg(Escaped(a, k) + "\"" + tail, true, doubled) == (Slashes(k) + a, tail)
  {
    hide ParseArg, ParseRun, Escaped;
    var more := Escaped(a[1..], 0) + "\"" + tail;
    EscapedText(a, k, tail);
    EscapedStepText(a, k);
    if a[0] == '"' {
      ParseLiteralQuote(k, more, true, doubled);
    } else {
      ParseLiteral(k, a[0], more, true, doubled);
    }
  }

  lemma {:induction false} ParsePlain(a: string, tail: string, doubled: bool)
    requires forall i :: 0 <= i < |a| ==> !Special(a[i])
    requires EndsArgument(tail)
    ensures ParseArg(a + tail, false, doubled) == (a, tail)
    decreases |a|
  {
    hide ParseArg, ParseRun;
    var n := LeadingSlashes(a);
    if n < |a| {
      var more := a[n + 1..] + tail;
      assert a + tail == Slashes(n) + ([a[n]] + more);
      ParseLiteral(n, a[n], more, false, doubled);
      ParsePlain(a[n + 1..], tail, doubled);
      assert Slashes(n) + [a[n]] + a[n + 1..] == a;
    } else {
      ParseSlashesThenEnd(n, tail, doubled);
      assert Slashes(n) == a;
    }
  }

  lemma ParseSlashesThenEnd(n: nat, tail: string, doubled: bool)
    requires EndsArgument(tail)
    ensures ParseArg(Slashes(n) + tail, false, doubled) == (Slashes(n), tail)
  {
    ParseAfterRun(Slashes(n) + tail, n, tail, false, doubled);
  }

  lemma ParseOpeningQuote(more: string, doubled: bool)
    ensures ParseArg("\"" + more, false, doubled) == Prepend("", ParseArg(more, true, doubled))
  {
    assert "\"" + more == Slashes(0) + ("\"" + more);
    ParseAfterRun("\"" + more, 0, "\"" + more, false, doubled);
    assert ("\"" + more)[1..] == more && Slashes(0) == "";
  }

  lemma ParseQuoted(a: string, tail: string, doubled: bool)
    requires EndsArgument(tail)
    ensures ParseArg(Quoted(a) + tail, false, doubled) == (a, tail)
    ensures Quoted(a) != "" && !Blank(Quoted(a)[0])
  {
    hide ParseArg, ParseRun;
    if Plain(a) {
      ParsePlain(a, tail, doubled);
    } else {
      var body := Escaped(a, 0) + "\"" + tail;
      assert Quoted(a) + tail == "\"" + body;
      ParseOpeningQuote(body, doubled);
      ParseEscaped(a, 0, tail, doubled);
      assert "" + (Slashes(0) + a) == a;
    }
  }

  lemma {:induction false} SplitJoinedFrom(args: seq<string>, i: nat, doubled: bool)
    requires 0 < i <= |args|
    ensures SplitArgs(JoinedFrom(args, i), doubled) == args[i..]
    ensures EndsArgument(JoinedFrom(args, i))
    decreases |args| - i
  {
    hide Quoted;
    if i < |args| {
      var tail := JoinedFrom(args, i + 1);
      SplitJoinedFrom(args, i + 1, doubled);
      SplitAfterBlank(Quoted(args[i]) + tail, doubled);
      SplitFirst(args[i], tail, doubled);
      assert [args[i]] + args[i + 1..] == args[i..];
    }
  }

  lemma SplitAfterBlank(s: string, doubled: bool)
    ensures SplitArgs(" " + s, doubled) == SplitArgs(s, doubled)
  {
    assert (" " + s)[1..] == s;
  }

  lemma SplitFirst(a: string, tail: string, doubled: bool)
    requires EndsArgument(tail)
    ensures SplitArgs(Quoted(a) + tail, doubled) == [a] + SplitArgs(tail, doubled)
  {
    ParseQuoted(a, tail, doubled);
    assert (Quoted(a) + tail)[0] == Quoted(a)[0];
  }

  lemma {:induction false} EscapedWithoutQuotes(a: string, k: nat)
    requires '"' !in a
    ensures '"' !in Escaped(a, k)
    ensures a == "" || a[|a| - 1] != '\\' ==> Escaped(a, k) == Slashes(if a == "" then 2 * k else k) + a
    decreases |a|
  {
    if a != "" {
      var k' := if a[0] == '\\' then k + 1 else 0;
      EscapedWithoutQuotes(a[1..], k');
      if a[|a| - 1] != '\\' {
        assert Slashes(k) + [a[0]] + (Slashes(0) + a[1..]) == Slashes(k) + a;
        assert Slashes(k) + [a[0]] + "" == Slashes(k) + [a[0]];
        assert a[0] == '\\' ==> Slashes(k + 1) + a[1..] == Slashes(k) + a;
      }
    }
  }

  /** A run without quotes is copied; inside quotes blanks are part of the name. */
  lemma {:induction false} ProgramNameCopies(a: string, inQuotes: bool, tail: string)
    requires '"' !in a
    requires inQuotes || forall i :: 0 <= i < |a| ==> !Blank(a[i])
    ensures ProgramName(a + tail, inQuotes) == Prepend(a, ProgramName(tail, inQuotes))
    decreases |a|
  {
    if a == "" {
      assert a + tail == tail;
      assert a + ProgramName(tail, inQuotes).0 == ProgramName(tail, inQuotes).0;
    } else {
      assert (a + tail)[0] == a[0] && (a + tail)[1..] == a[1..] + tail;
      ProgramNameCopies(a[1..], inQuotes, tail);
      var r := ProgramName(tail, inQuotes);
      assert [a[0]] + (a[1..] + r.0) == a + r.0;
    }
  }

  lemma ProgramNameBetweenQuotes(e: string, tail: string)
    requires '"' !in e && EndsArgument(tail)
    ensures ProgramName("\"" + e + "\"" + tail, false) == (e, tail)
  {
    var closed := "\"" + tail;
    assert ProgramName(closed, true) == ("", tail) by {
      assert closed[1..] == tail;
    }
    ProgramNameCopies(e, true, closed);
    assert ("\"" + e + "\"" + tail)[1..] == e + closed;
    assert e + "" == e;
  }

  lemma ProgramNameOfQuoted(p: string, tail: string)
    requires '"' !in p && EndsArgument(tail)
    ensures ProgramName(Quoted(p) + tail, false)
         == (if Plain(p) then p else Escaped(p, 0), tail)
  {
    hide Escaped;
    if Plain(p) {
      ProgramNameCopies(p, false, tail);
      assert ProgramName(tail, false) == ("", tail);
      assert p + "" == p;
    } else {
      EscapedWithoutQuotes(p, 0);
      ProgramNameBetweenQuotes(Escaped(p, 0), tail);
    }
  }

  lemma {:induction false} NameWithoutQuotes(s: string, inQuotes: bool)
    ensures '"' !in ProgramName(s, inQuotes).0
    decreases |s|
  {
    if s != "" { NameWithoutQuotes(s[1..], if s[0] == '"' then !inQuotes else inQuotes); }
  }

  /**
   The program name itself survives exactly when it holds no double quote and no doubled trailing
   backslash is written.
   */
  lemma ProgramNameSurvives(args: seq<string>, doubled: bool)
    requires args != []
    ensures ProgramName(Joined(args), false).0 == args[0]
       <==> '"' !in args[0] && (Plain(args[0]) || args[0] == "" || args[0][|args[0]| - 1] != '\\')
  {
    hide Quoted, Escaped, ProgramName;
    var p, tail := args[0], JoinedFrom(args, 1);
    NameWithoutQuotes(Joined(args), false);
    if '"' in p { return; }
    SplitJoinedFrom(args, 1, doubled);
    assert Joined(args) == Quoted(p) + tail;
    ProgramNameOfQuoted(p, tail);
    if !Plain(p) {
      EscapedWithoutQuotes(p, 0);
      if p != "" && p[|p| - 1] == '\\' {
        EscapedLonger(p, 0);
      }
      assert Slashes(0) + p == p;
    }
  }

  lemma {:induction false} EscapedLonger(p: string, k: nat)
    requires p != "" && p[|p| - 1] == '\\'
    ensures |Escaped(p, k)| > k + |p|
    decreases |p|
  {
    if |p| > 1 {
      EscapedLonger(p[1..], if p[0] == '\\' then k + 1 else 0);
    } else {
      assert Escaped(p[1..], k + 1) == Slashes(2 * (k + 1));
    }
  }
}
