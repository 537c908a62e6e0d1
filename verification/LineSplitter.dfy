/**
 The orchestrator's line splitter. A carriage return and line feed count as one line end here and as
 two in the command-line tool's splitter; once empty lines are dropped the two agree.
 */
module LineSplitter {
  import opened OutputSink
  import opened Text

  /** Splitting at `\r\n`, `\r` or `\n`, the longest first: always at least one part. */
  function Split(s: string): (parts: seq<string>)
    ensures parts != []
    decreases |s|
  {
    var e := FirstBreak(s);
    if e == |s| then [s]
    else
      var next := if s[e] == '\r' && e + 1 < |s| && s[e + 1] == '\n' then e + 2 else e + 1;
      [s[..e]] + Split(s[next..])
  }

  function Front(parts: seq<string>): seq<string>
    requires parts != []
  {
    parts[..|parts| - 1]
  }

  function Last(parts: seq<string>): string
    requires parts != []
  {
    parts[|parts| - 1]
  }

  function NonEmpty(lines: seq<string>): seq<string> {
    if lines == [] then []
    else (if |lines[0]| > 0 then [lines[0]] else []) + NonEmpty(lines[1..])
  }

  class LineBuffer {
    var residual: string

    constructor ()
      ensures residual == ""
    {
      residual := "";
    }

    /** The lines the chunk completes, without the empty ones; what follows the last line end waits. */
    method Push(chunk: string) returns (lines: seq<string>)
      modifies this
      ensures residual == Residue(old(residual) + chunk)
      ensures lines == NonEmpty(Lines(old(residual) + chunk))
    {
      var parts := Split(residual + chunk);
      SplitIsLines(residual + chunk);
      residual := Last(parts);
      lines := NonEmpty(Front(parts));
    }

    method Flush() returns (lines: seq<string>)
      modifies this
      ensures residual == "" && lines == NonEmpty([old(residual)])
    {
      var rest := residual;
      residual := "";
      lines := if |rest| > 0 then [rest] else [];
      assert [rest][1..] == [];
    }

    /** A stream in any chunks: all the lines pushed, then the flush. */
    method Collect(chunks: seq<string>) returns (lines: seq<string>)
      requires residual == ""
      modifies this
      ensures residual == "" && lines == NonEmpty(Split(Flatten(chunks)))
    {
      hide Split, NonEmpty, Lines, Residue, Flatten;
      lines := [];
      assert chunks[..0] == [];
      StartOfStream();
      for i := 0 to |chunks|
        invariant residual == Residue(Flatten(chunks[..i]))
        invariant lines == NonEmpty(Lines(Flatten(chunks[..i])))
      {
        ghost var before, was := Flatten(chunks[..i]), residual;
        var more := Push(chunks[i]);
        lines := lines + more;
        assert chunks[..i + 1] == chunks[..i] + [chunks[i]];
        FlattenSnoc(chunks[..i], chunks[i]);
        LinesAppend(before, chunks[i]);
        NonEmptyAppend(Lines(before), Lines(was + chunks[i]));
      }
      assert chunks[..|chunks|] == chunks;
      var rest := Flush();
      lines := lines + rest;
      ghost var all := Flatten(chunks);
      SplitIsLines(all);
      NonEmptyAppend(Front(Split(all)), [Last(Split(all))]);
      assert Front(Split(all)) + [Last(Split(all))] == Split(all);
    }
  }

  lemma StartOfStream()
    ensures Flatten<char>([]) == "" && Residue("") == "" && NonEmpty(Lines("")) == []
  {
  }

  lemma {:induction false} NonEmptyAppend(a: seq<string>, b: seq<string>)
    ensures NonEmpty(a + b) == NonEmpty(a) + NonEmpty(b)
  {
    if a == [] {
      assert a + b == b;
    } else {
      assert (a + b)[0] == a[0] && (a + b)[1..] == a[1..] + b;
      NonEmptyAppend(a[1..], b);
    }
  }

  lemma NonEmptyCons(x: string, rest: seq<string>)
    ensures NonEmpty([x] + rest) == (if |x| > 0 then [x] else []) + NonEmpty(rest)
  {
    assert ([x] + rest)[1..] == rest;
  }

  /** The two splitters leave the same unfinished line and, apart from empty lines, the same lines. */
  lemma {:induction false} SplitIsLines(s: string)
    ensures Last(Split(s)) == Residue(s) && NonEmpty(Front(Split(s))) == NonEmpty(Lines(s))
    decreases |s|
  {
    hide FirstBreak, NonEmpty;
    var e := FirstBreak(s);
    if e == |s| {
      assert Front(Split(s)) == [];
    } else {
      var pair := s[e] == '\r' && e + 1 < |s| && s[e + 1] == '\n';
      var next := if pair then e + 2 else e + 1;
      var rest := Split(s[next..]);
      SplitIsLines(s[next..]);
      assert Front([s[..e]] + rest) == [s[..e]] + Front(rest);
      NonEmptyCons(s[..e], Front(rest));
      NonEmptyCons(s[..e], Lines(s[e + 1..]));
      if pair { FeedAlone(s, e); }
    }
  }

  lemma FeedAlone(s: string, e: nat)
    requires e + 1 < |s| && s[e + 1] == '\n'
    ensures NonEmpty(Lines(s[e + 1..])) == NonEmpty(Lines(s[e + 2..])) && Residue(s[e + 1..]) == Residue(s[e + 2..])
  {
    hide NonEmpty;
    var u := s[e + 1..];
    assert FirstBreak(u) == 0 by { assert u[0] == '\n'; }
    assert u[..0] == "" && u[1..] == s[e + 2..];
    NonEmptyCons("", Lines(s[e + 2..]));
    assert [] + NonEmpty(Lines(s[e + 2..])) == NonEmpty(Lines(s[e + 2..]));
  }

  /** Terminated lines come out as from the command-line tool's splitter; the last line as well if it has text. */
  lemma AgreesWithSink(s: string)
    ensures NonEmpty(Split(s)) == NonEmpty(Lines(s)) + NonEmpty([Residue(s)])
  {
    hide Split, NonEmpty, Lines, Residue;
    SplitIsLines(s);
    NonEmptyAppend(Front(Split(s)), [Last(Split(s))]);
    assert Front(Split(s)) + [Last(Split(s))] == Split(s);
  }
}
