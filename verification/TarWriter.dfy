/**
 The ustar writer: a 512-byte header written in place, its checksum, the padded contents and the
 closing zero blocks; and a reader of the ustar interchange format that undoes it.
 */
module TarWriter {
  import opened Numerals
  import opened Text
  import opened Wrappers

  const BLOCK: nat := 512
  const NUL: Octet := 0 as char

  type Bytes = seq<Octet>

  /** A regular file; the last nine bits of `mode` are its permissions. */
  datatype Entry = Entry(name: Bytes, mode: nat, content: Bytes)

  datatype TarError = PathTooLong(name: Bytes)

  // ----- Octal fields -----

  function Digits(n: nat): (d: Bytes)
    ensures d == NumText(n, 8)
  {
    NumText(n, 8)
  }

  function Padded(n: nat, width: nat): Bytes {
    var d := Digits(n);
    if |d| < width then Repeat('0', width - |d|) + d else d
  }

  /** What snprintf keeps of a number padded to the field, without the terminator. */
  function Fitted(n: nat, width: nat): (f: Bytes)
    ensures |f| == width
  {
    Padded(n, width)[..width]
  }

  function OctalField(size: nat, n: nat): (f: Bytes)
    requires size > 0
    ensures |f| == size
  {
    Fitted(n, size - 1) + [NUL]
  }

  function ChecksumField(sum: nat): (f: Bytes)
    ensures |f| == 8
  {
    Fitted(sum, 6) + [NUL, ' ']
  }

  function PowerOf8(k: nat): (p: nat)
    ensures p > 0
  {
    if k == 0 then 1 else 8 * PowerOf8(k - 1)
  }

  lemma {:induction false} DigitCount(n: nat, k: nat)
    requires k > 0
    ensures |NumText(n, 8)| <= k <==> n < PowerOf8(k)
    decreases k
  {
    if n < 8 {
      PowerAtLeast8(k);
    } else if k == 1 {
      assert PowerOf8(1) == 8 * PowerOf8(0);
      assert |NumText(n / 8, 8)| >= 1;
    } else {
      DigitCount(n / 8, k - 1);
    }
  }

  lemma {:induction false} PowerAtLeast8(k: nat)
    requires k > 0
    ensures PowerOf8(k) >= 8
  {
    if k > 1 { PowerAtLeast8(k - 1); }
  }

  lemma {:induction false} ValueOfZeros(k: nat, d: string)
    ensures Value(Repeat('0', k) + d, 8) == Value(d, 8)
    decreases |d| + k
  {
    var s := Repeat('0', k) + d;
    if d != "" {
      assert s[..|s| - 1] == Repeat('0', k) + d[..|d| - 1];
      ValueOfZeros(k, d[..|d| - 1]);
    } else if k > 0 {
      assert s == Repeat('0', k);
      assert s[..k - 1] == Repeat('0', k - 1) + "";
      ValueOfZeros(k - 1, "");
    } else {
      assert s == "";
    }
  }

  lemma {:induction false} ValueBelow(s: string)
    requires AllDigits(s, 8)
    ensures Value(s, 8) < PowerOf8(|s|)
  {
    if s != "" { ValueBelow(s[..|s| - 1]); }
  }

  lemma FittedDigits(n: nat, width: nat)
    ensures AllDigits(Fitted(n, width), 8)
  {
  }

  /** A field of `width` digits holds exactly the numbers below 8 to that power. */
  lemma FittedReadsBack(n: nat, width: nat)
    requires width > 0
    ensures Value(Fitted(n, width), 8) == n <==> n < PowerOf8(width)
  {
    hide Value, PowerOf8, NumText;
    DigitCount(n, width);
    var d := Digits(n);
    if |d| <= width {
      ValueOfNumText(n, 8);
      ValueOfZeros(width - |d|, d);
      assert Repeat('0', 0) + d == d;
      assert Fitted(n, width) == Repeat('0', width - |d|) + d;
    } else {
      FittedDigits(n, width);
      ValueBelow(Fitted(n, width));
    }
  }

  /** A reader takes the octal digits up to the terminator. */
  function ReadOctal(f: string): nat { Value(DigitPrefix(f, 8), 8) }

  lemma ReadFitted(n: nat, width: nat, rest: string)
    requires rest == "" || !IsDigit(rest[0], 8)
    ensures ReadOctal(Fitted(n, width) + rest) == Value(Fitted(n, width), 8)
  {
    FittedDigits(n, width);
    hide Fitted;
    DigitPrefixIs(Fitted(n, width), rest, 8);
  }

  lemma OctalReadsBack(size: nat, n: nat)
    requires size > 1
    ensures ReadOctal(OctalField(size, n)) == n <==> n < PowerOf8(size - 1)
  {
    hide Fitted, Value, PowerOf8;
    ReadFitted(n, size - 1, [NUL]);
    FittedReadsBack(n, size - 1);
  }

  // ----- The header -----

  function Overwritten(h: Bytes, at: nat, x: Bytes): (r: Bytes)
    requires at + |x| <= |h|
    ensures |r| == |h|
  {
    h[..at] + x + h[at + |x|..]
  }

  function Zeros(n: nat): (z: Bytes)
    ensures |z| == n
  {
    Repeat(NUL, n)
  }

  function Sum(h: Bytes): nat { if h == [] then 0 else Sum(h[..|h| - 1]) + h[|h| - 1] as int }

  datatype Part = Part(at: nat, bytes: Bytes)

  /** The parts lie one after the other within the header. */
  predicate InOrder(parts: seq<Part>, from: nat) {
    if parts == [] then from <= BLOCK
    else from <= parts[0].at && InOrder(parts[1..], parts[0].at + |parts[0].bytes|)
  }

  lemma {:induction false} OrderBound(parts: seq<Part>, from: nat)
    requires InOrder(parts, from)
    ensures from <= BLOCK && (parts != [] ==> parts[0].at + |parts[0].bytes| <= BLOCK)
  {
    if parts != [] { OrderBound(parts[1..], parts[0].at + |parts[0].bytes|); }
  }

  /** A header with the parts written into it. */
  function Laid(h: Bytes, parts: seq<Part>, from: nat): (r: Bytes)
    requires |h| == BLOCK && InOrder(parts, from)
    ensures |r| == BLOCK
    decreases |parts|
  {
    if parts == [] then h
    else
      OrderBound(parts, from);
      Laid(Overwritten(h, parts[0].at, parts[0].bytes), parts[1..], parts[0].at + |parts[0].bytes|)
  }

  function NameField(name: Bytes): (f: Bytes)
    requires |name| < 100
    ensures |f| == 100
  {
    name + Zeros(100 - |name|)
  }

  const USTAR: Bytes := "ustar" + [NUL]

  function Parts(e: Entry): seq<Part>
    requires |e.name| < 100
  {
    [Part(0, NameField(e.name)), Part(100, OctalField(8, e.mode % 512)), Part(108, OctalField(8, 0)),
     Part(116, OctalField(8, 0)), Part(124, OctalField(12, |e.content|)), Part(136, OctalField(12, 0)),
     Part(148, Repeat(' ', 8)), Part(156, "0"), Part(257, USTAR), Part(263, "00")]
  }

  lemma LastPartsInOrder(e: Entry)
    requires |e.name| < 100
    ensures forall from: nat :: from <= 136 ==> InOrder(Parts(e)[5..], from)
  {
    var p := Parts(e);
    hide NameField, OctalField, InOrder;
    NoPartsInOrder(265);
    assert p[10..] == [];
    InOrderFrom(p, 9);
    InOrderFrom(p, 8);
    InOrderFrom(p, 7);
    InOrderFrom(p, 6);
    InOrderFrom(p, 5);
  }

  lemma NoPartsInOrder(from: nat)
    requires from <= BLOCK
    ensures InOrder([], from)
  {
  }

  lemma PartsInOrder(e: Entry)
    requires |e.name| < 100
    ensures InOrder(Parts(e), 0)
  {
    var p := Parts(e);
    LastPartsInOrder(e);
    hide NameField, OctalField, InOrder;
    InOrderFrom(p, 4);
    InOrderFrom(p, 3);
    InOrderFrom(p, 2);
    InOrderFrom(p, 1);
    InOrderFrom(p, 0);
    assert p[0..] == p;
  }

  lemma InOrderFrom(p: seq<Part>, i: nat)
    requires i < |p| && InOrder(p[i + 1..], p[i].at + |p[i].bytes|)
    ensures forall from: nat :: from <= p[i].at ==> InOrder(p[i..], from)
  {
    assert p[i..][1..] == p[i + 1..];
  }

  lemma {:induction false} LaidKeeps(h: Bytes, parts: seq<Part>, from: nat, i: nat, j: nat)
    requires |h| == BLOCK && InOrder(parts, from) && i <= j <= from
    ensures j <= BLOCK && Laid(h, parts, from)[i..j] == h[i..j]
    decreases |parts|
  {
    OrderBound(parts, from);
    if parts != [] {
      var h' := Overwritten(h, parts[0].at, parts[0].bytes);
      LaidKeeps(h', parts[1..], parts[0].at + |parts[0].bytes|, i, j);
      assert h'[i..j] == h[i..j];
    }
  }

  /** Each part can be read where it was put. */
  lemma {:induction false} LaidReads(h: Bytes, parts: seq<Part>, from: nat, k: nat)
    requires |h| == BLOCK && InOrder(parts, from) && k < |parts|
    ensures var p := parts[k]; p.at + |p.bytes| <= BLOCK && Laid(h, parts, from)[p.at..p.at + |p.bytes|] == p.bytes
    decreases |parts|
  {
    OrderBound(parts, from);
    var p, next := parts[0], parts[0].at + |parts[0].bytes|;
    var h' := Overwritten(h, p.at, p.bytes);
    if k == 0 {
      LaidKeeps(h', parts[1..], next, p.at, next);
      OverwrittenReads(h, p.at, p.bytes);
    } else {
      LaidReads(h', parts[1..], next, k - 1);
    }
  }

  lemma OverwrittenReads(h: Bytes, at: nat, x: Bytes)
    requires at + |x| <= |h|
    ensures Overwritten(h, at, x)[at..at + |x|] == x
  {
  }

  lemma OverwrittenApart(h: Bytes, at: nat, x: Bytes, i: nat, j: nat)
    requires at + |x| <= |h| && i <= j <= |h| && (j <= at || at + |x| <= i)
    ensures Overwritten(h, at, x)[i..j] == h[i..j]
  {
  }

  /** The header with blanks where the checksum goes. */
  function Draft(e: Entry): (h: Bytes)
    requires |e.name| < 100
    ensures |h| == BLOCK
  {
    PartsInOrder(e);
    Laid(Zeros(BLOCK), Parts(e), 0)
  }

  function Header(e: Entry): (h: Bytes)
    requires |e.name| < 100
    ensures |h| == BLOCK
  {
    Overwritten(Draft(e), 148, ChecksumField(Sum(Draft(e))))
  }

  lemma {:induction false} SumBound(h: Bytes)
    ensures Sum(h) <= 255 * |h|
  {
    if h != [] { SumBound(h[..|h| - 1]); }
  }

  lemma SixDigits()
    ensures PowerOf8(6) == 262144
  {
    assert PowerOf8(1) == 8;
    assert PowerOf8(2) == 64;
    assert PowerOf8(3) == 512;
    assert PowerOf8(4) == 4096;
    assert PowerOf8(5) == 32768;
  }

  /** The checksum of any header fits its six octal digits. */
  lemma ChecksumFits(h: Bytes)
    requires |h| == BLOCK
    ensures Sum(h) < PowerOf8(6) && ReadOctal(ChecksumField(Sum(h))) == Sum(h)
  {
    hide Sum, PowerOf8, Fitted, Value;
    SumBound(h);
    SixDigits();
    ReadFitted(Sum(h), 6, [NUL, ' ']);
    FittedReadsBack(Sum(h), 6);
  }

  // ----- The archive -----

  function PadLength(n: nat): nat { (BLOCK - n % BLOCK) % BLOCK }

  function Member(e: Entry): Bytes
    requires |e.name| < 100
  {
    Header(e) + e.content + Zeros(PadLength(|e.content|))
  }

  function Members(entries: seq<Entry>): Result<Bytes, TarError> {
    if entries == [] then Ok([])
    else
      var e := entries[|entries| - 1];
      var before := Members(entries[..|entries| - 1]);
      if before.Err? then before
      else if |e.name| >= 100 then Err(PathTooLong(e.name))
      else Ok(before.value + Member(e))
  }

  function Archive(entries: seq<Entry>): Result<Bytes, TarError> {
    var m := Members(entries);
    if m.Err? then m else Ok(m.value + Zeros(2 * BLOCK))
  }

  // ----- The writer -----

  method CopyTo(header: array<Octet>, at: nat, x: Bytes)
    requires at + |x| <= header.Length
    modifies header
    ensures header[..] == Overwritten(old(header[..]), at, x)
  {
    ghost var before := header[..];
    for i := 0 to |x|
      invariant header[..] == Overwritten(before, at, x[..i])
    {
      header[at + i] := x[i];
      OverwriteNext(before, at, x, i);
    }
    assert x[..|x|] == x;
  }

  lemma OverwriteNext(h: Bytes, at: nat, x: Bytes, i: nat)
    requires i < |x| && at + |x| <= |h|
    ensures Overwritten(h, at, x[..i])[at + i := x[i]] == Overwritten(h, at, x[..i + 1])
    ensures i == 0 ==> Overwritten(h, at, x[..i]) == h
  {
  }

  method WriteOctalField(header: array<Octet>, at: nat, size: nat, value: nat)
    requires size > 0 && at + size <= header.Length
    modifies header
    ensures header[..] == Overwritten(old(header[..]), at, OctalField(size, value))
  {
    var field := OctalField(size, value);
    CopyTo(header, at, field);
  }

  method Checksum(header: array<Octet>) returns (sum: nat)
    ensures sum == Sum(header[..])
  {
    sum := 0;
    for i := 0 to header.Length
      invariant sum == Sum(header[..i])
    {
      sum := sum + header[i] as int;
      assert header[..i + 1][..i] == header[..i];
    }
    assert header[..header.Length] == header[..];
  }

  /** The parts in the order they are written, the name without its padding. */
  lemma LaidStep(h: Bytes, parts: seq<Part>, from: nat)
    requires |h| == BLOCK && InOrder(parts, from) && parts != []
    ensures parts[0].at + |parts[0].bytes| <= BLOCK
    ensures InOrder(parts[1..], parts[0].at + |parts[0].bytes|)
    ensures Laid(h, parts, from)
         == Laid(Overwritten(h, parts[0].at, parts[0].bytes), parts[1..], parts[0].at + |parts[0].bytes|)
  {
    OrderBound(parts, from);
  }

  lemma NamePadding(name: Bytes)
    requires |name| < 100
    ensures Overwritten(Zeros(BLOCK), 0, name) == Overwritten(Zeros(BLOCK), 0, NameField(name))
  {
  }

  method MakeHeader(e: Entry) returns (r: Result<Bytes, TarError>)
    ensures r == if |e.name| >= 100 then Err(PathTooLong(e.name)) else Ok(Header(e))
  {
    hide OctalField, ChecksumField, Overwritten, Sum, Laid, InOrder, Zeros, NameField;
    if |e.name| >= 100 { return Err(PathTooLong(e.name)); }
    var header := new Octet[BLOCK](_ => NUL);
    AllZeros(header[..]);
    PartsInOrder(e);
    CopyTo(header, 0, e.name);
    NamePadding(e.name);
    WriteRest(header, e);
    var sum := Checksum(header);
    CopyTo(header, 148, ChecksumField(sum));
    r := Ok(header[..]);
  }

  lemma AllZeros(h: Bytes)
    requires forall i :: 0 <= i < |h| ==> h[i] == NUL
    ensures h == Zeros(|h|)
  {
  }

  /** The parts from the k-th on, as the header is being filled. */
  ghost predicate Remaining(h: Bytes, e: Entry, k: nat, from: nat)
    requires |e.name| < 100
  {
    |h| == BLOCK && k <= |Parts(e)| && InOrder(Parts(e)[k..], from) && Laid(h, Parts(e)[k..], from) == Draft(e)
  }

  lemma NextPart(h: Bytes, e: Entry, k: nat, from: nat)
    requires |e.name| < 100 && Remaining(h, e, k, from) && k < |Parts(e)|
    ensures var p := Parts(e)[k];
            p.at + |p.bytes| <= BLOCK && Remaining(Overwritten(h, p.at, p.bytes), e, k + 1, p.at + |p.bytes|)
  {
    hide Parts, Draft, Overwritten, Laid;
    LaidStep(h, Parts(e)[k..], from);
    assert Parts(e)[k..][1..] == Parts(e)[k + 1..];
  }

  method WriteRest(header: array<Octet>, e: Entry)
    requires |e.name| < 100 && header.Length == BLOCK
    requires header[..] == Overwritten(Zeros(BLOCK), 0, NameField(e.name))
    modifies header
    ensures header[..] == Draft(e)
  {
    hide OctalField, Overwritten, Laid, InOrder, Zeros, NameField, Draft, Remaining;
    RemainingAtStart(e);
    NextPart(Zeros(BLOCK), e, 0, 0);
    NextPart(header[..], e, 1, 100);
    WriteOctalField(header, 100, 8, e.mode % 512);
    NextPart(header[..], e, 2, 108);
    WriteOctalField(header, 108, 8, 0);
    NextPart(header[..], e, 3, 116);
    WriteOctalField(header, 116, 8, 0);
    NextPart(header[..], e, 4, 124);
    WriteOctalField(header, 124, 12, |e.content|);
    NextPart(header[..], e, 5, 136);
    WriteOctalField(header, 136, 12, 0);
    NextPart(header[..], e, 6, 148);
    CopyTo(header, 148, Repeat(' ', 8));
    NextPart(header[..], e, 7, 156);
    CopyTo(header, 156, "0");
    NextPart(header[..], e, 8, 157);
    CopyTo(header, 257, USTAR);
    NextPart(header[..], e, 9, 263);
    CopyTo(header, 263, "00");
    RemainingAtEnd(header[..], e, 265);
  }

  lemma RemainingAtStart(e: Entry)
    requires |e.name| < 100
    ensures Remaining(Zeros(BLOCK), e, 0, 0)
  {
    PartsInOrder(e);
    hide Parts, Laid;
    assert Parts(e)[0..] == Parts(e);
    assert |Parts(e)| >= 0;
  }

  lemma RemainingAtEnd(h: Bytes, e: Entry, from: nat)
    requires |e.name| < 100 && Remaining(h, e, 10, from)
    ensures h == Draft(e)
  {
    assert Parts(e)[10..] == [];
  }

  method AppendPadded(tar: Bytes, content: Bytes) returns (r: Bytes)
    ensures r == tar + content + Zeros(PadLength(|content|))
  {
    r := tar + content;
    var pad := (BLOCK - |content| % BLOCK) % BLOCK;
    r := r + Zeros(pad);
  }

  method CreateTar(entries: seq<Entry>) returns (r: Result<Bytes, TarError>)
    ensures r == Archive(entries)
  {
    hide Header, Zeros;
    var tar: Bytes := [];
    assert entries[..0] == [];
    for i := 0 to |entries|
      invariant Members(entries[..i]) == Ok(tar)
    {
      assert entries[..i + 1][..i] == entries[..i];
      var header := MakeHeader(entries[i]);
      if header.Err? {
        FirstFailure(entries, i + 1);
        return header;
      }
      ghost var before := tar;
      tar := tar + header.value;
      tar := AppendPadded(tar, entries[i].content);
      ThreeMore(before, header.value, entries[i].content, Zeros(PadLength(|entries[i].content|)));
    }
    assert entries[..|entries|] == entries;
    r := Ok(tar + Zeros(2 * BLOCK));
  }

  lemma ThreeMore(a: Bytes, b: Bytes, c: Bytes, d: Bytes)
    ensures a + b + c + d == a + (b + c + d)
  {
  }

  lemma {:induction false} FirstFailure(entries: seq<Entry>, n: nat)
    requires n <= |entries| && Members(entries[..n]).Err?
    ensures Members(entries) == Members(entries[..n])
    decreases |entries| - n
  {
    hide Member;
    if n < |entries| {
      assert entries[..n + 1][..n] == entries[..n];
      FirstFailure(entries, n + 1);
    } else {
      assert entries[..n] == entries;
    }
  }

  // ----- The reader -----

  datatype Head = Head(name: Bytes, mode: nat, size: nat)

  function ReadName(f: Bytes): Bytes { f[..FirstIndex(f, (c: char) => c == NUL, 0)] }

  /** A header with the right magic, type and checksum. */
  function ReadHeader(h: Bytes): Option<Head>
    requires |h| == BLOCK
  {
    if h[257..263] != USTAR || (h[156] != '0' && h[156] != NUL) then None
    else if ReadOctal(h[148..156]) != Sum(Overwritten(h, 148, Repeat(' ', 8))) then None
    else Some(Head(ReadName(h[0..100]), ReadOctal(h[100..108]), ReadOctal(h[124..136])))
  }

  function Cons(e: Entry, rest: Option<seq<Entry>>): Option<seq<Entry>> {
    if rest.None? then None else Some([e] + rest.value)
  }

  /** A zero block ends the archive. */
  function ReadArchive(a: Bytes): Option<seq<Entry>>
    decreases |a|
  {
    if |a| < BLOCK then None
    else if a[..BLOCK] == Zeros(BLOCK) then Some([])
    else
      var h := ReadHeader(a[..BLOCK]);
      if h.None? || BLOCK + h.value.size + PadLength(h.value.size) > |a| then None
      else
        var size, next := h.value.size, BLOCK + h.value.size + PadLength(h.value.size);
        Cons(Entry(h.value.name, h.value.mode, a[BLOCK..BLOCK + size]), ReadArchive(a[next..]))
  }

  // ----- Reading what was written -----

  lemma DraftReads(e: Entry, k: nat)
    requires |e.name| < 100 && k < |Parts(e)|
    ensures var p := Parts(e)[k]; p.at + |p.bytes| <= BLOCK && Draft(e)[p.at..p.at + |p.bytes|] == p.bytes
  {
    PartsInOrder(e);
    hide Parts;
    LaidReads(Zeros(BLOCK), Parts(e), 0, k);
  }

  lemma DraftFields(e: Entry)
    requires |e.name| < 100
    ensures Draft(e)[0..100] == NameField(e.name)
    ensures Draft(e)[100..108] == OctalField(8, e.mode % 512)
    ensures Draft(e)[124..136] == OctalField(12, |e.content|)
    ensures Draft(e)[148..156] == Repeat(' ', 8)
    ensures Draft(e)[156] == '0' && Draft(e)[257..263] == USTAR
  {
    hide Draft, OctalField, NameField;
    DraftReads(e, 0);
    DraftReads(e, 1);
    DraftReads(e, 4);
    DraftReads(e, 6);
    DraftReads(e, 7);
    assert Draft(e)[156] == Draft(e)[156..157][0];
    DraftReads(e, 8);
  }

  lemma HeaderFields(e: Entry)
    requires |e.name| < 100
    ensures var h := Header(e);
            && h[0..100] == NameField(e.name) && h[100..108] == OctalField(8, e.mode % 512)
            && h[124..136] == OctalField(12, |e.content|) && h[156] == '0' && h[257..263] == USTAR
            && h[148..156] == ChecksumField(Sum(Draft(e)))
            && Overwritten(h, 148, Repeat(' ', 8)) == Draft(e)
  {
    DraftFields(e);
    hide Draft, OctalField, NameField, ChecksumField, Sum, Overwritten;
    var d, c := Draft(e), ChecksumField(Sum(Draft(e)));
    OverwrittenApart(d, 148, c, 0, 100);
    OverwrittenApart(d, 148, c, 100, 108);
    OverwrittenApart(d, 148, c, 124, 136);
    OverwrittenApart(d, 148, c, 156, 157);
    OverwrittenApart(d, 148, c, 257, 263);
    assert Header(e)[156] == Header(e)[156..157][0] && d[156] == d[156..157][0];
    OverwrittenReads(d, 148, c);
    OverwrittenTwice(d, 148, c, Repeat(' ', 8));
  }

  lemma OverwrittenTwice(h: Bytes, at: nat, x: Bytes, y: Bytes)
    requires |x| == |y| && at + |x| <= |h|
    ensures h[at..at + |y|] == y ==> Overwritten(Overwritten(h, at, x), at, y) == h
  {
    if h[at..at + |y|] == y {
      var r := Overwritten(Overwritten(h, at, x), at, y);
      assert h == h[..at] + h[at..at + |y|] + h[at + |y|..];
      assert r == h[..at] + y + h[at + |y|..];
    }
  }

  /** The name comes back exactly when it holds no zero byte. */
  lemma NameReadsBack(name: Bytes)
    requires |name| < 100
    ensures ReadName(NameField(name)) == name <==> NUL !in name
  {
    var f := NameField(name);
    var i := FirstIndex(f, (c: char) => c == NUL, 0);
    assert f[|name|] == NUL;
    assert i <= |name| && f[..i] == name[..i];
    if i < |name| {
      assert name[i] == f[i] == NUL;
    } else {
      assert name[..|name|] == name;
      forall k | 0 <= k < |name| ensures name[k] != NUL { assert f[k] == name[k]; }
    }
  }

  lemma PowerMonotone(k: nat)
    ensures PowerOf8(k) <= PowerOf8(k + 1)
  {
  }

  /** Every header is accepted, with its checksum, and no header is a zero block. */
  lemma HeaderReads(e: Entry)
    requires |e.name| < 100
    ensures Header(e) != Zeros(BLOCK)
    ensures ReadHeader(Header(e))
         == Some(Head(ReadName(NameField(e.name)), e.mode % 512, ReadOctal(OctalField(12, |e.content|))))
  {
    HeaderFields(e);
    hide Draft, OctalField, NameField, ChecksumField, Sum, Overwritten, Header, PowerOf8, ReadOctal, ReadName;
    ChecksumFits(Draft(e));
    SixDigits();
    PowerMonotone(6);
    OctalReadsBack(8, e.mode % 512);
    NotZero(Header(e));
  }

  lemma NotZero(h: Bytes)
    requires |h| == BLOCK && h[156] == '0'
    ensures h != Zeros(BLOCK)
  {
    assert Zeros(BLOCK)[156] == NUL;
  }

  /** Names without zero bytes, and sizes the eleven digits can hold. */
  predicate Representable(e: Entry) { NUL !in e.name && |e.content| < PowerOf8(11) }

  function Recorded(e: Entry): Entry { e.(mode := e.mode % 512) }

  function AllRecorded(entries: seq<Entry>): seq<Entry> {
    if entries == [] then [] else [Recorded(entries[0])] + AllRecorded(entries[1..])
  }

  /** The first member: read as it was if representable, otherwise as something else or not at all. */
  lemma ReadMember(e: Entry, rest: Bytes)
    requires |e.name| < 100
    ensures Representable(e) ==> ReadArchive(Member(e) + rest) == Cons(Recorded(e), ReadArchive(rest))
    ensures !Representable(e) ==>
              var r := ReadArchive(Member(e) + rest);
              r.Some? ==> r.value != [] && r.value[0] != Recorded(e)
  {
    hide Header, ReadHeader, PowerOf8, NameField, ReadName, OctalField, ReadOctal, Zeros;
    var h, pad := Header(e), Zeros(PadLength(|e.content|));
    var a := Member(e) + rest;
    HeaderReads(e);
    NameReadsBack(e.name);
    OctalReadsBack(12, |e.content|);
    MemberSlices(h, e.content, pad, rest);
  }

  lemma MemberSlices(h: Bytes, content: Bytes, pad: Bytes, rest: Bytes)
    requires |h| == BLOCK
    ensures var a := h + content + pad + rest;
            var next := BLOCK + |content| + |pad|;
            a[..BLOCK] == h && a[BLOCK..BLOCK + |content|] == content && a[next..] == rest
  {
  }

  lemma {:induction false} MembersCons(entries: seq<Entry>)
    requires entries != [] && Members(entries).Ok?
    ensures |entries[0].name| < 100 && Members(entries[1..]).Ok?
    ensures Members(entries).value == Member(entries[0]) + Members(entries[1..]).value
    decreases |entries|
  {
    hide Member;
    var n := |entries| - 1;
    if n == 0 {
      assert entries[..0] == [] && entries[1..] == [];
      assert [] + Member(entries[0]) == Member(entries[0]) == Member(entries[0]) + [];
    } else {
      MembersCons(entries[..n]);
      assert entries[1..][..n - 1] == entries[..n][1..] && entries[1..][n - 1] == entries[n];
      Assoc(Member(entries[0]), Members(entries[..n][1..]).value, Member(entries[n]));
    }
  }

  lemma EndOfArchive()
    ensures ReadArchive(Zeros(2 * BLOCK)) == Some([])
  {
    assert Zeros(2 * BLOCK)[..BLOCK] == Zeros(BLOCK);
  }

  lemma {:induction false} ReadMembers(entries: seq<Entry>)
    requires Members(entries).Ok?
    ensures ReadArchive(Members(entries).value + Zeros(2 * BLOCK)) == Some(AllRecorded(entries))
       <==> forall i :: 0 <= i < |entries| ==> Representable(entries[i])
    decreases |entries|
  {
    hide Member, ReadArchive, Representable, Zeros;
    var tail := Zeros(2 * BLOCK);
    if entries == [] {
      EndOfArchive();
      assert [] + tail == tail;
    } else {
      var e, rest := entries[0], entries[1..];
      MembersCons(entries);
      var m := Members(rest).value;
      Assoc(Member(e), m, tail);
      ReadMember(e, m + tail);
      ReadMembers(rest);
      assert AllRecorded(entries)[0] == Recorded(e) && AllRecorded(entries)[1..] == AllRecorded(rest);
      assert forall i :: 0 < i < |entries| ==> entries[i] == rest[i - 1];
      HeadsEqual(e, ReadArchive(m + tail), AllRecorded(rest));
    }
  }

  lemma HeadsEqual(e: Entry, r: Option<seq<Entry>>, rest: seq<Entry>)
    ensures Cons(Recorded(e), r) == Some([Recorded(e)] + rest) <==> r == Some(rest)
  {
    if r.Some? {
      assert ([Recorded(e)] + r.value)[1..] == r.value && ([Recorded(e)] + rest)[1..] == rest;
    }
  }

  /**
   Reading an archive gives back the names, permissions and contents, in order, exactly when no
   name holds a zero byte and every size fits eleven octal digits.
   */
  lemma RoundTripExactly(entries: seq<Entry>)
    requires Archive(entries).Ok?
    ensures ReadArchive(Archive(entries).value) == Some(AllRecorded(entries))
       <==> forall i :: 0 <= i < |entries| ==> Representable(entries[i])
  {
    hide ReadArchive, Representable, AllRecorded;
    ReadMembers(entries);
  }

  /** Archives are refused exactly for a name of 100 bytes or more. */
  lemma {:induction false} RefusedExactly(entries: seq<Entry>)
    ensures Archive(entries).Err? <==> exists i :: 0 <= i < |entries| && |entries[i].name| >= 100
    decreases |entries|
  {
    hide Member, Zeros;
    if entries != [] {
      var n := |entries| - 1;
      RefusedExactly(entries[..n]);
      assert forall i :: 0 <= i < n ==> entries[..n][i] == entries[i];
      if Members(entries[..n]).Err? {
        var i :| 0 <= i < n && |entries[..n][i].name| >= 100;
        assert |entries[i].name| >= 100;
      } else if |entries[n].name| >= 100 {
        assert Members(entries).Err?;
      }
    }
  }

  lemma WholeBlocks(n: nat)
    ensures (n + PadLength(n)) % BLOCK == 0
  {
  }

  /** Archives are made of whole blocks. */
  lemma {:induction false} LengthIsBlocks(entries: seq<Entry>)
    requires Archive(entries).Ok?
    ensures |Archive(entries).value| % BLOCK == 0
    decreases |entries|
  {
    hide Header;
    if entries != [] {
      var n := |entries| - 1;
      LengthIsBlocks(entries[..n]);
      WholeBlocks(|entries[n].content|);
    }
  }
}
