/**
 HTTP/1.1 responses read from a pipe that hands over the byte stream in arbitrary pieces.
 `pieces` is everything the pipe will deliver before it closes; positions count bytes of the
 whole stream. The specification functions say what the reader does at a position.
 */
module HttpResponse {
  import opened Wrappers
  import opened Numerals
  import opened Text

  const CRLF: string := "\r\n"
  const HEAD_END: string := "\r\n\r\n"
  const READ_SIZE: nat := 8192
  const MAX_HEADER_BYTES: nat := 1048576

  // ----- Where the pipe cuts the stream -----

  ghost predicate Pieces(pieces: seq<string>) {
    forall i :: 0 <= i < |pieces| ==> 0 < |pieces[i]| <= READ_SIZE
  }

  /** Stream position just before piece `k`. */
  function Offset(pieces: seq<string>, k: nat): nat
    requires k <= |pieces|
  {
    if k == 0 then 0 else Offset(pieces, k - 1) + |pieces[k - 1]|
  }

  /** End of the piece that holds the byte at `p`. */
  function EndAfter(pieces: seq<string>, p: nat): (e: nat)
    requires p < |Flatten(pieces)|
    ensures p < e <= |Flatten(pieces)|
  {
    if p < |pieces[0]| then |pieces[0]|
    else |pieces[0]| + EndAfter(pieces[1..], p - |pieces[0]|)
  }

  lemma {:induction false} OffsetFlatten(pieces: seq<string>, k: nat)
    requires k <= |pieces|
    ensures Offset(pieces, k) == |Flatten(pieces[..k])|
    ensures Flatten(pieces) == Flatten(pieces[..k]) + Flatten(pieces[k..])
  {
    if k > 0 {
      OffsetFlatten(pieces, k - 1);
      assert pieces[..k] == pieces[..k - 1] + [pieces[k - 1]];
      FlattenSnoc(pieces[..k - 1], pieces[k - 1]);
    }
    assert pieces == pieces[..k] + pieces[k..];
    FlattenAppend(pieces[..k], pieces[k..]);
  }

  /** Piece `k` is the stretch of the stream between its two offsets. */
  lemma PieceAt(pieces: seq<string>, k: nat)
    requires k < |pieces|
    ensures Offset(pieces, k + 1) <= |Flatten(pieces)|
    ensures Flatten(pieces)[Offset(pieces, k)..Offset(pieces, k + 1)] == pieces[k]
  {
    OffsetFlatten(pieces, k);
    OffsetFlatten(pieces, k + 1);
    assert pieces[..k + 1] == pieces[..k] + [pieces[k]];
    FlattenSnoc(pieces[..k], pieces[k]);
  }

  lemma AllOffset(pieces: seq<string>)
    ensures Offset(pieces, |pieces|) == |Flatten(pieces)|
  {
    OffsetFlatten(pieces, |pieces|);
    assert pieces[..|pieces|] == pieces;
  }

  lemma {:induction false} OffsetMonotone(pieces: seq<string>, j: nat, k: nat)
    requires j <= k <= |pieces|
    ensures Offset(pieces, j) <= Offset(pieces, k)
    decreases k
  {
    if j < k { OffsetMonotone(pieces, j, k - 1); }
  }

  lemma {:induction false} OffsetTail(pieces: seq<string>, k: nat)
    requires 0 < k <= |pieces|
    ensures Offset(pieces, k) == |pieces[0]| + Offset(pieces[1..], k - 1)
  {
    if k > 1 { OffsetTail(pieces, k - 1); }
  }

  lemma {:induction false} EndAfterIs(pieces: seq<string>, k: nat, p: nat)
    requires k < |pieces|
    requires Offset(pieces, k) <= p < Offset(pieces, k + 1)
    ensures p < |Flatten(pieces)| && EndAfter(pieces, p) == Offset(pieces, k + 1)
    decreases k
  {
    PieceAt(pieces, k);
    OffsetTail(pieces, k + 1);
    if k > 0 {
      OffsetTail(pieces, k);
      EndAfterIs(pieces[1..], k - 1, p - |pieces[0]|);
    }
  }

  lemma OccursWithin(s: string, pat: string, p: nat, e: nat, i: int)
    requires p <= e <= |s|
    ensures OccursAt(s[p..e], pat, i) <==> 0 <= i && p + i + |pat| <= e && OccursAt(s, pat, p + i)
  {
    if 0 <= i && p + i + |pat| <= e {
      SubSlice(s, p, e, i, i + |pat|);
    }
  }

  /** A search inside a stretch of the stream finds what a search of the stream finds there. */
  lemma FindWithin(s: string, pat: string, p: nat, e: nat)
    requires p <= e <= |s|
    ensures var r, q := Find(s[p..e], pat, 0), Find(s, pat, p);
            if q != -1 && q + |pat| <= e then r == q - p else r == -1
  {
    hide Find, OccursAt;
    var r, q := Find(s[p..e], pat, 0), Find(s, pat, p);
    OccursWithin(s, pat, p, e, r);
    OccursWithin(s, pat, p, e, q - p);
  }

  // ----- What reading at a position does -----

  datatype LineRead = Text(text: string) | Closed | Spins

  datatype LineStep = Line(text: string, next: nat) | LineClosed | LineSpins {
    function Seen(): LineRead {
      match this
      case Line(text, _) => Text(text)
      case LineClosed => Closed
      case LineSpins => Spins
    }
  }

  function ReadLineAt(pieces: seq<string>, p: nat): (r: LineStep)
    requires p <= |Flatten(pieces)|
    ensures r.Line? ==> p + 2 <= r.next <= |Flatten(pieces)| && r.text == Flatten(pieces)[p..r.next - 2]
  {
    var stream := Flatten(pieces);
    if p == |stream| then LineClosed
    else
      var q := Find(stream, CRLF, p);
      if q != -1 && q + 2 <= EndAfter(pieces, p) then Line(stream[p..q], q + 2) else LineSpins
  }

  datatype Ending = Complete | ClosedEarly | Malformed | Spinning

  /** The data handed to the callback, call by call, and how the body ended. */
  datatype Delivery = Delivery(data: seq<string>, end: Ending)

  function ChunkSize(sizeLine: string): Option<nat> {
    var semi := Find(sizeLine, ";", 0);
    ParseUnsigned(if semi == -1 then sizeLine else sizeLine[..semi], 16, TWO_TO_THE_64)
  }

  function Trailers(pieces: seq<string>, p: nat): Ending
    requires p <= |Flatten(pieces)|
    decreases |Flatten(pieces)| - p
  {
    match ReadLineAt(pieces, p)
    case LineClosed => ClosedEarly
    case LineSpins => Spinning
    case Line(text, next) => if text == "" then Complete else Trailers(pieces, next)
  }

  function Before(data: seq<string>, d: Delivery): Delivery { d.(data := data + d.data) }

  lemma BeforeStep(data: seq<string>, x: string, d: Delivery)
    ensures Before(data, Before([x], d)) == Before(data + [x], d)
  {
    assert data + ([x] + d.data) == data + [x] + d.data;
  }

  /** Section 7.1 of RFC 9112, as the reader carries it out from position `p`. */
  function Chunked(pieces: seq<string>, p: nat): Delivery
    requires p <= |Flatten(pieces)|
    decreases |Flatten(pieces)| - p
  {
    match ReadLineAt(pieces, p)
    case LineClosed => Delivery([], ClosedEarly)
    case LineSpins => Delivery([], Spinning)
    case Line(text, q) => ChunkAfter(pieces, q, ChunkSize(text))
  }

  function ChunkAfter(pieces: seq<string>, q: nat, size: Option<nat>): Delivery
    requires q <= |Flatten(pieces)|
    decreases |Flatten(pieces)| - q
  {
    var stream := Flatten(pieces);
    if size.None? then Delivery([], Malformed)
    else if size.value == 0 then Delivery([], Trailers(pieces, q))
    else if q + size.value > |stream| then Delivery([], ClosedEarly)
    else if q + size.value + 2 > |stream| then Delivery([stream[q..q + size.value]], ClosedEarly)
    else Before([stream[q..q + size.value]], Chunked(pieces, q + size.value + 2))
  }

  datatype Head = Head(status: int, chunked: bool, contentLength: Option<nat>)

  datatype HeadError = BadStatusLine | BadContentLength | HeadersTooLarge | ClosedBeforeHead

  function LowerChar(c: char): char {
    if 'A' <= c <= 'Z' then (c as nat + 32) as char else c
  }

  function Lower(s: string): (r: string)
    ensures |r| == |s|
  {
    seq(|s|, i requires 0 <= i < |s| => LowerChar(s[i]))
  }

  function DropBlanks(s: string): string {
    if s != "" && s[0] == ' ' then DropBlanks(s[1..]) else s
  }

  function ParseField(line: string, head: Head): Result<Head, HeadError> {
    var colon := Find(line, ":", 0);
    if colon == -1 then Ok(head)
    else
      var name, value := Lower(line[..colon]), DropBlanks(line[colon + 1..]);
      if name == "content-length" then
        match ParseUnsigned(value, 10, TWO_TO_THE_64)
        case None => Err(BadContentLength)
        case Some(n) => Ok(head.(contentLength := Some(n)))
      else if name == "transfer-encoding" && Find(Lower(value), "chunked", 0) != -1 then
        Ok(head.(chunked := true))
      else Ok(head)
  }

  function LineEnd(text: string, pos: nat): (nl: nat)
    requires pos <= |text|
    ensures pos <= nl <= |text|
  {
    var nl := Find(text, CRLF, pos);
    if nl == -1 then |text| else nl
  }

  function ParseFields(text: string, pos: nat, head: Head): Result<Head, HeadError>
    decreases |text| - pos
  {
    if pos >= |text| then Ok(head)
    else
      var nl := LineEnd(text, pos);
      match ParseField(text[pos..nl], head)
      case Err(e) => Err(e)
      case Ok(h) => ParseFields(text, nl + 2, h)
  }

  function ParseStatus(statusLine: string): Option<int> {
    var sp1 := Find(statusLine, " ", 0);
    if sp1 == -1 then Some(0)
    else
      var sp2 := Find(statusLine, " ", sp1 + 1);
      ParseSigned(if sp2 == -1 then statusLine[sp1 + 1..] else statusLine[sp1 + 1..sp2], 0x8000_0000)
  }

  /** The response head in the text before the blank line. */
  function ParseHead(text: string): Result<Head, HeadError> {
    var lineEnd := LineEnd(text, 0);
    match ParseStatus(text[..lineEnd])
    case None => Err(BadStatusLine)
    case Some(code) => ParseFields(text, lineEnd + 2, Head(code, false, None))
  }

  /**
   What reading the head comes to. The size limit is checked on whole reads, so what counts is where
   the read ends that brings the last byte of the blank line.
   */
  function HeadOutcome(pieces: seq<string>): Result<Head, HeadError> {
    var stream, h := Flatten(pieces), Find(Flatten(pieces), HEAD_END, 0);
    if h == -1 then Err(if |stream| > MAX_HEADER_BYTES then HeadersTooLarge else ClosedBeforeHead)
    else if EndAfter(pieces, h + 3) > MAX_HEADER_BYTES then Err(HeadersTooLarge)
    else ParseHead(stream[..h])
  }

  function FirstBytes(s: string, n: nat): string { if n < |s| then s[..n] else s }

  /** Sections 6.3 and 7.1 of RFC 9112: the bytes of a body that starts at `p`. */
  function BodyBytes(head: Head, pieces: seq<string>, p: nat): string
    requires p <= |Flatten(pieces)|
  {
    var rest := Flatten(pieces)[p..];
    if head.chunked then Flatten(Chunked(pieces, p).data)
    else if head.contentLength.Some? then FirstBytes(rest, head.contentLength.value)
    else rest
  }

  function BodyEnding(head: Head, pieces: seq<string>, p: nat): Ending
    requires p <= |Flatten(pieces)|
  {
    if head.chunked then Chunked(pieces, p).end else Complete
  }

  // ----- The reader -----

  class Connection {
    const pieces: seq<string>
    var next: nat
    var pending: string

    /** Bytes up to `p` are used up and `pending` holds the rest of what has been read. */
    ghost predicate At(p: nat)
      reads this
      ensures At(p) ==> p <= |Flatten(pieces)|
    {
      && Pieces(pieces)
      && 0 < next <= |pieces|
      && Offset(pieces, next) <= |Flatten(pieces)|
      && Offset(pieces, next - 1) <= p <= Offset(pieces, next)
      && pending == Flatten(pieces)[p..Offset(pieces, next)]
    }

    constructor (pieces: seq<string>)
      ensures this.pieces == pieces && next == 0 && pending == ""
    {
      this.pieces := pieces;
      next := 0;
      pending := "";
    }

    /** One read: the next piece, or false once the pipe has closed. */
    method ReadSome() returns (got: bool, out: string)
      requires next <= |pieces|
      modifies this`next
      ensures got == (old(next) < |pieces|)
      ensures got ==> out == pieces[old(next)] && next == old(next) + 1
      ensures !got ==> out == "" && next == old(next)
    {
      if next == |pieces| { return false, ""; }
      got, out := true, pieces[next];
      next := next + 1;
    }

    /** Reads up to the blank line that ends the head; what follows it is left pending. */
    method ReadResponseHead() returns (r: Result<Head, HeadError>, ghost p: nat)
      requires Pieces(pieces) && next == 0 && pending == ""
      modifies this
      ensures r == HeadOutcome(pieces)
      ensures r.Ok? ==> p == Find(Flatten(pieces), HEAD_END, 0) + 4 && At(p)
    {
      hide Find, Flatten, ParseHead, EndAfter, Offset;
      var buf := "";
      var headerEnd := Find(buf, HEAD_END, 0);
      p := 0;
      NothingRead(pieces);
      while headerEnd == -1
        invariant next <= |pieces| && Offset(pieces, next) <= |Flatten(pieces)|
        invariant buf == Flatten(pieces)[..Offset(pieces, next)]
        invariant |buf| <= MAX_HEADER_BYTES
        invariant headerEnd == Find(buf, HEAD_END, 0)
        invariant headerEnd != -1 ==>
                    && next > 0 && Offset(pieces, next - 1) <= headerEnd + 4 <= |buf|
                    && Find(Flatten(pieces), HEAD_END, 0) == headerEnd
                    && EndAfter(pieces, headerEnd + 3) == |buf|
        decreases |pieces| - next
      {
        NextPiece();
        HeadWithin(pieces, next);
        var got, chunk := ReadSome();
        if !got { return Err(ClosedBeforeHead), 0; }
        buf := buf + chunk;
        headerEnd := Find(buf, HEAD_END, 0);
        HeadWithin(pieces, next);
        if headerEnd != -1 { EndAfterIs(pieces, next - 1, headerEnd + 3); }
        if |buf| > MAX_HEADER_BYTES { return Err(HeadersTooLarge), 0; }
      }
      HeadSlices(Flatten(pieces), headerEnd, |buf|);
      p := headerEnd + 4;
      pending := buf[headerEnd + 4..];
      r := ParseHead(buf[..headerEnd]);
    }

    lemma NextPiece()
      requires Pieces(pieces) && next <= |pieces| && Offset(pieces, next) <= |Flatten(pieces)|
      ensures next == |pieces| ==> Offset(pieces, next) == |Flatten(pieces)|
      ensures next < |pieces| ==>
                && Offset(pieces, next) < Offset(pieces, next + 1) <= Offset(pieces, next) + READ_SIZE
                && Offset(pieces, next + 1) <= |Flatten(pieces)|
                && Flatten(pieces)[..Offset(pieces, next)] + pieces[next]
                   == Flatten(pieces)[..Offset(pieces, next + 1)]
    {
      hide Flatten;
      AllOffset(pieces);
      if next < |pieces| { PieceAt(pieces, next); }
    }

    method Refill(ghost p: nat) returns (got: bool)
      requires At(p)
      modifies this
      ensures At(p)
      ensures got <==> p < |Flatten(pieces)|
      ensures got ==> pending != ""
      ensures old(pending) != "" ==> pending == old(pending) && next == old(next)
    {
      if pending != "" { return true; }
      AllOffset(pieces);
      if next < |pieces| { PieceAt(pieces, next); }
      got, pending := ReadSome();
    }

    /** Exactly `n` bytes, or nothing usable when the pipe closes first. */
    method TakeBytes(ghost p: nat, n: nat) returns (ok: bool, out: string)
      requires At(p)
      modifies this
      ensures ok <==> p + n <= |Flatten(pieces)|
      ensures ok ==> At(p + n) && out == Flatten(pieces)[p..p + n]
    {
      hide Flatten, Offset;
      out := "";
      while |out| < n
        invariant |out| <= n && At(p + |out|)
        invariant out == Flatten(pieces)[p..p + |out|]
      {
        ghost var q := p + |out|;
        var got := Refill(q);
        if !got { return false, out; }
        var take := if n - |out| < |pending| then n - |out| else |pending|;
        TakeStep(Flatten(pieces), p, q, Offset(pieces, next), take);
        out := out + pending[..take];
        pending := pending[take..];
      }
      ok := true;
    }

    /** The piece `pending` belongs to ends where `pending` ends. */
    lemma PendingEnd(p: nat)
      requires At(p) && pending != ""
      ensures p < |Flatten(pieces)| && EndAfter(pieces, p) == Offset(pieces, next)
    {
      EndAfterIs(pieces, next - 1, p);
    }

    /** Spins stands for the loop that neither reads nor returns while a started line is not whole. */
    method ReadLine(ghost p: nat) returns (r: LineRead)
      requires At(p)
      modifies this
      ensures r == ReadLineAt(pieces, p).Seen()
      ensures r.Text? ==> At(ReadLineAt(pieces, p).next)
    {
      hide Find, Flatten, Offset, EndAfter;
      while true
        invariant At(p)
        decreases pending == ""
      {
        var nl := Find(pending, CRLF, 0);
        if pending != "" {
          PendingEnd(p);
          FindWithin(Flatten(pieces), CRLF, p, Offset(pieces, next));
        }
        if nl != -1 {
          r := Text(pending[..nl]);
          pending := pending[nl + 2..];
          return;
        }
        if pending != "" { return Spins; }
        var got := Refill(p);
        if !got { return Closed; }
      }
    }

    method ReadChunked(ghost p: nat) returns (data: seq<string>, end: Ending)
      requires At(p)
      modifies this
      ensures Delivery(data, end) == Chunked(pieces, p)
    {
      hide Find, OccursAt, Flatten, Offset, EndAfter, ReadLineAt, ParseUnsigned, ChunkSize, Trailers, At;
      data := [];
      ghost var q := p;
      while true
        invariant q <= |Flatten(pieces)| && At(q)
        invariant Chunked(pieces, p) == Before(data, Chunked(pieces, q))
        decreases |Flatten(pieces)| - q
      {
        var line := ReadLine(q);
        if line.Closed? { return data, ClosedEarly; }
        if line.Spins? { return data, Spinning; }
        q := ReadLineAt(pieces, q).next;
        var size := ChunkSize(line.text);
        assert Chunked(pieces, p) == Before(data, ChunkAfter(pieces, q, size));
        if size.None? { return data, Malformed; }
        if size.value == 0 {
          end := DrainTrailers(q);
          return data, end;
        }
        var chunk, more := ReadChunk(q, size.value);
        if !more { return data + chunk, ClosedEarly; }
        q := q + size.value + 2;
        BeforeStep(data, chunk[0], Chunked(pieces, q));
        data := data + chunk;
      }
    }

    /** One chunk's data and the line end after it; the data is handed on before the line end is read. */
    method ReadChunk(ghost p: nat, n: nat) returns (data: seq<string>, more: bool)
      requires At(p)
      modifies this
      ensures data == if p + n <= |Flatten(pieces)| then [Flatten(pieces)[p..p + n]] else []
      ensures more <==> p + n + 2 <= |Flatten(pieces)|
      ensures more ==> At(p + n + 2)
    {
      hide At, Flatten;
      var ok, chunk := TakeBytes(p, n);
      if !ok { return [], false; }
      data := [chunk];
      var skipped, lineEnd := TakeBytes(p + n, 2);
      more := skipped;
    }

    method DrainTrailers(ghost p: nat) returns (end: Ending)
      requires At(p)
      modifies this
      ensures end == Trailers(pieces, p)
    {
      hide Find, OccursAt, Flatten, Offset, EndAfter, ReadLineAt, At;
      ghost var q := p;
      while true
        invariant q <= |Flatten(pieces)| && At(q) && Trailers(pieces, p) == Trailers(pieces, q)
        decreases |Flatten(pieces)| - q
      {
        var line := ReadLine(q);
        if line.Closed? { return ClosedEarly; }
        if line.Spins? { return Spinning; }
        q := ReadLineAt(pieces, q).next;
        if line.text == "" { return Complete; }
      }
    }

    /** One read at a point where nothing is pending. */
    method ReadNext(ghost p: nat) returns (got: bool, chunk: string)
      requires At(p) && p == Offset(pieces, next)
      modifies this
      ensures got <==> p < |Flatten(pieces)|
      ensures got ==> chunk != "" && p + |chunk| <= |Flatten(pieces)| && chunk == Flatten(pieces)[p..p + |chunk|]
      ensures got ==> At(p + |chunk|) && p + |chunk| == Offset(pieces, next)
      ensures !got ==> At(p) && p == Offset(pieces, next)
    {
      hide Flatten;
      AllOffset(pieces);
      if next < |pieces| { PieceAt(pieces, next); }
      got, chunk := ReadSome();
      pending := "";
    }

    /** The branch for a Content-Length: at most that many bytes, fewer if the pipe closes first. */
    method DeliverLength(ghost p: nat, length: nat) returns (data: seq<string>)
      requires At(p)
      modifies this
      ensures Flatten(data) == FirstBytes(Flatten(pieces)[p..], length)
    {
      hide Flatten, Offset;
      var remaining := length;
      ghost var q := Offset(pieces, next);
      var take := if remaining < |pending| then remaining else |pending|;
      data := if take > 0 then [pending[..take]] else [];
      FlattenShort(pending[..take]);
      remaining := remaining - take;
      ghost var used := p + take;
      pending := "";
      var open := true;
      while remaining > 0 && open
        invariant used <= |Flatten(pieces)| && Flatten(data) == Flatten(pieces)[p..used]
        invariant 0 <= remaining == length - (used - p)
        invariant remaining > 0 ==> At(used) && used == Offset(pieces, next)
        invariant !open ==> used == |Flatten(pieces)|
        decreases |Flatten(pieces)| - used, open
      {
        var chunk;
        open, chunk := ReadNext(used);
        if open {
          take := if remaining < |chunk| then remaining else |chunk|;
          FlattenSnoc(data, chunk[..take]);
          JoinSlices(Flatten(pieces), p, used, used + take, chunk[..take]);
          data := data + [chunk[..take]];
          remaining := remaining - take;
          used := used + take;
        }
      }
      FirstBytesIs(Flatten(pieces), p, used, length);
    }

    /** The branch without framing: everything until the pipe closes. */
    method DeliverRest(ghost p: nat) returns (data: seq<string>)
      requires At(p)
      modifies this
      ensures Flatten(data) == Flatten(pieces)[p..]
    {
      hide Flatten, Offset;
      data := if pending != "" then [pending] else [];
      FlattenShort(pending);
      ghost var used := Offset(pieces, next);
      pending := "";
      var open := true;
      while open
        invariant p <= used <= |Flatten(pieces)| && Flatten(data) == Flatten(pieces)[p..used]
        invariant At(used) && used == Offset(pieces, next)
        invariant !open ==> used == |Flatten(pieces)|
        decreases |Flatten(pieces)| - used, open
      {
        var chunk;
        open, chunk := ReadNext(used);
        if open {
          FlattenSnoc(data, chunk);
          JoinSlices(Flatten(pieces), p, used, used + |chunk|, chunk);
          data := data + [chunk];
          used := used + |chunk|;
        }
      }
    }

    /** Hands the body to the callback; `data` lists the calls in order. */
    method DeliverBody(head: Head, ghost p: nat) returns (data: seq<string>, end: Ending)
      requires At(p)
      modifies this
      ensures Flatten(data) == BodyBytes(head, pieces, p)
      ensures end == BodyEnding(head, pieces, p)
      ensures head.chunked ==> data == Chunked(pieces, p).data
    {
      hide Flatten, Chunked, At;
      if head.chunked {
        data, end := ReadChunked(p);
      } else if head.contentLength.Some? {
        data := DeliverLength(p, head.contentLength.value);
        end := Complete;
      } else {
        data := DeliverRest(p);
        end := Complete;
      }
    }

    /** A whole response: the head, then the body handed on as its framing says. */
    method Receive() returns (r: Result<Head, HeadError>, data: seq<string>, end: Ending)
      requires Pieces(pieces) && next == 0 && pending == ""
      modifies this
      ensures r == HeadOutcome(pieces)
      ensures r.Err? ==> data == []
      ensures r.Ok? ==>
                var p := Find(Flatten(pieces), HEAD_END, 0) + 4;
                && 0 <= p <= |Flatten(pieces)|
                && Flatten(data) == BodyBytes(r.value, pieces, p)
                && end == BodyEnding(r.value, pieces, p)
    {
      hide At, HeadOutcome, Flatten, BodyBytes, BodyEnding;
      ghost var p;
      r, p := ReadResponseHead();
      if r.Err? { return r, [], ClosedEarly; }
      data, end := DeliverBody(r.value, p);
    }
  }

  lemma NothingRead(pieces: seq<string>)
    ensures Offset(pieces, 0) == 0 && Find("", HEAD_END, 0) == -1
  {
  }

  /** After `k` reads the blank line has been found exactly if it ends within them. */
  lemma HeadWithin(pieces: seq<string>, k: nat)
    requires k <= |pieces| && Offset(pieces, k) <= |Flatten(pieces)|
    ensures var h := Find(Flatten(pieces), HEAD_END, 0);
            Find(Flatten(pieces)[..Offset(pieces, k)], HEAD_END, 0)
            == if h != -1 && h + 4 <= Offset(pieces, k) then h else -1
  {
    hide Find, Flatten;
    var e := Offset(pieces, k);
    FindWithin(Flatten(pieces), HEAD_END, 0, e);
    assert Flatten(pieces)[0..e] == Flatten(pieces)[..e];
  }

  lemma HeadSlices(stream: string, h: nat, e: nat)
    requires h + 4 <= e <= |stream|
    ensures stream[..e][..h] == stream[..h] && stream[..e][h + 4..] == stream[h + 4..e]
  {
  }

  lemma FirstBytesIs(s: string, p: nat, used: nat, length: nat)
    requires p <= used <= |s| && (used == p + length || (used == |s| && used < p + length))
    ensures s[p..used] == FirstBytes(s[p..], length)
  {
  }

  lemma FlattenShort(x: string)
    ensures Flatten(if |x| > 0 then [x] else []) == x
  {
  }

  /** Moving the first bytes of what is pending to what has been taken. */
  lemma TakeStep(all: string, p: nat, q: nat, end: nat, take: nat)
    requires p <= q <= end <= |all| && take <= end - q
    ensures all[p..q] + all[q..end][..take] == all[p..q + take]
    ensures all[q..end][take..] == all[q + take..end]
  {
    SubSlice(all, q, end, 0, take);
    SubSlice(all, q, end, take, end - q);
    JoinSlices(all, p, q, q + take, all[q..q + take]);
  }

  lemma JoinSlices(s: string, i: nat, j: nat, k: nat, x: string)
    requires i <= j <= k <= |s| && x == s[j..k]
    ensures s[i..j] + x == s[i..k]
  {
  }

  // ----- The cuts matter only inside size and trailer lines -----

  /** The lines read from `p` on, as stretches of the stream, when the stream arrives in one piece. */
  function Lines(stream: string, p: nat): seq<(nat, nat)>
    requires p <= |stream|
    decreases |stream| - p
  {
    var q := Find(stream, CRLF, p);
    if p == |stream| || q == -1 then []
    else [(p, q + 2)] + LinesAfter(stream, q + 2, ChunkSize(stream[p..q]))
  }

  function LinesAfter(stream: string, q: nat, size: Option<nat>): seq<(nat, nat)>
    requires q <= |stream|
    decreases |stream| - q
  {
    if size.None? then []
    else if size.value == 0 then TrailerLines(stream, q)
    else if q + size.value + 2 > |stream| then []
    else Lines(stream, q + size.value + 2)
  }

  function TrailerLines(stream: string, p: nat): seq<(nat, nat)>
    requires p <= |stream|
    decreases |stream| - p
  {
    var q := Find(stream, CRLF, p);
    if p == |stream| || q == -1 then []
    else [(p, q + 2)] + if q == p then [] else TrailerLines(stream, q + 2)
  }

  /** No line runs over the end of the piece it starts in. */
  ghost predicate Whole(pieces: seq<string>, lines: seq<(nat, nat)>) {
    forall i :: 0 <= i < |lines| ==>
      lines[i].0 < |Flatten(pieces)| && lines[i].1 <= EndAfter(pieces, lines[i].0)
  }

  lemma WholeCons(pieces: seq<string>, x: (nat, nat), rest: seq<(nat, nat)>)
    ensures Whole(pieces, [x] + rest)
       <==> x.0 < |Flatten(pieces)| && x.1 <= EndAfter(pieces, x.0) && Whole(pieces, rest)
  {
    var lines := [x] + rest;
    if Whole(pieces, lines) {
      assert lines[0] == x;
      assert forall i :: 0 <= i < |rest| ==> rest[i] == lines[i + 1];
    }
  }

  lemma OnePiece(stream: string)
    ensures Flatten([stream]) == stream
    ensures forall p :: 0 <= p < |stream| ==> EndAfter([stream], p) == |stream|
  {
  }

  lemma LineDecided(pieces: seq<string>, p: nat)
    requires p <= |Flatten(pieces)|
    ensures Flatten([Flatten(pieces)]) == Flatten(pieces)
    ensures var stream, q := Flatten(pieces), Find(Flatten(pieces), CRLF, p);
            var whole := ReadLineAt([stream], p);
            && (p == |stream| ==> whole == LineClosed)
            && (p < |stream| && q == -1 ==> whole == LineSpins)
            && (p < |stream| && q != -1 ==> whole == Line(stream[p..q], q + 2))
            && (ReadLineAt(pieces, p) ==
                if whole.Line? && whole.next > EndAfter(pieces, p) then LineSpins else whole)
  {
    hide Flatten, Find, EndAfter;
    OnePiece(Flatten(pieces));
  }

  lemma {:induction false} TrailersDecided(pieces: seq<string>, p: nat)
    requires p <= |Flatten(pieces)|
    ensures Flatten([Flatten(pieces)]) == Flatten(pieces)
    ensures Trailers(pieces, p)
         == if Whole(pieces, TrailerLines(Flatten(pieces), p))
            then Trailers([Flatten(pieces)], p) else Spinning
    decreases |Flatten(pieces)| - p
  {
    hide Flatten, Find, EndAfter, ReadLineAt, Whole;
    var stream := Flatten(pieces);
    LineDecided(pieces, p);
    WholeNone(pieces);
    var q := Find(stream, CRLF, p);
    if p < |stream| && q != -1 {
      WholeCons(pieces, (p, q + 2), if q == p then [] else TrailerLines(stream, q + 2));
      TrailersDecided(pieces, q + 2);
    }
  }

  lemma WholeNone(pieces: seq<string>)
    ensures Whole(pieces, [])
  {
  }

  lemma {:induction false} ChunkedDecided(pieces: seq<string>, p: nat)
    requires p <= |Flatten(pieces)|
    ensures Flatten([Flatten(pieces)]) == Flatten(pieces)
    ensures if Whole(pieces, Lines(Flatten(pieces), p))
            then Chunked(pieces, p) == Chunked([Flatten(pieces)], p)
            else Chunked(pieces, p).end == Spinning
    ensures Chunked(pieces, p).data <= Chunked([Flatten(pieces)], p).data
    decreases |Flatten(pieces)| - p
  {
    hide Flatten, Find, EndAfter, ChunkSize, Trailers, TrailerLines, ReadLineAt, Whole;
    var stream := Flatten(pieces);
    LineDecided(pieces, p);
    WholeNone(pieces);
    var q := Find(stream, CRLF, p);
    if p < |stream| && q != -1 {
      var size := ChunkSize(stream[p..q]);
      WholeCons(pieces, (p, q + 2), LinesAfter(stream, q + 2, size));
      if size.Some? {
        if size.value == 0 {
          TrailersDecided(pieces, q + 2);
        } else if q + 2 + size.value + 2 <= |stream| {
          ChunkedDecided(pieces, q + 2 + size.value + 2);
        }
      }
    }
  }

  /** The cuts decide the fate only of a head that ends within one read of the limit. */
  lemma HeadIgnoresCuts(pieces: seq<string>)
    requires Pieces(pieces)
    ensures var h := Find(Flatten(pieces), HEAD_END, 0);
            && (h != -1 && h + 4 > MAX_HEADER_BYTES ==> HeadOutcome(pieces) == Err(HeadersTooLarge))
            && (h != -1 && h + 3 + READ_SIZE <= MAX_HEADER_BYTES ==>
                  HeadOutcome(pieces) == ParseHead(Flatten(pieces)[..h]))
  {
    hide Find, Flatten, ParseHead;
    var h := Find(Flatten(pieces), HEAD_END, 0);
    if h != -1 { EndAfterBound(pieces, h + 3); }
  }

  lemma {:induction false} EndAfterBound(pieces: seq<string>, p: nat)
    requires Pieces(pieces) && p < |Flatten(pieces)|
    ensures EndAfter(pieces, p) <= p + READ_SIZE
    decreases |pieces|
  {
    if p >= |pieces[0]| { EndAfterBound(pieces[1..], p - |pieces[0]|); }
  }

  /**
   The callback sees a function of the byte stream alone: exactly when every size and trailer line
   lies inside one piece, the chunked reader does what it would do on the stream in one piece;
   otherwise it spins, having handed on only data it would hand on anyway. The other two framings do
   not depend on the cuts at all.
   */
  lemma DeliveryIgnoresCuts(head: Head, pieces: seq<string>, p: nat)
    requires p <= |Flatten(pieces)|
    ensures var whole := [Flatten(pieces)];
            && Flatten(whole) == Flatten(pieces)
            && (!head.chunked ==> BodyBytes(head, pieces, p) == BodyBytes(head, whole, p))
            && (head.chunked && Chunked(whole, p).end != Spinning ==>
                  (Whole(pieces, Lines(Flatten(pieces), p)) <==> Chunked(pieces, p) == Chunked(whole, p)))
            && (head.chunked && !Whole(pieces, Lines(Flatten(pieces), p)) ==>
                  BodyEnding(head, pieces, p) == Spinning)
            && Chunked(pieces, p).data <= Chunked(whole, p).data
  {
    OnePiece(Flatten(pieces));
    ChunkedDecided(pieces, p);
  }

  // ----- Decoding undoes encoding -----

  function EncodeChunks(chunks: seq<string>): string {
    if chunks == [] then ""
    else NumText(|chunks[0]|, 16) + CRLF + (chunks[0] + CRLF + EncodeChunks(chunks[1..]))
  }

  function EncodeTrailers(trailers: seq<string>): string {
    if trailers == [] then CRLF else trailers[0] + CRLF + EncodeTrailers(trailers[1..])
  }

  /** Section 7.1 of RFC 9112: chunks, a last chunk of size zero, trailer fields, a blank line. */
  function EncodeBody(chunks: seq<string>, trailers: seq<string>): string {
    EncodeChunks(chunks) + ("0" + CRLF + EncodeTrailers(trailers))
  }

  ghost predicate FieldLine(line: string) { line != "" && '\r' !in line }

  /** A line without carriage returns at the front of what is left is read as that line. */
  lemma ReadFrontLine(stream: string, p: nat, line: string)
    requires p <= |stream| && line + CRLF <= stream[p..] && '\r' !in line
    ensures ReadLineAt([stream], p) == Line(line, p + |line| + 2)
    ensures Flatten([stream]) == stream
  {
    OnePiece(stream);
    var q := p + |line|;
    assert stream[p..][..|line| + 2] == line + CRLF;
    SubSlice(stream, p, |stream|, |line|, |line| + 2);
    assert stream[q..q + 2] == CRLF;
    forall i | p <= i < q ensures !OccursAt(stream, CRLF, i) {
      assert stream[i] == line[i - p];
    }
    FindIs(stream, CRLF, p, q);
    assert stream[p..q] == line;
  }

  lemma {:induction false} ReadEncodedTrailers(stream: string, p: nat, trailers: seq<string>)
    requires p <= |stream| && EncodeTrailers(trailers) <= stream[p..]
    requires forall i :: 0 <= i < |trailers| ==> FieldLine(trailers[i])
    requires Flatten([stream]) == stream
    ensures Trailers([stream], p) == Complete
    decreases |trailers|
  {
    hide Flatten, ReadLineAt;
    if trailers == [] {
      assert "" + CRLF <= stream[p..];
      ReadFrontLine(stream, p, "");
    } else {
      var line, more := trailers[0], EncodeTrailers(trailers[1..]);
      assert FieldLine(line) && EncodeTrailers(trailers) == line + CRLF + more;
      Rest(stream, p, line + CRLF, more);
      ReadFrontLine(stream, p, line);
      ReadEncodedTrailers(stream, p + |line| + 2, trailers[1..]);
    }
  }

  lemma Rest(stream: string, p: nat, a: string, b: string)
    requires p <= |stream| && a + b <= stream[p..]
    ensures a <= stream[p..] && p + |a| + |b| <= |stream| && b <= stream[p + |a|..]
    ensures stream[p..p + |a|] == a
  {
    assert stream[p..][..|a| + |b|] == a + b;
    assert stream[p..][..|a|] == a;
    SubSlice(stream, p, |stream|, |a|, |a| + |b|);
    assert stream[p + |a|..][..|b|] == b;
  }

  lemma HexHas(d: string, c: char)
    requires AllDigits(d, 16) && !IsDigit(c, 16)
    ensures c !in d
  {
  }

  lemma FoundMeansPresent(d: string)
    ensures Find(d, ";", 0) != -1 ==> ';' in d
  {
    hide Find;
    var i := Find(d, ";", 0);
    if i != -1 {
      assert d[i..i + 1][0] == ';';
    }
  }

  lemma SizeLine(n: nat)
    requires n < TWO_TO_THE_64
    ensures '\r' !in NumText(n, 16) && ChunkSize(NumText(n, 16)) == Some(n)
  {
    hide Find, NumText, ParseUnsigned;
    var d := NumText(n, 16);
    HexHas(d, ';');
    HexHas(d, '\r');
    FoundMeansPresent(d);
    assert d + "" == d;
    ParseUnsignedOfNumText(n, 16, TWO_TO_THE_64, "");
  }

  lemma ReadEncodedEnd(stream: string, p: nat, trailers: seq<string>)
    requires p <= |stream| && "0" + CRLF + EncodeTrailers(trailers) <= stream[p..]
    requires forall i :: 0 <= i < |trailers| ==> FieldLine(trailers[i])
    requires Flatten([stream]) == stream
    ensures Chunked([stream], p) == Delivery([], Complete)
  {
    hide Flatten, ReadLineAt, Find, ChunkSize, EncodeTrailers, Trailers;
    var zero := NumText(0, 16);
    assert zero == "0";
    SizeLine(0);
    Rest(stream, p, zero + CRLF, EncodeTrailers(trailers));
    ReadFrontLine(stream, p, zero);
    ReadEncodedTrailers(stream, p + 3, trailers);
    assert Chunked([stream], p) == ChunkAfter([stream], p + 3, Some(0));
  }

  lemma ReadEncodedChunk(stream: string, p: nat, size: string, c: string, more: string)
    requires p <= |stream| && size + CRLF + (c + CRLF + more) <= stream[p..]
    requires '\r' !in size && ChunkSize(size) == Some(|c|) && c != ""
    requires Flatten([stream]) == stream
    ensures var q := p + |size| + 2 + |c| + 2;
            && q <= |stream| && more <= stream[q..]
            && Chunked([stream], p) == Before([c], Chunked([stream], q))
  {
    hide Flatten, ReadLineAt, Find, ChunkSize;
    Rest(stream, p, size + CRLF, c + CRLF + more);
    ReadFrontLine(stream, p, size);
    var q := p + |size| + 2;
    Rest(stream, q, c + CRLF, more);
    Rest(stream, q, c, CRLF);
    assert Chunked([stream], p) == ChunkAfter([stream], q, Some(|c|));
  }

  lemma {:induction false} ReadEncodedBody(stream: string, p: nat, chunks: seq<string>, trailers: seq<string>)
    requires p <= |stream| && EncodeBody(chunks, trailers) <= stream[p..]
    requires forall i :: 0 <= i < |chunks| ==> 0 < |chunks[i]| < TWO_TO_THE_64
    requires forall i :: 0 <= i < |trailers| ==> FieldLine(trailers[i])
    requires Flatten([stream]) == stream
    ensures Chunked([stream], p) == Delivery(chunks, Complete)
    decreases |chunks|
  {
    hide Flatten, ReadLineAt, Find, ChunkSize, EncodeTrailers, NumText, Chunked;
    if chunks == [] {
      assert EncodeBody(chunks, trailers) == "0" + CRLF + EncodeTrailers(trailers);
      ReadEncodedEnd(stream, p, trailers);
    } else {
      var c, size, more := chunks[0], NumText(|chunks[0]|, 16), EncodeBody(chunks[1..], trailers);
      assert EncodeBody(chunks, trailers) == size + CRLF + (c + CRLF + more);
      SizeLine(|c|);
      ReadEncodedChunk(stream, p, size, c, more);
      ReadEncodedBody(stream, p + |size| + 2 + |c| + 2, chunks[1..], trailers);
      assert [c] + chunks[1..] == chunks;
    }
  }

  /** A chunked body that arrives with its lines whole is handed on chunk by chunk, then ends. */
  lemma ChunkedRoundTrip(pieces: seq<string>, p: nat, chunks: seq<string>, trailers: seq<string>, after: string)
    requires p <= |Flatten(pieces)|
    requires Flatten(pieces)[p..] == EncodeBody(chunks, trailers) + after
    requires forall i :: 0 <= i < |chunks| ==> 0 < |chunks[i]| < TWO_TO_THE_64
    requires forall i :: 0 <= i < |trailers| ==> FieldLine(trailers[i])
    ensures Whole(pieces, Lines(Flatten(pieces), p)) <==> Chunked(pieces, p) == Delivery(chunks, Complete)
  {
    OnePiece(Flatten(pieces));
    ReadEncodedBody(Flatten(pieces), p, chunks, trailers);
    ChunkedDecided(pieces, p);
  }

  /** A size line cut in two: the reader never returns, although the stream is well formed. */
  lemma SplitSizeLineSpins()
    ensures var pieces := ["1", "\r\na\r\n0\r\n\r\n"];
            && Flatten(pieces) == EncodeBody(["a"], [])
            && Chunked([Flatten(pieces)], 0) == Delivery(["a"], Complete)
            && Chunked(pieces, 0) == Delivery([], Spinning)
  {
    hide ChunkSize;
    var pieces := ["1", "\r\na\r\n0\r\n\r\n"];
    var stream := EncodeBody(["a"], []);
    SmallBody();
    assert pieces[1..] == ["\r\na\r\n0\r\n\r\n"];
    OnePiece(pieces[1]);
    assert Flatten(pieces) == stream;
    OnePiece(stream);
    assert stream[0..] == stream;
    ReadEncodedBody(stream, 0, ["a"], []);
    assert OccursAt(stream, CRLF, 1);
    assert stream[0] == '1';
    FindIs(stream, CRLF, 0, 1);
  }

  lemma SmallBody()
    ensures EncodeBody(["a"], []) == "1\r\na\r\n0\r\n\r\n"
  {
    assert NumText(1, 16) == "1";
    assert EncodeChunks(["a"]) == "1" + CRLF + ("a" + CRLF + "");
  }
}
