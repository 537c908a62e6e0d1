/** Base64 (section 4 of RFC 4648) with a decoder whose accumulator wraps at 32 bits. */
module Base64 {
  import opened Numerals
  import opened Text
  import opened Wrappers

  type Byte = b: int | 0 <= b < 256

  // ----- The alphabet -----

  function Letter(d: int): Octet
    requires 0 <= d < 64
  {
    if d < 26 then 'A' + d as char
    else if d < 52 then 'a' + (d - 26) as char
    else if d < 62 then '0' + (d - 52) as char
    else if d == 62 then '+'
    else '/'
  }

  /** Value of a letter of the alphabet, or -1. */
  function DigitOf(c: char): (d: int)
    ensures -1 <= d < 64
    ensures d >= 0 ==> Letter(d) == c
  {
    if 'A' <= c <= 'Z' then c as int - 'A' as int
    else if 'a' <= c <= 'z' then c as int - 'a' as int + 26
    else if '0' <= c <= '9' then c as int - '0' as int + 52
    else if c == '+' then 62
    else if c == '/' then 63
    else -1
  }

  lemma DigitOfLetter(d: int)
    requires 0 <= d < 64
    ensures DigitOf(Letter(d)) == d
  {
  }

  /** The table holds each letter's value at the letter's code, and -1 elsewhere. */
  method BuildDecodeTable() returns (table: array<int>)
    ensures table.Length == 256 && fresh(table)
    ensures forall c: Octet :: table[c as int] == DigitOf(c)
  {
    table := new int[256](_ => -1);
    for i := 0 to 64
      invariant forall k :: 0 <= k < 256 ==>
                  table[k] == if 0 <= DigitOf(k as char) < i then DigitOf(k as char) else -1
    {
      DigitOfLetter(i);
      table[Letter(i) as int] := i;
    }
  }

  // ----- Encoding -----

  /** The k-th six bits of a 24-bit number, from the top. */
  function Sextet(n: int, k: int): (d: int)
    requires 0 <= n < 0x100_0000 && 0 <= k < 4
    ensures 0 <= d < 64
  {
    if k == 0 then n / 0x4_0000 else if k == 1 then n / 0x1000 % 64 else if k == 2 then n / 64 % 64 else n % 64
  }

  /** The k-th byte of a 24-bit number, from the top. */
  function ByteOf(n: int, k: int): (b: Byte)
    requires 0 <= n < 0x100_0000 && 0 <= k < 3
  {
    if k == 0 then n / 0x1_0000 else if k == 1 then n / 0x100 % 256 else n % 256
  }

  function Group(n: int): (r: seq<Octet>)
    requires 0 <= n < 0x100_0000
    ensures |r| == 4
  {
    [Letter(Sextet(n, 0)), Letter(Sextet(n, 1)), Letter(Sextet(n, 2)), Letter(Sextet(n, 3))]
  }

  /** Three bytes side by side; they occupy different bits, so joining them with `|` adds them. */
  function Join(a: int, b: int, c: int): (n: int)
    ensures 0 <= a < 256 && 0 <= b < 256 && 0 <= c < 256 ==> 0 <= n < 0x100_0000
  {
    a * 0x1_0000 + b * 0x100 + c
  }

  lemma QuotientIs(x: int, d: int, q: int, r: int)
    requires (d == 4 || d == 16 || d == 256) && x == q * d + r && 0 <= r < d
    ensures x / d == q && x % d == r
  {
  }

  /** The bytes can be read off again. */
  lemma JoinParts(a: int, b: int, c: int)
    requires 0 <= a < 256 && 0 <= b < 256 && 0 <= c < 256
    ensures var n := Join(a, b, c); ByteOf(n, 0) == a && ByteOf(n, 1) == b && ByteOf(n, 2) == c
  {
    var n := Join(a, b, c);
    QuotientIs(n, 256, a * 256 + b, c);
    QuotientIs(a * 256 + b, 256, a, b);
    hide Join;
    TwiceDivided(n);
  }

  lemma TwiceDivided(n: int)
    requires n >= 0
    ensures n / 0x1_0000 == n / 0x100 / 0x100
  {
  }

  function Encoded(raw: seq<Byte>): seq<Octet> {
    if raw == [] then []
    else if |raw| == 1 then Group(Join(raw[0], 0, 0))[..2] + ['=', '=']
    else if |raw| == 2 then Group(Join(raw[0], raw[1], 0))[..3] + ['=']
    else Group(Join(raw[0], raw[1], raw[2])) + Encoded(raw[3..])
  }

  method Encode(raw: seq<Byte>) returns (out: seq<Octet>)
    ensures out == Encoded(raw)
  {
    hide Letter, Join, Encoded;
    out := [];
    var i := 0;
    assert raw[0..] == raw && [] + Encoded(raw) == Encoded(raw);
    while i + 3 <= |raw|
      invariant i <= |raw| && out + Encoded(raw[i..]) == Encoded(raw)
    {
      var n := Join(raw[i], raw[i + 1], raw[i + 2]);
      assert raw[i..][3..] == raw[i + 3..];
      EncodedGroup(raw[i..]);
      Assoc(out, Group(n), Encoded(raw[i + 3..]));
      out := out + [Letter(n / 0x4_0000), Letter(n / 0x1000 % 64), Letter(n / 64 % 64), Letter(n % 64)];
      i := i + 3;
    }
    var remaining := |raw| - i;
    EncodedEnd(raw[i..]);
    if remaining == 1 {
      var n := Join(raw[i], 0, 0);
      out := out + ([Letter(n / 0x4_0000), Letter(n / 0x1000 % 64)] + ['=', '=']);
    } else if remaining == 2 {
      var n := Join(raw[i], raw[i + 1], 0);
      out := out + ([Letter(n / 0x4_0000), Letter(n / 0x1000 % 64), Letter(n / 64 % 64)] + ['=']);
    }
  }

  lemma EncodedGroup(raw: seq<Byte>)
    requires |raw| > 2
    ensures Encoded(raw) == Group(Join(raw[0], raw[1], raw[2])) + Encoded(raw[3..])
  {
    hide Letter, Join, Sextet;
  }

  lemma EncodedEnd(raw: seq<Byte>)
    ensures raw == [] ==> Encoded(raw) == []
    ensures |raw| == 1 ==>
              var n := Join(raw[0], 0, 0);
              Encoded(raw) == [Letter(Sextet(n, 0))] + ([Letter(Sextet(n, 1))] + (['='] + (['='] + [])))
    ensures |raw| == 2 ==>
              var n := Join(raw[0], raw[1], 0);
              Encoded(raw) ==
              [Letter(Sextet(n, 0))] + ([Letter(Sextet(n, 1))] + ([Letter(Sextet(n, 2))] + (['='] + [])))
  {
    hide Letter, Join, Sextet;
    if |raw| == 1 { FirstTwo(Join(raw[0], 0, 0)); }
    if |raw| == 2 { FirstThree(Join(raw[0], raw[1], 0)); }
    hide Group;
  }

  lemma FirstTwo(n: int)
    requires 0 <= n < 0x100_0000
    ensures Group(n)[..2] + ['=', '='] == [Letter(Sextet(n, 0))] + ([Letter(Sextet(n, 1))] + (['='] + (['='] + [])))
  {
    hide Letter, Sextet;
  }

  lemma FirstThree(n: int)
    requires 0 <= n < 0x100_0000
    ensures Group(n)[..3] + ['=']
         == [Letter(Sextet(n, 0))] + ([Letter(Sextet(n, 1))] + ([Letter(Sextet(n, 2))] + (['='] + [])))
  {
    hide Letter, Sextet;
  }

  // ----- Decoding -----

  predicate Skipped(c: char) { c == '=' || c == '\n' || c == '\r' }

  /** 2 to the power of the number of pending bits. */
  function Power(bits: int): (p: nat)
    requires 0 <= bits < 8 && bits % 2 == 0
    ensures p == 1 || p == 4 || p == 16 || p == 64
  {
    if bits == 0 then 1 else if bits == 2 then 4 else if bits == 4 then 16 else 64
  }

  datatype DecodeError = InvalidInput

  function Prepend(out: seq<Byte>, r: Result<seq<Byte>, DecodeError>): Result<seq<Byte>, DecodeError> {
    if r.Ok? then Ok(out + r.value) else r
  }

  /** The reference: six bits per letter into an accumulator that never overflows. */
  function DecodeFrom(s: seq<char>, acc: nat, bits: nat): Result<seq<Byte>, DecodeError>
    requires bits < 8 && bits % 2 == 0
    decreases |s|
  {
    if s == [] then Ok([])
    else if Skipped(s[0]) then DecodeFrom(s[1..], acc, bits)
    else if DigitOf(s[0]) < 0 then Err(InvalidInput)
    else
      var acc' := acc * 64 + DigitOf(s[0]);
      if bits + 6 < 8 then DecodeFrom(s[1..], acc', bits + 6)
      else Prepend([acc' / Power(bits - 2) % 256], DecodeFrom(s[1..], acc', bits - 2))
  }

  function Decoded(s: seq<char>): Result<seq<Byte>, DecodeError> { DecodeFrom(s, 0, 0) }

  /** What a 32-bit two's-complement register holds. */
  function Wrap(x: int): (r: int)
    ensures -TWO_TO_THE_31 <= r < TWO_TO_THE_31
  {
    var m := x % TWO_TO_THE_32;
    if m < TWO_TO_THE_31 then m else m - TWO_TO_THE_32
  }

  /** The register and the unbounded accumulator differ by a multiple of 2 to the 32. */
  ghost predicate SameLow(buffer: int, acc: int) { exists k: int :: buffer == acc + k * TWO_TO_THE_32 }

  lemma WrapStep(buffer: int, acc: int, v: int)
    requires SameLow(buffer, acc)
    ensures SameLow(Wrap(buffer * 64 + v), acc * 64 + v)
  {
    var k: int :| buffer == acc + k * TWO_TO_THE_32;
    var x := buffer * 64 + v;
    var q := x / TWO_TO_THE_32;
    assert x == q * TWO_TO_THE_32 + x % TWO_TO_THE_32;
    var j := if x % TWO_TO_THE_32 < TWO_TO_THE_31 then -q else -q - 1;
    assert Wrap(x) == x + j * TWO_TO_THE_32;
    assert Wrap(x) == acc * 64 + v + (k * 64 + j) * TWO_TO_THE_32;
  }

  lemma Mod256(x: int, k: int)
    ensures (x + k * 256) % 256 == x % 256
  {
    assert x == x / 256 * 256 + x % 256;
    QuotientIs(x + k * 256, 256, x / 256 + k, x % 256);
  }

  lemma Div4(x: int, k: int)
    ensures (x + k * 4) / 4 == x / 4 + k
  {
    assert x == x / 4 * 4 + x % 4;
    QuotientIs(x + k * 4, 4, x / 4 + k, x % 4);
  }

  lemma Div16(x: int, k: int)
    ensures (x + k * 16) / 16 == x / 16 + k
  {
    assert x == x / 16 * 16 + x % 16;
    QuotientIs(x + k * 16, 16, x / 16 + k, x % 16);
  }

  lemma Low4(x: int, k: int)
    ensures (x + k * 4096) / 4 % 256 == x / 4 % 256
  {
    Div4(x, k * 1024);
    Mod256(x / 4, k * 4);
  }

  lemma Low16(x: int, k: int)
    ensures (x + k * 4096) / 16 % 256 == x / 16 % 256
  {
    Div16(x, k * 256);
    Mod256(x / 16, k);
  }

  /** A byte read at most four bits up depends only on the low twelve bits. */
  lemma LowBits(x: int, k: int, bits: nat)
    requires bits <= 4 && bits % 2 == 0
    ensures (x + k * 4096) / Power(bits) % 256 == x / Power(bits) % 256
  {
    Mod256(x, k * 16);
    Low4(x, k);
    Low16(x, k);
    assert Power(bits) == 1 || Power(bits) == 4 || Power(bits) == 16;
    assert (x + k * 4096) / 1 == x + k * 4096 && x / 1 == x;
  }

  /** So the register gives the same bytes as the accumulator. */
  lemma SameByte(buffer: int, acc: int, bits: nat)
    requires SameLow(buffer, acc) && bits <= 4 && bits % 2 == 0
    ensures buffer / Power(bits) % 256 == acc / Power(bits) % 256
  {
    hide Power;
    var k: int :| buffer == acc + k * TWO_TO_THE_32;
    LowBits(acc, k * 0x10_0000, bits);
  }

  lemma DecodeStep(s: seq<char>, acc: nat, bits: nat)
    requires s != [] && bits < 8 && bits % 2 == 0
    ensures var d, acc' := DigitOf(s[0]), acc * 64 + DigitOf(s[0]);
            DecodeFrom(s, acc, bits) ==
            if Skipped(s[0]) then DecodeFrom(s[1..], acc, bits)
            else if d < 0 then Err(InvalidInput)
            else if bits + 6 < 8 then DecodeFrom(s[1..], acc', bits + 6)
            else Prepend([acc' / Power(bits - 2) % 256], DecodeFrom(s[1..], acc', bits - 2))
  {
    hide DigitOf, Power, Skipped;
  }

  method Decode(encoded: seq<Octet>) returns (r: Result<seq<Byte>, DecodeError>)
    ensures r == Decoded(encoded)
  {
    hide DigitOf, Power, Wrap, SameLow, DecodeFrom;
    var table := BuildDecodeTable();
    var out: seq<Byte> := [];
    var buffer, bits := 0, 0;
    ghost var acc: nat := 0;
    SameAtStart();
    assert encoded[0..] == encoded;
    for i := 0 to |encoded|
      invariant 0 <= bits < 8 && bits % 2 == 0 && SameLow(buffer, acc)
      invariant forall c: Octet :: table[c as int] == DigitOf(c)
      invariant Prepend(out, DecodeFrom(encoded[i..], acc, bits)) == Decoded(encoded)
    {
      var c := encoded[i];
      DecodeStep(encoded[i..], acc, bits);
      assert encoded[i..][0] == c && encoded[i..][1..] == encoded[i + 1..];
      if c == '=' || c == '\n' || c == '\r' { continue; }
      var value := table[c as int];
      if value < 0 { return Err(InvalidInput); }
      WrapStep(buffer, acc, value);
      buffer := Wrap(buffer * 64 + value);
      acc := acc * 64 + value;
      bits := bits + 6;
      if bits >= 8 {
        bits := bits - 8;
        SameByte(buffer, acc, bits);
        PrependTwice(out, [buffer / Power(bits) % 256], DecodeFrom(encoded[i + 1..], acc, bits));
        out := out + [buffer / Power(bits) % 256];
      }
    }
    DecodeEnd(acc, bits);
    assert encoded[|encoded|..] == [] && out + [] == out;
    r := Ok(out);
  }

  lemma DecodeEnd(acc: nat, bits: nat)
    requires bits < 8 && bits % 2 == 0
    ensures DecodeFrom([], acc, bits) == Ok([])
  {
  }

  lemma SameAtStart()
    ensures SameLow(0, 0) && forall r :: Prepend([], r) == r
  {
    assert 0 == 0 + 0 * TWO_TO_THE_32;
    forall r: Result<seq<Byte>, DecodeError> ensures Prepend([], r) == r {
      if r.Ok? { assert [] + r.value == r.value; }
    }
  }

  lemma PrependTwice(a: seq<Byte>, b: seq<Byte>, r: Result<seq<Byte>, DecodeError>)
    ensures Prepend(a, Prepend(b, r)) == Prepend(a + b, r)
  {
    if r.Ok? { assert a + (b + r.value) == a + b + r.value; }
  }

  // ----- Round trip -----

  /** Without the line breaks. */
  function Unbroken(s: seq<char>): seq<char> {
    if s == [] then [] else (if s[0] == '\r' || s[0] == '\n' then [] else [s[0]]) + Unbroken(s[1..])
  }

  lemma {:induction false} BreaksIgnored(s: seq<char>, acc: nat, bits: nat)
    requires bits < 8 && bits % 2 == 0
    ensures DecodeFrom(s, acc, bits) == DecodeFrom(Unbroken(s), acc, bits)
    decreases |s|
  {
    hide DigitOf, Power;
    if s != [] {
      var u := Unbroken(s[1..]);
      if s[0] == '\r' || s[0] == '\n' {
        assert [] + u == u;
        BreaksIgnored(s[1..], acc, bits);
      } else {
        assert ([s[0]] + u)[1..] == u;
        if Skipped(s[0]) {
          BreaksIgnored(s[1..], acc, bits);
        } else if DigitOf(s[0]) >= 0 {
          BreaksIgnored(s[1..], acc * 64 + DigitOf(s[0]), if bits + 6 < 8 then bits + 6 else bits - 2);
        }
      }
    }
  }

  lemma LetterStep(d: int, rest: seq<char>, acc: nat, bits: nat)
    requires 0 <= d < 64 && bits < 8 && bits % 2 == 0
    ensures DecodeFrom([Letter(d)] + rest, acc, bits) ==
            if bits + 6 < 8 then DecodeFrom(rest, acc * 64 + d, bits + 6)
            else Prepend([(acc * 64 + d) / Power(bits - 2) % 256], DecodeFrom(rest, acc * 64 + d, bits - 2))
  {
    assert !Skipped(Letter(d)) && DigitOf(Letter(d)) == d by { DigitOfLetter(d); }
    hide DigitOf, Letter;
    assert ([Letter(d)] + rest)[1..] == rest;
  }

  lemma PadStep(rest: seq<char>, acc: nat, bits: nat)
    requires bits < 8 && bits % 2 == 0
    ensures DecodeFrom(['='] + rest, acc, bits) == DecodeFrom(rest, acc, bits)
  {
    assert (['='] + rest)[1..] == rest;
  }

  /** The accumulator after the first k letters of a group. */
  function Fed(acc: nat, n: int, k: nat): nat
    requires 0 <= n < 0x100_0000 && k <= 4
  {
    if k == 0 then acc else Fed(acc, n, k - 1) * 64 + Sextet(n, k - 1)
  }

  lemma Divided(n: int)
    requires n >= 0
    ensures n == n / 64 * 64 + n % 64
    ensures n / 64 / 64 == n / 0x1000 && n / 0x1000 / 64 == n / 0x4_0000
  {
  }

  lemma FedIs(acc: nat, n: int)
    requires 0 <= n < 0x100_0000
    ensures Fed(acc, n, 2) == acc * 0x1000 + n / 0x1000
    ensures Fed(acc, n, 3) == acc * 0x4_0000 + n / 64
    ensures Fed(acc, n, 4) == acc * 0x100_0000 + n
  {
    Divided(n);
    Divided(n / 64);
    Divided(n / 0x1000);
    var a, b, c, d := n / 0x4_0000, n / 0x1000 % 64, n / 64 % 64, n % 64;
    assert n / 0x1000 == a * 64 + b && n / 64 == n / 0x1000 * 64 + c;
    assert Sextet(n, 0) == a && Sextet(n, 1) == b && Sextet(n, 2) == c && Sextet(n, 3) == d;
    hide Sextet;
    assert Fed(acc, n, 1) == acc * 64 + a;
    assert Fed(acc, n, 2) == (acc * 64 + a) * 64 + b;
  }

  /** The bytes read after the second, third and fourth letter. */
  lemma BytesRead(acc: nat, n: int)
    requires 0 <= n < 0x100_0000
    ensures Fed(acc, n, 2) / 16 % 256 == ByteOf(n, 0)
    ensures Fed(acc, n, 3) / 4 % 256 == ByteOf(n, 1)
    ensures Fed(acc, n, 4) % 256 == ByteOf(n, 2)
  {
    FedIs(acc, n);
    hide Fed;
    FirstByte(acc, n);
    SecondByte(acc, n);
    Mod256(n, acc * 0x1_0000);
  }

  lemma FirstByte(acc: nat, n: int)
    requires 0 <= n < 0x100_0000
    ensures (acc * 0x1000 + n / 0x1000) / 16 % 256 == n / 0x1_0000
  {
    Div16(n / 0x1000, acc * 0x100);
    Mod256(n / 0x1000 / 16, acc);
    assert n / 0x1000 / 16 == n / 0x1_0000;
  }

  lemma SecondByte(acc: nat, n: int)
    requires 0 <= n < 0x100_0000
    ensures (acc * 0x4_0000 + n / 64) / 4 % 256 == n / 0x100 % 256
  {
    Div4(n / 64, acc * 0x1_0000);
    Mod256(n / 64 / 4, acc * 0x100);
    assert n / 64 / 4 == n / 0x100;
  }

  /** Two letters give back the byte they hold in their upper eight bits. */
  lemma TwoLetters(n: int, rest: seq<char>, acc: nat)
    requires 0 <= n < 0x100_0000
    ensures DecodeFrom([Letter(Sextet(n, 0))] + ([Letter(Sextet(n, 1))] + rest), acc, 0)
         == Prepend([ByteOf(n, 0)], DecodeFrom(rest, Fed(acc, n, 2), 4))
  {
    hide Letter, DecodeFrom, Sextet, ByteOf;
    assert Fed(acc, n, 1) == acc * 64 + Sextet(n, 0);
    LetterStep(Sextet(n, 0), [Letter(Sextet(n, 1))] + rest, acc, 0);
    LetterStep(Sextet(n, 1), rest, Fed(acc, n, 1), 6);
    BytesRead(acc, n);
  }

  lemma ThirdLetter(n: int, rest: seq<char>, acc: nat)
    requires 0 <= n < 0x100_0000
    ensures DecodeFrom([Letter(Sextet(n, 2))] + rest, Fed(acc, n, 2), 4)
         == Prepend([ByteOf(n, 1)], DecodeFrom(rest, Fed(acc, n, 3), 2))
  {
    hide Letter, DecodeFrom, Sextet, ByteOf;
    LetterStep(Sextet(n, 2), rest, Fed(acc, n, 2), 4);
    BytesRead(acc, n);
  }

  lemma FourthLetter(n: int, rest: seq<char>, acc: nat)
    requires 0 <= n < 0x100_0000
    ensures DecodeFrom([Letter(Sextet(n, 3))] + rest, Fed(acc, n, 3), 2)
         == Prepend([ByteOf(n, 2)], DecodeFrom(rest, Fed(acc, n, 4), 0))
  {
    hide Letter, DecodeFrom, Sextet, ByteOf;
    LetterStep(Sextet(n, 3), rest, Fed(acc, n, 3), 2);
    BytesRead(acc, n);
  }

  lemma DecodeOne(x: Byte, acc: nat)
    ensures DecodeFrom(Encoded([x]), acc, 0) == Ok([x])
  {
    hide Letter, DecodeFrom, Encoded, Join, Sextet, ByteOf, Fed;
    var n := Join(x, 0, 0);
    EncodedEnd([x]);
    JoinParts(x, 0, 0);
    TwoLetters(n, ['='] + (['='] + []), acc);
    PadStep(['='] + [], Fed(acc, n, 2), 4);
    PadStep([], Fed(acc, n, 2), 4);
    DecodeEnd(Fed(acc, n, 2), 4);
    assert [x] + [] == [x];
  }

  lemma DecodeTwo(x: Byte, y: Byte, acc: nat)
    ensures DecodeFrom(Encoded([x, y]), acc, 0) == Ok([x, y])
  {
    hide Letter, DecodeFrom, Encoded, Join, Sextet, ByteOf, Fed;
    var n := Join(x, y, 0);
    EncodedEnd([x, y]);
    JoinParts(x, y, 0);
    TwoLetters(n, [Letter(Sextet(n, 2))] + (['='] + []), acc);
    ThirdLetter(n, ['='] + [], acc);
    PadStep([], Fed(acc, n, 3), 2);
    DecodeEnd(Fed(acc, n, 3), 2);
    assert [x] + ([y] + []) == [x, y];
  }

  lemma OneByOne(a: char, b: char, c: char, d: char, rest: seq<char>)
    ensures [a, b, c, d] + rest == [a] + ([b] + ([c] + ([d] + rest)))
  {
  }

  /** A group decodes to the three bytes of its number. */
  lemma GroupDecodes(n: int, rest: seq<char>, acc: nat)
    requires 0 <= n < 0x100_0000
    ensures DecodeFrom(Group(n) + rest, acc, 0)
         == Prepend([ByteOf(n, 0)], Prepend([ByteOf(n, 1)],
                    Prepend([ByteOf(n, 2)], DecodeFrom(rest, Fed(acc, n, 4), 0))))
  {
    hide Letter, DecodeFrom, Prepend, Sextet, ByteOf, Fed;
    var a, b := Letter(Sextet(n, 0)), Letter(Sextet(n, 1));
    var c, d := Letter(Sextet(n, 2)), Letter(Sextet(n, 3));
    OneByOne(a, b, c, d, rest);
    TwoLetters(n, [c] + ([d] + rest), acc);
    ThirdLetter(n, [d] + rest, acc);
    FourthLetter(n, rest, acc);
  }

  /** From any accumulator at a group boundary, an encoding decodes to the bytes. */
  lemma {:induction false} DecodeEncoding(raw: seq<Byte>, acc: nat)
    ensures DecodeFrom(Encoded(raw), acc, 0) == Ok(raw)
    decreases |raw|
  {
    hide DecodeFrom, Encoded, Join, Group, ByteOf, Fed;
    if raw == [] {
      EncodedEnd(raw);
      DecodeEnd(acc, 0);
    } else if |raw| == 1 {
      DecodeOne(raw[0], acc);
      assert raw == [raw[0]];
    } else if |raw| == 2 {
      DecodeTwo(raw[0], raw[1], acc);
      assert raw == [raw[0], raw[1]];
    } else {
      var n := Join(raw[0], raw[1], raw[2]);
      EncodedGroup(raw);
      JoinParts(raw[0], raw[1], raw[2]);
      GroupDecodes(n, Encoded(raw[3..]), acc);
      DecodeEncoding(raw[3..], Fed(acc, n, 4));
      assert raw == [raw[0]] + ([raw[1]] + ([raw[2]] + raw[3..]));
    }
  }

  /** Decoding an encoding, with line breaks inserted anywhere, returns the original bytes. */
  lemma RoundTrip(raw: seq<Byte>, broken: seq<Octet>)
    requires Unbroken(broken) == Encoded(raw)
    ensures Decoded(broken) == Ok(raw)
  {
    BreaksIgnored(broken, 0, 0);
    DecodeEncoding(raw, 0);
  }

  /** Exactly the texts with a foreign character are refused. */
  lemma {:induction false} RefusedExactly(s: seq<char>, acc: nat, bits: nat)
    requires bits < 8 && bits % 2 == 0
    ensures DecodeFrom(s, acc, bits).Err? <==> exists i :: 0 <= i < |s| && !Skipped(s[i]) && DigitOf(s[i]) < 0
    decreases |s|
  {
    hide DigitOf, Power, Skipped;
    if s != [] {
      if !Skipped(s[0]) && DigitOf(s[0]) < 0 {
      } else {
        var acc' := if Skipped(s[0]) then acc else acc * 64 + DigitOf(s[0]);
        var bits' := if Skipped(s[0]) then bits else if bits + 6 < 8 then bits + 6 else bits - 2;
        RefusedExactly(s[1..], acc', bits');
        forall i | 0 <= i < |s| && !Skipped(s[i]) && DigitOf(s[i]) < 0 ensures s[i] == s[1..][i - 1] { }
        assert forall i :: 0 <= i < |s| - 1 ==> s[1..][i] == s[i + 1];
      }
    }
  }
}
