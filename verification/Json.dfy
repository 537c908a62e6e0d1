/**
 JSON values, the mutating operations that build them, and the printer.
 Strings hold one character per byte.
 */
module Json {
  import opened Numerals
  import opened Text
  import opened Wrappers

  /**
   Number is a double with an integer value below 10^15 in size, which prints exactly. Double is a
   number literal that is larger or has a fraction or an exponent, known only by its text: the model
   does not compute its value, so that `1.0` and `1e3` are Doubles here though they are the integers
   1 and 1000 in the program.
   */
  datatype Json =
    | Null
    | Boolean(b: bool)
    | Number(n: int)
    | Double(lexeme: string)
    | String(s: string)
    | Array(items: seq<Json>)
    | Object(members: seq<Member>)

  datatype Member = Member(key: string, value: Json)

  datatype JsonError =
    | UnexpectedEnd
    | Unexpected(c: char)
    | InvalidLiteral
    | InvalidNumber
    | InvalidEscape
    | WrongType

  const EXACT: int := 1_000_000_000_000_000

  ghost predicate Distinct(members: seq<Member>) {
    forall i, j :: 0 <= i < j < |members| ==> members[i].key != members[j].key
  }

  /** Keys are distinct in every object. */
  ghost predicate WellFormed(j: Json) {
    match j
    case Array(items) => forall x :: x in items ==> WellFormed(x)
    case Object(members) => Distinct(members) && forall m :: m in members ==> WellFormed(m.value)
    case _ => true
  }

  /** Every number prints exactly. */
  ghost predicate Exact(j: Json) {
    match j
    case Number(n) => -EXACT < n < EXACT
    case Double(_) => false
    case Array(items) => forall x :: x in items ==> Exact(x)
    case Object(members) => forall m :: m in members ==> Exact(m.value)
    case _ => true
  }

  // ----- Building -----

  ghost predicate HasKey(members: seq<Member>, key: string) {
    exists i :: 0 <= i < |members| && members[i].key == key
  }

  /** The members after `set`: the first entry with the key is overwritten in place, or one is added. */
  function Set(members: seq<Member>, key: string, value: Json): (r: seq<Member>)
    ensures !HasKey(members, key) ==> r == members + [Member(key, value)]
  {
    if members == [] then [Member(key, value)]
    else if members[0].key == key then [Member(key, value)] + members[1..]
    else
      assert HasKey(members[1..], key) ==> HasKey(members, key) by {
        assert forall i :: 0 <= i < |members| - 1 ==> members[1..][i] == members[i + 1];
      }
      [members[0]] + Set(members[1..], key, value)
  }

  /** What a lookup returns: the first entry with the key. */
  function Lookup(members: seq<Member>, key: string): Option<Json> {
    if members == [] then None
    else if members[0].key == key then Some(members[0].value)
    else Lookup(members[1..], key)
  }

  /** Setting reads back, leaves every other key alone, and never makes a key appear twice. */
  lemma {:induction false} SetReadsBack(members: seq<Member>, key: string, value: Json, other: string)
    ensures Lookup(Set(members, key, value), key) == Some(value)
    ensures other != key ==> Lookup(Set(members, key, value), other) == Lookup(members, other)
  {
    if members != [] {
      if members[0].key != key {
        SetReadsBack(members[1..], key, value, other);
      }
    }
  }

  lemma {:induction false} SetKeys(members: seq<Member>, key: string, value: Json)
    ensures var r := Set(members, key, value);
            && |members| <= |r| <= |members| + 1
            && (forall i :: 0 <= i < |members| ==> r[i].key == members[i].key)
            && (|r| > |members| ==> r[|members|] == Member(key, value) && !HasKey(members, key))
  {
    if members != [] {
      if members[0].key != key {
        SetKeys(members[1..], key, value);
        var r := Set(members[1..], key, value);
        assert forall i :: 0 < i < |members| ==> members[i] == members[1..][i - 1];
        assert forall i :: 0 < i < |r| + 1 ==> Set(members, key, value)[i] == r[i - 1];
      }
    }
  }

  lemma SetKeepsDistinct(members: seq<Member>, key: string, value: Json)
    requires Distinct(members)
    ensures Distinct(Set(members, key, value))
  {
    SetKeys(members, key, value);
  }

  lemma {:induction false} SetKeepsValues(members: seq<Member>, key: string, value: Json, m: Member)
    requires m in Set(members, key, value)
    ensures m in members || m == Member(key, value)
  {
    if members != [] && members[0].key != key && m != members[0] {
      SetKeepsValues(members[1..], key, value, m);
    }
  }

  lemma SetWellFormed(members: seq<Member>, key: string, value: Json)
    requires WellFormed(Object(members)) && WellFormed(value)
    ensures WellFormed(Object(Set(members, key, value)))
  {
    SetKeepsDistinct(members, key, value);
    forall m | m in Set(members, key, value) ensures WellFormed(m.value) {
      SetKeepsValues(members, key, value, m);
    }
  }

  lemma {:induction false} SetFound(members: seq<Member>, i: nat, key: string, value: Json)
    requires i < |members| && members[i].key == key
    requires forall j :: 0 <= j < i ==> members[j].key != key
    ensures Set(members, key, value) == members[i := Member(key, value)]
  {
    if i > 0 {
      SetFound(members[1..], i - 1, key, value);
      assert [members[0]] + members[1..][i - 1 := Member(key, value)] == members[i := Member(key, value)];
    }
  }

  /** The search for the key, with the overwrite or the append that ends it. */
  method SetMember(members: seq<Member>, key: string, value: Json) returns (r: seq<Member>)
    ensures r == Set(members, key, value)
  {
    hide Set;
    for i := 0 to |members|
      invariant forall j :: 0 <= j < i ==> members[j].key != key
    {
      if members[i].key == key {
        SetFound(members, i, key, value);
        return members[i := Member(key, value)];
      }
    }
    r := members + [Member(key, value)];
  }

  /** A value under construction, changed in place. */
  class Cell {
    var value: Json

    constructor (value: Json)
      ensures this.value == value
    {
      this.value := value;
    }

    /** Null turns into an empty object first; any other non-object throws. */
    method Assign(key: string, item: Json) returns (r: Result<(), JsonError>)
      modifies this
      ensures r.Ok? <==> old(value).Null? || old(value).Object?
      ensures r.Ok? ==> value == Object(Set(if old(value).Null? then [] else old(value).members, key, item))
      ensures r.Err? ==> r == Err(WrongType) && value == old(value)
      ensures WellFormed(old(value)) && WellFormed(item) ==> WellFormed(value)
    {
      if value.Null? { value := Object([]); }
      if !value.Object? { return Err(WrongType); }
      if WellFormed(value) && WellFormed(item) { SetWellFormed(value.members, key, item); }
      var members := SetMember(value.members, key, item);
      value := Object(members);
      return Ok(());
    }

    method PushBack(item: Json) returns (r: Result<(), JsonError>)
      modifies this
      ensures r.Ok? <==> old(value).Null? || old(value).Array?
      ensures r.Ok? ==> value == Array((if old(value).Null? then [] else old(value).items) + [item])
      ensures r.Err? ==> r == Err(WrongType) && value == old(value)
      ensures WellFormed(old(value)) && WellFormed(item) ==> WellFormed(value)
    {
      if value.Null? { value := Array([]); }
      if !value.Array? { return Err(WrongType); }
      value := Array(value.items + [item]);
      return Ok(());
    }
  }

  // ----- Printing -----

  function EscapeChar(c: char): (e: string)
    ensures e != ""
  {
    if c == '"' then "\\\""
    else if c == '\\' then "\\\\"
    else if c == '\n' then "\\n"
    else if c == '\r' then "\\r"
    else if c == '\t' then "\\t"
    else if c < ' ' then "\\u00" + [DigitChar(c as nat / 16), DigitChar(c as nat % 16)]
    else [c]
  }

  function EscapeChars(s: string): string {
    if s == "" then "" else EscapeChar(s[0]) + EscapeChars(s[1..])
  }

  function StringToken(s: string): string { "\"" + (EscapeChars(s) + "\"") }

  function NumberToken(n: int): string {
    if n < 0 then "-" + NumText(-n, 10) else NumText(n, 10)
  }

  /** The tokens of a value's text, in order. */
  function Tokens(j: Json): (t: seq<string>)
    requires Exact(j)
    decreases j, 1, 0
  {
    match j
    case Null => ["null"]
    case Boolean(b) => [if b then "true" else "false"]
    case Number(n) => [NumberToken(n)]
    case String(s) => [StringToken(s)]
    case Array(_) => ["["] + ItemTokens(j, 0)
    case Object(_) => ["{"] + MemberTokens(j, 0)
  }

  /** What follows the first `k` items of an array. */
  function ItemTokens(j: Json, k: nat): (t: seq<string>)
    requires j.Array? && Exact(j) && k <= |j.items|
    decreases j, 0, |j.items| - k
  {
    if k == |j.items| then ["]"]
    else Comma(k) + (Tokens(j.items[k]) + ItemTokens(j, k + 1))
  }

  /** What follows the first `k` members of an object. */
  function MemberTokens(j: Json, k: nat): (t: seq<string>)
    requires j.Object? && Exact(j) && k <= |j.members|
    decreases j, 0, |j.members| - k
  {
    if k == |j.members| then ["}"]
    else Comma(k) + ([StringToken(j.members[k].key), ":"] + (Tokens(j.members[k].value) + MemberTokens(j, k + 1)))
  }

  function Comma(k: nat): seq<string> { if k > 0 then [","] else [] }

  function Dump(j: Json): string
    requires Exact(j)
  {
    Flatten(Tokens(j))
  }

  method EscapeStringTo(s: string, out: string) returns (r: string)
    ensures r == out + StringToken(s)
  {
    hide EscapeChars, EscapeChar;
    r := out + "\"";
    ghost var body := "";
    for i := 0 to |s|
      invariant r == out + "\"" + body
      invariant body + EscapeChars(s[i..]) == EscapeChars(s)
    {
      EscapeStep(s, i);
      r := r + EscapeChar(s[i]);
      body := body + EscapeChar(s[i]);
    }
    EscapeNothing();
    assert s[|s|..] == "" && body + "" == body;
    r := r + "\"";
    assert out + "\"" + body + "\"" == out + ("\"" + (body + "\""));
  }

  lemma EscapeNothing()
    ensures EscapeChars("") == ""
  {
  }

  lemma EscapeStep(s: string, i: nat)
    requires i < |s|
    ensures EscapeChars(s[i..]) == EscapeChar(s[i]) + EscapeChars(s[i + 1..])
  {
    assert s[i..][1..] == s[i + 1..];
  }

  lemma FlattenOne(x: string)
    ensures Flatten([x]) == x
  {
  }

  lemma DumpItems(j: Json, k: nat)
    requires j.Array? && Exact(j) && k < |j.items|
    ensures Flatten(ItemTokens(j, k))
         == (if k > 0 then "," else "") + Dump(j.items[k]) + Flatten(ItemTokens(j, k + 1))
  {
    hide Flatten, Tokens;
    FlattenAppend(Comma(k), Tokens(j.items[k]) + ItemTokens(j, k + 1));
    FlattenAppend(Tokens(j.items[k]), ItemTokens(j, k + 1));
    FlattenOne(",");
    FlattenEmpty();
    var x, y := Dump(j.items[k]), Flatten(ItemTokens(j, k + 1));
    assert (if k > 0 then "," else "") + (x + y) == (if k > 0 then "," else "") + x + y;
  }

  lemma FlattenEmpty()
    ensures Flatten<char>([]) == ""
  {
  }

  lemma DumpMembers(j: Json, k: nat)
    requires j.Object? && Exact(j) && k < |j.members|
    ensures Flatten(MemberTokens(j, k))
         == (if k > 0 then "," else "") + StringToken(j.members[k].key) + ":" + Dump(j.members[k].value)
            + Flatten(MemberTokens(j, k + 1))
  {
    hide Flatten, Tokens, StringToken;
    var m, rest := j.members[k], MemberTokens(j, k + 1);
    FlattenAppend(Comma(k), [StringToken(m.key), ":"] + (Tokens(m.value) + rest));
    FlattenAppend([StringToken(m.key), ":"], Tokens(m.value) + rest);
    FlattenAppend([StringToken(m.key)], [":"]);
    FlattenAppend(Tokens(m.value), rest);
    FlattenOne(",");
    FlattenOne(":");
    FlattenOne(StringToken(m.key));
    FlattenEmpty();
    assert [StringToken(m.key)] + [":"] == [StringToken(m.key), ":"];
  }

  /** The printer: appends the text of the tokens to `out`. */
  method DumpTo(j: Json, out: string) returns (r: string)
    requires Exact(j)
    ensures r == out + Dump(j)
    decreases j
  {
    hide Flatten;
    FlattenOne("null");
    match j
    case Null =>
      r := out + "null";
    case Boolean(b) =>
      FlattenOne(if b then "true" else "false");
      r := out + if b then "true" else "false";
    case Number(n) =>
      FlattenOne(NumberToken(n));
      r := out + NumberToken(n);
    case String(s) =>
      FlattenOne(StringToken(s));
      r := EscapeStringTo(s, out);
    case Array(items) =>
      r := DumpArray(j, out);
    case Object(members) =>
      r := DumpObject(j, out);
  }

  method DumpArray(j: Json, out: string) returns (r: string)
    requires j.Array? && Exact(j)
    ensures r == out + Dump(j)
    decreases j, 0
  {
    hide Flatten, ItemTokens;
    FlattenAppend(["["], ItemTokens(j, 0));
    FlattenOne("[");
    r := out + "[";
    var first := true;
    for k := 0 to |j.items|
      invariant first == (k == 0)
      invariant r + Flatten(ItemTokens(j, k)) == out + Dump(j)
    {
      DumpItems(j, k);
      ghost var before, left := r, Flatten(ItemTokens(j, k + 1));
      if !first { r := r + ","; }
      first := false;
      r := DumpTo(j.items[k], r);
      assert r + left == before + ((if k > 0 then "," else "") + Dump(j.items[k]) + left);
    }
    LastItem(j);
    r := r + "]";
  }

  lemma LastItem(j: Json)
    ensures j.Array? && Exact(j) ==> Flatten(ItemTokens(j, |j.items|)) == "]"
    ensures j.Object? && Exact(j) ==> Flatten(MemberTokens(j, |j.members|)) == "}"
  {
    FlattenOne("]");
    FlattenOne("}");
  }

  method DumpObject(j: Json, out: string) returns (r: string)
    requires j.Object? && Exact(j)
    ensures r == out + Dump(j)
    decreases j, 0
  {
    hide Flatten, MemberTokens, StringToken;
    FlattenAppend(["{"], MemberTokens(j, 0));
    FlattenOne("{");
    r := out + "{";
    var first := true;
    for k := 0 to |j.members|
      invariant first == (k == 0)
      invariant r + Flatten(MemberTokens(j, k)) == out + Dump(j)
    {
      DumpMembers(j, k);
      ghost var before, left := r, Flatten(MemberTokens(j, k + 1));
      var m := j.members[k];
      if !first { r := r + ","; }
      first := false;
      r := EscapeStringTo(m.key, r);
      r := r + ":";
      r := DumpTo(m.value, r);
      assert r + left
          == before + ((if k > 0 then "," else "") + StringToken(m.key) + ":" + Dump(m.value) + left);
    }
    LastItem(j);
    r := r + "}";
  }
}
