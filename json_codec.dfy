/**
 * The JSON values the service writes and reads, and the byte codec that stands
 * for `JSON.stringify` + `TextEncoder.encode` on the way up and
 * `TextDecoder.decode` + `JSON.parse` on the way down.
 *
 * The bytes produced here are NOT RFC 8259 text: they are a self-delimiting
 * prefix encoding of the same tree. What the model needs from the real pair is
 * what this one is proved to have: parsing what was serialized gives back the
 * same value (`ParseSerialize`), trailing bytes are refused
 * (`ParseRefusesTrailing`), and serialization is injective (`SerializeInjective`).
 */
module JsonCodec {
  import opened Wrappers

  type byte = b: int | 0 <= b < 256

  /** A number is written in decimal: `mantissa` times ten to the `exponent`. */
  datatype Json =
    | Null
    | Bool(b: bool)
    | Num(mantissa: int, exponent: int)
    | Str(s: string)
    | Arr(items: seq<Json>)
    | Obj(fields: seq<Field>)

  /** One `key: value` member of an object, in the order it was written. */
  datatype Field = Field(key: string, value: Json)

  /** Property access `j.key`: the first member named `key`, or nothing. */
  function Member(j: Json, key: string): (r: Option<Json>)
  {
    if j.Obj? then Lookup(j.fields, key) else None
  }

  function Lookup(fields: seq<Field>, key: string): (r: Option<Json>)
  {
    if fields == [] then None
    else if fields[0].key == key then Some(fields[0].value)
    else Lookup(fields[1..], key)
  }

  /** Lookup finds the value of the first member with that key. */
  lemma {:induction false} LookupFirst(fields: seq<Field>, i: nat, key: string)
    requires i < |fields| && fields[i].key == key
    requires forall k :: 0 <= k < i ==> fields[k].key != key
    ensures Lookup(fields, key) == Some(fields[i].value)
    decreases i
  {
    if i > 0 {
      LookupFirst(fields[1..], i - 1, key);
    }
  }

  /** Lookup finds nothing when no member has that key. */
  lemma {:induction false} LookupAbsent(fields: seq<Field>, key: string)
    requires forall k :: 0 <= k < |fields| ==> fields[k].key != key
    ensures Lookup(fields, key) == None
    decreases |fields|
  {
    if fields != [] {
      LookupAbsent(fields[1..], key);
    }
  }

  // ---------------------------------------------------------------------------
  // Serialization

  /** Natural numbers as little-endian base-128 digits; a set high bit means "more follows". */
  function EncodeNat(n: nat): (r: seq<byte>)
    ensures |r| >= 1
    decreases n
  {
    if n < 128 then [n] else [128 + n % 128] + EncodeNat(n / 128)
  }

  /** Integers are folded onto the naturals: 0, -1, 1, -2, 2, ... */
  function EncodeInt(i: int): (r: seq<byte>)
    ensures |r| >= 1
  {
    EncodeNat(if i >= 0 then 2 * i else -2 * i - 1)
  }

  function EncodeChars(s: string): seq<byte>
  {
    if s == [] then [] else EncodeNat(s[0] as int) + EncodeChars(s[1..])
  }

  function EncodeString(s: string): (r: seq<byte>)
    ensures |r| >= 1
  {
    EncodeNat(|s|) + EncodeChars(s)
  }

  function Encode(j: Json): (r: seq<byte>)
    ensures |r| >= 1
    decreases j
  {
    match j
    case Null => [0]
    case Bool(b) => [1, if b then 1 else 0]
    case Num(m, e) => [2] + EncodeInt(m) + EncodeInt(e)
    case Str(s) => [3] + EncodeString(s)
    case Arr(items) => [4] + EncodeNat(|items|) + EncodeItems(items)
    case Obj(fields) => [5] + EncodeNat(|fields|) + EncodeFields(fields)
  }

  function EncodeItems(items: seq<Json>): seq<byte>
    decreases items
  {
    if items == [] then [] else Encode(items[0]) + EncodeItems(items[1..])
  }

  function EncodeFields(fields: seq<Field>): seq<byte>
    decreases fields
  {
    if fields == [] then []
    else EncodeString(fields[0].key) + Encode(fields[0].value) + EncodeFields(fields[1..])
  }

  /** The bytes uploaded for a document: stands for `TextEncoder.encode(JSON.stringify(j, null, 2))`. */
  function Serialize(j: Json): (r: seq<byte>)
    ensures |r| > 0
  {
    Encode(j)
  }

  // ---------------------------------------------------------------------------
  // Parsing: each decoder returns the value and the bytes left over.

  function DecodeNat(bs: seq<byte>): (r: Option<(nat, seq<byte>)>)
    ensures r.Some? ==> |r.value.1| < |bs|
    decreases |bs|
  {
    if |bs| == 0 then None
    else if bs[0] < 128 then Some((bs[0], bs[1..]))
    else
      var high :- DecodeNat(bs[1..]);
      Some((bs[0] - 128 + 128 * high.0, high.1))
  }

  function DecodeInt(bs: seq<byte>): (r: Option<(int, seq<byte>)>)
    ensures r.Some? ==> |r.value.1| < |bs|
  {
    var folded :- DecodeNat(bs);
    var k := folded.0;
    Some((if k % 2 == 0 then k / 2 else -(k + 1) / 2, folded.1))
  }

  /** Whether `k` is a Unicode scalar value, i.e. a code point Dafny's `char` can hold. */
  predicate IsScalar(k: int)
  {
    0 <= k < 0xD800 || 0xE000 <= k < 0x11_0000
  }

  function DecodeChars(n: nat, bs: seq<byte>): (r: Option<(string, seq<byte>)>)
    ensures r.Some? ==> |r.value.1| <= |bs|
    decreases n
  {
    if n == 0 then Some(([], bs))
    else
      var code :- DecodeNat(bs);
      if !IsScalar(code.0) then None
      else
        var tail :- DecodeChars(n - 1, code.1);
        Some(([code.0 as char] + tail.0, tail.1))
  }

  function DecodeString(bs: seq<byte>): (r: Option<(string, seq<byte>)>)
    ensures r.Some? ==> |r.value.1| < |bs|
  {
    var len :- DecodeNat(bs);
    DecodeChars(len.0, len.1)
  }

  function Decode(bs: seq<byte>): (r: Option<(Json, seq<byte>)>)
    ensures r.Some? ==> |r.value.1| < |bs|
    decreases |bs|, 0
  {
    if |bs| == 0 then None
    else
      var tag, body := bs[0], bs[1..];
      if tag == 0 then Some((Null, body))
      else if tag == 1 then
        if |body| > 0 && body[0] < 2 then Some((Bool(body[0] == 1), body[1..])) else None
      else if tag == 2 then
        var m :- DecodeInt(body);
        var e :- DecodeInt(m.1);
        Some((Num(m.0, e.0), e.1))
      else if tag == 3 then
        var s :- DecodeString(body);
        Some((Str(s.0), s.1))
      else if tag == 4 then
        var n :- DecodeNat(body);
        var items :- DecodeItems(n.0, n.1);
        Some((Arr(items.0), items.1))
      else if tag == 5 then
        var n :- DecodeNat(body);
        var fields :- DecodeFields(n.0, n.1);
        Some((Obj(fields.0), fields.1))
      else None
  }

  function DecodeItems(n: nat, bs: seq<byte>): (r: Option<(seq<Json>, seq<byte>)>)
    ensures r.Some? ==> |r.value.1| <= |bs|
    decreases |bs|, 1, n
  {
    if n == 0 then Some(([], bs))
    else
      var head :- Decode(bs);
      var tail :- DecodeItems(n - 1, head.1);
      Some(([head.0] + tail.0, tail.1))
  }

  function DecodeFields(n: nat, bs: seq<byte>): (r: Option<(seq<Field>, seq<byte>)>)
    ensures r.Some? ==> |r.value.1| <= |bs|
    decreases |bs|, 1, n
  {
    if n == 0 then Some(([], bs))
    else
      var key :- DecodeString(bs);
      var value :- Decode(key.1);
      var tail :- DecodeFields(n - 1, value.1);
      Some(([Field(key.0, value.0)] + tail.0, tail.1))
  }

  /** Stands for `JSON.parse(new TextDecoder().decode(bs))`: one whole value and nothing after it. */
  function Parse(bs: seq<byte>): Option<Json>
  {
    var whole :- Decode(bs);
    if whole.1 == [] then Some(whole.0) else None
  }

  // ---------------------------------------------------------------------------
  // Round trips

  lemma {:induction false} NatRoundTrip(n: nat, rest: seq<byte>)
    ensures DecodeNat(EncodeNat(n) + rest) == Some((n, rest))
    decreases n
  {
    if n >= 128 {
      var bs := EncodeNat(n) + rest;
      assert bs[1..] == EncodeNat(n / 128) + rest;
      NatRoundTrip(n / 128, rest);
    }
  }

  lemma IntRoundTrip(i: int, rest: seq<byte>)
    ensures DecodeInt(EncodeInt(i) + rest) == Some((i, rest))
  {
    NatRoundTrip(if i >= 0 then 2 * i else -2 * i - 1, rest);
  }

  lemma {:induction false} CharsRoundTrip(s: string, rest: seq<byte>)
    ensures DecodeChars(|s|, EncodeChars(s) + rest) == Some((s, rest))
    decreases s
  {
    if s != [] {
      var tail := EncodeChars(s[1..]) + rest;
      assert EncodeChars(s) + rest == EncodeNat(s[0] as int) + tail;
      NatRoundTrip(s[0] as int, tail);
      assert IsScalar(s[0] as int);
      CharsRoundTrip(s[1..], rest);
      assert DecodeNat(EncodeChars(s) + rest) == Some((s[0] as int, tail));
      assert DecodeChars(|s| - 1, tail) == Some((s[1..], rest));
      assert (s[0] as int) as char == s[0];
      assert [s[0]] + s[1..] == s;
    } else {
      assert EncodeChars(s) + rest == rest;
    }
  }

  lemma StringRoundTrip(s: string, rest: seq<byte>)
    ensures DecodeString(EncodeString(s) + rest) == Some((s, rest))
  {
    assert EncodeString(s) + rest == EncodeNat(|s|) + (EncodeChars(s) + rest);
    NatRoundTrip(|s|, EncodeChars(s) + rest);
    CharsRoundTrip(s, rest);
  }

  lemma {:induction false} RoundTrip(j: Json, rest: seq<byte>)
    ensures Decode(Encode(j) + rest) == Some((j, rest))
    decreases j
  {
    var bs := Encode(j) + rest;
    match j
    case Null =>
    case Bool(b) =>
    case Num(m, e) =>
      assert bs[1..] == EncodeInt(m) + (EncodeInt(e) + rest);
      IntRoundTrip(m, EncodeInt(e) + rest);
      IntRoundTrip(e, rest);
    case Str(s) =>
      assert bs[1..] == EncodeString(s) + rest;
      StringRoundTrip(s, rest);
    case Arr(items) =>
      ArrRoundTrip(items, rest);
    case Obj(fields) =>
      ObjRoundTrip(fields, rest);
  }

  lemma {:induction false} ArrRoundTrip(items: seq<Json>, rest: seq<byte>)
    ensures Decode(Encode(Arr(items)) + rest) == Some((Arr(items), rest))
    decreases items, 1
  {
    var bs := Encode(Arr(items)) + rest;
    var tail := EncodeItems(items) + rest;
    assert bs[0] == 4;
    assert bs[1..] == EncodeNat(|items|) + tail;
    NatRoundTrip(|items|, tail);
    ItemsRoundTrip(items, rest);
  }

  lemma {:induction false} ObjRoundTrip(fields: seq<Field>, rest: seq<byte>)
    ensures Decode(Encode(Obj(fields)) + rest) == Some((Obj(fields), rest))
    decreases fields, 1
  {
    var bs := Encode(Obj(fields)) + rest;
    var tail := EncodeFields(fields) + rest;
    assert bs[0] == 5;
    assert bs[1..] == EncodeNat(|fields|) + tail;
    NatRoundTrip(|fields|, tail);
    FieldsRoundTrip(fields, rest);
  }

  lemma {:induction false} ItemsRoundTrip(items: seq<Json>, rest: seq<byte>)
    ensures DecodeItems(|items|, EncodeItems(items) + rest) == Some((items, rest))
    decreases items, 0
  {
    if items != [] {
      var tail := EncodeItems(items[1..]) + rest;
      assert EncodeItems(items) + rest == Encode(items[0]) + tail;
      RoundTrip(items[0], tail);
      ItemsRoundTrip(items[1..], rest);
      assert DecodeItems(|items| - 1, tail) == Some((items[1..], rest));
      assert [items[0]] + items[1..] == items;
    } else {
      assert EncodeItems(items) + rest == rest;
    }
  }

  lemma {:induction false} FieldsRoundTrip(fields: seq<Field>, rest: seq<byte>)
    ensures DecodeFields(|fields|, EncodeFields(fields) + rest) == Some((fields, rest))
    decreases fields, 0
  {
    if fields != [] {
      var f := fields[0];
      var tail := EncodeFields(fields[1..]) + rest;
      assert EncodeFields(fields) + rest == EncodeString(f.key) + (Encode(f.value) + tail);
      StringRoundTrip(f.key, Encode(f.value) + tail);
      RoundTrip(f.value, tail);
      FieldsRoundTrip(fields[1..], rest);
      assert DecodeFields(|fields| - 1, tail) == Some((fields[1..], rest));
      assert [Field(f.key, f.value)] + fields[1..] == fields;
    } else {
      assert EncodeFields(fields) + rest == rest;
    }
  }

  /** A serialized document followed by further bytes is refused. */
  lemma ParseRefusesTrailing(j: Json, rest: seq<byte>)
    requires rest != []
    ensures Parse(Serialize(j) + rest) == None
  {
    RoundTrip(j, rest);
  }

  /** Parsing what was serialized gives back the same document. */
  lemma ParseSerialize(j: Json)
    ensures Parse(Serialize(j)) == Some(j)
  {
    RoundTrip(j, []);
    assert Serialize(j) + [] == Serialize(j);
  }

  /** Different documents never share their bytes. */
  lemma SerializeInjective(j1: Json, j2: Json)
    requires Serialize(j1) == Serialize(j2)
    ensures j1 == j2
  {
    ParseSerialize(j1);
    ParseSerialize(j2);
  }
}
