/** Trimming a JSON value that would be too long, field by field. */
module CompactJson {
  import opened Prelude
  import opened Utf8
  import opened CompactText

  const JSON_COMPACT_THRESHOLD := 20000
  const STRING_FIELD_LIMIT := 8000
  const ARRAY_ITEM_LIMIT := 200

  datatype Json =
    | Null
    | Boolean(value: bool)
    | Number(literal: string)
    | Text(text: Bytes)
    | List(items: seq<Json>)
    | Object(members: seq<Member>)

  datatype Member = Member(key: Bytes, json: Json)

  // How a value is written: compactly, with the escapes of section 7 of RFC 8259.

  function HexDigit(n: int): Byte { if n < 10 then 0x30 + n else 0x57 + n }

  function Escaped(b: Byte): Bytes {
    if b == 0x22 || b == 0x5C then [0x5C, b]
    else if b == 0x08 then Ascii("\\b")
    else if b == 0x09 then Ascii("\\t")
    else if b == 0x0A then Ascii("\\n")
    else if b == 0x0C then Ascii("\\f")
    else if b == 0x0D then Ascii("\\r")
    else if 0 <= b < 0x20 then Ascii("\\u00") + [HexDigit(b / 16), HexDigit(b % 16)]
    else [b]
  }

  function EscapedText(text: Bytes): Bytes {
    if text == [] then [] else EscapedText(text[..|text| - 1]) + Escaped(text[|text| - 1])
  }

  function Quoted(text: Bytes): Bytes { [0x22] + EscapedText(text) + [0x22] }

  function Serialized(v: Json): Bytes {
    match v
    case Null => Ascii("null")
    case Boolean(value) => if value then Ascii("true") else Ascii("false")
    case Number(literal) => Ascii(literal)
    case Text(text) => Quoted(text)
    case List(items) => Ascii("[") + SerializedItems(items) + Ascii("]")
    case Object(members) => Ascii("{") + SerializedMembers(members) + Ascii("}")
  }

  function SerializedItems(items: seq<Json>): Bytes {
    if items == [] then [] else
      var last := Serialized(items[|items| - 1]);
      if |items| == 1 then last else SerializedItems(items[..|items| - 1]) + Ascii(",") + last
  }

  function SerializedMembers(members: seq<Member>): Bytes {
    if members == [] then [] else
      var m := members[|members| - 1];
      var last := Quoted(m.key) + Ascii(":") + Serialized(m.json);
      if |members| == 1 then last else SerializedMembers(members[..|members| - 1]) + Ascii(",") + last
  }

  function ReadHex(d: Byte): int { if d < 0x3A then d - 0x30 else d - 0x57 }

  /** What stands for a byte in a string: itself, a backslash and a letter, or a backslash, `u` and four digits. */
  ghost predicate StandsFor(e: Bytes, b: Byte) {
    if |e| == 1 then e[0] == b && b >= 0x20 && b != 0x22 && b != 0x5C
    else if |e| == 2 then
      e[0] == 0x5C && (b, e[1]) in {(0x22, 0x22), (0x5C, 0x5C), (0x08, 0x62), (0x09, 0x74), (0x0A, 0x6E), (0x0C, 0x66),
                                    (0x0D, 0x72)}
    else
      && |e| == 6 && e[..4] == [0x5C, 0x75, 0x30, 0x30] && b == 16 * ReadHex(e[4]) + ReadHex(e[5])
      && forall i :: 4 <= i < 6 ==> 0x30 <= e[i] <= 0x39 || 0x61 <= e[i] <= 0x66
  }

  lemma EscapeReads(b: Byte)
    requires 0 <= b <= 0xFF
    ensures StandsFor(Escaped(b), b)
  {
  }

  // How long that is: every string with its quotes, one byte more for a byte that a backslash escapes, five more for
  // another control character, and a comma between any two items.

  function ShortEscape(): Byte -> bool { b => b in [0x22, 0x5C, 0x08, 0x09, 0x0A, 0x0C, 0x0D] }

  function LongEscape(): Byte -> bool { b => 0 <= b < 0x20 && !(0x08 <= b <= 0x0A) && b != 0x0C && b != 0x0D }

  function StringSize(text: Bytes): nat {
    2 + |text| + |Filter(ShortEscape(), text)| + 5 * |Filter(LongEscape(), text)|
  }

  function JsonSize(v: Json): nat {
    match v
    case Null => 4
    case Boolean(value) => if value then 4 else 5
    case Number(literal) => |literal|
    case Text(text) => StringSize(text)
    case List(items) => 2 + ItemsSize(items) + Commas(|items|)
    case Object(members) => 2 + MembersSize(members) + Commas(|members|)
  }

  function Commas(n: nat): nat { if n == 0 then 0 else n - 1 }

  function ItemsSize(items: seq<Json>): nat {
    if items == [] then 0 else ItemsSize(items[..|items| - 1]) + JsonSize(items[|items| - 1])
  }

  function MembersSize(members: seq<Member>): nat {
    if members == [] then 0 else
      var last := members[|members| - 1];
      MembersSize(members[..|members| - 1]) + StringSize(last.key) + 1 + JsonSize(last.json)
  }

  lemma {:induction false} EscapedSize(text: Bytes)
    ensures |EscapedText(text)| + 2 == StringSize(text)
  {
    if text != [] {
      EscapedSize(text[..|text| - 1]);
      EscapeSize(text[|text| - 1]);
    }
  }

  lemma EscapeSize(b: Byte)
    ensures |Escaped(b)| == if ShortEscape()(b) then 2 else if LongEscape()(b) then 6 else 1
    ensures !(ShortEscape()(b) && LongEscape()(b))
  {
  }

  lemma {:induction false} SerializedSize(v: Json)
    ensures |Serialized(v)| == JsonSize(v)
    decreases v, 1
  {
    match v
    case Text(text) => EscapedSize(text);
    case List(items) => SerializedItemsSize(items);
    case Object(members) => SerializedMembersSize(members);
    case _ =>
  }

  lemma {:induction false} SerializedItemsSize(items: seq<Json>)
    ensures |SerializedItems(items)| == ItemsSize(items) + Commas(|items|)
    decreases items, 0
  {
    if items != [] {
      SerializedItemsSize(items[..|items| - 1]);
      SerializedSize(items[|items| - 1]);
    }
  }

  lemma {:induction false} SerializedMembersSize(members: seq<Member>)
    ensures |SerializedMembers(members)| == MembersSize(members) + Commas(|members|)
    decreases members, 0
  {
    if members != [] {
      SerializedMembersSize(members[..|members| - 1]);
      EscapedSize(members[|members| - 1].key);
      SerializedSize(members[|members| - 1].json);
    }
  }

  // The size check.

  /** Counts what is written to it, and refuses once that is more than the limit. */
  class ByteCountBudget {
    var count: nat
    const limit: nat

    constructor (most: nat)
      ensures count == 0 && limit == most
    {
      count, limit := 0, most;
    }

    method Write(buffer: Bytes) returns (ok: bool)
      modifies this
      ensures count == old(count) + |buffer| && (ok <==> count <= limit)
    {
      count := count + |buffer|;
      ok := count <= limit;
    }
  }

  lemma FlattenNext(writes: seq<Bytes>, k: nat)
    requires k < |writes|
    ensures |Flatten(writes[..k + 1])| == |Flatten(writes[..k])| + |writes[k]| <= |Flatten(writes)|
  {
    assert writes[..k + 1] == writes[..k] + [writes[k]];
    FlattenAppend(writes[..k], [writes[k]]);
    assert Flatten([writes[k]]) == writes[k] by { assert [writes[k]][1..] == []; }
    assert writes == writes[..k + 1] + writes[k + 1..];
    FlattenAppend(writes[..k + 1], writes[k + 1..]);
  }

  /** The serialiser stops at the first refused write; how it divides its output makes no difference. */
  method ExceedsByteThreshold(writes: seq<Bytes>, limit: nat) returns (exceeds: bool)
    ensures exceeds <==> |Flatten(writes)| > limit
  {
    var counter := new ByteCountBudget(limit);
    for i := 0 to |writes|
      invariant counter.count == |Flatten(writes[..i])| <= limit == counter.limit
    {
      FlattenNext(writes, i);
      var ok := counter.Write(writes[i]);
      if !ok {
        return true;
      }
    }
    assert writes[..|writes|] == writes;
    return false;
  }

  // What trimming does.

  function Kept(items: seq<Json>): seq<Json> {
    if |items| <= ARRAY_ITEM_LIMIT then items else items[..ARRAY_ITEM_LIMIT]
  }

  function Trimmed(v: Json): Json {
    match v
    case Text(text) => Text(Compacted(text, STRING_FIELD_LIMIT).0)
    case List(items) => List(TrimmedItems(Kept(items)))
    case Object(members) => Object(TrimmedMembers(members))
    case _ => v
  }

  function TrimmedItems(items: seq<Json>): (r: seq<Json>)
    ensures |r| == |items|
  {
    if items == [] then [] else TrimmedItems(items[..|items| - 1]) + [Trimmed(items[|items| - 1])]
  }

  function TrimmedMembers(members: seq<Member>): (r: seq<Member>)
    ensures |r| == |members|
  {
    if members == [] then [] else
      var last := members[|members| - 1];
      TrimmedMembers(members[..|members| - 1]) + [Member(last.key, Trimmed(last.json))]
  }

  /** Some string that is kept is over its limit, or some array that is kept. */
  predicate Oversized(v: Json) {
    match v
    case Text(text) => |text| > 8000
    case List(items) => |items| > 200 || exists i :: 0 <= i < |Kept(items)| && Oversized(Kept(items)[i])
    case Object(members) => exists i :: 0 <= i < |members| && Oversized(members[i].json)
    case _ => false
  }

  lemma {:induction false} ItemTrimmed(items: seq<Json>, i: nat)
    requires i < |items|
    ensures TrimmedItems(items)[i] == Trimmed(items[i])
  {
    if i < |items| - 1 {
      ItemTrimmed(items[..|items| - 1], i);
    }
  }

  lemma {:induction false} MemberTrimmed(members: seq<Member>, i: nat)
    requires i < |members|
    ensures TrimmedMembers(members)[i] == Member(members[i].key, Trimmed(members[i].json))
  {
    if i < |members| - 1 {
      MemberTrimmed(members[..|members| - 1], i);
    }
  }

  // The recursion as it runs, with the flag it sets.

  method CompactValue(v: Json, flag: bool) returns (r: Json, truncated: bool)
    ensures r == Trimmed(v) && (truncated <==> flag || Oversized(v))
    decreases v
  {
    r, truncated := v, flag;
    match v
    case Text(text) =>
      var compacted := Compacted(text, STRING_FIELD_LIMIT);
      r, truncated := Text(compacted.0), flag || compacted.1;
    case List(items) =>
      var done;
      done, truncated := CompactItems(Kept(items), flag || |items| > ARRAY_ITEM_LIMIT);
      r := List(done);
    case Object(members) =>
      var done;
      done, truncated := CompactMembers(members, flag);
      r := Object(done);
    case _ =>
  }

  method CompactItems(items: seq<Json>, flag: bool) returns (done: seq<Json>, truncated: bool)
    ensures done == TrimmedItems(items)
    ensures truncated <==> flag || exists i :: 0 <= i < |items| && Oversized(items[i])
    decreases items
  {
    done, truncated := [], flag;
    for i := 0 to |items|
      invariant done == TrimmedItems(items[..i])
      invariant truncated <==> flag || exists k :: 0 <= k < i && Oversized(items[k])
    {
      assert items[..i + 1][..i] == items[..i];
      var item;
      item, truncated := CompactValue(items[i], truncated);
      done := done + [item];
    }
    assert items[..|items|] == items;
  }

  method CompactMembers(members: seq<Member>, flag: bool) returns (done: seq<Member>, truncated: bool)
    ensures done == TrimmedMembers(members)
    ensures truncated <==> flag || exists i :: 0 <= i < |members| && Oversized(members[i].json)
    decreases members
  {
    done, truncated := [], flag;
    for i := 0 to |members|
      invariant done == TrimmedMembers(members[..i])
      invariant truncated <==> flag || exists k :: 0 <= k < i && Oversized(members[k].json)
    {
      assert members[..i + 1][..i] == members[..i];
      var json;
      json, truncated := CompactValue(members[i].json, truncated);
      done := done + [Member(members[i].key, json)];
    }
    assert members[..|members|] == members;
  }

  // What is promised of it.

  ghost predicate ValidJson(v: Json) {
    match v
    case Text(text) => Valid(text)
    case List(items) => forall i :: 0 <= i < |items| ==> ValidJson(items[i])
    case Object(members) => forall i :: 0 <= i < |members| ==> Valid(members[i].key) && ValidJson(members[i].json)
    case _ => true
  }

  /** A long string is replaced by its head, a marker and its tail. */
  ghost predicate SameText(text: Bytes, r: Bytes) {
    if |text| <= 8000 then r == text
    else Valid(r) && exists p: Parts :: CutRight(text, 8000, p) && Assembles(r, p)
  }

  /** The same keys in the same order, the same scalars, arrays cut to a prefix, strings cut in the middle. */
  ghost predicate SameShape(v: Json, r: Json) {
    match v
    case Text(text) => r.Text? && SameText(text, r.text)
    case List(items) =>
      && r.List? && |r.items| == (if |items| <= 200 then |items| else 200)
      && forall i :: 0 <= i < |r.items| ==> SameShape(items[i], r.items[i])
    case Object(members) =>
      && r.Object? && |r.members| == |members|
      && forall i :: 0 <= i < |members| ==>
        r.members[i].key == members[i].key && SameShape(members[i].json, r.members[i].json)
    case _ => r == v
  }

  lemma {:induction false} TrimKeepsShape(v: Json)
    requires ValidJson(v)
    ensures SameShape(v, Trimmed(v)) && ValidJson(Trimmed(v))
  {
    match v
    case Text(text) =>
      CompactedFits(text, STRING_FIELD_LIMIT);
    case List(items) =>
      forall i | 0 <= i < |Kept(items)|
        ensures SameShape(items[i], Trimmed(v).items[i]) && ValidJson(Trimmed(v).items[i])
      {
        ItemTrimmed(Kept(items), i);
        TrimKeepsShape(items[i]);
      }
    case Object(members) =>
      forall i | 0 <= i < |members|
        ensures Trimmed(v).members[i].key == members[i].key
        ensures SameShape(members[i].json, Trimmed(v).members[i].json) && ValidJson(Trimmed(v).members[i].json)
      {
        MemberTrimmed(members, i);
        TrimKeepsShape(members[i].json);
      }
    case _ =>
  }

  /** Where nothing is over its limit nothing changes. */
  lemma {:induction false} TrimIdentity(v: Json)
    requires !Oversized(v)
    ensures Trimmed(v) == v
  {
    match v
    case Text(text) =>
    case List(items) =>
      forall i | 0 <= i < |items| ensures TrimmedItems(items)[i] == items[i] {
        ItemTrimmed(items, i);
        assert Kept(items)[i] == items[i];
        TrimIdentity(items[i]);
      }
      assert TrimmedItems(items) == items;
    case Object(members) =>
      forall i | 0 <= i < |members| ensures TrimmedMembers(members)[i] == members[i] {
        MemberTrimmed(members, i);
        TrimIdentity(members[i].json);
      }
      assert TrimmedMembers(members) == members;
    case _ =>
  }

  ghost predicate HasMember(v: Json, key: Bytes, json: Json) {
    v.Object? && Member(key, json) in v.members
  }

  method FindMember(v: Json, key: Bytes) returns (found: Option<Json>)
    ensures found.Some? ==> HasMember(v, key, found.value)
    ensures found == None ==> forall json :: !HasMember(v, key, json)
  {
    if v.Object? {
      for i := 0 to |v.members|
        invariant forall k :: 0 <= k < i ==> v.members[k].key != key
      {
        if v.members[i].key == key {
          return Some(v.members[i].json);
        }
      }
    }
    return None;
  }

  /** `writes` is how the serialiser divides its output; it makes no difference. */
  method CompactJson(v: Json, compactKey: Option<Bytes>, writes: seq<Bytes>) returns (r: Json, truncated: bool)
    requires ValidJson(v) && Flatten(writes) == Serialized(v)
    ensures compactKey.Some? && (exists json :: HasMember(v, compactKey.value, json)) ==>
              HasMember(v, compactKey.value, r) && !truncated
    ensures compactKey == None || (forall json :: !HasMember(v, compactKey.value, json)) ==>
              && (truncated <==> JsonSize(v) > 20000 && Oversized(v))
              && (!truncated ==> r == v)
              && (truncated ==> SameShape(v, r) && ValidJson(r))
  {
    if compactKey.Some? {
      var sub := FindMember(v, compactKey.value);
      if sub.Some? {
        return sub.value, false;
      }
    }
    SerializedSize(v);
    var exceeds := ExceedsByteThreshold(writes, JSON_COMPACT_THRESHOLD);
    if !exceeds {
      return v, false;
    }
    r, truncated := CompactValue(v, false);
    TrimKeepsShape(v);
    if !truncated {
      TrimIdentity(v);
    }
  }
}
