/** The part of Protocol Buffers Encoding that handler/v2raystats.go uses: base 128
    varints, tags, length-delimited values, and skipping a field of any wire type. */
module Wire {

  type byte = b: int | 0 <= b < 256

  type Bytes = seq<byte>

  datatype Error = Truncated | FieldNumber | Overflow | Reserved | EndGroup | RecursionDepth

  /** A value and the number of bytes it took. */
  datatype Consumed<+T> = Ok(value: T, n: nat) | Err(error: Error)

  /** The number of bytes a skipped field took. */
  datatype Skipped = Past(n: nat) | Stuck(error: Error)

  const VARINT := 0
  const FIXED64 := 1
  const LEN := 2
  const START_GROUP := 3
  const END_GROUP := 4
  const FIXED32 := 5

  const U64 := 0x1_0000_0000_0000_0000

  /** How deep groups may nest inside a skipped field. */
  const RECURSION_LIMIT := 10000

  // ---- varints ----

  /** What a varint can still hold after `k` bytes: 2 to the power 64 - 7k. */
  function Room(k: nat): nat
    requires k <= 9
    decreases 9 - k
  {
    if k == 9 then 2 else 128 * Room(k + 1)
  }

  lemma RoomIs64Bits()
    ensures Room(0) == U64
  {
  }

  /** The rest of a varint of which `k` bytes have been read; the tenth byte may only be 0 or 1. */
  function VarintAfter(b: Bytes, k: nat): (r: Consumed<nat>)
    requires k <= 9
    ensures r.Ok? ==> 0 < r.n <= |b|
    decreases 9 - k
  {
    if b == [] then Err(Truncated)
    else if k == 9 then (if b[0] < 2 then Ok(b[0], 1) else Err(Overflow))
    else if b[0] < 128 then Ok(b[0], 1)
    else
      match VarintAfter(b[1..], k + 1)
      case Ok(v, n) => Ok(b[0] - 128 + 128 * v, n + 1)
      case Err(e) => Err(e)
  }

  lemma {:induction false} LeastRoom(k: nat)
    requires k < 9
    ensures Room(k) >= 256
    decreases 9 - k
  {
    if k < 8 { LeastRoom(k + 1); }
  }

  /** A varint never holds more than 64 bits. */
  lemma {:induction false} VarintFits(b: Bytes, k: nat)
    requires k <= 9 && VarintAfter(b, k).Ok?
    ensures VarintAfter(b, k).value < Room(k)
    decreases 9 - k
  {
    if k < 9 {
      if b[0] < 128 { LeastRoom(k); } else { VarintFits(b[1..], k + 1); }
    }
  }

  function ConsumeVarint(b: Bytes): (r: Consumed<nat>)
    ensures r.Ok? ==> 0 < r.n <= |b|
  {
    VarintAfter(b, 0)
  }

  function AppendVarint(v: nat): (b: Bytes)
    ensures b != []
  {
    if v < 128 then [v] else [v % 128 + 128] + AppendVarint(v / 128)
  }

  lemma {:induction false} VarintBack(v: nat, k: nat)
    requires k <= 9 && v < Room(k)
    ensures VarintAfter(AppendVarint(v), k) == Ok(v, |AppendVarint(v)|)
    decreases 9 - k
  {
    if v >= 128 {
      assert v / 128 < Room(k + 1);
      VarintBack(v / 128, k + 1);
      assert AppendVarint(v)[1..] == AppendVarint(v / 128);
    }
  }

  // ---- tags and values ----

  datatype Tag = Tag(num: int, typ: int)

  function DecodeTag(v: nat): (t: Tag) ensures 0 <= t.typ < 8 && v == 8 * t.num + t.typ { Tag(v / 8, v % 8) }

  /** Field numbers start at 1 and fit 31 bits. */
  function ConsumeTag(b: Bytes): (r: Consumed<Tag>)
    ensures r.Ok? ==> 0 < r.n <= |b| && 1 <= r.value.num && 0 <= r.value.typ < 8
  {
    match ConsumeVarint(b)
    case Err(e) => Err(e)
    case Ok(v, n) =>
      var tag := DecodeTag(v); if tag.num > 0x7FFF_FFFF || tag.num < 1 then Err(FieldNumber) else Ok(tag, n)
  }

  function AppendTag(num: nat, typ: nat): (b: Bytes)
    ensures b != []
  {
    AppendVarint(num * 8 + typ)
  }

  function ConsumeBytes(b: Bytes): (r: Consumed<Bytes>)
    ensures r.Ok? ==> 0 < r.n <= |b| && |r.value| < r.n
  {
    match ConsumeVarint(b)
    case Err(e) => Err(e)
    case Ok(m, n) => if m > |b| - n then Err(Truncated) else Ok(b[n..n + m], n + m)
  }

  function AppendBytes(v: Bytes): Bytes {
    AppendVarint(|v|) + v
  }

  function SkipFixed(b: Bytes, size: nat): Skipped {
    if |b| < size then Stuck(Truncated) else Past(size)
  }

  // ---- skipping a field ----

  /** The value of a field that is not a group. */
  function SkipScalar(typ: int, b: Bytes): (r: Skipped)
    ensures r.Past? ==> r.n <= |b|
  {
    if typ == VARINT then
      match ConsumeVarint(b) case Ok(_, n) => Past(n) case Err(e) => Stuck(e)
    else if typ == FIXED64 then SkipFixed(b, 8)
    else if typ == LEN then
      match ConsumeBytes(b) case Ok(_, n) => Past(n) case Err(e) => Stuck(e)
    else if typ == FIXED32 then SkipFixed(b, 4)
    else if typ == END_GROUP then Stuck(EndGroup)
    else Stuck(Reserved)
  }

  /** The value of a field whose tag has been read. */
  function Skip(num: int, typ: int, b: Bytes, depth: int): (r: Skipped)
    ensures r.Past? ==> r.n <= |b|
    decreases |b|, 1
  {
    if typ != START_GROUP then SkipScalar(typ, b)
    else if depth < 0 then Stuck(RecursionDepth)
    else SkipGroup(num, b, depth)
  }

  /** The fields of a group, up to and including its end tag. */
  function SkipGroup(num: int, b: Bytes, depth: int): (r: Skipped)
    ensures r.Past? ==> 0 < r.n <= |b|
    decreases |b|, 0
  {
    match ConsumeTag(b)
    case Err(e) => Stuck(e)
    case Ok(tag, n) =>
      if tag.typ == END_GROUP then
        if tag.num != num then Stuck(EndGroup) else Past(n)
      else
        var field := Skip(tag.num, tag.typ, b[n..], depth - 1);
        if field.Stuck? then field else Later(SkipGroup(num, b[n + field.n..], depth), n + field.n)
  }

  function Later(r: Skipped, n: nat): Skipped {
    if r.Past? then Past(n + r.n) else r
  }

  // ---- bytes that follow do not matter ----

  lemma Slice(a: Bytes, b: Bytes, n: nat)
    requires n <= |a|
    ensures (a + b)[n..] == a[n..] + b
  {}

  lemma Slices(head: Bytes, value: Bytes, tail: Bytes)
    ensures (head + (value + tail))[|head|..] == value + tail
    ensures (head + (value + tail))[|head| + |value|..] == tail
  {}

  lemma {:induction false} VarintPrefix(a: Bytes, b: Bytes, k: nat)
    requires k <= 9 && VarintAfter(a, k).Ok?
    ensures VarintAfter(a + b, k) == VarintAfter(a, k)
    decreases 9 - k
  {
    if k < 9 && a[0] >= 128 {
      assert (a + b)[1..] == a[1..] + b;
      VarintPrefix(a[1..], b, k + 1);
    }
  }

  lemma TagPrefix(a: Bytes, b: Bytes)
    requires ConsumeTag(a).Ok?
    ensures ConsumeTag(a + b) == ConsumeTag(a)
  {
    VarintPrefix(a, b, 0);
  }

  lemma BytesPrefix(a: Bytes, b: Bytes)
    requires ConsumeBytes(a).Ok?
    ensures ConsumeBytes(a + b) == ConsumeBytes(a)
  {
    VarintPrefix(a, b, 0);
    var v := ConsumeVarint(a);
    assert (a + b)[v.n..v.n + v.value] == a[v.n..v.n + v.value];
  }

  lemma {:induction false} SkipPrefix(num: int, typ: int, a: Bytes, b: Bytes, depth: int)
    requires Skip(num, typ, a, depth).Past?
    ensures Skip(num, typ, a + b, depth) == Skip(num, typ, a, depth)
    decreases |a|, 1
  {
    if typ == START_GROUP { GroupPrefix(num, a, b, depth); } else { ScalarPrefix(typ, a, b); }
  }

  lemma ScalarPrefix(typ: int, a: Bytes, b: Bytes)
    requires SkipScalar(typ, a).Past?
    ensures SkipScalar(typ, a + b) == SkipScalar(typ, a)
  {
    if typ == VARINT { VarintPrefix(a, b, 0); }
    else if typ == LEN { BytesPrefix(a, b); }
  }

  lemma {:induction false} GroupPrefix(num: int, a: Bytes, b: Bytes, depth: int)
    requires SkipGroup(num, a, depth).Past?
    ensures SkipGroup(num, a + b, depth) == SkipGroup(num, a, depth)
    decreases |a|, 0, 1
  {
    var tag, n, m := GroupParts(num, a, depth);
    if tag.typ == END_GROUP {
      GroupEndPrefix(num, a, b, depth, tag, n);
    } else {
      GroupMore(num, a, b, depth, tag, n, m);
    }
  }

  lemma GroupEndPrefix(num: int, a: Bytes, b: Bytes, depth: int, tag: Tag, n: nat)
    requires ConsumeTag(a) == Ok(tag, n) && tag.typ == END_GROUP
    ensures SkipGroup(num, a + b, depth) == SkipGroup(num, a, depth)
  {
    TagPrefix(a, b);
    GroupEnd(num, a, depth, tag, n);
    GroupEnd(num, a + b, depth, tag, n);
  }

  /** The tag a group goes on with and, unless it ends the group, the length of that field. */
  lemma GroupParts(num: int, a: Bytes, depth: int) returns (tag: Tag, n: nat, m: nat)
    requires SkipGroup(num, a, depth).Past?
    ensures ConsumeTag(a) == Ok(tag, n) && n <= |a|
    ensures tag.typ != END_GROUP ==>
              && Skip(tag.num, tag.typ, a[n..], depth - 1) == Past(m) && n + m <= |a|
              && SkipGroup(num, a[n + m..], depth).Past?
  {
    tag, n, m := ConsumeTag(a).value, ConsumeTag(a).n, 0;
    if tag.typ != END_GROUP { m := Skip(tag.num, tag.typ, a[n..], depth - 1).n; }
  }

  lemma {:induction false} GroupMore(num: int, a: Bytes, b: Bytes, depth: int, tag: Tag, n: nat, m: nat)
    requires ConsumeTag(a) == Ok(tag, n) && tag.typ != END_GROUP && n + m <= |a|
    requires Skip(tag.num, tag.typ, a[n..], depth - 1) == Past(m) && SkipGroup(num, a[n + m..], depth).Past?
    ensures SkipGroup(num, a + b, depth) == SkipGroup(num, a, depth)
    decreases |a|, 0, 0
  {
    TagPrefix(a, b);
    SkipPrefix(tag.num, tag.typ, a[n..], b, depth - 1);
    GroupPrefix(num, a[n + m..], b, depth);
    GroupJoin(num, a, b, depth, tag, n, a[n..], m, a[n + m..]);
  }

  lemma GroupJoin(num: int, a: Bytes, b: Bytes, depth: int, tag: Tag, n: nat, rest: Bytes, m: nat, tail: Bytes)
    requires ConsumeTag(a) == ConsumeTag(a + b) == Ok(tag, n) && tag.typ != END_GROUP && n <= |a| && a[n..] == rest
    requires Skip(tag.num, tag.typ, rest, depth - 1) == Skip(tag.num, tag.typ, rest + b, depth - 1) == Past(m)
    requires n + m <= |a| && a[n + m..] == tail && SkipGroup(num, tail + b, depth) == SkipGroup(num, tail, depth)
    ensures SkipGroup(num, a + b, depth) == SkipGroup(num, a, depth)
  {
    GroupField(num, a, depth, tag, n, rest, m, tail);
    GroupFieldPrefix(num, a, b, depth, tag, n, rest, m, tail);
  }

  lemma GroupEnd(num: int, b: Bytes, depth: int, tag: Tag, n: nat)
    requires ConsumeTag(b) == Ok(tag, n) && tag.typ == END_GROUP
    ensures SkipGroup(num, b, depth) == if tag.num != num then Stuck(EndGroup) else Past(n)
  {}

  lemma GroupFieldPrefix(num: int, a: Bytes, b: Bytes, depth: int, tag: Tag, n: nat, rest: Bytes, m: nat, tail: Bytes)
    requires ConsumeTag(a + b) == Ok(tag, n) && tag.typ != END_GROUP && n <= |a| && a[n..] == rest
    requires Skip(tag.num, tag.typ, rest + b, depth - 1) == Past(m)
    requires n + m <= |a| && a[n + m..] == tail
    ensures SkipGroup(num, a + b, depth) == Later(SkipGroup(num, tail + b, depth), n + m)
  {
    Slice(a, b, n);
    Slice(a, b, n + m);
    GroupField(num, a + b, depth, tag, n, rest + b, m, tail + b);
  }

  /** One field of a group, with what follows it. */
  lemma GroupField(num: int, b: Bytes, depth: int, tag: Tag, n: nat, rest: Bytes, m: nat, tail: Bytes)
    requires ConsumeTag(b) == Ok(tag, n) && tag.typ != END_GROUP && b[n..] == rest
    requires Skip(tag.num, tag.typ, rest, depth - 1) == Past(m)
    requires n + m <= |b| && b[n + m..] == tail
    ensures SkipGroup(num, b, depth) == Later(SkipGroup(num, tail, depth), n + m)
  {
    var after := SkipGroup(num, tail, depth);
    assert SkipGroup(num, b[n + m..], depth) == after;
    assert Skip(tag.num, tag.typ, b[n..], depth - 1) == Past(m);
    assert SkipGroup(num, b, depth) == Later(after, n + m);
  }

  // ---- fields, and how they are written ----

  datatype Field = Field(num: nat, value: Value)

  datatype Value =
    | VarintValue(v: nat)
    | Fixed64Value(bytes: Bytes)
    | LenValue(bytes: Bytes)
    | GroupValue(fields: seq<Field>)
    | Fixed32Value(bytes: Bytes)

  function TypeOf(v: Value): nat {
    match v
    case VarintValue(_) => VARINT
    case Fixed64Value(_) => FIXED64
    case LenValue(_) => LEN
    case GroupValue(_) => START_GROUP
    case Fixed32Value(_) => FIXED32
  }

  predicate ValidNumber(num: nat) { 1 <= num < 0x2000_0000 }

  predicate WellFormed(f: Field, depth: int)
    decreases f
  {
    ValidNumber(f.num)
    && match f.value
       case VarintValue(v) => v < U64
       case Fixed64Value(b) => |b| == 8
       case LenValue(b) => |b| < U64
       case GroupValue(fields) => depth >= 0 && forall k | 0 <= k < |fields| :: WellFormed(fields[k], depth - 1)
       case Fixed32Value(b) => |b| == 4
  }

  function Encode(f: Field): Bytes
    decreases f, 1
  {
    AppendTag(f.num, TypeOf(f.value)) + EncodeValue(f)
  }

  function EncodeValue(f: Field): Bytes
    decreases f, 0
  {
    match f.value
    case VarintValue(v) => AppendVarint(v)
    case Fixed64Value(b) => b
    case LenValue(b) => AppendBytes(b)
    case GroupValue(fields) => EncodeAll(fields) + AppendTag(f.num, END_GROUP)
    case Fixed32Value(b) => b
  }

  function EncodeAll(fields: seq<Field>): Bytes
    decreases fields
  {
    if fields == [] then [] else Encode(fields[0]) + EncodeAll(fields[1..])
  }

  lemma TagBack(num: nat, typ: nat, rest: Bytes)
    requires ValidNumber(num) && typ < 8
    ensures ConsumeTag(AppendTag(num, typ) + rest) == Ok(Tag(num, typ), |AppendTag(num, typ)|)
  {
    RoomIs64Bits();
    VarintBack(num * 8 + typ, 0);
    VarintPrefix(AppendTag(num, typ), rest, 0);
  }

  lemma BytesBack(v: Bytes, rest: Bytes)
    requires |v| < U64
    ensures ConsumeBytes(AppendBytes(v) + rest) == Ok(v, |AppendBytes(v)|)
  {
    RoomIs64Bits();
    VarintBack(|v|, 0);
    var head := AppendVarint(|v|);
    assert AppendBytes(v) + rest == head + (v + rest);
    VarintPrefix(head, v + rest, 0);
    assert (AppendBytes(v) + rest)[|head|..|head| + |v|] == v;
  }

  lemma VarintValueBack(v: nat, rest: Bytes)
    requires v < U64
    ensures ConsumeVarint(AppendVarint(v) + rest) == Ok(v, |AppendVarint(v)|)
  {
    RoomIs64Bits();
    VarintBack(v, 0);
    VarintPrefix(AppendVarint(v), rest, 0);
  }

  lemma Assoc(a: Bytes, b: Bytes, c: Bytes)
    ensures (a + b) + c == a + (b + c)
  {}

  /** Any well-formed field is skipped exactly, nested groups included. */
  lemma {:induction false} SkipBack(f: Field, rest: Bytes, depth: int)
    requires WellFormed(f, depth)
    ensures Skip(f.num, TypeOf(f.value), EncodeValue(f) + rest, depth) == Past(|EncodeValue(f)|)
    decreases f, 1
  {
    match f.value
    case VarintValue(v) => VarintValueBack(v, rest);
    case LenValue(b) => BytesBack(b, rest);
    case GroupValue(fields) =>
      SkipGroupBack(f.num, fields, rest, depth);
      Assoc(EncodeAll(fields), AppendTag(f.num, END_GROUP), rest);
    case _ =>
  }

  lemma {:induction false} SkipGroupBack(num: nat, fields: seq<Field>, rest: Bytes, depth: int)
    requires ValidNumber(num) && depth >= 0 && forall k | 0 <= k < |fields| :: WellFormed(fields[k], depth - 1)
    ensures SkipGroup(num, EncodeAll(fields) + (AppendTag(num, END_GROUP) + rest), depth)
            == Past(|EncodeAll(fields)| + |AppendTag(num, END_GROUP)|)
    decreases fields
  {
    var end := AppendTag(num, END_GROUP) + rest;
    if fields == [] {
      TagBack(num, END_GROUP, rest);
      assert EncodeAll(fields) + end == end;
    } else {
      var f, tail := fields[0], EncodeAll(fields[1..]) + end;
      SkipBack(f, tail, depth - 1);
      SkipGroupBack(num, fields[1..], rest, depth);
      TagBack(f.num, TypeOf(f.value), EncodeValue(f) + tail);
      var head, value := AppendTag(f.num, TypeOf(f.value)), EncodeValue(f);
      Assoc(Encode(f), EncodeAll(fields[1..]), end);
      Assoc(head, value, tail);
      Slices(head, value, tail);
      GroupField(num, EncodeAll(fields) + end, depth, Tag(f.num, TypeOf(f.value)), |head|, value + tail, |value|, tail);
    }
  }
}
