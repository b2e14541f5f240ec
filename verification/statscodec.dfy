/** The StatsService response codec (handler/v2raystats.go:109-197). */
module StatsCodec {
  import opened Wire

  datatype Stat = Stat(name: Bytes, value: int)

  datatype Decoded<+T> = Good(value: T) | Bad(error: Error)

  const NO_STAT := Stat([], 0)

  /** int64(v): the two's complement reading of 64 bits. */
  function ToInt64(v: nat): int {
    if v < 0x8000_0000_0000_0000 then v else v - U64
  }

  function ToUint64(i: int): nat
    requires IsInt64(i)
  {
    if i >= 0 then i else i + U64
  }

  predicate IsInt64(i: int) { -0x8000_0000_0000_0000 <= i < 0x8000_0000_0000_0000 }

  // ---- decoding ----

  /** One field of a Stat, read into `s`; an unknown one is skipped. */
  function NextField(data: Bytes, s: Stat): (r: Consumed<Stat>)
    ensures r.Ok? ==> 0 < r.n <= |data|
  {
    match ConsumeTag(data)
    case Err(e) => Err(e)
    case Ok(tag, n) =>
      var rest := data[n..];
      if tag == Tag(1, LEN) then
        match ConsumeBytes(rest) case Err(e) => Err(e) case Ok(name, m) => Ok(s.(name := name), n + m)
      else if tag == Tag(2, VARINT) then
        match ConsumeVarint(rest) case Err(e) => Err(e) case Ok(v, m) => Ok(s.(value := ToInt64(v)), n + m)
      else
        match Skip(tag.num, tag.typ, rest, RECURSION_LIMIT) case Stuck(e) => Err(e) case Past(m) => Ok(s, n + m)
  }

  /** parseStat from the point where `s` has been read. Later fields win. */
  function DecodeStat(data: Bytes, s: Stat): Decoded<Stat>
    decreases |data|
  {
    if data == [] then Good(s)
    else match NextField(data, s) case Err(e) => Bad(e) case Ok(s', n) => DecodeStat(data[n..], s')
  }

  /** One field of a response: at most one stat. */
  function NextItem(data: Bytes): (r: Consumed<seq<Stat>>)
    ensures r.Ok? ==> 0 < r.n <= |data|
  {
    match ConsumeTag(data)
    case Err(e) => Err(e)
    case Ok(tag, n) =>
      var rest := data[n..];
      if tag != Tag(1, LEN) then
        match Skip(tag.num, tag.typ, rest, RECURSION_LIMIT) case Stuck(e) => Err(e) case Past(m) => Ok([], n + m)
      else
        match ConsumeBytes(rest)
        case Err(e) => Err(e)
        case Ok(msg, m) =>
          match DecodeStat(msg, NO_STAT) case Bad(e) => Err(e) case Good(s) => Ok([s], n + m)
  }

  /** Unmarshal: the stats of a response, unknown fields skipped. */
  function DecodeResponse(data: Bytes): Decoded<seq<Stat>>
    decreases |data|
  {
    if data == [] then Good([])
    else match NextItem(data) case Err(e) => Bad(e) case Ok(stats, n) => After(stats, DecodeResponse(data[n..]))
  }

  function After(stats: seq<Stat>, r: Decoded<seq<Stat>>): Decoded<seq<Stat>> {
    match r case Good(more) => Good(stats + more) case Bad(e) => Bad(e)
  }

  lemma AfterAfter(a: seq<Stat>, b: seq<Stat>, r: Decoded<seq<Stat>>)
    ensures After(a, After(b, r)) == After(a + b, r)
    ensures After([], r) == r
  {
    if r.Good? {
      assert a + (b + r.value) == (a + b) + r.value;
      assert [] + r.value == r.value;
    }
  }

  lemma Drop(b: Bytes, n: nat, m: nat)
    requires n + m <= |b|
    ensures b[n..][m..] == b[n + m..]
  {}

  /** The field behind a tag, as parseStat's switch reads it. */
  method ReadField(tag: Tag, rest: Bytes, s: Stat) returns (r: Consumed<Stat>)
    ensures r.Ok? ==> r.n <= |rest|
    ensures forall data | ConsumeTag(data).Ok? && ConsumeTag(data).value == tag && rest == data[ConsumeTag(data).n..] ::
              NextField(data, s) == if r.Ok? then Ok(r.value, ConsumeTag(data).n + r.n) else r
  {
    if tag == Tag(1, LEN) {
      var name := ConsumeBytes(rest);
      if name.Err? { return Err(name.error); }
      return Ok(s.(name := name.value), name.n);
    } else if tag == Tag(2, VARINT) {
      var v := ConsumeVarint(rest);
      if v.Err? { return Err(v.error); }
      return Ok(s.(value := ToInt64(v.value)), v.n);
    } else {
      var skipped := Skip(tag.num, tag.typ, rest, RECURSION_LIMIT);
      if skipped.Stuck? { return Err(skipped.error); }
      return Ok(s, skipped.n);
    }
  }

  /** parseStat's loop over the remaining bytes. */
  method ParseStat(bytes: Bytes) returns (r: Decoded<Stat>)
    ensures r == DecodeStat(bytes, NO_STAT)
  {
    var s := NO_STAT;
    var data := bytes;
    while data != []
      invariant DecodeStat(data, s) == DecodeStat(bytes, NO_STAT)
      decreases |data|
    {
      var tag := ConsumeTag(data);
      if tag.Err? { return Bad(tag.error); }
      var rest := data[tag.n..];
      var field := ReadField(tag.value, rest, s);
      if field.Err? { return Bad(field.error); }
      Drop(data, tag.n, field.n);
      s := field.value;
      data := rest[field.n..];
    }
    return Good(s);
  }

  /** The field behind a tag, as Unmarshal reads it: a stat, or something to skip. */
  method ReadItem(tag: Tag, rest: Bytes) returns (r: Consumed<seq<Stat>>)
    ensures r.Ok? ==> r.n <= |rest|
    ensures forall data | ConsumeTag(data).Ok? && ConsumeTag(data).value == tag && rest == data[ConsumeTag(data).n..] ::
              NextItem(data) == if r.Ok? then Ok(r.value, ConsumeTag(data).n + r.n) else r
  {
    if tag != Tag(1, LEN) {
      var skipped := Skip(tag.num, tag.typ, rest, RECURSION_LIMIT);
      if skipped.Stuck? { return Err(skipped.error); }
      return Ok([], skipped.n);
    } else {
      var msg := ConsumeBytes(rest);
      if msg.Err? { return Err(msg.error); }
      var s := ParseStat(msg.value);
      if s.Bad? { return Err(s.error); }
      return Ok([s.value], msg.n);
    }
  }

  /** Unmarshal's loop over the remaining bytes. */
  method Unmarshal(bytes: Bytes) returns (r: Decoded<seq<Stat>>)
    ensures r == DecodeResponse(bytes)
  {
    var stats: seq<Stat> := [];
    var data := bytes;
    AfterAfter([], [], DecodeResponse(data));
    while data != []
      invariant DecodeResponse(bytes) == After(stats, DecodeResponse(data))
      decreases |data|
    {
      var tag := ConsumeTag(data);
      if tag.Err? { return Bad(tag.error); }
      var rest := data[tag.n..];
      var item := ReadItem(tag.value, rest);
      if item.Err? { return Bad(item.error); }
      Drop(data, tag.n, item.n);
      AfterAfter(stats, item.value, DecodeResponse(rest[item.n..]));
      data := rest[item.n..];
      stats := stats + item.value;
    }
    assert stats + [] == stats;
    return Good(stats);
  }

  // ---- concatenation ----

  lemma {:induction false} FieldPrefix(a: Bytes, b: Bytes, s: Stat)
    requires NextField(a, s).Ok?
    ensures NextField(a + b, s) == NextField(a, s)
  {
    TagPrefix(a, b);
    var tag := ConsumeTag(a);
    var rest := a[tag.n..];
    assert (a + b)[tag.n..] == rest + b;
    if tag.value == Tag(1, LEN) {
      BytesPrefix(rest, b);
    } else if tag.value == Tag(2, VARINT) {
      VarintPrefix(rest, b, 0);
    } else {
      SkipPrefix(tag.value.num, tag.value.typ, rest, b, RECURSION_LIMIT);
    }
  }

  lemma {:induction false} StatConcat(a: Bytes, b: Bytes, s: Stat)
    requires DecodeStat(a, s).Good?
    ensures DecodeStat(a + b, s) == DecodeStat(b, DecodeStat(a, s).value)
    decreases |a|
  {
    if a == [] {
      assert a + b == b;
    } else {
      FieldPrefix(a, b, s);
      var next := NextField(a, s);
      assert (a + b)[next.n..] == a[next.n..] + b;
      StatConcat(a[next.n..], b, next.value);
    }
  }

  lemma {:induction false} ItemPrefix(a: Bytes, b: Bytes)
    requires NextItem(a).Ok?
    ensures NextItem(a + b) == NextItem(a)
  {
    TagPrefix(a, b);
    var tag := ConsumeTag(a);
    var rest := a[tag.n..];
    assert (a + b)[tag.n..] == rest + b;
    if tag.value != Tag(1, LEN) {
      SkipPrefix(tag.value.num, tag.value.typ, rest, b, RECURSION_LIMIT);
    } else {
      BytesPrefix(rest, b);
    }
  }

  /** Decoding well-formed bytes and then any others is decoding both and joining the lists. */
  lemma {:induction false} ResponseConcat(a: Bytes, b: Bytes)
    requires DecodeResponse(a).Good?
    ensures DecodeResponse(a + b) == After(DecodeResponse(a).value, DecodeResponse(b))
    decreases |a|
  {
    if a == [] {
      assert a + b == b;
      AfterAfter([], [], DecodeResponse(b));
    } else {
      ItemPrefix(a, b);
      var next := NextItem(a);
      assert (a + b)[next.n..] == a[next.n..] + b;
      ResponseConcat(a[next.n..], b);
      AfterAfter(next.value, DecodeResponse(a[next.n..]).value, DecodeResponse(b));
    }
  }

  // ---- encoding, and back ----

  /** One field of a Stat message, in any order and any number of times. */
  datatype StatField = NameField(name: Bytes) | ValueField(value: int) | OtherField(field: Field)

  /** One field of a response. */
  datatype Item = StatItem(fields: seq<StatField>) | OtherItem(other: Field)

  predicate StatFieldOk(f: StatField) {
    match f
    case NameField(name) => |name| < U64
    case ValueField(value) => IsInt64(value)
    case OtherField(g) =>
      && WellFormed(g, RECURSION_LIMIT)
      && Tag(g.num, TypeOf(g.value)) != Tag(1, LEN) && Tag(g.num, TypeOf(g.value)) != Tag(2, VARINT)
  }

  predicate ItemOk(i: Item) {
    match i
    case StatItem(fields) => |EncodeStatFields(fields)| < U64 && forall k | 0 <= k < |fields| :: StatFieldOk(fields[k])
    case OtherItem(g) => WellFormed(g, RECURSION_LIMIT) && Tag(g.num, TypeOf(g.value)) != Tag(1, LEN)
  }

  function EncodeStatField(f: StatField): Bytes {
    match f
    case NameField(name) => AppendTag(1, LEN) + AppendBytes(name)
    case ValueField(value) => AppendTag(2, VARINT) + AppendVarint(if IsInt64(value) then ToUint64(value) else 0)
    case OtherField(g) => Encode(g)
  }

  function EncodeStatFields(fields: seq<StatField>): Bytes {
    if fields == [] then [] else EncodeStatFields(fields[..|fields| - 1]) + EncodeStatField(fields[|fields| - 1])
  }

  function EncodeItem(i: Item): Bytes {
    match i
    case StatItem(fields) => AppendTag(1, LEN) + AppendBytes(EncodeStatFields(fields))
    case OtherItem(g) => Encode(g)
  }

  function EncodeItems(items: seq<Item>): Bytes {
    if items == [] then [] else EncodeItems(items[..|items| - 1]) + EncodeItem(items[|items| - 1])
  }

  /** What the fields of a Stat say: the last name and the last value, if there is any. */
  function Meaning(fields: seq<StatField>): Stat {
    if fields == [] then NO_STAT
    else
      var s := Meaning(fields[..|fields| - 1]);
      match fields[|fields| - 1]
      case NameField(name) => s.(name := name)
      case ValueField(value) => s.(value := value)
      case OtherField(_) => s
  }

  function StatsOf(items: seq<Item>): seq<Stat> {
    if items == [] then []
    else
      var last := items[|items| - 1];
      StatsOf(items[..|items| - 1]) + (if last.StatItem? then [Meaning(last.fields)] else [])
  }

  lemma {:induction false} OneFieldBack(f: StatField, s: Stat)
    requires StatFieldOk(f)
    ensures DecodeStat(EncodeStatField(f), s)
            == Good(match f
                    case NameField(name) => s.(name := name)
                    case ValueField(v) => s.(value := v)
                    case OtherField(_) => s)
  {
    match f
    case NameField(name) =>
      TagBack(1, LEN, AppendBytes(name));
      BytesBack(name, []);
      OneField(AppendTag(1, LEN), AppendBytes(name));
    case ValueField(v) =>
      var u := ToUint64(v);
      TagBack(2, VARINT, AppendVarint(u));
      VarintValueBack(u, []);
      OneField(AppendTag(2, VARINT), AppendVarint(u));
    case OtherField(g) =>
      TagBack(g.num, TypeOf(g.value), EncodeValue(g));
      SkipBack(g, [], RECURSION_LIMIT);
      OneField(AppendTag(g.num, TypeOf(g.value)), EncodeValue(g));
  }

  lemma OneField(head: Bytes, value: Bytes)
    ensures (head + value)[|head|..] == value && value + [] == value
    ensures (head + value)[|head| + |value|..] == []
  {}

  lemma {:induction false} StatBack(fields: seq<StatField>)
    requires forall k | 0 <= k < |fields| :: StatFieldOk(fields[k])
    ensures DecodeStat(EncodeStatFields(fields), NO_STAT) == Good(Meaning(fields))
    decreases |fields|
  {
    if fields != [] {
      var init, last := fields[..|fields| - 1], fields[|fields| - 1];
      StatBack(init);
      StatConcat(EncodeStatFields(init), EncodeStatField(last), NO_STAT);
      OneFieldBack(last, Meaning(init));
    }
  }

  lemma {:induction false} OneItemBack(i: Item)
    requires ItemOk(i)
    ensures DecodeResponse(EncodeItem(i)) == Good(if i.StatItem? then [Meaning(i.fields)] else [])
  {
    var stats := if i.StatItem? then [Meaning(i.fields)] else [];
    match i {
      case StatItem(fields) =>
        var msg := EncodeStatFields(fields);
        TagBack(1, LEN, AppendBytes(msg));
        BytesBack(msg, []);
        OneField(AppendTag(1, LEN), AppendBytes(msg));
        StatBack(fields);
      case OtherItem(g) =>
        TagBack(g.num, TypeOf(g.value), EncodeValue(g));
        SkipBack(g, [], RECURSION_LIMIT);
        OneField(AppendTag(g.num, TypeOf(g.value)), EncodeValue(g));
    }
    assert NextItem(EncodeItem(i)) == Ok(stats, |EncodeItem(i)|);
    assert stats + [] == stats;
  }

  /** The decoder inverts the encoder: any list of stats, whatever well-formed unknown fields stand
      between them or inside them, decodes to exactly that list. */
  lemma {:induction false} ResponseBack(items: seq<Item>)
    requires forall k | 0 <= k < |items| :: ItemOk(items[k])
    ensures DecodeResponse(EncodeItems(items)) == Good(StatsOf(items))
    decreases |items|
  {
    if items != [] {
      var init, last := items[..|items| - 1], items[|items| - 1];
      ResponseBack(init);
      ResponseConcat(EncodeItems(init), EncodeItem(last));
      OneItemBack(last);
    }
  }

  /** In particular the plain form the node sends, one name and one 64-bit value per stat. */
  lemma {:induction false} PlainStatBack(s: Stat)
    requires IsInt64(s.value) && |EncodeStatFields([NameField(s.name), ValueField(s.value)])| < U64
    ensures DecodeResponse(EncodeItem(StatItem([NameField(s.name), ValueField(s.value)]))) == Good([s])
  {
    var fields := [NameField(s.name), ValueField(s.value)];
    assert |s.name| < U64 by {
      assert fields[..1] == [NameField(s.name)] && fields[..1][..0] == [];
      assert EncodeStatFields(fields[..1]) == [] + EncodeStatField(NameField(s.name));
    }
    OneItemBack(StatItem(fields));
    assert fields[..1] == [NameField(s.name)];
    assert Meaning(fields[..1]) == NO_STAT.(name := s.name) by { assert fields[..1][..0] == []; }
    assert Meaning(fields) == s;
  }
}
