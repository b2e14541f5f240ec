/** What the stats decoder accepts and what it refuses (handler/v2raystats.go:130-197;
    Protocol Buffers Encoding, "Base 128 Varints", "Message Structure", "Groups"). */
module Refusals {
  import opened Wire
  import opened StatsCodec

  // ---- varints ----

  /** The bytes of a varint that says `v`, of which `k` bytes came before: seven bits a byte, lowest
      first, the top bit set on all but the last; at most ten bytes, the tenth being 0 or 1. */
  ghost predicate Says(b: Bytes, k: nat, v: nat)
    decreases |b|
  {
    && b != [] && k <= 9
    && if |b| == 1 then v == b[0] < (if k == 9 then 2 else 128)
       else b[0] >= 128 && v >= b[0] - 128 && (v - (b[0] - 128)) % 128 == 0
            && Says(b[1..], k + 1, (v - (b[0] - 128)) / 128)
  }

  lemma {:induction false} ReadSays(b: Bytes, k: nat)
    requires k <= 9 && VarintAfter(b, k).Ok?
    ensures var r := VarintAfter(b, k); Says(b[..r.n], k, r.value)
    decreases 9 - k
  {
    var n := VarintAfter(b, k).n;
    if n > 1 {
      ReadSays(b[1..], k + 1);
      assert b[..n][1..] == b[1..][..n - 1];
    }
  }

  lemma {:induction false} SaysIsRead(b: Bytes, k: nat, v: nat, n: nat)
    requires k <= 9 && 0 < n <= |b| && Says(b[..n], k, v)
    ensures VarintAfter(b, k) == Ok(v, n)
    decreases n
  {
    if n > 1 {
      assert b[..n][1..] == b[1..][..n - 1];
      SaysIsRead(b[1..], k + 1, (v - (b[0] - 128)) / 128, n - 1);
    }
  }

  /** A varint is read exactly when such bytes come first. */
  lemma {:induction false} VarintIff(b: Bytes, k: nat, v: nat, n: nat)
    requires k <= 9
    ensures VarintAfter(b, k) == Ok(v, n) <==> 0 < n <= |b| && Says(b[..n], k, v)
  {
    if VarintAfter(b, k).Ok? { ReadSays(b, k); }
    if 0 < n <= |b| && Says(b[..n], k, v) { SaysIsRead(b, k, v, n); }
  }

  /** Otherwise it ends too early, or is longer than 64 bits. */
  lemma {:induction false} VarintRefusedIff(b: Bytes, k: nat)
    requires k <= 9
    ensures VarintAfter(b, k) == Err(Truncated) <==> |b| + k <= 9 && forall i | 0 <= i < |b| :: b[i] >= 128
    ensures VarintAfter(b, k) == Err(Overflow)
            <==> |b| + k > 9 && (forall i | 0 <= i < 9 - k :: b[i] >= 128) && b[9 - k] >= 2
    decreases 9 - k
  {
    if b != [] && k < 9 && b[0] >= 128 {
      VarintRefusedIff(b[1..], k + 1);
      assert forall i | 0 <= i < |b[1..]| :: b[1..][i] == b[i + 1];
      assert forall i | 1 <= i < |b| :: b[i] == b[1..][i - 1];
    }
  }

  // ---- tags, lengths, wire types ----

  /** A tag is a varint: the field number in the upper bits, the wire type in the lower three. */
  lemma TagIff(b: Bytes, num: int, typ: int, n: nat)
    ensures ConsumeTag(b) == Ok(Tag(num, typ), n) <==>
              1 <= num < 0x8000_0000 && 0 <= typ < 8 && 0 < n <= |b| && Says(b[..n], 0, 8 * num + typ)
  {
    var r := ConsumeVarint(b);
    if r.Ok? { VarintIff(b, 0, r.value, r.n); }
    if 1 <= num && 0 <= typ < 8 { VarintIff(b, 0, 8 * num + typ, n); }
  }

  /** A length of `h` bytes, and then as many bytes as it says. */
  ghost predicate Delimited(b: Bytes, v: Bytes, n: nat, h: nat) {
    0 < h <= n <= |b| && Says(b[..h], 0, |v|) && n == h + |v| && v == b[h..n]
  }

  lemma BytesRead(b: Bytes)
    requires ConsumeBytes(b).Ok?
    ensures var r := ConsumeBytes(b); Delimited(b, r.value, r.n, ConsumeVarint(b).n)
  {
    ReadSays(b, 0);
  }

  lemma DelimitedIsRead(b: Bytes, v: Bytes, n: nat, h: nat)
    requires Delimited(b, v, n, h)
    ensures ConsumeBytes(b) == Ok(v, n)
  {
    SaysIsRead(b, 0, |v|, h);
  }

  /** A length-delimited value is a length and as many bytes. */
  lemma BytesIff(b: Bytes, v: Bytes, n: nat)
    ensures ConsumeBytes(b) == Ok(v, n) <==> exists h :: Delimited(b, v, n, h)
  {
    if ConsumeBytes(b) == Ok(v, n) { BytesRead(b); }
    if h :| Delimited(b, v, n, h) { DelimitedIsRead(b, v, n, h); }
  }

  /** Fields of the wire types 0, 1, 2 and 5 end where their values do; a group end on its own, and the
      types 6 and 7, are refused. */
  lemma ScalarIs(num: int, typ: int, b: Bytes, depth: int)
    requires 0 <= typ < 8 && typ != 3
    ensures var r := Skip(num, typ, b, depth);
            && (typ == 0 ==> r == match ConsumeVarint(b) case Ok(_, n) => Past(n) case Err(e) => Stuck(e))
            && (typ == 1 ==> r == if |b| >= 8 then Past(8) else Stuck(Truncated))
            && (typ == 2 ==> r == match ConsumeBytes(b) case Ok(_, n) => Past(n) case Err(e) => Stuck(e))
            && (typ == 5 ==> r == if |b| >= 4 then Past(4) else Stuck(Truncated))
            && (typ == 4 ==> r == Stuck(EndGroup)) && (typ in {6, 7} ==> r == Stuck(Reserved))
  {
  }

  /** A group is refused when it is closed under another number, and when it is nested too deep. */
  lemma GroupRefused(num: nat, other: nat, rest: Bytes, depth: int)
    requires ValidNumber(num) && ValidNumber(other) && num != other
    ensures depth >= 0 ==> Skip(num, 3, AppendTag(other, 4) + rest, depth) == Stuck(EndGroup)
    ensures depth < 0 ==> Skip(num, 3, rest, depth) == Stuck(RecursionDepth)
  {
    TagBack(other, 4, rest);
  }

  // ---- whole messages ----

  /** `k` is a place between two fields of the response. */
  ghost predicate Between(data: Bytes, k: int)
    decreases |data|
  {
    k == 0 || (data != [] && NextItem(data).Ok? && NextItem(data).n <= k
               && Between(data[NextItem(data).n..], k - NextItem(data).n))
  }

  /** A response that is cut short is refused unless it is cut between two of its fields. */
  lemma {:induction false} CutIff(data: Bytes, k: nat)
    requires DecodeResponse(data).Good? && k <= |data|
    ensures DecodeResponse(data[..k]).Good? <==> Between(data, k)
    decreases |data|
  {
    if 0 < k {
      var n := NextItem(data).n;
      if n <= k {
        CutIff(data[n..], k - n);
        CutLater(data, n, k);
      } else {
        assert data[..k] + data[k..] == data;
        if NextItem(data[..k]).Ok? { ItemPrefix(data[..k], data[k..]); }
      }
    }
  }

  lemma CutLater(data: Bytes, n: nat, k: nat)
    requires NextItem(data).Ok? && n == NextItem(data).n <= k <= |data|
    ensures NextItem(data[..k]) == NextItem(data) && data[..k][n..] == data[n..][..k - n]
  {
    WholeItem(data, n);
    Halves(data, n, k);
    ItemPrefix(data[..n], data[n..k]);
  }

  // ---- nothing looks past its end ----

  lemma Halves(b: Bytes, m: nat, n: nat)
    requires m <= n <= |b|
    ensures b[..n] == b[..m] + b[m..n] && b[..n][m..] == b[m..n] == b[m..][..n - m] && b[..n][m..n] == b[m..n]
  {
  }

  lemma {:induction false} VarintWhole(b: Bytes, k: nat, n: nat)
    requires k <= 9 && VarintAfter(b, k).Ok? && n == VarintAfter(b, k).n
    ensures VarintAfter(b[..n], k) == VarintAfter(b, k)
  {
    var v := VarintAfter(b, k).value;
    VarintIff(b, k, v, n);
    assert b[..n][..n] == b[..n];
    VarintIff(b[..n], k, v, n);
  }

  lemma TagWhole(b: Bytes, n: nat)
    requires ConsumeTag(b).Ok? && n == ConsumeTag(b).n
    ensures ConsumeTag(b[..n]) == ConsumeTag(b)
  {
    VarintWhole(b, 0, n);
  }

  lemma BytesWhole(b: Bytes, n: nat)
    requires ConsumeBytes(b).Ok? && n == ConsumeBytes(b).n
    ensures ConsumeBytes(b[..n]) == ConsumeBytes(b)
  {
    var v := ConsumeVarint(b);
    VarintWhole(b, 0, v.n);
    Halves(b, v.n, n);
    VarintPrefix(b[..v.n], b[v.n..n], 0);
  }

  lemma {:induction false} SkipWhole(num: int, typ: int, b: Bytes, depth: int, n: nat)
    requires Skip(num, typ, b, depth) == Past(n)
    ensures Skip(num, typ, b[..n], depth) == Past(n)
    decreases |b|, 1
  {
    if typ == START_GROUP { GroupWhole(num, b, depth, n); }
    else if typ == VARINT { VarintWhole(b, 0, n); }
    else if typ == LEN { BytesWhole(b, n); }
  }

  lemma {:induction false} GroupWhole(num: int, b: Bytes, depth: int, n: nat)
    requires SkipGroup(num, b, depth) == Past(n)
    ensures SkipGroup(num, b[..n], depth) == Past(n)
    decreases |b|, 0
  {
    var tag, m, f := GroupParts(num, b, depth);
    TagWhole(b, m);
    if tag.typ == END_GROUP {
      EndWhole(num, b, depth, n, tag, m);
    } else {
      var tail, g := b[m + f..], n - m - f;
      GroupTail(num, b, depth, n, tag, m, f);
      SkipWhole(tag.num, tag.typ, b[m..], depth - 1, f);
      GroupWhole(num, tail, depth, g);
      GroupOf(num, depth, tag, b[..m], b[m..][..f], tail[..g]);
      CutTwice(b, m, f, g);
    }
  }

  lemma EndWhole(num: int, b: Bytes, depth: int, n: nat, tag: Tag, m: nat)
    requires SkipGroup(num, b, depth) == Past(n) && 0 < m <= |b|
    requires ConsumeTag(b) == ConsumeTag(b[..m]) == Ok(tag, m) && tag.typ == END_GROUP
    ensures n == m && SkipGroup(num, b[..m], depth) == Past(n)
  {
    GroupEnd(num, b, depth, tag, m);
    GroupEnd(num, b[..m], depth, tag, m);
  }

  lemma GroupTail(num: int, b: Bytes, depth: int, n: nat, tag: Tag, m: nat, f: nat)
    requires SkipGroup(num, b, depth) == Past(n) && ConsumeTag(b) == Ok(tag, m) && tag.typ != END_GROUP
    requires m + f <= |b| && Skip(tag.num, tag.typ, b[m..], depth - 1) == Past(f)
    ensures m + f <= n && SkipGroup(num, b[m + f..], depth) == Past(n - m - f)
  {
    GroupField(num, b, depth, tag, m, b[m..], f, b[m + f..]);
  }

  lemma CutTwice(b: Bytes, m: nat, f: nat, g: nat)
    requires m + f + g <= |b|
    ensures b[..m] + (b[m..][..f] + b[m + f..][..g]) == b[..m + f + g]
  {
  }

  lemma GroupOf(num: int, depth: int, tag: Tag, head: Bytes, field: Bytes, tail: Bytes)
    requires ConsumeTag(head) == Ok(tag, |head|) && tag.typ != END_GROUP
    requires Skip(tag.num, tag.typ, field, depth - 1) == Past(|field|)
    ensures SkipGroup(num, head + (field + tail), depth) == Later(SkipGroup(num, tail, depth), |head| + |field|)
  {
    TagPrefix(head, field + tail);
    SkipPrefix(tag.num, tag.typ, field, tail, depth - 1);
    Slices(head, field, tail);
    GroupField(num, head + (field + tail), depth, tag, |head|, field + tail, |field|, tail);
  }

  lemma WholeItem(data: Bytes, n: nat)
    requires NextItem(data).Ok? && n == NextItem(data).n
    ensures NextItem(data[..n]) == NextItem(data)
  {
    var tag, m := ConsumeTag(data).value, ConsumeTag(data).n;
    TagWhole(data, m);
    Halves(data, m, n);
    TagPrefix(data[..m], data[m..n]);
    if tag == Tag(1, LEN) {
      BytesWhole(data[m..], n - m);
    } else {
      SkipWhole(tag.num, tag.typ, data[m..], RECURSION_LIMIT, n - m);
    }
  }

  /** One bad field spoils the response, whatever came before it. */
  lemma BadFieldRefuses(before: Bytes, bad: Bytes, e: Error)
    requires DecodeResponse(before).Good? && bad != [] && NextItem(bad) == Err(e)
    ensures DecodeResponse(before + bad) == Bad(e)
  {
    ResponseConcat(before, bad);
  }

  /** The tags of the stats service: field 1, length-delimited, and field 2, a varint. */
  lemma KnownTags()
    ensures AppendTag(1, LEN) == [0x0A] && AppendTag(2, VARINT) == [0x10]
  {
  }
}
