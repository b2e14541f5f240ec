/** What a usage answer and a prune are, sample by sample (model/traffic.go:37-164). */
module UsageAnswers {
  import opened Tables
  import opened StatNames
  import opened Calendar
  import opened Usage

  // ---- the retention window ----

  /** The window starts on the first of the month two months before today's, whatever the year. */
  lemma RetentionIs(today: Date)
    requires Today(today)
    ensures var r := RetentionStart(today);
            IsDate(r) && r.d == 1 && 1 <= r.m <= 12 && 12 * r.y + r.m == 12 * today.y + today.m - 2
  {
    RetentionAdvances(today, today);
  }

  /** Where the kept samples stood. */
  ghost function Places(rows: seq<Sample>, cutoff: int): seq<int> {
    if rows == [] then []
    else Places(rows[..|rows| - 1], cutoff) + (if rows[|rows| - 1].at < cutoff then [] else [|rows| - 1])
  }

  lemma {:induction false} PlacesInRange(rows: seq<Sample>, cutoff: int)
    ensures forall i | 0 <= i < |Places(rows, cutoff)| :: 0 <= Places(rows, cutoff)[i] < |rows|
    ensures forall i, j | 0 <= i < j < |Places(rows, cutoff)| :: Places(rows, cutoff)[i] < Places(rows, cutoff)[j]
    decreases |rows|
  {
    if rows != [] { PlacesInRange(rows[..|rows| - 1], cutoff); }
  }

  lemma {:induction false} PlaceIff(rows: seq<Sample>, cutoff: int, k: nat)
    requires k < |rows|
    ensures k in Places(rows, cutoff) <==> rows[k].at >= cutoff
    decreases |rows|
  {
    var init := rows[..|rows| - 1];
    PlacesInRange(init, cutoff);
    if k < |init| { PlaceIff(init, cutoff, k); }
  }

  lemma {:induction false} KeptAtPlaces(rows: seq<Sample>, cutoff: int)
    ensures |Kept(rows, cutoff)| == |Places(rows, cutoff)|
    ensures forall i | 0 <= i < |Places(rows, cutoff)| ::
              0 <= Places(rows, cutoff)[i] < |rows| && Kept(rows, cutoff)[i] == rows[Places(rows, cutoff)[i]]
    decreases |rows|
  {
    if rows != [] { KeptAtPlaces(rows[..|rows| - 1], cutoff); }
  }

  /** A prune drops exactly the samples of the days before it, and keeps the others in order. */
  lemma {:induction false} PruneDropsExactly(rows: seq<Sample>, today: Date, offset: int) returns (kept: seq<int>)
    requires Today(today) && AllDated(rows, offset)
    ensures forall i, j | 0 <= i < j < |kept| :: kept[i] < kept[j]
    ensures forall i | 0 <= i < |kept| :: 0 <= kept[i] < |rows|
    ensures forall k | 0 <= k < |rows| ::
              rows[k] in rows && (k in kept <==> !Earlier(LocalDay(rows[k].at, offset), RetentionStart(today)))
    ensures var r := Kept(rows, Cutoff(today, offset));
            |r| == |kept| && forall i | 0 <= i < |kept| :: r[i] == rows[kept[i]]
  {
    kept := Places(rows, Cutoff(today, offset));
    PlacesInRange(rows, Cutoff(today, offset));
    KeptAtPlaces(rows, Cutoff(today, offset));
    forall k | 0 <= k < |rows|
      ensures rows[k] in rows && (k in kept <==> !Earlier(LocalDay(rows[k].at, offset), RetentionStart(today)))
    {
      PlaceIff(rows, Cutoff(today, offset), k);
      DroppedIff(rows[k], today, offset);
    }
  }

  lemma DroppedIff(s: Sample, today: Date, offset: int)
    requires Today(today) && Dated(s.at, offset)
    ensures s.at < Cutoff(today, offset) <==> Earlier(LocalDay(s.at, offset), RetentionStart(today))
  {
    RetentionAdvances(today, today);
    DayOrder(LocalDay(s.at, offset), RetentionStart(today));
  }

  // ---- answers ----

  /** The sample lies between the days of the query, both included, and is of the user and the node it
      names, if it names any. */
  ghost predicate Asked(s: Sample, q: Query, offset: int)
    requires Dated(s.at, offset)
  {
    var day := DayNumber(LocalDay(s.at, offset));
    && DayNumber(q.from) <= day <= DayNumber(q.to)
    && (q.user <= 0 || s.user == q.user) && (q.node <= 0 || s.node == q.node)
  }

  ghost predicate InGroup(s: Sample, key: GroupKey, offset: int)
    requires Dated(s.at, offset)
  {
    && (key.day.Some? ==> key.day.value == LocalDay(s.at, offset))
    && (key.user.Some? ==> key.user.value == s.user) && (key.node.Some? ==> key.node.value == s.node)
  }

  /** The bytes of the samples the query asks for that belong to the group. */
  ghost function AskedBytes(rows: seq<Sample>, q: Query, key: GroupKey, offset: int, d: Direction): int
    requires AllDated(rows, offset)
  {
    if rows == [] then 0
    else
      var init, s := rows[..|rows| - 1], rows[|rows| - 1];
      assert s in rows && forall r | r in init :: r in rows;
      AskedBytes(init, q, key, offset, d) +
      (if Asked(s, q, offset) && InGroup(s, key, offset) then (if d.Up? then s.bytes.up else s.bytes.down) else 0)
  }

  lemma SelectedIsAsked(s: Sample, q: Query, offset: int)
    requires Dated(s.at, offset)
    ensures Selected(EntryOf(s, offset), q) <==> Asked(s, q, offset)
  {
    var day := LocalDay(s.at, offset);
    TextOrder(day, q.from);
    TextOrder(q.to, day);
    DayOrder(day, q.from);
    DayOrder(q.to, day);
  }

  lemma {:induction false} ChosenBytes(rows: seq<Sample>, q: Query, key: GroupKey, offset: int, d: Direction)
    requires AllDated(rows, offset)
    ensures EntrySum(Chosen(Entries(rows, offset), q), key, d) == AskedBytes(rows, q, key, offset, d)
    decreases |rows|
  {
    if rows != [] {
      var init, s := rows[..|rows| - 1], rows[|rows| - 1];
      EntriesLast(rows, offset);
      ChosenBytes(init, q, key, offset, d);
      OneMoreAsked(Entries(init, offset), s, q, key, offset, d);
    }
  }

  lemma OneMoreAsked(entries: seq<Entry>, s: Sample, q: Query, key: GroupKey, offset: int, d: Direction)
    requires Dated(s.at, offset)
    ensures EntrySum(Chosen(entries + [EntryOf(s, offset)], q), key, d) == EntrySum(Chosen(entries, q), key, d) +
            (if Asked(s, q, offset) && InGroup(s, key, offset) then (if d.Up? then s.bytes.up else s.bytes.down) else 0)
  {
    var e := EntryOf(s, offset);
    SelectedIsAsked(s, q, offset);
    ChosenLast(entries, e, q);
    InGroupIff(s, key, offset);
    var front := Chosen(entries, q);
    if Selected(e, q) { SumLast(front, e, key, d); } else { assert front + [] == front; }
  }

  lemma InGroupIff(s: Sample, key: GroupKey, offset: int)
    requires Dated(s.at, offset)
    ensures Refines(KeyOf(EntryOf(s, offset), ALL), key) <==> InGroup(s, key, offset)
  {
  }

  lemma SumLast(entries: seq<Entry>, e: Entry, key: GroupKey, d: Direction)
    ensures EntrySum(entries + [e], key, d)
            == EntrySum(entries, key, d) + (if Refines(KeyOf(e, ALL), key) then Bytes(e.bytes, d) else 0)
  {
    assert (entries + [e])[..|entries|] == entries;
  }

  /** Each row of an answer holds the bytes of the samples asked for in its group, names exactly the
      dimensions asked for, and there is one row per group. */
  lemma {:induction false} RowsAreSums(rows: seq<Sample>, q: Query, offset: int, r: UsageRow, d: Direction)
    requires AllDated(rows, offset) && r in Answer(rows, q, offset)
    ensures (if d.Up? then r.bytes.up else r.bytes.down) == AskedBytes(rows, q, r.key, offset, d)
    ensures r.key.day.Some? == q.dims.day && r.key.user.Some? == q.dims.user && r.key.node.Some? == q.dims.node
    ensures forall x | x in Answer(rows, q, offset) && x.key == r.key :: x == r
  {
    var chosen := Chosen(Entries(rows, offset), q);
    var answer := Grouped(chosen, q.dims);
    GroupedKeys(chosen, q.dims);
    KeysHave(answer, r);
    OwnRow(answer, q.dims, r, d);
    GroupedSums(chosen, q.dims, r.key, d);
    ChosenBytes(rows, q, r.key, offset, d);
    forall x | x in answer && x.key == r.key ensures x == r { OneRowPerKey(answer, x, r); }
  }

  lemma {:induction false} OneRowPerKey(rows: seq<UsageRow>, a: UsageRow, b: UsageRow)
    requires DistinctKeys(rows) && a in rows && b in rows && a.key == b.key
    ensures a == b
    decreases |rows|
  {
    if a in rows[1..] { KeysHave(rows[1..], a); }
    if b in rows[1..] { KeysHave(rows[1..], b); }
    if a in rows[1..] && b in rows[1..] { OneRowPerKey(rows[1..], a, b); }
  }

  /** And every sample asked for is in one of the rows. */
  lemma {:induction false} EverySampleHasARow(rows: seq<Sample>, q: Query, offset: int, s: Sample)
    returns (r: UsageRow)
    requires AllDated(rows, offset) && s in rows && Asked(s, q, offset)
    ensures r in Answer(rows, q, offset) && InGroup(s, r.key, offset)
    decreases |rows|
  {
    var k :| 0 <= k < |rows| && rows[k] == s;
    SelectedIsAsked(s, q, offset);
    EntriesAre(rows, offset, k);
    ChosenHas(Entries(rows, offset), q, k);
    r := KeyHasRow(Chosen(Entries(rows, offset), q), q.dims, EntryOf(s, offset));
  }

  lemma {:induction false} ChosenHas(entries: seq<Entry>, q: Query, k: nat)
    requires k < |entries| && Selected(entries[k], q)
    ensures entries[k] in Chosen(entries, q)
    decreases |entries|
  {
    if k < |entries| - 1 { ChosenHas(entries[..|entries| - 1], q, k); }
  }

  lemma {:induction false} KeyHasRow(entries: seq<Entry>, dims: Dims, e: Entry) returns (r: UsageRow)
    requires e in entries
    ensures r in Grouped(entries, dims) && r.key == KeyOf(e, dims)
    decreases |entries|
  {
    var init, last := entries[..|entries| - 1], entries[|entries| - 1];
    AddToKeys(Grouped(init, dims), KeyOf(last, dims), last.bytes);
    if e != last {
      assert entries == init + [last];
      var before := KeyHasRow(init, dims, e);
      KeysHave(Grouped(init, dims), before);
    }
    r := RowWith(Grouped(entries, dims), KeyOf(e, dims));
  }
}
