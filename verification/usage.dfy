/** Usage statistics (model/traffic.go, parseUsageQuery in handler/stats.go) over a
    panel clock with a fixed offset from UTC. Samples keep the instant they were
    recorded at, in seconds; a day is the day in panel time. */
module Usage {
  import opened Tables
  import opened StatNames
  import opened Calendar

  const DAY := 86400

  datatype Sample = Sample(node: int, user: int, bytes: Traffic, at: int)

  /** A sample as a query sees it: on a day. */
  datatype Entry = Entry(node: int, user: int, bytes: Traffic, day: Day)

  datatype Dims = Dims(day: bool, user: bool, node: bool)

  datatype Query = Query(from: Day, to: Day, user: int, node: int, dims: Dims)

  datatype GroupKey = GroupKey(day: Option<Day>, user: Option<int>, node: Option<int>)

  datatype UsageRow = UsageRow(key: GroupKey, bytes: Traffic)

  /** The instant has a day that can be written as a text. */
  ghost predicate Dated(at: int, offset: int) { 0 <= at + offset < YearStart(10000) * DAY }

  ghost predicate AllDated(samples: seq<Sample>, offset: int) {
    forall s | s in samples :: Dated(s.at, offset)
  }

  function LocalDay(at: int, offset: int): Day
    requires Dated(at, offset)
  {
    DateOf((at + offset) / DAY)
  }

  function EntryOf(s: Sample, offset: int): Entry
    requires Dated(s.at, offset)
  {
    Entry(s.node, s.user, s.bytes, LocalDay(s.at, offset))
  }

  function Entries(rows: seq<Sample>, offset: int): (entries: seq<Entry>)
    requires AllDated(rows, offset)
    ensures |entries| == |rows|
  {
    if rows == [] then []
    else
      var init, s := rows[..|rows| - 1], rows[|rows| - 1];
      assert s in rows && forall r | r in init :: r in rows;
      Entries(init, offset) + [EntryOf(s, offset)]
  }

  // ---- the retention window ----

  /** The first of the month two months back. */
  function RetentionStart(today: Date): Date {
    if today.m > 2 then Date(today.y, today.m - 2, 1) else Date(today.y - 1, today.m + 10, 1)
  }

  ghost predicate Today(today: Date) { IsDate(today) && today.y > 1 }

  lemma RetentionAdvances(today: Date, later: Date)
    requires Today(today) && Today(later) && !Earlier(later, today)
    ensures IsDate(RetentionStart(today)) && !Earlier(RetentionStart(later), RetentionStart(today))
    ensures Earlier(RetentionStart(today), today)
  {
  }

  /** Midnight of the first kept day, as an instant. */
  function Cutoff(today: Date, offset: int): int
    requires Today(today)
  {
    RetentionAdvances(today, today);
    DayNumber(RetentionStart(today)) * DAY - offset
  }

  function Kept(rows: seq<Sample>, cutoff: int): seq<Sample> {
    if rows == [] then []
    else Kept(rows[..|rows| - 1], cutoff) + (if rows[|rows| - 1].at < cutoff then [] else [rows[|rows| - 1]])
  }

  // ---- grouping ----

  predicate Selected(e: Entry, q: Query) {
    && !Before(DayText(e.day), DayText(q.from)) && !Before(DayText(q.to), DayText(e.day))
    && (q.user > 0 ==> e.user == q.user) && (q.node > 0 ==> e.node == q.node)
  }

  function KeyOf(e: Entry, dims: Dims): GroupKey {
    GroupKey(if dims.day then Some(e.day) else None, if dims.user then Some(e.user) else None,
             if dims.node then Some(e.node) else None)
  }

  function AddTo(rows: seq<UsageRow>, key: GroupKey, t: Traffic): seq<UsageRow> {
    if rows == [] then [UsageRow(key, t)]
    else if rows[0].key == key then
      [UsageRow(key, Traffic(rows[0].bytes.up + t.up, rows[0].bytes.down + t.down))] + rows[1..]
    else [rows[0]] + AddTo(rows[1..], key, t)
  }

  const NO_DIMS := Dims(false, false, false)

  /** WHERE. */
  function Chosen(entries: seq<Entry>, q: Query): seq<Entry> {
    if entries == [] then []
    else
      Chosen(entries[..|entries| - 1], q)
      + (if Selected(entries[|entries| - 1], q) then [entries[|entries| - 1]] else [])
  }

  /** GROUP BY: one row per key that occurs; without dimensions, always one row. */
  function Grouped(entries: seq<Entry>, dims: Dims): seq<UsageRow> {
    if entries == [] then (if dims == NO_DIMS then [UsageRow(GroupKey(None, None, None), Traffic(0, 0))] else [])
    else
      AddTo(Grouped(entries[..|entries| - 1], dims), KeyOf(entries[|entries| - 1], dims), entries[|entries| - 1].bytes)
  }

  function Answer(rows: seq<Sample>, q: Query, offset: int): seq<UsageRow>
    requires AllDated(rows, offset)
  {
    Grouped(Chosen(Entries(rows, offset), q), q.dims)
  }

  function NodeSums(samples: seq<Sample>): map<int, Traffic> {
    if samples == [] then map[]
    else
      var m, s := NodeSums(samples[..|samples| - 1]), samples[|samples| - 1];
      var t := if s.node in m then m[s.node] else Traffic(0, 0);
      m[s.node := Traffic(t.up + s.bytes.up, t.down + s.bytes.down)]
  }

  method Select(entries: seq<Entry>, q: Query) returns (result: seq<UsageRow>)
    ensures result == Grouped(Chosen(entries, q), q.dims)
  {
    result := if q.dims == NO_DIMS then [UsageRow(GroupKey(None, None, None), Traffic(0, 0))] else [];
    for k := 0 to |entries|
      invariant result == Grouped(Chosen(entries[..k], q), q.dims)
    {
      var front := entries[..k + 1];
      assert front[..k] == entries[..k];
      if Selected(entries[k], q) {
        GroupedLast(Chosen(entries[..k], q), entries[k], q.dims);
        result := AddTo(result, KeyOf(entries[k], q.dims), entries[k].bytes);
      } else {
        assert Chosen(front, q) == Chosen(entries[..k], q);
      }
    }
    assert entries[..|entries|] == entries;
  }

  class TrafficStore {
    var rows: seq<Sample>
    const offset: int

    method Record(node: int, user: int, bytes: Traffic, now: int)
      modifies this
      ensures rows == old(rows) + [Sample(node, user, bytes, now)]
    {
      rows := rows + [Sample(node, user, bytes, now)];
    }

    method Prune(today: Date) returns (removed: nat)
      requires Today(today)
      modifies this
      ensures rows == Kept(old(rows), Cutoff(today, offset)) && removed == |old(rows)| - |rows|
    {
      var first := RetentionStart(today);
      RetentionAdvances(today, today);
      var cutoff := DayNumber(first) * DAY - offset;
      var kept: seq<Sample> := [];
      removed := 0;
      for k := 0 to |rows|
        invariant kept == Kept(rows[..k], cutoff) && removed == k - |kept|
      {
        assert rows[..k + 1][..k] == rows[..k];
        if rows[k].at < cutoff { removed := removed + 1; } else { kept := kept + [rows[k]]; }
      }
      assert rows[..|rows|] == rows;
      rows := kept;
    }

    method Usage(q: Query) returns (result: seq<UsageRow>)
      requires AllDated(rows, offset)
      ensures result == Answer(rows, q, offset)
    {
      var entries := Entries(rows, offset);
      result := Select(entries, q);
    }

    method NodeTotals() returns (totals: map<int, Traffic>)
      ensures totals == NodeSums(rows)
    {
      totals := map[];
      for k := 0 to |rows|
        invariant totals == NodeSums(rows[..k])
      {
        assert rows[..k + 1][..k] == rows[..k];
        var n, b := rows[k].node, rows[k].bytes;
        var t := if n in totals then totals[n] else Traffic(0, 0);
        totals := totals[n := Traffic(t.up + b.up, t.down + b.down)];
      }
      assert rows[..|rows|] == rows;
    }
  }

  // ---- queries ----

  datatype Raw = Absent | Malformed | Given(day: Day)

  datatype Range = BadDayIn | TooOldIn | Backwards | Between(from: Day, to: Day)

  datatype Parsed = BadDay | TooOld | BadRange | BadGroup | Accepted(q: Query)

  /** The handler compares days as texts. */
  method TextBefore(a: Day, b: Day) returns (r: bool)
    ensures r == Earlier(a, b) == (DayNumber(a) < DayNumber(b))
  {
    TextOrder(a, b);
    DayOrder(a, b);
    r := Before(DayText(a), DayText(b));
  }

  function Max(a: int, b: int): int { if a < b then b else a }

  /** The day a query ends on: the one asked for, or today when that is absent or in the future. */
  function LastDayOf(to: Raw, today: Day): Day {
    if to.Given? && Earlier(to.day, today) then to.day else today
  }

  /** The day a range starts on, before it is checked against its end: the one asked for or the default
      many days back, but never before the retention window. */
  method ParseRange(from: Raw, to: Raw, today: Day, defaultDays: int) returns (r: Range)
    requires Today(today) && 1 <= defaultDays <= 366
    ensures r.BadDayIn? <==> to.Malformed? || (from.Malformed? && !r.TooOldIn?)
    ensures r.TooOldIn? <==> to.Given? && Earlier(to.day, RetentionStart(today))
    ensures r.Backwards? <==> !r.BadDayIn? && !r.TooOldIn? && from.Given? && Earlier(LastDayOf(to, today), from.day)
    ensures r.Between? ==> InRange(r, from, LastDayOf(to, today), RetentionStart(today), defaultDays)
  {
    RetentionAdvances(today, today);
    var retentionFrom: Day := RetentionStart(today);
    if to.Malformed? { return BadDayIn; }
    var last := if to.Given? then to.day else today;
    var future := TextBefore(today, last);
    if future { last := today; }
    assert last == LastDayOf(to, today);
    var expired := TextBefore(last, retentionFrom);
    if expired { return TooOldIn; }
    r := ParseStart(from, last, retentionFrom, defaultDays);
  }

  ghost predicate InRange(r: Range, from: Raw, last: Day, start: Date, defaultDays: int)
    requires r.Between?
  {
    && IsDate(start) && r.to == last && !Earlier(r.from, start) && !Earlier(last, r.from)
    && (from.Given? ==> r.from == if Earlier(from.day, start) then start else from.day)
    && (from.Absent? ==> DayNumber(r.from) == Max(DayNumber(last) - (defaultDays - 1), DayNumber(start)))
  }

  method ParseStart(from: Raw, last: Day, retentionFrom: Day, defaultDays: int) returns (r: Range)
    requires retentionFrom.y > 0 && 1 <= defaultDays <= 366 && !Earlier(last, retentionFrom)
    ensures r.BadDayIn? <==> from.Malformed?
    ensures r.Backwards? <==> from.Given? && Earlier(last, from.day)
    ensures r.BadDayIn? || r.Backwards? || (r.Between? && InRange(r, from, last, retentionFrom, defaultDays))
  {
    HasRoom(last, retentionFrom);
    var defaultFrom := ShiftDay(last, -(defaultDays - 1));
    if from.Malformed? { return BadDayIn; }
    var first := if from.Given? then from.day else defaultFrom;
    DayOrder(last, retentionFrom);
    DayOrder(last, first);
    var early := TextBefore(first, retentionFrom);
    if early { first := retentionFrom; }
    var backwards := TextBefore(last, first);
    if backwards { return Backwards; }
    r := Between(first, last);
  }

  method ParseUsageQuery(from: Raw, to: Raw, group: seq<string>, user: int, node: int, today: Day, defaultDays: int)
    returns (p: Parsed)
    requires Today(today) && 1 <= defaultDays <= 366
    ensures p.BadDay? <==> to.Malformed? || (from.Malformed? && !p.TooOld?)
    ensures p.TooOld? <==> to.Given? && Earlier(to.day, RetentionStart(today))
    ensures p.BadRange? <==> !p.BadDay? && !p.TooOld? && from.Given? && Earlier(LastDayOf(to, today), from.day)
    ensures p.BadGroup? <==>
              !p.BadDay? && !p.TooOld? && !p.BadRange? && exists g :: g in group && g !in {"", "day", "user", "node"}
    ensures p.Accepted? ==>
              && InRange(Between(p.q.from, p.q.to), from, LastDayOf(to, today), RetentionStart(today), defaultDays)
              && !Earlier(today, p.q.to) && p.q.user == user && p.q.node == node
              && p.q.dims == Dims("day" in group, "user" in group, "node" in group)
  {
    var range := ParseRange(from, to, today, defaultDays);
    match range
    case BadDayIn => p := BadDay;
    case TooOldIn => p := TooOld;
    case Backwards => p := BadRange;
    case Between(first, last) =>
      var dims := ParseGroup(group);
      p := if dims.None? then BadGroup else Accepted(Query(first, last, user, node, dims.value));
  }

  method ParseGroup(group: seq<string>) returns (r: Option<Dims>)
    ensures r.None? <==> exists g :: g in group && g !in {"", "day", "user", "node"}
    ensures r.Some? ==> r.value == Dims("day" in group, "user" in group, "node" in group)
  {
    var dims := NO_DIMS;
    for k := 0 to |group|
      invariant dims == Dims("day" in group[..k], "user" in group[..k], "node" in group[..k])
      invariant forall g | g in group[..k] :: g in {"", "day", "user", "node"}
    {
      assert group[..k + 1] == group[..k] + [group[k]];
      match group[k]
      case "" =>
      case "day" => dims := dims.(day := true);
      case "user" => dims := dims.(user := true);
      case "node" => dims := dims.(node := true);
      case _ =>
        assert group[k] in group && group[k] !in {"", "day", "user", "node"};
        return None;
    }
    assert group[..|group|] == group;
    return Some(dims);
  }

  lemma HasRoom(last: Date, retentionFrom: Date)
    requires IsDate(last) && IsDate(retentionFrom) && retentionFrom.y > 0 && !Earlier(last, retentionFrom)
    ensures 366 <= DayNumber(last) < YearStart(10000)
  {
    DayOrder(last, retentionFrom);
    LastDay(last);
    MonthsFill(retentionFrom.y, retentionFrom.m);
    YearsGrow(0, retentionFrom.y);
    YearLength(0);
  }

  // ---- pruning is invisible ----

  lemma PrunedIsOutside(s: Sample, q: Query, today: Date, offset: int)
    requires Today(today) && Dated(s.at, offset) && !Earlier(q.from, RetentionStart(today))
    requires s.at < Cutoff(today, offset)
    ensures !Selected(EntryOf(s, offset), q)
  {
    RetentionAdvances(today, today);
    var day := LocalDay(s.at, offset);
    DayOrder(day, RetentionStart(today));
    DayOrder(day, q.from);
    DayOrder(RetentionStart(today), q.from);
    TextOrder(day, q.from);
  }

  lemma {:induction false} KeptDated(rows: seq<Sample>, cutoff: int, offset: int)
    requires AllDated(rows, offset)
    ensures AllDated(Kept(rows, cutoff), offset)
    decreases |rows|
  {
    if rows != [] {
      assert rows[|rows| - 1] in rows && forall r | r in rows[..|rows| - 1] :: r in rows;
      KeptDated(rows[..|rows| - 1], cutoff, offset);
    }
  }

  lemma EntriesLast(rows: seq<Sample>, offset: int)
    requires AllDated(rows, offset) && rows != []
    ensures AllDated(rows[..|rows| - 1], offset) && Dated(rows[|rows| - 1].at, offset)
    ensures Entries(rows, offset) == Entries(rows[..|rows| - 1], offset) + [EntryOf(rows[|rows| - 1], offset)]
    ensures var e := Entries(rows, offset)[|rows| - 1];
            e.node == rows[|rows| - 1].node && e.bytes == rows[|rows| - 1].bytes
    ensures Entries(rows, offset)[..|rows| - 1] == Entries(rows[..|rows| - 1], offset)
  {
  }

  lemma GroupedLast(entries: seq<Entry>, e: Entry, dims: Dims)
    ensures Grouped(entries + [e], dims) == AddTo(Grouped(entries, dims), KeyOf(e, dims), e.bytes)
  {
  }

  lemma ChosenLast(entries: seq<Entry>, e: Entry, q: Query)
    ensures Chosen(entries + [e], q) == Chosen(entries, q) + (if Selected(e, q) then [e] else [])
  {
  }

  lemma LastKept(rows: seq<Sample>, cutoff: int, offset: int)
    requires AllDated(rows, offset) && rows != [] && AllDated(Kept(rows, cutoff), offset)
    requires AllDated(Kept(rows[..|rows| - 1], cutoff), offset)
    requires Dated(rows[|rows| - 1].at, offset)
    ensures var s, front := rows[|rows| - 1], Entries(Kept(rows[..|rows| - 1], cutoff), offset);
            Entries(Kept(rows, cutoff), offset) == if s.at < cutoff then front else front + [EntryOf(s, offset)]
  {
    var s, kept := rows[|rows| - 1], Kept(rows, cutoff);
    if s.at < cutoff {
      assert kept == Kept(rows[..|rows| - 1], cutoff);
    } else {
      EntriesLast(kept, offset);
      assert kept[..|kept| - 1] == Kept(rows[..|rows| - 1], cutoff);
    }
  }

  /** Rows that the query does not select can go. */
  lemma {:induction false} UnselectedDrop(rows: seq<Sample>, q: Query, cutoff: int, offset: int)
    requires AllDated(rows, offset) && AllDated(Kept(rows, cutoff), offset)
    requires forall s | s in rows && s.at < cutoff :: !Selected(EntryOf(s, offset), q)
    ensures Chosen(Entries(Kept(rows, cutoff), offset), q) == Chosen(Entries(rows, offset), q)
    decreases |rows|
  {
    if rows != [] {
      var init, s := rows[..|rows| - 1], rows[|rows| - 1];
      EntriesLast(rows, offset);
      KeptDated(init, cutoff, offset);
      assert s in rows && forall r | r in init :: r in rows;
      UnselectedDrop(init, q, cutoff, offset);
      LastKept(rows, cutoff, offset);
      ChosenLast(Entries(init, offset), EntryOf(s, offset), q);
      if s.at >= cutoff { ChosenLast(Entries(Kept(init, cutoff), offset), EntryOf(s, offset), q); }
    }
  }

  /** Every query the panel accepts, on the day of the prune or later, has the same answer before and
      after it. */
  lemma {:induction false} PruneIsInvisible(rows: seq<Sample>, q: Query, today: Date, offset: int)
    requires Today(today) && AllDated(rows, offset) && !Earlier(q.from, RetentionStart(today))
    ensures AllDated(Kept(rows, Cutoff(today, offset)), offset)
    ensures Answer(Kept(rows, Cutoff(today, offset)), q, offset) == Answer(rows, q, offset)
  {
    KeptDated(rows, Cutoff(today, offset), offset);
    forall s | s in rows && s.at < Cutoff(today, offset) ensures !Selected(EntryOf(s, offset), q) {
      PrunedIsOutside(s, q, today, offset);
    }
    UnselectedDrop(rows, q, Cutoff(today, offset), offset);
  }

  // ---- grouping rolls up ----

  /** A row with key `k` counts towards the group `p`, which names fewer dimensions. */
  predicate Refines(k: GroupKey, p: GroupKey) {
    (p.day.Some? ==> k.day == p.day) && (p.user.Some? ==> k.user == p.user) && (p.node.Some? ==> k.node == p.node)
  }

  predicate Within(p: GroupKey, dims: Dims) {
    (p.day.Some? ==> dims.day) && (p.user.Some? ==> dims.user) && (p.node.Some? ==> dims.node)
  }

  predicate Shaped(k: GroupKey, dims: Dims) {
    k.day.Some? == dims.day && k.user.Some? == dims.user && k.node.Some? == dims.node
  }

  function SumRows(rows: seq<UsageRow>, p: GroupKey, d: Direction): int {
    if rows == [] then 0
    else (if Refines(rows[0].key, p) then Bytes(rows[0].bytes, d) else 0) + SumRows(rows[1..], p, d)
  }

  const ALL := Dims(true, true, true)

  /** The bytes of the entries that belong to the group: what the answer is about. */
  function EntrySum(entries: seq<Entry>, p: GroupKey, d: Direction): int {
    if entries == [] then 0
    else
      var e := entries[|entries| - 1];
      EntrySum(entries[..|entries| - 1], p, d) + (if Refines(KeyOf(e, ALL), p) then Bytes(e.bytes, d) else 0)
  }

  lemma {:induction false} AddToSums(rows: seq<UsageRow>, key: GroupKey, t: Traffic, p: GroupKey, d: Direction)
    ensures SumRows(AddTo(rows, key, t), p, d) == SumRows(rows, p, d) + (if Refines(key, p) then Bytes(t, d) else 0)
    decreases |rows|
  {
    var all := AddTo(rows, key, t);
    if rows == [] {
      assert all[1..] == [];
    } else if rows[0].key == key {
      assert all[1..] == rows[1..];
    } else {
      AddToSums(rows[1..], key, t, p, d);
      assert all[1..] == AddTo(rows[1..], key, t);
    }
  }

  function Keys(rows: seq<UsageRow>): set<GroupKey> {
    if rows == [] then {} else {rows[0].key} + Keys(rows[1..])
  }

  predicate DistinctKeys(rows: seq<UsageRow>) {
    rows == [] || (rows[0].key !in Keys(rows[1..]) && DistinctKeys(rows[1..]))
  }

  lemma {:induction false} KeysHave(rows: seq<UsageRow>, r: UsageRow)
    requires r in rows
    ensures r.key in Keys(rows)
    decreases |rows|
  {
    if r != rows[0] { KeysHave(rows[1..], r); }
  }

  lemma {:induction false} RowWith(rows: seq<UsageRow>, k: GroupKey) returns (r: UsageRow)
    requires k in Keys(rows)
    ensures r in rows && r.key == k
    decreases |rows|
  {
    if rows[0].key == k { r := rows[0]; } else { r := RowWith(rows[1..], k); }
  }

  lemma {:induction false} AddToKeys(rows: seq<UsageRow>, key: GroupKey, t: Traffic)
    ensures Keys(AddTo(rows, key, t)) == Keys(rows) + {key}
    ensures DistinctKeys(rows) ==> DistinctKeys(AddTo(rows, key, t))
    decreases |rows|
  {
    var all := AddTo(rows, key, t);
    if rows == [] {
      assert all[1..] == [];
    } else if rows[0].key == key {
      assert all[1..] == rows[1..];
    } else {
      AddToKeys(rows[1..], key, t);
      assert all[1..] == AddTo(rows[1..], key, t);
    }
  }

  lemma {:induction false} GroupedKeys(entries: seq<Entry>, dims: Dims)
    ensures DistinctKeys(Grouped(entries, dims))
    ensures forall k | k in Keys(Grouped(entries, dims)) :: Shaped(k, dims)
    decreases |entries|
  {
    if entries != [] {
      var init, e := entries[..|entries| - 1], entries[|entries| - 1];
      GroupedKeys(init, dims);
      AddToKeys(Grouped(init, dims), KeyOf(e, dims), e.bytes);
    }
  }

  /** For any group the answer can express, the rows of the answer hold exactly the entries' bytes. */
  lemma {:induction false} GroupedSums(entries: seq<Entry>, dims: Dims, p: GroupKey, d: Direction)
    requires Within(p, dims)
    ensures SumRows(Grouped(entries, dims), p, d) == EntrySum(entries, p, d)
    decreases |entries|
  {
    if entries != [] {
      var init, e := entries[..|entries| - 1], entries[|entries| - 1];
      GroupedSums(init, dims, p, d);
      AddToSums(Grouped(init, dims), KeyOf(e, dims), e.bytes, p, d);
    }
  }

  lemma {:induction false} OwnRow(rows: seq<UsageRow>, dims: Dims, r: UsageRow, d: Direction)
    requires DistinctKeys(rows) && r in rows && forall k | k in Keys(rows) :: Shaped(k, dims)
    ensures SumRows(rows, r.key, d) == Bytes(r.bytes, d)
    decreases |rows|
  {
    if rows[0] == r {
      OtherRows(rows[1..], dims, r.key, d);
    } else {
      KeysHave(rows[1..], r);
      assert Shaped(rows[0].key, dims) && Shaped(r.key, dims) && rows[0].key != r.key;
      assert !Refines(rows[0].key, r.key);
      OwnRow(rows[1..], dims, r, d);
    }
  }

  lemma {:induction false} OtherRows(rows: seq<UsageRow>, dims: Dims, p: GroupKey, d: Direction)
    requires Shaped(p, dims) && p !in Keys(rows) && forall k | k in Keys(rows) :: Shaped(k, dims)
    ensures SumRows(rows, p, d) == 0
    decreases |rows|
  {
    if rows != [] { OtherRows(rows[1..], dims, p, d); }
  }

  predicate Coarser(a: Dims, b: Dims) { (a.day ==> b.day) && (a.user ==> b.user) && (a.node ==> b.node) }

  /** Folding a finer grouping gives the coarser one, row by row; with no dimension left, the total. */
  lemma {:induction false} RollsUp(entries: seq<Entry>, coarse: Dims, fine: Dims, r: UsageRow, d: Direction)
    requires Coarser(coarse, fine) && r in Grouped(entries, coarse)
    ensures Bytes(r.bytes, d) == SumRows(Grouped(entries, fine), r.key, d)
  {
    GroupedKeys(entries, coarse);
    KeysHave(Grouped(entries, coarse), r);
    OwnRow(Grouped(entries, coarse), coarse, r, d);
    GroupedSums(entries, coarse, r.key, d);
    GroupedSums(entries, fine, r.key, d);
  }

  /** And no row of the finer grouping is left over. */
  lemma {:induction false} EveryRowRollsUp(entries: seq<Entry>, coarse: Dims, fine: Dims, k: GroupKey)
    returns (r: UsageRow)
    requires Coarser(coarse, fine) && k in Keys(Grouped(entries, fine))
    ensures r in Grouped(entries, coarse) && Refines(k, r.key)
    decreases |entries|
  {
    if entries == [] {
      r := UsageRow(GroupKey(None, None, None), Traffic(0, 0));
    } else {
      var init, e := entries[..|entries| - 1], entries[|entries| - 1];
      AddToKeys(Grouped(init, fine), KeyOf(e, fine), e.bytes);
      AddToKeys(Grouped(init, coarse), KeyOf(e, coarse), e.bytes);
      if k == KeyOf(e, fine) {
        r := RowWith(Grouped(entries, coarse), KeyOf(e, coarse));
      } else {
        r := EveryRowRollsUp(init, coarse, fine, k);
        KeysHave(Grouped(init, coarse), r);
        r := RowWith(Grouped(entries, coarse), r.key);
      }
    }
  }

  // ---- node totals ----

  lemma {:induction false} NodeSumsAre(rows: seq<Sample>, entries: seq<Entry>, n: int, offset: int, d: Direction)
    requires AllDated(rows, offset) && entries == Entries(rows, offset)
    ensures (if n in NodeSums(rows) then Bytes(NodeSums(rows)[n], d) else 0)
            == EntrySum(entries, GroupKey(None, None, Some(n)), d)
    decreases |rows|
  {
    if rows != [] {
      EntriesLast(rows, offset);
      NodeSumsAre(rows[..|rows| - 1], entries[..|entries| - 1], n, offset, d);
    }
  }

  lemma {:induction false} AllChosen(entries: seq<Entry>, q: Query)
    requires forall k | 0 <= k < |entries| :: Selected(entries[k], q)
    ensures Chosen(entries, q) == entries
    decreases |entries|
  {
    if entries != [] { AllChosen(entries[..|entries| - 1], q); }
  }

  lemma {:induction false} EntriesAre(rows: seq<Sample>, offset: int, k: nat)
    requires AllDated(rows, offset) && k < |rows|
    ensures rows[k] in rows && Entries(rows, offset)[k] == EntryOf(rows[k], offset)
    decreases |rows|
  {
    EntriesLast(rows, offset);
    if k < |rows| - 1 { EntriesAre(rows[..|rows| - 1], offset, k); }
  }

  lemma {:induction false} KeptInWindow(rows: seq<Sample>, cutoff: int, s: Sample)
    requires s in Kept(rows, cutoff)
    ensures s in rows && s.at >= cutoff
    decreases |rows|
  {
    if s in Kept(rows[..|rows| - 1], cutoff) { KeptInWindow(rows[..|rows| - 1], cutoff, s); }
  }

  lemma InWindow(s: Sample, q: Query, today: Date, offset: int)
    requires Today(today) && Dated(s.at, offset) && s.at >= Cutoff(today, offset)
    requires !Earlier(today, LocalDay(s.at, offset))
    requires q.from == RetentionStart(today) && q.to == today && q.user <= 0 && q.node <= 0
    ensures Selected(EntryOf(s, offset), q)
  {
    var day := LocalDay(s.at, offset);
    DayOrder(day, q.from);
    TextOrder(day, q.from);
    TextOrder(today, day);
  }

  /** Right after a prune the node totals are the usage of the whole window grouped by node, as long as
      no sample lies in the future. */
  lemma {:induction false} TotalsAreUsage(rows: seq<Sample>, today: Date, offset: int, n: int, d: Direction)
    requires Today(today) && AllDated(rows, offset) && forall s | s in rows :: !Earlier(today, LocalDay(s.at, offset))
    ensures IsDate(RetentionStart(today)) && AllDated(Kept(rows, Cutoff(today, offset)), offset)
    ensures var kept := Kept(rows, Cutoff(today, offset));
            var q := Query(RetentionStart(today), today, 0, 0, Dims(false, false, true));
            (if n in NodeSums(kept) then Bytes(NodeSums(kept)[n], d) else 0)
            == SumRows(Answer(kept, q, offset), GroupKey(None, None, Some(n)), d)
  {
    RetentionAdvances(today, today);
    var kept := Kept(rows, Cutoff(today, offset));
    var q := Query(RetentionStart(today), today, 0, 0, Dims(false, false, true));
    KeptDated(rows, Cutoff(today, offset), offset);
    forall s | s in kept ensures Selected(EntryOf(s, offset), q) {
      KeptInWindow(rows, Cutoff(today, offset), s);
      InWindow(s, q, today, offset);
    }
    var entries := Entries(kept, offset);
    forall k | 0 <= k < |entries| ensures Selected(entries[k], q) { EntriesAre(kept, offset, k); }
    AllChosen(entries, q);
    NodeSumsAre(kept, entries, n, offset, d);
    GroupedSums(entries, q.dims, GroupKey(None, None, Some(n)), d);
  }
}
