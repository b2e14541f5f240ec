/** The chart tables of the web page (web/src/usage.ts): usage rows spread over an
    axis of days. Byte counts are unbounded integers here. */
module Charts {
  import opened Tables
  import opened StatNames
  import opened Calendar

  /** A usage row as the page sees it: its day ("" when not grouped by day) and its series. */
  datatype ChartRow = ChartRow(day: string, series: string, bytes: Traffic)

  function Both(t: Traffic): int { t.up + t.down }

  // ---- the axis ----

  /** The texts of the consecutive days `xs`, of which `from` is the first. */
  ghost predicate IsAxis(days: seq<string>, xs: seq<Day>, from: Day) {
    |xs| == |days| && forall k | 0 <= k < |days| :: days[k] == DayText(xs[k]) && DayNumber(xs[k]) == DayNumber(from) + k
  }

  lemma TextsFollowNumbers(a: Day, b: Day)
    ensures Before(DayText(a), DayText(b)) <==> DayNumber(a) < DayNumber(b)
    ensures DayText(a) == DayText(b) <==> DayNumber(a) == DayNumber(b)
  {
    DayOrder(a, b);
    TextOrder(a, b);
  }

  lemma Tomorrow(day: Day, to: Day)
    requires to.y < 9999 && DayNumber(day) <= DayNumber(to)
    ensures IsDate(NextDay(day)) && DayNumber(NextDay(day)) == DayNumber(day) + 1
  {
    DayOrder(to, day);
    DayAfter(day);
  }

  /** Every day from `from` to `to`; the loop gives up after 401 of them. */
  method DaysBetween(from: Day, to: Day) returns (days: seq<string>, ghost xs: seq<Day>)
    requires to.y < 9999
    ensures var n := DayNumber(to) - DayNumber(from) + 1;
            |days| == if n <= 0 then 0 else if n <= 401 then n else 401
    ensures IsAxis(days, xs, from)
  {
    days, xs := [], [];
    var day: Day := from;
    TextsFollowNumbers(to, day);
    while !Before(DayText(to), DayText(day))
      invariant DayNumber(day) == DayNumber(from) + |days|
      invariant |days| > 0 ==> |days| <= DayNumber(to) - DayNumber(from) + 1
      invariant Before(DayText(to), DayText(day)) <==> DayNumber(to) < DayNumber(day)
      invariant |days| <= 400 && IsAxis(days, xs, from)
      decreases DayNumber(to) - DayNumber(day)
    {
      days, xs := days + [DayText(day)], xs + [day];
      if |days| > 400 { break; }
      Tomorrow(day, to);
      day := NextDay(day);
      TextsFollowNumbers(to, day);
    }
  }

  predicate Distinct(names: seq<string>) { forall i, j | 0 <= i < j < |names| :: names[i] != names[j] }

  /** The axis of a range lists each of its days once, in order. */
  lemma {:induction false} AxisListsOnce(days: seq<string>, xs: seq<Day>, from: Day, x: Day)
    requires IsAxis(days, xs, from)
    ensures forall i, j | 0 <= i < j < |days| :: Before(days[i], days[j])
    ensures Distinct(days)
    ensures DayText(x) in days <==> DayNumber(from) <= DayNumber(x) < DayNumber(from) + |days|
  {
    forall i, j | 0 <= i < j < |days| ensures Before(days[i], days[j]) && days[i] != days[j] {
      TextsFollowNumbers(xs[i], xs[j]);
    }
    if k :| 0 <= k < |days| && days[k] == DayText(x) {
      TextsFollowNumbers(x, xs[k]);
    }
    if DayNumber(from) <= DayNumber(x) < DayNumber(from) + |days| {
      var k := DayNumber(x) - DayNumber(from);
      TextsFollowNumbers(x, xs[k]);
      assert days[k] == DayText(x);
    }
  }

  // ---- sums over a table ----

  predicate InCell(r: ChartRow, day: string, series: string) { r.day != "" && r.day == day && r.series == series }

  function Cell(rows: seq<ChartRow>, day: string, series: string): int {
    if rows == [] then 0
    else
      Cell(rows[..|rows| - 1], day, series)
      + (if InCell(rows[|rows| - 1], day, series) then Both(rows[|rows| - 1].bytes) else 0)
  }

  /** Over one day of the axis, all columns. */
  function DaySum(rows: seq<ChartRow>, day: string, keys: seq<string>): int {
    if keys == [] then 0 else DaySum(rows, day, keys[..|keys| - 1]) + Cell(rows, day, keys[|keys| - 1])
  }

  function TableSum(rows: seq<ChartRow>, days: seq<string>, keys: seq<string>): int {
    if days == [] then 0 else TableSum(rows, days[..|days| - 1], keys) + DaySum(rows, days[|days| - 1], keys)
  }

  /** sumBytes. */
  function SumBytes(rows: seq<ChartRow>): int {
    if rows == [] then 0 else SumBytes(rows[..|rows| - 1]) + Both(rows[|rows| - 1].bytes)
  }

  /** The total is that of both directions. */
  lemma {:induction false} BothDirections(rows: seq<ChartRow>)
    ensures SumBytes(rows) == SumOf(rows, Up) + SumOf(rows, Down)
    decreases |rows|
  {
    if rows != [] { BothDirections(rows[..|rows| - 1]); }
  }

  lemma {:induction false} RowAddsToDay(rows: seq<ChartRow>, r: ChartRow, day: string, keys: seq<string>)
    requires Distinct(keys)
    ensures DaySum(rows + [r], day, keys)
            == DaySum(rows, day, keys) + (if r.day != "" && r.day == day && r.series in keys then Both(r.bytes) else 0)
    decreases |keys|
  {
    if keys != [] {
      var init, key := keys[..|keys| - 1], keys[|keys| - 1];
      assert keys == init + [key] && (r.series == key ==> key !in init);
      RowAddsToDay(rows, r, day, init);
      var all := rows + [r];
      assert all[..|all| - 1] == rows;
    }
  }

  lemma {:induction false} RowAddsToTable(rows: seq<ChartRow>, r: ChartRow, days: seq<string>, keys: seq<string>)
    requires Distinct(keys) && Distinct(days)
    ensures TableSum(rows + [r], days, keys)
            == TableSum(rows, days, keys)
               + (if r.day != "" && r.day in days && r.series in keys then Both(r.bytes) else 0)
    decreases |days|
  {
    if days != [] {
      var init, day := days[..|days| - 1], days[|days| - 1];
      assert days == init + [day] && (r.day == day ==> day !in init);
      RowAddsToTable(rows, r, init, keys);
      RowAddsToDay(rows, r, day, keys);
    }
  }

  lemma {:induction false} EmptyTable(days: seq<string>, keys: seq<string>)
    ensures TableSum([], days, keys) == 0
    decreases |days|
  {
    if days != [] {
      EmptyTable(days[..|days| - 1], keys);
      EmptyDay(days[|days| - 1], keys);
    }
  }

  lemma {:induction false} EmptyDay(day: string, keys: seq<string>)
    ensures DaySum([], day, keys) == 0
    decreases |keys|
  {
    if keys != [] { EmptyDay(day, keys[..|keys| - 1]); }
  }

  /** A stacked table keeps every byte, when each row has a day on the axis and its series is a column. */
  lemma {:induction false} TableKeepsBytes(rows: seq<ChartRow>, days: seq<string>, keys: seq<string>)
    requires Distinct(keys) && Distinct(days)
    requires forall r | r in rows :: r.day != "" && r.day in days && r.series in keys
    ensures TableSum(rows, days, keys) == SumBytes(rows)
    decreases |rows|
  {
    if rows == [] {
      EmptyTable(days, keys);
    } else {
      var init, r := rows[..|rows| - 1], rows[|rows| - 1];
      assert rows == init + [r];
      TableKeepsBytes(init, days, keys);
      RowAddsToTable(init, r, days, keys);
    }
  }

  // ---- stackByDay ----

  function CellKey(day: string, series: string): string { day + ("|" + series) }

  lemma CellKeysDiffer(day: string, series: string, other: string, name: string)
    requires |day| == |other|
    ensures CellKey(day, series) == CellKey(other, name) <==> day == other && series == name
  {
    var a, b := CellKey(day, series), CellKey(other, name);
    assert a[..|day|] == day && b[..|other|] == other;
    assert a[|day| + 1..] == series && b[|other| + 1..] == name;
  }

  function At(m: map<string, int>, key: string): int { if key in m then m[key] else 0 }

  function Column(rows: seq<ChartRow>, series: string): int {
    if rows == [] then 0
    else
      var r := rows[|rows| - 1];
      Column(rows[..|rows| - 1], series) + (if r.day != "" && r.series == series then Both(r.bytes) else 0)
  }

  datatype Value = Label(text: string) | Number(value: int)

  datatype Chart = Chart(keys: seq<string>, data: seq<map<string, Value>>)

  /** Assigning a number to this property of an object does nothing. */
  const PROTO := "__proto__"

  /** Day texts are ten characters long. */
  predicate DayWide(rows: seq<ChartRow>) { forall r | r in rows :: r.day == "" || |r.day| == 10 }

  /** Each point has its cells beside its day; the day is lost on every point exactly when a series is
      named "day". */
  method StackByDay(rows: seq<ChartRow>, days: seq<string>) returns (chart: Chart)
    requires DayWide(rows) && forall d | d in days :: |d| == 10
    ensures Distinct(chart.keys)
    ensures forall r | r in rows && r.day != "" :: r.series in chart.keys
    ensures forall i, j | 0 <= i < j < |chart.keys| :: Column(rows, chart.keys[i]) >= Column(rows, chart.keys[j])
    ensures ArePoints(chart.data, rows, days, chart.keys)
  {
    var totals, cells := Collect(rows);
    var keys := Ranked(totals);
    var data: seq<map<string, Value>> := [];
    for i := 0 to |days|
      invariant ArePoints(data, rows, days[..i], keys)
    {
      assert days[i] in days && days[..i + 1] == days[..i] + [days[i]];
      var point := PointOf(rows, cells, days[i], keys);
      PointAdded(data, point, rows, days[..i], days[i], keys);
      data := data + [point];
    }
    assert days[..|days|] == days;
    chart := Chart(keys, data);
  }

  predicate ArePoints(data: seq<map<string, Value>>, rows: seq<ChartRow>, days: seq<string>, keys: seq<string>) {
    |data| == |days| && forall i | 0 <= i < |days| :: IsPoint(data[i], rows, days[i], keys)
  }

  lemma PointAdded(data: seq<map<string, Value>>, point: map<string, Value>, rows: seq<ChartRow>, days: seq<string>,
                   day: string,
                   keys: seq<string>)
    requires ArePoints(data, rows, days, keys) && IsPoint(point, rows, day, keys)
    ensures ArePoints(data + [point], rows, days + [day], keys)
  {
    var all, axis := data + [point], days + [day];
    forall i | 0 <= i < |axis| ensures IsPoint(all[i], rows, axis[i], keys) {
      if i < |days| { assert IsPoint(data[i], rows, days[i], keys); }
    }
  }

  /** One day of the table: a cell for every column, and the day unless a column took its name. */
  predicate IsPoint(point: map<string, Value>, rows: seq<ChartRow>, day: string, keys: seq<string>) {
    && (forall k | k in keys && k != PROTO :: k in point && point[k] == Number(Cell(rows, day, k)))
    && "day" in point && (point["day"] == Label(day) <==> "day" !in keys)
    && (forall k | k in point :: k == "day" || (k in keys && k != PROTO))
  }

  method PointOf(ghost rows: seq<ChartRow>, cells: map<string, int>, day: string, keys: seq<string>)
    returns (point: map<string, Value>)
    requires forall n :: At(cells, CellKey(day, n)) == Cell(rows, day, n)
    ensures IsPoint(point, rows, day, keys)
  {
    point := map["day" := Label(day)];
    for c := 0 to |keys|
      invariant IsPoint(point, rows, day, keys[..c])
    {
      assert keys[..c + 1] == keys[..c] + [keys[c]];
      ghost var before := point;
      if keys[c] != PROTO { point := point[keys[c] := Number(At(cells, CellKey(day, keys[c])))]; }
      CellAdded(before, point, rows, day, keys[..c], keys[c]);
    }
    assert keys[..|keys|] == keys;
  }

  lemma CellAdded(before: map<string, Value>, after: map<string, Value>, rows: seq<ChartRow>, day: string,
                  keys: seq<string>, key: string)
    requires IsPoint(before, rows, day, keys)
    requires after == if key == PROTO then before else before[key := Number(Cell(rows, day, key))]
    ensures IsPoint(after, rows, day, keys + [key])
  {
  }

  method Collect(rows: seq<ChartRow>) returns (totals: map<string, int>, cells: map<string, int>)
    requires DayWide(rows)
    ensures forall n :: At(totals, n) == Column(rows, n)
    ensures forall r | r in rows && r.day != "" :: r.series in totals
    ensures forall d, n | |d| == 10 :: At(cells, CellKey(d, n)) == Cell(rows, d, n)
  {
    totals, cells := map[], map[];
    for k := 0 to |rows|
      invariant forall n :: At(totals, n) == Column(rows[..k], n)
      invariant forall r | r in rows[..k] && r.day != "" :: r.series in totals
      invariant forall d, n | |d| == 10 :: At(cells, CellKey(d, n)) == Cell(rows[..k], d, n)
    {
      var r := rows[k];
      ghost var front := rows[..k + 1];
      assert r in rows && front[..k] == rows[..k] && front == rows[..k] + [r];
      if r.day == "" { continue; }
      totals := totals[r.series := At(totals, r.series) + Both(r.bytes)];
      ghost var before := cells;
      cells := cells[CellKey(r.day, r.series) := At(cells, CellKey(r.day, r.series)) + Both(r.bytes)];
      forall d, n | |d| == 10 ensures At(cells, CellKey(d, n)) == Cell(front, d, n) {
        CellKeysDiffer(d, n, r.day, r.series);
        assert At(before, CellKey(d, n)) == Cell(rows[..k], d, n);
      }
    }
    assert rows[..|rows|] == rows;
  }

  predicate Largest(totals: map<string, int>, s: set<string>, m: string) {
    m in s && forall x | x in s :: At(totals, x) <= At(totals, m)
  }

  lemma {:induction false} LargestOf(totals: map<string, int>, s: set<string>) returns (m: string)
    requires s != {}
    ensures Largest(totals, s, m)
  {
    m :| m in s;
    if s != {m} {
      var b := LargestOf(totals, s - {m});
      forall x | x in s ensures At(totals, x) <= At(totals, b) || At(totals, x) <= At(totals, m) {
        if x != m { assert x in s - {m}; }
      }
      if At(totals, m) < At(totals, b) { m := b; }
    }
  }

  /** The columns, largest total first. */
  method Ranked(totals: map<string, int>) returns (keys: seq<string>)
    ensures Distinct(keys) && forall k :: k in keys <==> k in totals
    ensures forall i, j | 0 <= i < j < |keys| :: At(totals, keys[i]) >= At(totals, keys[j])
  {
    keys := [];
    var rest := totals.Keys;
    while rest != {}
      invariant Distinct(keys) && rest <= totals.Keys
      invariant forall k :: k in keys <==> k in totals && k !in rest
      invariant forall i, j | 0 <= i < j < |keys| :: At(totals, keys[i]) >= At(totals, keys[j])
      invariant forall k, x | k in keys && x in rest :: At(totals, k) >= At(totals, x)
      decreases rest
    {
      ghost var largest := LargestOf(totals, rest);
      var m :| m in rest && forall x | x in rest :: At(totals, x) <= At(totals, m);
      assert m !in keys && forall i | 0 <= i < |keys| :: keys[i] in keys;
      keys := keys + [m];
      rest := rest - {m};
    }
  }

  // ---- upDownByDay ----

  function DayTotal(rows: seq<ChartRow>, day: string, d: Direction): int {
    if rows == [] then 0
    else
      var r := rows[|rows| - 1];
      DayTotal(rows[..|rows| - 1], day, d) + (if r.day != "" && r.day == day then Bytes(r.bytes, d) else 0)
  }

  method UpDownByDay(rows: seq<ChartRow>, days: seq<string>) returns (data: seq<Traffic>)
    ensures |data| == |days|
    ensures forall i | 0 <= i < |days| && days[i] != "" ::
              data[i] == Traffic(DayTotal(rows, days[i], Up), DayTotal(rows, days[i], Down))
  {
    var byDay: map<string, Traffic> := map[];
    for k := 0 to |rows|
      invariant forall day ::
                  (if day in byDay then byDay[day] else Traffic(0, 0))
                  == Traffic(DayTotal(rows[..k], day, Up), DayTotal(rows[..k], day, Down))
    {
      var r := rows[k];
      ghost var front := rows[..k + 1];
      assert front[..k] == rows[..k] && front[k] == r;
      if r.day == "" { continue; }
      var current := if r.day in byDay then byDay[r.day] else Traffic(0, 0);
      byDay := byDay[r.day := Traffic(current.up + r.bytes.up, current.down + r.bytes.down)];
    }
    assert rows[..|rows|] == rows;
    data := seq(|days|, i requires 0 <= i < |days| => if days[i] in byDay then byDay[days[i]] else Traffic(0, 0));
  }

  function AxisTotal(rows: seq<ChartRow>, days: seq<string>, d: Direction): int {
    if days == [] then 0 else AxisTotal(rows, days[..|days| - 1], d) + DayTotal(rows, days[|days| - 1], d)
  }

  function SumOf(rows: seq<ChartRow>, d: Direction): int {
    if rows == [] then 0 else SumOf(rows[..|rows| - 1], d) + Bytes(rows[|rows| - 1].bytes, d)
  }

  lemma {:induction false} RowAddsToAxis(rows: seq<ChartRow>, r: ChartRow, days: seq<string>, d: Direction)
    requires Distinct(days)
    ensures AxisTotal(rows + [r], days, d)
            == AxisTotal(rows, days, d) + (if r.day != "" && r.day in days then Bytes(r.bytes, d) else 0)
    decreases |days|
  {
    if days != [] {
      var init, day := days[..|days| - 1], days[|days| - 1];
      assert days == init + [day] && (r.day == day ==> day !in init);
      RowAddsToAxis(rows, r, init, d);
      var all := rows + [r];
      assert all[..|all| - 1] == rows;
    }
  }

  lemma {:induction false} NoRows(days: seq<string>, d: Direction)
    ensures AxisTotal([], days, d) == 0
    decreases |days|
  {
    if days != [] { NoRows(days[..|days| - 1], d); }
  }

  /** The two-line chart keeps every byte of either direction. */
  lemma {:induction false} AxisKeepsBytes(rows: seq<ChartRow>, days: seq<string>, d: Direction)
    requires Distinct(days) && forall r | r in rows :: r.day != "" && r.day in days
    ensures AxisTotal(rows, days, d) == SumOf(rows, d)
    decreases |rows|
  {
    if rows == [] {
      NoRows(days, d);
    } else {
      var init, r := rows[..|rows| - 1], rows[|rows| - 1];
      assert rows == init + [r];
      AxisKeepsBytes(init, days, d);
      RowAddsToAxis(init, r, days, d);
    }
  }
}
