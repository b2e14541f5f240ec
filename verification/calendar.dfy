/** Days of the Gregorian calendar and their texts, as Go's time package and
    SQLite's date() write them: "2006-01-02". */
module Calendar {
  import opened Tables
  import Generator

  datatype Date = Date(y: int, m: int, d: int)

  predicate Leap(y: int) { y % 4 == 0 && (y % 100 != 0 || y % 400 == 0) }

  function DaysIn(y: int, m: int): int {
    if m == 2 then (if Leap(y) then 29 else 28) else if m in {4, 6, 9, 11} then 30 else 31
  }

  ghost predicate IsDate(x: Date) {
    0 <= x.y <= 9999 && 1 <= x.m <= 12 && 1 <= x.d <= DaysIn(x.y, x.m)
  }

  /** A day that can be written as a text. */
  type Day = x: Date | IsDate(x) witness Date(0, 1, 1)

  predicate Earlier(a: Date, b: Date) {
    a.y < b.y || (a.y == b.y && (a.m < b.m || (a.m == b.m && a.d < b.d)))
  }

  // ---- texts ----

  function Digits(n: int, k: nat): (s: string)
    requires n >= 0
    ensures |s| == k
  {
    if k == 0 then "" else Digits(n / 10, k - 1) + [Generator.DecimalDigit(n % 10)]
  }

  function DayText(x: Date): (s: string)
    requires IsDate(x)
    ensures |s| == 10
  {
    Digits(x.y, 4) + ("-" + (Digits(x.m, 2) + ("-" + Digits(x.d, 2))))
  }

  ghost predicate IsDigit(c: char, d: int) { 0 <= d < 10 && c as int == '0' as int + d }

  lemma LastDigit(n: int, k: nat)
    requires n >= 0 && k > 0
    ensures Digits(n, k)[..k - 1] == Digits(n / 10, k - 1) && IsDigit(Digits(n, k)[k - 1], n % 10)
  {
  }

  lemma TwoDigits(n: int)
    requires n >= 0
    ensures IsDigit(Digits(n, 2)[0], n / 10 % 10) && IsDigit(Digits(n, 2)[1], n % 10)
  {
    LastDigit(n, 2);
    LastDigit(n / 10, 1);
  }

  lemma FourDigits(n: int)
    requires n >= 0
    ensures var s := Digits(n, 4);
            && IsDigit(s[0], n / 10 / 10 / 10 % 10) && IsDigit(s[1], n / 10 / 10 % 10)
            && IsDigit(s[2], n / 10 % 10) && IsDigit(s[3], n % 10)
  {
    LastDigit(n, 4);
    LastDigit(n / 10, 3);
    TwoDigits(n / 10 / 10);
    assert Digits(n, 4)[..3][..2] == Digits(n, 4)[..2];
  }

  /** Year, month and day, with leading zeros and dashes between. */
  lemma TextIs(x: Date)
    requires IsDate(x)
    ensures var t := DayText(x);
            && t[4] == t[7] == '-'
            && IsDigit(t[0], x.y / 10 / 10 / 10 % 10) && IsDigit(t[1], x.y / 10 / 10 % 10)
            && IsDigit(t[2], x.y / 10 % 10) && IsDigit(t[3], x.y % 10)
            && IsDigit(t[5], x.m / 10 % 10) && IsDigit(t[6], x.m % 10)
            && IsDigit(t[8], x.d / 10 % 10) && IsDigit(t[9], x.d % 10)
  {
    FourDigits(x.y);
    TwoDigits(x.m);
    TwoDigits(x.d);
  }

  lemma {:induction false} BeforePrefix(p: string, s: string, q: string, t: string)
    requires |p| == |q|
    ensures Before(p + s, q + t) <==> Before(p, q) || (p == q && Before(s, t))
    ensures p + s == q + t <==> p == q && s == t
    decreases |p|
  {
    if p == "" {
      assert p + s == s && q + t == t;
    } else {
      assert (p + s)[1..] == p[1..] + s && (q + t)[1..] == q[1..] + t;
      BeforePrefix(p[1..], s, q[1..], t);
      assert p == [p[0]] + p[1..] && q == [q[0]] + q[1..];
      assert p + s == [p[0]] + (p[1..] + s) && q + t == [q[0]] + (q[1..] + t);
    }
  }

  lemma BeforeChar(c: char, d: char)
    ensures Before([c], [d]) <==> c < d
  {
  }

  lemma DigitOrder(i: int, j: int)
    requires 0 <= i < 10 && 0 <= j < 10
    ensures Generator.DecimalDigit(i) < Generator.DecimalDigit(j) <==> i < j
    ensures Generator.DecimalDigit(i) == Generator.DecimalDigit(j) <==> i == j
  {
  }

  function Power(k: nat): (p: int)
    ensures p > 0
  {
    if k == 0 then 1 else 10 * Power(k - 1)
  }

  lemma {:induction false} DigitsOrder(n: int, m: int, k: nat)
    requires 0 <= n < Power(k) && 0 <= m < Power(k)
    ensures Before(Digits(n, k), Digits(m, k)) <==> n < m
    ensures Digits(n, k) == Digits(m, k) <==> n == m
    decreases k
  {
    if k > 0 {
      DigitsOrder(n / 10, m / 10, k - 1);
      var c, d := Generator.DecimalDigit(n % 10), Generator.DecimalDigit(m % 10);
      BeforePrefix(Digits(n / 10, k - 1), [c], Digits(m / 10, k - 1), [d]);
      BeforeChar(c, d);
      DigitOrder(n % 10, m % 10);
    }
  }

  /** Day texts compare the way their days do, and each day has its own text. */
  lemma {:induction false} TextOrder(a: Date, b: Date)
    requires IsDate(a) && IsDate(b)
    ensures Before(DayText(a), DayText(b)) <==> Earlier(a, b)
    ensures DayText(a) == DayText(b) <==> a == b
  {
    assert Power(2) == 10 * Power(1) && Power(4) == 10 * Power(3) && Power(3) == 10 * Power(2);
    assert Power(1) == 10 * Power(0);
    DigitsOrder(a.y, b.y, 4);
    DigitsOrder(a.m, b.m, 2);
    DigitsOrder(a.d, b.d, 2);
    var da, db := Digits(a.d, 2), Digits(b.d, 2);
    var ma, mb := Digits(a.m, 2), Digits(b.m, 2);
    DashThen(da, db);
    BeforePrefix(ma, "-" + da, mb, "-" + db);
    DashThen(ma + ("-" + da), mb + ("-" + db));
    BeforePrefix(Digits(a.y, 4), "-" + (ma + ("-" + da)), Digits(b.y, 4), "-" + (mb + ("-" + db)));
  }

  lemma DashThen(s: string, t: string)
    ensures Before("-" + s, "-" + t) <==> Before(s, t)
    ensures "-" + s == "-" + t <==> s == t
  {
  }

  // ---- day numbers ----

  /** Days before the first of January of year `y`. */
  function YearStart(y: int): int { 365 * y + (y + 3) / 4 - (y + 99) / 100 + (y + 399) / 400 }

  function MonthStart(y: int, m: int): int
    requires 1 <= m <= 12
    decreases m
  {
    if m == 1 then 0 else MonthStart(y, m - 1) + DaysIn(y, m - 1)
  }

  function DayNumber(x: Date): int
    requires IsDate(x)
  {
    YearStart(x.y) + MonthStart(x.y, x.m) + x.d - 1
  }

  lemma Step4(y: int)
    ensures (y + 4) / 4 - (y + 3) / 4 == if y % 4 == 0 then 1 else 0
  {
  }

  lemma Step100(y: int)
    ensures (y + 100) / 100 - (y + 99) / 100 == if y % 100 == 0 then 1 else 0
  {
  }

  lemma Step400(y: int)
    ensures (y + 400) / 400 - (y + 399) / 400 == if y % 400 == 0 then 1 else 0
  {
  }

  lemma Centuries(y: int)
    ensures y % 100 == 0 ==> y % 4 == 0
    ensures y % 400 == 0 ==> y % 100 == 0
  {
  }

  lemma YearLength(y: int)
    ensures YearStart(y + 1) == YearStart(y) + (if Leap(y) then 366 else 365)
  {
    Step4(y);
    Step100(y);
    Step400(y);
    Centuries(y);
  }

  lemma {:induction false} MonthsFill(y: int, m: int)
    requires 1 <= m <= 12
    ensures MonthStart(y, 12) + DaysIn(y, 12) == if Leap(y) then 366 else 365
    ensures 0 <= MonthStart(y, m) && MonthStart(y, m) + DaysIn(y, m) <= if Leap(y) then 366 else 365
  {
  }

  /** time.AddDate(0, 0, 1) and setUTCDate(getUTCDate() + 1): the calendar day after `x`. */
  function NextDay(x: Date): Date {
    if x.d < DaysIn(x.y, x.m) then x.(d := x.d + 1)
    else if x.m < 12 then Date(x.y, x.m + 1, 1)
    else Date(x.y + 1, 1, 1)
  }

  lemma {:induction false} NextDayIsNext(x: Date)
    requires IsDate(x) && x.y < 9999
    ensures IsDate(NextDay(x)) && DayNumber(NextDay(x)) == DayNumber(x) + 1 && Earlier(x, NextDay(x))
  {
    if x.d == DaysIn(x.y, x.m) && x.m == 12 {
      YearLength(x.y);
      MonthsFill(x.y, 12);
    }
  }

  lemma {:induction false} YearsGrow(a: int, b: int)
    requires 0 <= a < b
    ensures YearStart(a + 1) <= YearStart(b)
    decreases b
  {
  }

  lemma {:induction false} MonthsGrow(y: int, a: int, b: int)
    requires 1 <= a < b <= 12
    ensures MonthStart(y, a) + DaysIn(y, a) <= MonthStart(y, b)
    decreases b
  {
  }

  /** Day numbers are in calendar order, and each day has its own. */
  lemma {:induction false} DayOrder(a: Date, b: Date)
    requires IsDate(a) && IsDate(b)
    ensures DayNumber(a) < DayNumber(b) <==> Earlier(a, b)
    ensures DayNumber(a) == DayNumber(b) <==> a == b
  {
    if Earlier(a, b) { EarlierIsLess(a, b); }
    if Earlier(b, a) { EarlierIsLess(b, a); }
  }

  lemma DayInYear(x: Day)
    ensures YearStart(x.y) <= DayNumber(x) < YearStart(x.y + 1)
  {
    MonthsFill(x.y, x.m);
    YearLength(x.y);
  }

  lemma {:induction false} EarlierIsLess(a: Date, b: Date)
    requires IsDate(a) && IsDate(b) && Earlier(a, b)
    ensures DayNumber(a) < DayNumber(b)
  {
    if a.y < b.y {
      DayInYear(a);
      DayInYear(b);
      YearsGrow(a.y, b.y);
    } else if a.m < b.m {
      MonthsGrow(a.y, a.m, b.m);
    }
  }

  lemma {:induction false} FindDay(n: nat) returns (x: Day)
    requires n < YearStart(10000)
    ensures DayNumber(x) == n
    decreases n
  {
    if n == 0 {
      x := Date(0, 1, 1);
    } else {
      x := FindDay(n - 1);
      LastDay(x);
      DayAfter(x);
      x := NextDay(x);
    }
  }

  lemma DayExists(n: nat)
    requires n < YearStart(10000)
    ensures exists x: Day :: DayNumber(x) == n
  {
    var x := FindDay(n);
    assert DayNumber(x) == n;
  }

  lemma OneDay(n: nat)
    ensures forall x: Day, y: Day | DayNumber(x) == n && DayNumber(y) == n :: x == y
  {
    forall x: Day, y: Day | DayNumber(x) == n && DayNumber(y) == n ensures x == y { DayOrder(x, y); }
  }

  /** The day with a given number: SQLite's date(), time.AddDate's normalisation. */
  function DateOf(n: nat): Day
    requires n < YearStart(10000)
  {
    DayExists(n);
    OneDay(n);
    var x: Day :| DayNumber(x) == n;
    x
  }

  lemma {:induction false} LastDay(x: Date)
    requires IsDate(x)
    ensures DayNumber(x) + 1 < YearStart(10000) ==> x != Date(9999, 12, 31)
    ensures 0 <= DayNumber(x) < YearStart(10000)
  {
    MonthsFill(x.y, x.m);
    YearLength(x.y);
    YearLength(9999);
    if x.y < 9999 { YearsGrow(x.y, 9999); }
    if x == Date(9999, 12, 31) { MonthsFill(9999, 12); }
    if x.y > 0 { YearsGrow(0, x.y); }
  }

  lemma {:induction false} DayAfter(x: Date)
    requires IsDate(x) && x != Date(9999, 12, 31)
    ensures IsDate(NextDay(x)) && DayNumber(NextDay(x)) == DayNumber(x) + 1 && Earlier(x, NextDay(x))
  {
    if x.y < 9999 { NextDayIsNext(x); }
  }

  /** handler.shiftDay. */
  function ShiftDay(x: Day, delta: int): Day
    requires 0 <= DayNumber(x) + delta < YearStart(10000)
  {
    DateOf(DayNumber(x) + delta)
  }
}
