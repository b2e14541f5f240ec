/** The lazy monthly reset (CheckTrafficReset in model/user.go): no timer, only a
    check whenever a user's traffic is about to be looked at. */
module MonthlyReset {
  import opened Tables
  import opened Calendar
  import opened Stores

  /** time.Date with the reset day, and AddDate(0, -1, 0) when that is still ahead. */
  function ResetDate(now: Date, day: int): Date {
    if now.d < day then (if now.m == 1 then Date(now.y - 1, 12, day) else Date(now.y, now.m - 1, day))
    else Date(now.y, now.m, day)
  }

  predicate HasResetDay(u: User) { 0 < u.resetDay <= 28 }

  predicate After(a: Date, b: Date) { Earlier(b, a) }

  ghost predicate Clock(now: Date) { IsDate(now) && now.y > 0 }

  /** The reset date is the latest day of its kind that is not after now. */
  lemma ResetDateIsLatest(now: Date, day: int, other: Date)
    requires Clock(now) && 0 < day <= 28
    ensures IsDate(ResetDate(now, day)) && ResetDate(now, day).d == day && !After(ResetDate(now, day), now)
    ensures IsDate(other) && other.d == day && !After(other, now) ==> !After(other, ResetDate(now, day))
  {
  }

  lemma ResetDateMonotone(now: Date, later: Date, day: int)
    requires Clock(now) && Clock(later) && !Earlier(later, now) && 0 < day <= 28
    ensures !Earlier(ResetDate(later, day), ResetDate(now, day))
  {
  }

  predicate Due(u: User, now: Date)
    requires Clock(now)
  {
    HasResetDay(u)
    && (ResetDateIsLatest(now, u.resetDay, now); Before(u.lastReset, DayText(ResetDate(now, u.resetDay))))
  }

  /** The row after a check. */
  function Checked(u: User, now: Date): User
    requires Clock(now)
  {
    if Due(u, now) then
      ResetDateIsLatest(now, u.resetDay, now);
      u.(used := 0, up := 0, down := 0, lastReset := DayText(ResetDate(now, u.resetDay)))
    else u
  }

  /** The check writes the row and the copy the caller holds; a row that is gone stays gone. */
  method CheckTrafficReset(db: Database, u: int, copy: User, now: Date) returns (row: User)
    requires Clock(now)
    modifies db
    ensures Due(copy, now) <==>
              0 < copy.resetDay <= 28 && Before(copy.lastReset, DayText(ResetDate(now, copy.resetDay)))
    ensures row == if Due(copy, now) then
                     copy.(used := 0, up := 0, down := 0, lastReset := DayText(ResetDate(now, copy.resetDay)))
                   else copy
    ensures row == Checked(copy, now)
    ensures Due(copy, now) && u in old(db.users) ==>
              var cleared := old(db.users)[u].(used := 0, up := 0, down := 0, lastReset := row.lastReset);
              db.State() == old(db.State()).(users := old(db.users)[u := cleared])
    ensures !Due(copy, now) || u !in old(db.users) ==> db.State() == old(db.State())
  {
    row := copy;
    if row.resetDay <= 0 || row.resetDay > 28 { return; }
    var resetDate := Date(now.y, now.m, row.resetDay);
    if Earlier(now, resetDate) {
      resetDate := if now.m == 1 then Date(now.y - 1, 12, row.resetDay) else Date(now.y, now.m - 1, row.resetDay);
    }
    assert resetDate == ResetDate(now, row.resetDay);
    ResetDateIsLatest(now, row.resetDay, now);
    var expected := DayText(resetDate);
    if !Before(row.lastReset, expected) { return; }
    if u in db.users {
      db.users := db.users[u := db.users[u].(used := 0, up := 0, down := 0, lastReset := expected)];
    }
    row := row.(used := 0, up := 0, down := 0, lastReset := expected);
  }

  // ---- runs ----

  datatype Event = Check(now: Date) | Use(up: int, down: int)

  function Happens(u: User, e: Event): User
    requires e.Check? ==> Clock(e.now)
  {
    match e
    case Check(now) => Checked(u, now)
    case Use(up, down) => u.(used := u.used + (up + down), up := u.up + up, down := u.down + down)
  }

  /** Checks happen at real days that do not go back. */
  ghost predicate InTime(events: seq<Event>) {
    && (forall i | 0 <= i < |events| && events[i].Check? :: Clock(events[i].now))
    && (forall i, j | 0 <= i < j < |events| && events[i].Check? && events[j].Check? ::
          !Earlier(events[j].now, events[i].now))
  }

  function Life(u: User, events: seq<Event>): User
    requires InTime(events)
    decreases |events|
  {
    if events == [] then u
    else
      var init := events[..|events| - 1];
      assert forall i | 0 <= i < |init| :: init[i] == events[i];
      Happens(Life(u, init), events[|events| - 1])
  }

  /** The day of the last check, if there was one. */
  function LastCheck(events: seq<Event>): Option<Date> {
    if events == [] then None
    else if events[|events| - 1].Check? then Some(events[|events| - 1].now)
    else LastCheck(events[..|events| - 1])
  }

  lemma {:induction false} LastCheckIsLast(events: seq<Event>)
    requires InTime(events)
    ensures LastCheck(events).Some? ==> Clock(LastCheck(events).value)
    ensures LastCheck(events).Some? ==>
              forall i | 0 <= i < |events| && events[i].Check? :: !Earlier(LastCheck(events).value, events[i].now)
    ensures LastCheck(events).Some? ==> exists i :: 0 <= i < |events| && events[i] == Check(LastCheck(events).value)
    decreases |events|
  {
    if events != [] {
      var init := events[..|events| - 1];
      assert forall i | 0 <= i < |init| :: init[i] == events[i];
      LastCheckIsLast(init);
      if events[|events| - 1].Check? { assert events[|events| - 1] == Check(LastCheck(events).value); }
    }
  }

  /** After any run the stored date is the reset date of the last check, unless a later one was stored
      to begin with. */
  lemma {:induction false} StoredDate(u: User, events: seq<Event>)
    requires InTime(events) && HasResetDay(u)
    ensures Life(u, events) == u.(used := Life(u, events).used, up := Life(u, events).up, down := Life(u, events).down,
                                  lastReset := Life(u, events).lastReset)
    ensures LastCheck(events).None? ==> Life(u, events).lastReset == u.lastReset
    ensures LastCheck(events).Some? ==>
              && Clock(LastCheck(events).value) && IsDate(ResetDate(LastCheck(events).value, u.resetDay))
              && var date := DayText(ResetDate(LastCheck(events).value, u.resetDay));
                 Life(u, events).lastReset == if Before(u.lastReset, date) then date else u.lastReset
    decreases |events|
  {
    LastCheckIsLast(events);
    if events != [] {
      var init, e := events[..|events| - 1], events[|events| - 1];
      assert forall i | 0 <= i < |init| :: init[i] == events[i];
      StoredDate(u, init);
      LastCheckIsLast(init);
      if e.Check? {
        ResetDateIsLatest(e.now, u.resetDay, e.now);
        if LastCheck(init).Some? {
          var was := LastCheck(init).value;
          ResetDateIsLatest(was, u.resetDay, was);
          var i :| 0 <= i < |init| && init[i] == Check(was);
          assert events[i] == init[i];
          Advances(u.lastReset, ResetDate(was, u.resetDay), ResetDate(e.now, u.resetDay), was, e.now, u.resetDay);
        }
      } else {
        if LastCheck(events).Some? { ResetDateIsLatest(LastCheck(events).value, u.resetDay, LastCheck(events).value); }
      }
    }
  }

  lemma Advances(start: string, a: Date, b: Date, was: Date, now: Date, day: int)
    requires Clock(was) && Clock(now) && !Earlier(now, was) && 0 < day <= 28
    requires a == ResetDate(was, day) && b == ResetDate(now, day) && IsDate(a) && IsDate(b)
    ensures var stored := if Before(start, DayText(a)) then DayText(a) else start;
            (if Before(stored, DayText(b)) then DayText(b) else stored)
            == if Before(start, DayText(b)) then DayText(b) else start
    ensures DayText(a) == DayText(b) || Before(DayText(a), DayText(b))
  {
    ResetDateMonotone(was, now, day);
    TextOrder(a, b);
    TextOrder(b, a);
    BeforeIsTotal(start, DayText(a));
    if Before(start, DayText(a)) && Before(DayText(a), DayText(b)) { BeforeTransitive(start, DayText(a), DayText(b)); }
    if !Before(start, DayText(a)) && Before(start, DayText(b)) { BeforeIsTotal(start, DayText(b)); }
  }

  lemma {:induction false} BeforeTransitive(a: string, b: string, c: string)
    requires Before(a, b) && Before(b, c)
    ensures Before(a, c)
  {
    if a != "" && a[0] == b[0] && b[0] == c[0] { BeforeTransitive(a[1..], b[1..], c[1..]); }
  }

  /** The first check of all clears if and only if the stored date lies before the reset date. */
  lemma {:induction false} FirstCheckClears(u: User, events: seq<Event>, now: Date)
    requires InTime(events) && Clock(now) && HasResetDay(u) && LastCheck(events).None?
    ensures IsDate(ResetDate(now, u.resetDay))
    ensures Due(Life(u, events), now) <==> Before(u.lastReset, DayText(ResetDate(now, u.resetDay)))
    ensures !Before(Checked(Life(u, events), now).lastReset, Life(u, events).lastReset)
  {
    StoredDate(u, events);
    ResetDateIsLatest(now, u.resetDay, now);
    BeforeIsTotal(u.lastReset, DayText(ResetDate(now, u.resetDay)));
    BeforeIsTotal(u.lastReset, u.lastReset);
  }

  /** After that counters are cleared at exactly the first check of each period: a check clears when its
      reset date is not the one of the check before it, and the stored date never goes back. */
  lemma {:induction false} ClearsOncePerPeriod(u: User, events: seq<Event>, now: Date)
    requires InTime(events + [Check(now)]) && InTime(events) && HasResetDay(u) && LastCheck(events).Some?
    requires var last := LastCheck(events).value;
             && Clock(last) && IsDate(ResetDate(last, u.resetDay))
             && !Before(DayText(ResetDate(last, u.resetDay)), u.lastReset)
    ensures Clock(now)
    ensures Due(Life(u, events), now) <==> ResetDate(now, u.resetDay) != ResetDate(LastCheck(events).value, u.resetDay)
    ensures !Before(Checked(Life(u, events), now).lastReset, Life(u, events).lastReset)
  {
    var all := events + [Check(now)];
    assert all[|events|] == Check(now);
    StoredDate(u, events);
    LastCheckIsLast(events);
    var was := LastCheck(events).value;
    var i :| 0 <= i < |events| && events[i] == Check(was);
    assert all[i] == events[i];
    ResetDateIsLatest(now, u.resetDay, now);
    ResetDateIsLatest(was, u.resetDay, was);
    var a, b := ResetDate(was, u.resetDay), ResetDate(now, u.resetDay);
    Advances(u.lastReset, a, b, was, now, u.resetDay);
    TextOrder(a, b);
    BeforeIsTotal(u.lastReset, DayText(a));
    BeforeIsTotal(DayText(a), DayText(b));
    assert Life(u, events).lastReset == DayText(a);
  }

  /** Traffic since the last clearing check, or since the start. */
  function Since(u: User, events: seq<Event>): (int, int)
    requires InTime(events)
    decreases |events|
  {
    if events == [] then (u.up, u.down)
    else
      var init, e := events[..|events| - 1], events[|events| - 1];
      assert forall i | 0 <= i < |init| :: init[i] == events[i];
      match e
      case Use(up, down) => (Since(u, init).0 + up, Since(u, init).1 + down)
      case Check(now) => if Due(Life(u, init), now) then (0, 0) else Since(u, init)
  }

  /** The counters hold exactly the traffic of the current period. */
  lemma {:induction false} CountersOfPeriod(u: User, events: seq<Event>)
    requires InTime(events) && u.used == u.up + u.down
    ensures (Life(u, events).up, Life(u, events).down) == Since(u, events)
    ensures Life(u, events).used == Life(u, events).up + Life(u, events).down
    decreases |events|
  {
    if events != [] {
      var init := events[..|events| - 1];
      assert forall i | 0 <= i < |init| :: init[i] == events[i];
      CountersOfPeriod(u, init);
    }
  }
}
