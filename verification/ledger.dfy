/** The traffic ledger (handler/traffic.go, model/user.go's AddTraffic, model/traffic.go's
    Record) as a machine: nodes count bytes, polls read and reset the counters, and
    every byte read is credited to a user and then recorded. Polls of many nodes
    interleave with each other and with edits of the user table. */
module Ledger {
  import opened Tables
  import opened StatNames

  const ZERO := Traffic(0, 0)

  /** What one poll read for one user name; a traffic_logs row once it is recorded. `owner` is the id
      that the poll's copy of the user table gives the name. */
  datatype Parcel = Parcel(node: int, name: string, owner: Option<int>, bytes: Traffic)

  datatype Key = AtNode(n: int, name: string) | For(u: int) | AllOf(n: int)

  predicate Matches(p: Parcel, k: Key) {
    match k
    case AtNode(n, name) => p.node == n && p.name == name
    case For(u) => p.owner == Some(u)
    case AllOf(n) => p.node == n
  }

  function Part(p: Parcel, k: Key, d: Direction): int { if Matches(p, k) then Bytes(p.bytes, d) else 0 }

  function Sum(ps: seq<Parcel>, k: Key, d: Direction): int {
    if ps == [] then 0 else Sum(ps[..|ps| - 1], k, d) + Part(ps[|ps| - 1], k, d)
  }

  function Without(ps: seq<Parcel>, i: nat): seq<Parcel>
    requires i < |ps|
  {
    ps[..i] + ps[i + 1..]
  }

  /** DELETE: the rows that do not match the key, or those that do. */
  function Keeping(ps: seq<Parcel>, gone: Key, hit: bool): seq<Parcel> {
    if ps == [] then []
    else
      var p := ps[|ps| - 1];
      Keeping(ps[..|ps| - 1], gone, hit) + (if Matches(p, gone) == hit then [p] else [])
  }

  lemma {:induction false} SumConcat(a: seq<Parcel>, b: seq<Parcel>, k: Key, d: Direction)
    ensures Sum(a + b, k, d) == Sum(a, k, d) + Sum(b, k, d)
    decreases |b|
  {
    if b == [] {
      assert a + b == a;
    } else {
      var all := a + b;
      assert all[..|all| - 1] == a + b[..|b| - 1];
      SumConcat(a, b[..|b| - 1], k, d);
    }
  }

  lemma {:induction false} SumOne(p: Parcel, k: Key, d: Direction)
    ensures Sum([p], k, d) == Part(p, k, d)
  {
  }

  lemma {:induction false} SumWithout(ps: seq<Parcel>, i: nat, k: Key, d: Direction)
    requires i < |ps|
    ensures Sum(ps, k, d) == Sum(Without(ps, i), k, d) + Part(ps[i], k, d)
  {
    var a, one, b := ps[..i], [ps[i]], ps[i + 1..];
    assert ps == a + (one + b) && Without(ps, i) == a + b;
    SumConcat(a, one + b, k, d);
    SumConcat(one, b, k, d);
    SumConcat(a, b, k, d);
    SumOne(ps[i], k, d);
  }

  lemma {:induction false} SumSplit(ps: seq<Parcel>, gone: Key, k: Key, d: Direction)
    ensures Sum(ps, k, d) == Sum(Keeping(ps, gone, false), k, d) + Sum(Keeping(ps, gone, true), k, d)
    decreases |ps|
  {
    if ps != [] {
      SumSplit(ps[..|ps| - 1], gone, k, d);
      KeepingLast(ps, gone, false, k, d);
      KeepingLast(ps, gone, true, k, d);
    }
  }

  lemma {:induction false} KeepingLast(ps: seq<Parcel>, gone: Key, hit: bool, k: Key, d: Direction)
    requires ps != []
    ensures Sum(Keeping(ps, gone, hit), k, d)
            == Sum(Keeping(ps[..|ps| - 1], gone, hit), k, d)
               + (if Matches(ps[|ps| - 1], gone) == hit then Part(ps[|ps| - 1], k, d) else 0)
  {
    var front, p := Keeping(ps[..|ps| - 1], gone, hit), ps[|ps| - 1];
    if Matches(p, gone) == hit {
      var one := [p];
      assert Keeping(ps, gone, hit) == front + one;
      SumConcat(front, one, k, d);
      SumOne(p, k, d);
    } else {
      assert Keeping(ps, gone, hit) == front;
    }
  }

  // ---- one poll ----

  /** What a node's counters hold for one user name. */
  function Counted(stats: seq<NamedStat>, name: string, d: Direction): int {
    Total(stats, name, if d.Up? then "uplink" else "downlink")
  }

  /** The summing loop's map, taken in some order. */
  function Parcels(node: int, stats: seq<NamedStat>, owners: map<string, int>, order: seq<string>): seq<Parcel>
    requires forall w | w in order :: w in Summed(stats)
  {
    if order == [] then []
    else
      var w := order[|order| - 1];
      Parcels(node, stats, owners, order[..|order| - 1])
      + [Parcel(node, w, if w in owners then Some(owners[w]) else None, Summed(stats)[w])]
  }

  ghost predicate Orders(order: seq<string>, stats: seq<NamedStat>) {
    && (forall w :: w in order <==> w in Summed(stats))
    && forall i, j | 0 <= i < j < |order| :: order[i] != order[j]
  }

  lemma {:induction false} ParcelsHold(node: int, stats: seq<NamedStat>, owners: map<string, int>, order: seq<string>,
                                       n: int, w: string, d: Direction)
    requires (forall v | v in order :: v in Summed(stats)) && forall i, j | 0 <= i < j < |order| :: order[i] != order[j]
    ensures Sum(Parcels(node, stats, owners, order), AtNode(n, w), d)
            == if n == node && w in order then Counted(stats, w, d) else 0
    decreases |order|
  {
    if order != [] {
      var init, v := order[..|order| - 1], order[|order| - 1];
      assert order == init + [v];
      ParcelsHold(node, stats, owners, init, n, w, d);
      SumsAreTotals(stats, v);
      var all := Parcels(node, stats, owners, order);
      assert all[..|all| - 1] == Parcels(node, stats, owners, init);
    }
  }

  /** A poll carries away exactly what the node had counted, name by name. */
  lemma {:induction false} PollTakesAll(node: int, stats: seq<NamedStat>, owners: map<string, int>, order: seq<string>,
                                        n: int, w: string, d: Direction)
    requires Orders(order, stats)
    ensures Sum(Parcels(node, stats, owners, order), AtNode(n, w), d) == if n == node then Counted(stats, w, d) else 0
  {
    ParcelsHold(node, stats, owners, order, n, w, d);
    SumsAreTotals(stats, w);
  }

  // ---- the machine ----

  datatype Row = Row(name: string, used: int, up: int, down: int)

  /** `history` is everything a node ever counted; `onNode` what it has not been asked for yet. Parcels
      are `flying` until they are dropped or credited, `credited` until they are recorded. `removed`
      and `discarded` keep what left the ledger and what never reached it, `cleared` the counters a reset
      threw away and `lost` what a restore wrote over. `resets` holds what each traffic reset in flight
      read of its user before it began. */
  datatype State = State(history: map<int, seq<NamedStat>>, onNode: map<int, seq<NamedStat>>,
                         users: map<int, Row>, nextUser: int, polls: map<int, map<string, int>>,
                         flying: seq<Parcel>, credited: seq<Parcel>, ledger: seq<Parcel>,
                         removed: seq<Parcel>, discarded: seq<Parcel>, cleared: map<int, Traffic>,
                         resets: map<int, Pending>, lost: map<int, Traffic>)

  /** The counters a reset read, and what was cleared, lost and credited by then. */
  datatype Pending = Pending(u: int, used: int, up: int, down: int, cleared: Traffic, lost: Traffic, credited: Traffic)

  datatype Step =
    | Count(n: int, stat: NamedStat)
    | CreateUser(name: string)
    | RenameUser(u: int, name: string)
    | DeleteUser(u: int)
    | ClearUser(u: int)
    | BeginReset(t: int, u: int)
    | RestoreTraffic(t: int)
    | EndReset(t: int)
    | DeleteNode(n: int)
    | Prune(k: nat)
    | BeginPoll(t: int, owners: map<string, int>)
    | Fetch(t: int, n: int, order: seq<string>)
    | LoseReply(t: int, n: int, order: seq<string>)
    | Drop(i: nat)
    | Credit(i: nat)
    | Record(i: nat)

  function StatsOf(m: map<int, seq<NamedStat>>, n: int): seq<NamedStat> { if n in m then m[n] else [] }

  function ClearedOf(s: State, u: int): Traffic { if u in s.cleared then s.cleared[u] else ZERO }

  function LostOf(s: State, u: int): Traffic { if u in s.lost then s.lost[u] else ZERO }

  /** Everything ever credited to user `u`, recorded yet or not. */
  function Credits(s: State, u: int): Traffic {
    Traffic(Sum(s.credited, For(u), Up) + Recorded(s, For(u), Up),
            Sum(s.credited, For(u), Down) + Recorded(s, For(u), Down))
  }

  /** What the panel has recorded, whether or not the row is still kept. */
  function Recorded(s: State, k: Key, d: Direction): int { Sum(s.ledger, k, d) + Sum(s.removed, k, d) }

  /** The user's counters go back to what the reset read, whatever was credited since. */
  function Restored(s: State, p: Pending): State
    requires p.u in s.users
  {
    s.(users := s.users[p.u := Row(s.users[p.u].name, p.used, p.up, p.down)], cleared := s.cleared[p.u := p.cleared],
       lost := s.lost[p.u := Traffic(p.lost.up + (Credits(s, p.u).up - p.credited.up),
                                     p.lost.down + (Credits(s, p.u).down - p.credited.down))])
  }

  ghost predicate Snapshot(users: map<int, Row>, owners: map<string, int>) {
    && (forall w | w in owners :: owners[w] in users && users[owners[w]].name == w)
    && (forall u | u in users :: users[u].name in owners)
  }

  function Added(row: Row, t: Traffic): Row {
    row.(used := row.used + (t.up + t.down), up := row.up + t.up, down := row.down + t.down)
  }

  ghost predicate Next(s: State, step: Step, s': State) {
    match step
    case Count(n, stat) =>
      stat.value >= 0
      && s' == s.(history := s.history[n := StatsOf(s.history, n) + [stat]],
                  onNode := s.onNode[n := StatsOf(s.onNode, n) + [stat]])
    case CreateUser(name) =>
      s' == s.(users := s.users[s.nextUser := Row(name, 0, 0, 0)], nextUser := s.nextUser + 1,
               cleared := s.cleared[s.nextUser := ZERO],
               lost := s.lost[s.nextUser := ZERO])
    case RenameUser(u, name) => u in s.users && s' == s.(users := s.users[u := s.users[u].(name := name)])
    case DeleteUser(u) =>
      u in s.users && s' == s.(users := s.users - {u}, ledger := Keeping(s.ledger, For(u), false),
                               removed := s.removed + Keeping(s.ledger, For(u), true))
    case ClearUser(u) =>
      u in s.users && s' == s.(users := s.users[u := Row(s.users[u].name, 0, 0, 0)],
                               cleared := s.cleared[u := Traffic(ClearedOf(s, u).up + s.users[u].up,
                                                                 ClearedOf(s, u).down + s.users[u].down)])
    case BeginReset(t, u) =>
      && u in s.users && t !in s.resets
      && s' == s.(resets := s.resets[t := Pending(u, s.users[u].used, s.users[u].up, s.users[u].down,
                                                  ClearedOf(s, u), LostOf(s, u), Credits(s, u))])
    case RestoreTraffic(t) =>
      && t in s.resets
      && s' == (if s.resets[t].u in s.users then Restored(s, s.resets[t]) else s).(resets := s.resets - {t})
    case EndReset(t) => t in s.resets && s' == s.(resets := s.resets - {t})
    case DeleteNode(n) =>
      s' == s.(ledger := Keeping(s.ledger, AllOf(n), false), removed := s.removed + Keeping(s.ledger, AllOf(n), true))
    case Prune(k) => k <= |s.ledger| && s' == s.(ledger := s.ledger[k..], removed := s.removed + s.ledger[..k])
    case BeginPoll(t, owners) => Snapshot(s.users, owners) && s' == s.(polls := s.polls[t := owners])
    case Fetch(t, n, order) =>
      && t in s.polls && Orders(order, StatsOf(s.onNode, n))
      && s' == s.(onNode := s.onNode[n := []], flying := s.flying + Parcels(n, StatsOf(s.onNode, n), s.polls[t], order))
    case LoseReply(t, n, order) =>
      && t in s.polls && Orders(order, StatsOf(s.onNode, n))
      && s' == s.(onNode := s.onNode[n := []],
                  discarded := s.discarded + Parcels(n, StatsOf(s.onNode, n), s.polls[t], order))
    case Drop(i) =>
      && i < |s.flying| && (s.flying[i].owner.None? || s.flying[i].bytes == ZERO)
      && s' == s.(flying := Without(s.flying, i), discarded := s.discarded + [s.flying[i]])
    case Credit(i) =>
      && i < |s.flying| && s.flying[i].owner.Some? && s.flying[i].bytes != ZERO
      && var u := s.flying[i].owner.value;
         s' == s.(flying := Without(s.flying, i), credited := s.credited + [s.flying[i]],
                  users := if u in s.users then s.users[u := Added(s.users[u], s.flying[i].bytes)] else s.users)
    case Record(i) =>
      i < |s.credited| && s' == s.(credited := Without(s.credited, i), ledger := s.ledger + [s.credited[i]])
  }

  ghost predicate IsRun(run: seq<State>, steps: seq<Step>) {
    && |run| == |steps| + 1
    && run[0] == State(map[], map[], map[], 1, map[], [], [], [], [], [], map[], map[], map[])
    && forall k | 0 <= k < |steps| :: Next(run[k], steps[k], run[k + 1])
  }

  // ---- conservation ----

  function InFlight(s: State, k: Key, d: Direction): int { Sum(s.flying, k, d) + Sum(s.credited, k, d) }

  ghost predicate Conserved(s: State, n: int, w: string, d: Direction) {
    Counted(StatsOf(s.history, n), w, d)
    == Counted(StatsOf(s.onNode, n), w, d) + InFlight(s, AtNode(n, w), d) + Recorded(s, AtNode(n, w), d)
       + Sum(s.discarded, AtNode(n, w), d)
  }

  function Counter(row: Row, d: Direction): int { if d.Up? then row.up else row.down }

  ghost predicate Credited(s: State, u: int, d: Direction) {
    u in s.users ==>
      && s.users[u].used == s.users[u].up + s.users[u].down
      && Counter(s.users[u], d) + Bytes(ClearedOf(s, u), d) + Bytes(LostOf(s, u), d) == Bytes(Credits(s, u), d)
  }

  function ReadOf(p: Pending, d: Direction): int { if d.Up? then p.up else p.down }

  /** What a reset read added up when it was read. */
  ghost predicate ReadOk(s: State, d: Direction) {
    forall t | t in s.resets :: var p := s.resets[t];
      && p.used == p.up + p.down
      && ReadOf(p, d) + Bytes(p.cleared, d) + Bytes(p.lost, d) == Bytes(p.credited, d)
  }

  ghost predicate Below(ps: seq<Parcel>, limit: int) {
    forall p | p in ps && p.owner.Some? :: p.owner.value < limit
  }

  ghost predicate Ids(s: State) {
    && (forall u | u in s.users :: u < s.nextUser)
    && (forall t, w | t in s.polls && w in s.polls[t] :: s.polls[t][w] < s.nextUser)
    && Below(s.flying, s.nextUser) && Below(s.credited, s.nextUser) && Below(s.ledger, s.nextUser)
    && Below(s.removed, s.nextUser)
  }

  lemma {:induction false} NoneBelow(ps: seq<Parcel>, u: int, d: Direction)
    requires Below(ps, u)
    ensures Sum(ps, For(u), d) == 0
    decreases |ps|
  {
    if ps != [] {
      assert ps[|ps| - 1] in ps && forall p | p in ps[..|ps| - 1] :: p in ps;
      NoneBelow(ps[..|ps| - 1], u, d);
    }
  }

  lemma {:induction false} KeptAreOld(ps: seq<Parcel>, gone: Key, hit: bool)
    ensures forall p | p in Keeping(ps, gone, hit) :: p in ps
    decreases |ps|
  {
    if ps != [] { KeptAreOld(ps[..|ps| - 1], gone, hit); }
  }

  lemma {:induction false} ParcelsBelow(node: int, stats: seq<NamedStat>, owners: map<string, int>, order: seq<string>,
                                        limit: int)
    requires (forall w | w in order :: w in Summed(stats)) && forall w | w in owners :: owners[w] < limit
    ensures Below(Parcels(node, stats, owners, order), limit)
    decreases |order|
  {
    if order != [] {
      assert order == order[..|order| - 1] + [order[|order| - 1]];
      ParcelsBelow(node, stats, owners, order[..|order| - 1], limit);
    }
  }

  lemma {:induction false} StepKeepsIds(s: State, step: Step, s': State)
    requires Ids(s) && Next(s, step, s')
    ensures Ids(s')
  {
    match step
    case DeleteUser(u) => KeptAreOld(s.ledger, For(u), true); KeptAreOld(s.ledger, For(u), false);
    case DeleteNode(n) => KeptAreOld(s.ledger, AllOf(n), true); KeptAreOld(s.ledger, AllOf(n), false);
    case Fetch(t, n, order) => ParcelsBelow(n, StatsOf(s.onNode, n), s.polls[t], order, s.nextUser);
    case _ =>
  }

  predicate OfPoll(step: Step) { step.Fetch? || step.LoseReply? || step.Drop? || step.Credit? || step.Record? }

  /** Bytes move between places; no step makes or loses any. */
  lemma {:induction false} StepConserves(s: State, step: Step, s': State, n: int, w: string, d: Direction)
    requires Conserved(s, n, w, d) && Next(s, step, s')
    ensures Conserved(s', n, w, d)
  {
    if OfPoll(step) {
      PollConserves(s, step, s', n, w, d);
    } else if step.Count? {
      CountedGrows(StatsOf(s.history, step.n), step.stat, w, d);
      CountedGrows(StatsOf(s.onNode, step.n), step.stat, w, d);
    } else {
      EditConserves(s, step, s', n, w, d);
    }
  }

  lemma {:induction false} EditConserves(s: State, step: Step, s': State, n: int, w: string, d: Direction)
    requires Conserved(s, n, w, d) && Next(s, step, s') && !OfPoll(step) && !step.Count?
    ensures Conserved(s', n, w, d)
  {
    var k := AtNode(n, w);
    match step
    case DeleteUser(u) => EraseMoves(s, For(u), k, d);
    case DeleteNode(m) => EraseMoves(s, AllOf(m), k, d);
    case Prune(i) => PruneMoves(s, i, k, d);
    case _ =>
  }

  lemma {:induction false} PollConserves(s: State, step: Step, s': State, n: int, w: string, d: Direction)
    requires Conserved(s, n, w, d) && Next(s, step, s') && OfPoll(step)
    ensures Conserved(s', n, w, d)
  {
    var k := AtNode(n, w);
    match step
    case Fetch(t, m, order) => PollMoves(s, m, s.polls[t], order, s.flying, n, w, d);
    case LoseReply(t, m, order) => PollMoves(s, m, s.polls[t], order, s.discarded, n, w, d);
    case Drop(i) => Moves(s.flying, i, s.discarded, k, d);
    case Credit(i) => Moves(s.flying, i, s.credited, k, d);
    case Record(i) => Moves(s.credited, i, s.ledger, k, d);
  }

  lemma {:induction false} CountedGrows(stats: seq<NamedStat>, stat: NamedStat, w: string, d: Direction)
    ensures Counted(stats + [stat], w, d)
            == Counted(stats, w, d) + (if Of(stat, w, if d.Up? then "uplink" else "downlink") then stat.value else 0)
  {
  }

  lemma {:induction false} PollMoves(s: State, m: int, owners: map<string, int>, order: seq<string>, to: seq<Parcel>,
                                     n: int, w: string, d: Direction)
    requires Orders(order, StatsOf(s.onNode, m))
    ensures var taken := Parcels(m, StatsOf(s.onNode, m), owners, order);
            Sum(to + taken, AtNode(n, w), d)
            == Sum(to, AtNode(n, w), d) + (if n == m then Counted(StatsOf(s.onNode, m), w, d) else 0)
  {
    PollTakesAll(m, StatsOf(s.onNode, m), owners, order, n, w, d);
    SumConcat(to, Parcels(m, StatsOf(s.onNode, m), owners, order), AtNode(n, w), d);
  }

  lemma {:induction false} Moves(from: seq<Parcel>, i: nat, to: seq<Parcel>, k: Key, d: Direction)
    requires i < |from|
    ensures Sum(from, k, d) == Sum(Without(from, i), k, d) + Part(from[i], k, d)
    ensures Sum(to + [from[i]], k, d) == Sum(to, k, d) + Part(from[i], k, d)
  {
    SumWithout(from, i, k, d);
    SumConcat(to, [from[i]], k, d);
    SumOne(from[i], k, d);
  }

  lemma {:induction false} EraseMoves(s: State, gone: Key, k: Key, d: Direction)
    ensures Sum(Keeping(s.ledger, gone, false), k, d) + Sum(s.removed + Keeping(s.ledger, gone, true), k, d)
            == Recorded(s, k, d)
  {
    SumSplit(s.ledger, gone, k, d);
    SumConcat(s.removed, Keeping(s.ledger, gone, true), k, d);
  }

  lemma {:induction false} PruneMoves(s: State, i: nat, k: Key, d: Direction)
    requires i <= |s.ledger|
    ensures Sum(s.ledger[i..], k, d) + Sum(s.removed + s.ledger[..i], k, d) == Recorded(s, k, d)
  {
    assert s.ledger == s.ledger[..i] + s.ledger[i..];
    SumConcat(s.ledger[..i], s.ledger[i..], k, d);
    SumConcat(s.removed, s.ledger[..i], k, d);
  }

  /** What a step credits to user `u`. */
  function Gain(s: State, step: Step, u: int, d: Direction): int {
    if step.Credit? && step.i < |s.flying| && s.flying[step.i].owner == Some(u) then Bytes(s.flying[step.i].bytes, d)
    else 0
  }

  lemma {:induction false} StepGains(s: State, step: Step, s': State, u: int, d: Direction)
    requires Next(s, step, s')
    ensures Bytes(Credits(s', u), d) == Bytes(Credits(s, u), d) + Gain(s, step, u, d)
  {
    var k := For(u);
    match step
    case DeleteUser(v) => EraseMoves(s, For(v), k, d);
    case DeleteNode(m) => EraseMoves(s, AllOf(m), k, d);
    case Prune(i) => PruneMoves(s, i, k, d);
    case Credit(i) => Moves(s.flying, i, s.credited, k, d);
    case Record(i) => Moves(s.credited, i, s.ledger, k, d);
    case _ =>
  }

  predicate OfUsers(step: Step) {
    || step.CreateUser? || step.RenameUser? || step.DeleteUser? || step.ClearUser?
    || step.BeginReset? || step.RestoreTraffic? || step.EndReset?
  }

  lemma {:induction false} NewUserHasNothing(s: State, d: Direction)
    requires Ids(s)
    ensures Bytes(Credits(s, s.nextUser), d) == 0
  {
    NoneBelow(s.credited, s.nextUser, d);
    NoneBelow(s.ledger, s.nextUser, d);
    NoneBelow(s.removed, s.nextUser, d);
  }

  lemma {:induction false} UserStepCredits(s: State, step: Step, s': State, u: int, d: Direction)
    requires Credited(s, u, d) && Next(s, step, s') && OfUsers(step) && !step.RestoreTraffic?
    requires Bytes(Credits(s', u), d) == Bytes(Credits(s, u), d)
    requires step.CreateUser? ==> Bytes(Credits(s, s.nextUser), d) == 0
    ensures Credited(s', u, d)
  {
  }

  lemma RestoredOwn(s: State, p: Pending, d: Direction)
    requires p.u in s.users && p.used == p.up + p.down
    requires ReadOf(p, d) + Bytes(p.cleared, d) + Bytes(p.lost, d) == Bytes(p.credited, d)
    ensures Credited(Restored(s, p), p.u, d)
  {
    var s' := Restored(s, p);
    SameCredits(s, s', p.u);
    assert ClearedOf(s', p.u) == p.cleared && s'.users[p.u] == Row(s.users[p.u].name, p.used, p.up, p.down);
  }

  lemma RestoredOther(s: State, p: Pending, u: int, d: Direction)
    requires p.u in s.users && u != p.u && Credited(s, u, d)
    ensures Credited(Restored(s, p), u, d)
  {
    var s' := Restored(s, p);
    SameCredits(s, s', u);
    assert ClearedOf(s', u) == ClearedOf(s, u) && LostOf(s', u) == LostOf(s, u);
  }

  lemma SameCredits(s: State, s': State, u: int)
    requires s'.credited == s.credited && s'.ledger == s.ledger && s'.removed == s.removed
    ensures Credits(s', u) == Credits(s, u)
  {
  }

  lemma ResetsUnread(s: State, s': State, u: int, d: Direction)
    requires s' == s.(resets := s'.resets) && Credited(s, u, d)
    ensures Credited(s', u, d)
  {
    SameCredits(s, s', u);
  }

  lemma {:induction false} RestoreCredits(s: State, t: int, s': State, u: int, d: Direction)
    requires Credited(s, u, d) && ReadOk(s, d) && Next(s, RestoreTraffic(t), s')
    ensures Credited(s', u, d)
  {
    var p := s.resets[t];
    var s1 := if p.u in s.users then Restored(s, p) else s;
    if p.u in s.users {
      if u == p.u { RestoredOwn(s, p, d); } else { RestoredOther(s, p, u, d); }
    }
    ResetsUnread(s1, s', u, d);
  }

  lemma {:induction false} OtherStepCredits(s: State, step: Step, s': State, u: int, d: Direction)
    requires Credited(s, u, d) && Next(s, step, s') && !OfUsers(step)
    requires Bytes(Credits(s', u), d) == Bytes(Credits(s, u), d) + Gain(s, step, u, d)
    ensures Credited(s', u, d)
  {
    if step.Credit? { CreditStepCredits(s, step, s', u, d); }
  }

  lemma CreditStepCredits(s: State, step: Step, s': State, u: int, d: Direction)
    requires Credited(s, u, d) && Next(s, step, s') && step.Credit?
    requires Bytes(Credits(s', u), d) == Bytes(Credits(s, u), d) + Gain(s, step, u, d)
    ensures Credited(s', u, d)
  {
    assert ClearedOf(s', u) == ClearedOf(s, u) && LostOf(s', u) == LostOf(s, u);
  }

  lemma {:induction false} StepCredits(s: State, step: Step, s': State, u: int, d: Direction)
    requires Ids(s) && Credited(s, u, d) && ReadOk(s, d) && Next(s, step, s')
    ensures Credited(s', u, d)
  {
    StepGains(s, step, s', u, d);
    NewUserHasNothing(s, d);
    if step.RestoreTraffic? {
      RestoreCredits(s, step.t, s', u, d);
    } else if OfUsers(step) {
      UserStepCredits(s, step, s', u, d);
    } else {
      OtherStepCredits(s, step, s', u, d);
    }
  }

  lemma {:induction false} StepReads(s: State, step: Step, s': State, d: Direction)
    requires ReadOk(s, d) && Next(s, step, s') && (step.BeginReset? ==> Credited(s, step.u, d))
    ensures ReadOk(s', d)
  {
  }

  lemma {:induction false} RunReads(run: seq<State>, steps: seq<Step>, k: nat, d: Direction)
    requires IsRun(run, steps) && k < |run|
    ensures Ids(run[k]) && ReadOk(run[k], d) && forall u :: Credited(run[k], u, d)
  {
    if k > 0 {
      var s, step, s' := run[k - 1], steps[k - 1], run[k];
      RunReads(run, steps, k - 1, d);
      StepKeepsIds(s, step, s');
      StepReads(s, step, s', d);
      forall u ensures Credited(s', u, d) { StepCredits(s, step, s', u, d); }
    }
  }

  lemma {:induction false} RunConserves(run: seq<State>, steps: seq<Step>, k: nat, n: int, w: string, u: int,
                                        d: Direction)
    requires IsRun(run, steps) && k < |run|
    ensures Conserved(run[k], n, w, d) && Credited(run[k], u, d)
  {
    RunReads(run, steps, k, d);
    if k > 0 {
      RunConserves(run, steps, k - 1, n, w, u, d);
      StepConserves(run[k - 1], steps[k - 1], run[k], n, w, d);
    }
  }

  /** Between polls, each byte node `n` counted for `w` is still on the node, was discarded, or is in
      the ledger. */
  lemma {:induction false} NothingIsLost(run: seq<State>, steps: seq<Step>, n: int, w: string, d: Direction)
    requires IsRun(run, steps) && run[|run| - 1].flying == [] && run[|run| - 1].credited == []
    ensures var s := run[|run| - 1];
            Counted(StatsOf(s.history, n), w, d)
            == Counted(StatsOf(s.onNode, n), w, d) + Recorded(s, AtNode(n, w), d) + Sum(s.discarded, AtNode(n, w), d)
  {
    RunConserves(run, steps, |run| - 1, n, w, 0, d);
  }

  /** And each user's counters since the last reset are what the ledger recorded, short of exactly what
      restores wrote over. */
  lemma {:induction false} CountersMatchLedger(run: seq<State>, steps: seq<Step>, u: int, d: Direction)
    requires IsRun(run, steps) && run[|run| - 1].credited == [] && u in run[|run| - 1].users
    ensures var s := run[|run| - 1];
            && s.users[u].used == s.users[u].up + s.users[u].down
            && Counter(s.users[u], d) + Bytes(ClearedOf(s, u), d) + Bytes(LostOf(s, u), d) == Recorded(s, For(u), d)
  {
    RunConserves(run, steps, |run| - 1, 0, "", u, d);
  }

  // ---- what a restore loses ----

  /** What is credited to user `u` by the steps from `i` on, up to `j`. */
  function Gains(run: seq<State>, steps: seq<Step>, i: nat, j: nat, u: int, d: Direction): int
    requires i <= j <= |steps| < |run|
  {
    if i == j then 0 else Gains(run, steps, i, j - 1, u, d) + Gain(run[j - 1], steps[j - 1], u, d)
  }

  ghost predicate GainsAt(run: seq<State>, steps: seq<Step>, k: nat, u: int, d: Direction)
    requires k < |steps| < |run|
  {
    Bytes(Credits(run[k + 1], u), d) == Bytes(Credits(run[k], u), d) + Gain(run[k], steps[k], u, d)
  }

  lemma {:induction false} GainsAdd(run: seq<State>, steps: seq<Step>, i: nat, j: nat, u: int, d: Direction)
    requires i <= j <= |steps| < |run| && forall k | i <= k < j :: GainsAt(run, steps, k, u, d)
    ensures Bytes(Credits(run[j], u), d) == Bytes(Credits(run[i], u), d) + Gains(run, steps, i, j, u, d)
    decreases j
  {
    if i < j {
      GainsAdd(run, steps, i, j - 1, u, d);
      assert GainsAt(run, steps, j - 1, u, d);
    }
  }

  lemma {:induction false} CreditsAre(run: seq<State>, steps: seq<Step>, i: nat, j: nat, u: int, d: Direction)
    requires IsRun(run, steps) && i <= j <= |steps|
    ensures Bytes(Credits(run[j], u), d) == Bytes(Credits(run[i], u), d) + Gains(run, steps, i, j, u, d)
  {
    forall k | i <= k < j ensures GainsAt(run, steps, k, u, d) { StepGains(run[k], steps[k], run[k + 1], u, d); }
    GainsAdd(run, steps, i, j, u, d);
  }

  /** Reset `t` reads user `u` at step `i` and writes it back at step `j`. */
  ghost predicate RestoredAt(run: seq<State>, steps: seq<Step>, i: nat, j: nat, t: int, u: int) {
    && IsRun(run, steps) && i < j < |steps| && steps[i] == BeginReset(t, u) && steps[j] == RestoreTraffic(t)
    && (forall k | i < k < j :: steps[k] != RestoreTraffic(t) && steps[k] != EndReset(t))
    && u in run[j].users
  }

  lemma {:induction false} StillPending(run: seq<State>, steps: seq<Step>, i: nat, j: nat, k: nat, t: int, u: int)
    requires RestoredAt(run, steps, i, j, t, u) && i < k <= j
    ensures t in run[k].resets && run[k].resets[t] == run[i + 1].resets[t]
    decreases k
  {
    assert Next(run[k - 1], steps[k - 1], run[k]);
    if k > i + 1 { StillPending(run, steps, i, j, k - 1, t, u); }
  }

  /** A restore loses exactly what was credited to the user since the reset read it: the counters and
      what was cleared are again what they were then, and the credits are not. */
  lemma {:induction false} RestoreLoses(run: seq<State>, steps: seq<Step>, i: nat, j: nat, t: int, u: int, d: Direction)
    requires RestoredAt(run, steps, i, j, t, u)
    ensures u in run[i].users && u in run[j + 1].users
    ensures var before, after := run[i].users[u], run[j + 1].users[u];
            (after.used, after.up, after.down) == (before.used, before.up, before.down)
    ensures ClearedOf(run[j + 1], u) == ClearedOf(run[i], u)
    ensures Bytes(Credits(run[j + 1], u), d) == Bytes(Credits(run[i], u), d) + Gains(run, steps, i, j, u, d)
    ensures Bytes(LostOf(run[j + 1], u), d) == Bytes(LostOf(run[i], u), d) + Gains(run, steps, i, j, u, d)
  {
    assert Next(run[i], steps[i], run[i + 1]) && Next(run[j], steps[j], run[j + 1]);
    StillPending(run, steps, i, j, j, t, u);
    CreditsAre(run, steps, i, j, u, d);
    SameCredits(run[j], run[j + 1], u);
  }

  // ---- no byte count is negative ----

  ghost predicate NonNegative(s: State) {
    && (forall n, k | n in s.onNode && 0 <= k < |s.onNode[n]| :: s.onNode[n][k].value >= 0)
    && (forall p | p in s.flying :: p.bytes.up >= 0 && p.bytes.down >= 0)
  }

  lemma {:induction false} TotalNonNegative(stats: seq<NamedStat>, w: string, kind: string)
    requires forall k | 0 <= k < |stats| :: stats[k].value >= 0
    ensures Total(stats, w, kind) >= 0
    decreases |stats|
  {
    if stats != [] { TotalNonNegative(stats[..|stats| - 1], w, kind); }
  }

  lemma {:induction false} ParcelsNonNegative(node: int, stats: seq<NamedStat>, owners: map<string, int>,
                                              order: seq<string>)
    requires (forall w | w in order :: w in Summed(stats)) && forall k | 0 <= k < |stats| :: stats[k].value >= 0
    ensures forall p | p in Parcels(node, stats, owners, order) :: p.bytes.up >= 0 && p.bytes.down >= 0
    decreases |order|
  {
    if order != [] {
      var w := order[|order| - 1];
      assert order == order[..|order| - 1] + [w];
      ParcelsNonNegative(node, stats, owners, order[..|order| - 1]);
      SumsAreTotals(stats, w);
      TotalNonNegative(stats, w, "uplink");
      TotalNonNegative(stats, w, "downlink");
    }
  }

  lemma {:induction false} StaysNonNegative(run: seq<State>, steps: seq<Step>, k: nat)
    requires IsRun(run, steps) && k < |run|
    ensures NonNegative(run[k])
  {
    if k > 0 {
      StaysNonNegative(run, steps, k - 1);
      StepNonNegative(run[k - 1], steps[k - 1], run[k]);
    }
  }

  lemma {:induction false} StepNonNegative(s: State, step: Step, s': State)
    requires NonNegative(s) && Next(s, step, s')
    ensures NonNegative(s')
  {
    if step.Fetch? {
      ParcelsNonNegative(step.n, StatsOf(s.onNode, step.n), s.polls[step.t], step.order);
      assert s'.flying == s.flying + Parcels(step.n, StatsOf(s.onNode, step.n), s.polls[step.t], step.order);
    } else {
      OthersNonNegative(s, step, s');
    }
  }

  lemma OthersNonNegative(s: State, step: Step, s': State)
    requires NonNegative(s) && Next(s, step, s') && !step.Fetch?
    ensures NonNegative(s')
  {
  }

  ghost predicate CreditedBetween(run: seq<State>, steps: seq<Step>, i: nat, j: nat, u: int)
    requires i <= j <= |steps| < |run|
  {
    exists k :: i <= k < j && CreditsTo(run[k], steps[k], u)
  }

  ghost predicate CreditsTo(s: State, step: Step, u: int) {
    step.Credit? && step.i < |s.flying| && s.flying[step.i].owner == Some(u)
  }

  lemma {:induction false} GainsNonNegative(run: seq<State>, steps: seq<Step>, i: nat, j: nat, u: int)
    requires IsRun(run, steps) && i <= j <= |steps|
    ensures Gains(run, steps, i, j, u, Up) >= 0 && Gains(run, steps, i, j, u, Down) >= 0
    ensures CreditedBetween(run, steps, i, j, u) <==>
              Gains(run, steps, i, j, u, Up) + Gains(run, steps, i, j, u, Down) > 0
    decreases j
  {
    if i < j {
      GainsNonNegative(run, steps, i, j - 1, u);
      StaysNonNegative(run, steps, j - 1);
      GainIff(run[j - 1], steps[j - 1], run[j], u);
      if CreditsTo(run[j - 1], steps[j - 1], u) {
        assert CreditedBetween(run, steps, i, j, u);
      } else if k :| i <= k < j && CreditsTo(run[k], steps[k], u) {
        assert CreditedBetween(run, steps, i, j - 1, u);
      }
    }
  }

  /** A step brings a user bytes exactly when it credits the user. */
  lemma GainIff(s: State, step: Step, s': State, u: int)
    requires Next(s, step, s') && NonNegative(s)
    ensures Gain(s, step, u, Up) >= 0 && Gain(s, step, u, Down) >= 0
    ensures CreditsTo(s, step, u) <==> Gain(s, step, u, Up) + Gain(s, step, u, Down) > 0
  {
    if CreditsTo(s, step, u) { assert s.flying[step.i] in s.flying; }
  }

  /** The user's counters since the last reset are what was credited. */
  ghost predicate InBalance(s: State, u: int) {
    && u in s.users
    && s.users[u].up + ClearedOf(s, u).up == Credits(s, u).up
    && s.users[u].down + ClearedOf(s, u).down == Credits(s, u).down
  }

  lemma {:induction false} BalanceIsNoLoss(run: seq<State>, steps: seq<Step>, k: nat, u: int)
    requires IsRun(run, steps) && k < |run| && u in run[k].users
    ensures InBalance(run[k], u) <==> LostOf(run[k], u) == ZERO
  {
    RunReads(run, steps, k, Up);
    RunReads(run, steps, k, Down);
    assert Credited(run[k], u, Up) && Credited(run[k], u, Down);
  }

  /** After a reset was rolled back the counters match the ledger if and only if no poll credited the
      user since the reset read it. */
  lemma {:induction false} BalancedIff(run: seq<State>, steps: seq<Step>, i: nat, j: nat, t: int, u: int)
    requires RestoredAt(run, steps, i, j, t, u) && InBalance(run[i], u)
    ensures InBalance(run[j + 1], u) <==> !CreditedBetween(run, steps, i, j, u)
  {
    assert Next(run[j], steps[j], run[j + 1]);
    StillPending(run, steps, i, j, j, t, u);
    BalanceIsNoLoss(run, steps, i, u);
    BalanceIsNoLoss(run, steps, j + 1, u);
    RestoreLoses(run, steps, i, j, t, u, Up);
    RestoreLoses(run, steps, i, j, t, u, Down);
    GainsNonNegative(run, steps, i, j, u);
  }

  // ---- a run that loses bytes ----

  const NOTHING := State(map[], map[], map[], 1, map[], [], [], [], [], [], map[], map[], map[])

  /** One user, a poll that knows it, and a reset that has read it. */
  function Ready(name: string): State {
    var poll := map[name := 1];
    NOTHING.(users := map[1 := Row(name, 0, 0, 0)], nextUser := 2, cleared := map[1 := ZERO], lost := map[1 := ZERO],
             polls := map[0 := poll], resets := map[0 := Pending(1, 0, 0, 0, ZERO, ZERO, ZERO)])
  }

  lemma GetsReady(name: string) returns (s1: State, s2: State)
    ensures Next(NOTHING, CreateUser(name), s1) && Next(s1, BeginPoll(0, map[name := 1]), s2)
    ensures Next(s2, BeginReset(0, 1), Ready(name))
    ensures s2 == Ready(name).(resets := map[]) && InBalance(s2, 1)
  {
    s1 := NOTHING.(users := map[1 := Row(name, 0, 0, 0)], nextUser := 2,
                   cleared := map[1 := ZERO], lost := map[1 := ZERO]);
    s2 := s1.(polls := map[0 := map[name := 1]]);
    assert Credits(s2, 1) == ZERO;
  }

  /** What a node counts for a user whose name is clean is read back as that user's. */
  lemma OneStat(name: string, bytes: nat) returns (stat: NamedStat)
    requires Clean(name)
    ensures stat.value == bytes && Orders([name], [stat]) && Summed([stat])[name] == Traffic(bytes, 0)
  {
    stat := NamedStat(Build(name, "uplink"), bytes);
    assert Find("uplink") < 0;
    ParseBuilt(name, "uplink");
    var stats := [stat];
    assert stats[..|stats| - 1] == [] && Summed([]) == map[];
    assert Summed(stats) == WithStat(map[], stat);
    assert Summed(stats) == map[name := Traffic(bytes, 0)];
  }

  lemma Polls(name: string, stat: NamedStat, p: Parcel) returns (a: State, b: State)
    requires stat.value > 0 && Orders([name], [stat]) && Summed([stat])[name] == Traffic(stat.value, 0)
    requires p == Parcel(7, name, Some(1), Traffic(stat.value, 0))
    ensures Next(Ready(name), Count(7, stat), a) && Next(a, Fetch(0, 7, [name]), b)
    ensures b.flying == [p] && b.users == Ready(name).users && b.resets == Ready(name).resets
  {
    var s := Ready(name);
    a := s.(history := map[7 := [stat]], onNode := map[7 := [stat]]);
    assert StatsOf(s.history, 7) + [stat] == [stat];
    var order := [name];
    assert order[..|order| - 1] == [] && Parcels(7, [stat], map[name := 1], []) == [];
    assert Parcels(7, [stat], map[name := 1], order) == [] + [p];
    b := a.(onNode := map[7 := []], flying := [p]);
    assert a.flying + [p] == [p];
  }

  lemma Credits1(b: State, p: Parcel) returns (c: State)
    requires b.flying == [p] && p.owner == Some(1) && p.bytes != ZERO && 1 in b.users
    ensures Next(b, Credit(0), c) && 1 in c.users && c.resets == b.resets
  {
    c := b.(flying := Without(b.flying, 0), credited := b.credited + [p],
            users := b.users[1 := Added(b.users[1], p.bytes)]);
  }

  lemma Restores(c: State) returns (d: State)
    requires 0 in c.resets && c.resets[0].u == 1 && 1 in c.users
    ensures Next(c, RestoreTraffic(0), d)
  {
    d := Restored(c, c.resets[0]).(resets := c.resets - {0});
  }

  lemma Grow(run: seq<State>, steps: seq<Step>, step: Step, s: State) returns (run': seq<State>, steps': seq<Step>)
    requires IsRun(run, steps) && Next(run[|run| - 1], step, s)
    ensures run' == run + [s] && steps' == steps + [step] && IsRun(run', steps')
  {
    run', steps' := run + [s], steps + [step];
  }

  lemma ReadyRun(name: string) returns (run: seq<State>, steps: seq<Step>)
    ensures IsRun(run, steps) && |steps| == 3 && run[3] == Ready(name) && InBalance(run[2], 1)
    ensures steps[2] == BeginReset(0, 1)
  {
    var s1, s2 := GetsReady(name);
    run, steps := [NOTHING], [];
    run, steps := Grow(run, steps, CreateUser(name), s1);
    run, steps := Grow(run, steps, BeginPoll(0, map[name := 1]), s2);
    run, steps := Grow(run, steps, BeginReset(0, 1), Ready(name));
  }

  lemma PolledRun(run: seq<State>, steps: seq<Step>, name: string, stat: NamedStat, p: Parcel)
    returns (run': seq<State>, steps': seq<Step>)
    requires IsRun(run, steps) && |steps| == 3 && run[3] == Ready(name)
    requires stat.value > 0 && Orders([name], [stat]) && Summed([stat])[name] == Traffic(stat.value, 0)
    requires p == Parcel(7, name, Some(1), Traffic(stat.value, 0))
    ensures IsRun(run', steps') && |steps'| == 5 && run'[..4] == run && steps'[..3] == steps
    ensures steps'[3].Count? && steps'[4].Fetch? && run'[5].flying == [p] && run'[5].users == Ready(name).users
    ensures run'[5].resets == Ready(name).resets
  {
    var a, b := Polls(name, stat, p);
    run', steps' := Grow(run, steps, Count(7, stat), a);
    run', steps' := Grow(run', steps', Fetch(0, 7, [name]), b);
  }

  lemma RestoredRun(run: seq<State>, steps: seq<Step>, p: Parcel) returns (run': seq<State>, steps': seq<Step>)
    requires IsRun(run, steps) && |steps| == 5 && run[5].flying == [p] && p.owner == Some(1) && p.bytes != ZERO
    requires 1 in run[5].users && 0 in run[5].resets && run[5].resets[0].u == 1
    ensures IsRun(run', steps') && |steps'| == 7 && run'[..6] == run && steps'[..5] == steps
    ensures steps'[5] == Credit(0) && steps'[6] == RestoreTraffic(0) && 1 in run'[6].users
  {
    var c := Credits1(run[5], p);
    var d := Restores(c);
    run', steps' := Grow(run, steps, Credit(0), c);
    run', steps' := Grow(run', steps', RestoreTraffic(0), d);
  }

  /** A user is created, a reset reads it, a poll credits it, and the reset is rolled back. */
  lemma {:induction false} RestoreCanLose(name: string, bytes: nat) returns (run: seq<State>, steps: seq<Step>)
    requires Clean(name) && bytes > 0
    ensures RestoredAt(run, steps, 2, 6, 0, 1) && |steps| == 7 && InBalance(run[2], 1) && !InBalance(run[7], 1)
  {
    var stat := OneStat(name, bytes);
    var p := Parcel(7, name, Some(1), Traffic(bytes, 0));
    var run3, steps3 := ReadyRun(name);
    var run5, steps5 := PolledRun(run3, steps3, name, stat, p);
    run, steps := RestoredRun(run5, steps5, p);
    assert run[2] == run5[2] == run3[2] && run[5] == run5[5];
    assert steps[2] == steps5[2] == steps3[2] && steps[3] == steps5[3] && steps[4] == steps5[4];
    LosesBytes(run, steps, p);
  }

  lemma LosesBytes(run: seq<State>, steps: seq<Step>, p: Parcel)
    requires IsRun(run, steps) && |steps| == 7 && InBalance(run[2], 1) && 1 in run[6].users
    requires steps[2] == BeginReset(0, 1) && steps[3].Count? && steps[4].Fetch? && steps[5] == Credit(0)
    requires steps[6] == RestoreTraffic(0)
    requires run[5].flying == [p] && p.owner == Some(1)
    ensures RestoredAt(run, steps, 2, 6, 0, 1) && !InBalance(run[7], 1)
  {
    assert CreditedBetween(run, steps, 2, 6, 1) by {
      var k := 5;
      assert CreditsTo(run[k], steps[k], 1);
    }
    forall k | 2 < k < 6 ensures steps[k] != RestoreTraffic(0) && steps[k] != EndReset(0) {
      assert k == 3 || k == 4 || k == 5;
    }
    BalancedIff(run, steps, 2, 6, 0, 1);
  }
}
