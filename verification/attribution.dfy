/** Whose traffic it is (handler/traffic.go:90-191): every byte a poll reads is
    attributed through that poll's copy of the user table, by name, and so reaches
    the user of that name and nobody else. */
module Attribution {
  import opened Tables
  import opened StatNames
  import opened Ledger

  ghost predicate Holds(s: State, p: Parcel) {
    p in s.flying || p in s.credited || p in s.ledger || p in s.removed || p in s.discarded
  }

  ghost predicate Reads(step: Step) { step.Fetch? || step.LoseReply? }

  /** The `j`-th step read the parcel from its node, and gave it the owner that its poll's copy of the
      user table gives the name. */
  ghost predicate ReadBy(run: seq<State>, steps: seq<Step>, j: int, p: Parcel) {
    && 0 <= j < |steps| < |run| && Reads(steps[j]) && steps[j].n == p.node && steps[j].t in run[j].polls
    && var owners := run[j].polls[steps[j].t];
       p.owner == if p.name in owners then Some(owners[p.name]) else None
  }

  lemma {:induction false} ParcelsOwned(node: int, stats: seq<NamedStat>, owners: map<string, int>, order: seq<string>,
                                        p: Parcel)
    requires (forall w | w in order :: w in Summed(stats)) && p in Parcels(node, stats, owners, order)
    ensures p.node == node && p.owner == if p.name in owners then Some(owners[p.name]) else None
    decreases |order|
  {
    var init := order[..|order| - 1];
    assert order == init + [order[|order| - 1]];
    if p in Parcels(node, stats, owners, init) { ParcelsOwned(node, stats, owners, init, p); }
  }

  /** A step brings no parcels but those it reads. */
  lemma StepHolds(s: State, step: Step, s': State, p: Parcel)
    requires Next(s, step, s') && Holds(s', p) && !Holds(s, p)
    ensures Reads(step) && step.t in s.polls && Orders(step.order, StatsOf(s.onNode, step.n))
    ensures p in Parcels(step.n, StatsOf(s.onNode, step.n), s.polls[step.t], step.order)
    ensures p in s'.discarded ==> step.LoseReply?
  {
    match step
    case DeleteUser(u) => Kept(s.ledger, For(u));
    case DeleteNode(n) => Kept(s.ledger, AllOf(n));
    case _ =>
  }

  lemma Kept(ps: seq<Parcel>, gone: Key)
    ensures forall p | p in Keeping(ps, gone, false) || p in Keeping(ps, gone, true) :: p in ps
  {
    KeptAreOld(ps, gone, false);
    KeptAreOld(ps, gone, true);
  }

  /** Every parcel, wherever it is by now, has the owner its poll's copy of the user table gave its name. */
  lemma {:induction false} EveryParcelIsRead(run: seq<State>, steps: seq<Step>, k: nat, p: Parcel) returns (j: nat)
    requires IsRun(run, steps) && k <= |steps| && Holds(run[k], p)
    ensures j < k && ReadBy(run, steps, j, p)
  {
    if k > 0 && Holds(run[k - 1], p) {
      j := EveryParcelIsRead(run, steps, k - 1, p);
    } else if k > 0 {
      j := k - 1;
      var s, step := run[j], steps[j];
      StepHolds(s, step, run[k], p);
      ParcelsOwned(step.n, StatsOf(s.onNode, step.n), s.polls[step.t], step.order, p);
    }
  }

  /** A poll's copy is the user table of the moment it began. */
  lemma {:induction false} PollsCopyUsers(run: seq<State>, steps: seq<Step>, k: nat, t: int) returns (i: nat)
    requires IsRun(run, steps) && k <= |steps| && t in run[k].polls
    ensures i < k && forall u | u in run[i].users :: run[i].users[u].name in run[k].polls[t]
    ensures forall w | w in run[k].polls[t] ::
              run[k].polls[t][w] in run[i].users && run[i].users[run[k].polls[t][w]].name == w
  {
    if k > 0 {
      assert Next(run[k - 1], steps[k - 1], run[k]);
      if steps[k - 1].BeginPoll? && steps[k - 1].t == t {
        i := k - 1;
      } else {
        i := PollsCopyUsers(run, steps, k - 1, t);
      }
    }
  }

  /** So the owner of a parcel has had the parcel's name; and a parcel without an owner was read for a
      name that nobody had when its poll began. */
  lemma {:induction false} OwnersHadTheName(run: seq<State>, steps: seq<Step>, k: nat, p: Parcel) returns (i: nat)
    requires IsRun(run, steps) && k <= |steps| && Holds(run[k], p)
    ensures i < k
    ensures p.owner.Some? ==> p.owner.value in run[i].users && run[i].users[p.owner.value].name == p.name
    ensures p.owner.None? ==> forall u | u in run[i].users :: run[i].users[u].name != p.name
  {
    var j := EveryParcelIsRead(run, steps, k, p);
    i := PollsCopyUsers(run, steps, j, steps[j].t);
  }

  // ---- a user that keeps its name ----

  /** User `u` is called `w` whenever it exists, and nobody else ever is. */
  ghost predicate Steady(run: seq<State>, k: nat, u: int, w: string)
    requires k < |run|
  {
    forall i, v | 0 <= i <= k && v in run[i].users :: run[i].users[v].name == w <==> v == u
  }

  /** Every parcel of that name is the user's, if it is anybody's; and the user's parcels have that name. */
  lemma {:induction false} OwnerIsItsUser(run: seq<State>, steps: seq<Step>, k: nat, u: int, w: string, p: Parcel)
    requires IsRun(run, steps) && k <= |steps| && Steady(run, k, u, w) && Holds(run[k], p)
    ensures p.owner.Some? ==> (p.owner == Some(u) <==> p.name == w)
  {
    var i := OwnersHadTheName(run, steps, k, p);
    if p.owner.Some? {
      var v := p.owner.value;
      assert v in run[i].users && run[i].users[v].name == p.name;
    }
  }

  /** What is credited has an owner, and what was discarded had none, was empty, or was in a reply that
      never came. */
  lemma {:induction false} Reasons(run: seq<State>, steps: seq<Step>, k: nat, p: Parcel)
    requires IsRun(run, steps) && k <= |steps|
    ensures p in run[k].credited || p in run[k].ledger || p in run[k].removed ==> p.owner.Some? && p.bytes != ZERO
    ensures p in run[k].discarded ==>
              || p.owner.None? || p.bytes == ZERO
              || exists j :: 0 <= j < k && steps[j].LoseReply? && ReadBy(run, steps, j, p)
  {
    if k > 0 {
      var s, step, s' := run[k - 1], steps[k - 1], run[k];
      Reasons(run, steps, k - 1, p);
      assert Next(s, step, s');
      StepReasons(s, step, s', p);
      if p in s'.discarded && p !in s.discarded && p.owner.Some? && p.bytes != ZERO {
        ParcelsOwned(step.n, StatsOf(s.onNode, step.n), s.polls[step.t], step.order, p);
        assert ReadBy(run, steps, k - 1, p);
      }
    }
  }

  lemma StepReasons(s: State, step: Step, s': State, p: Parcel)
    requires Next(s, step, s')
    requires p in s.credited || p in s.ledger || p in s.removed ==> p.owner.Some? && p.bytes != ZERO
    ensures p in s'.credited || p in s'.ledger || p in s'.removed ==> p.owner.Some? && p.bytes != ZERO
    ensures p in s'.discarded && p !in s.discarded && p.owner.Some? && p.bytes != ZERO ==>
              && step.LoseReply? && step.t in s.polls && Orders(step.order, StatsOf(s.onNode, step.n))
              && p in Parcels(step.n, StatsOf(s.onNode, step.n), s.polls[step.t], step.order)
  {
    match step
    case DeleteUser(u) => Kept(s.ledger, For(u));
    case DeleteNode(n) => Kept(s.ledger, AllOf(n));
    case _ =>
  }

  /** The bytes of node `n` among `ps` that are user `u`'s. */
  function Share(ps: seq<Parcel>, n: int, u: int, d: Direction): int {
    if ps == [] then 0
    else
      var p := ps[|ps| - 1];
      Share(ps[..|ps| - 1], n, u, d) + (if p.node == n && p.owner == Some(u) then Bytes(p.bytes, d) else 0)
  }

  lemma {:induction false} ShareIsSum(ps: seq<Parcel>, n: int, u: int, w: string, d: Direction)
    requires forall p | p in ps :: p.owner == Some(u) <==> p.name == w
    ensures Share(ps, n, u, d) == Sum(ps, AtNode(n, w), d)
    decreases |ps|
  {
    if ps != [] {
      assert ps[|ps| - 1] in ps && forall p | p in ps[..|ps| - 1] :: p in ps;
      ShareIsSum(ps[..|ps| - 1], n, u, w, d);
    }
  }

  /** Of the bytes a node ever counted for the name, those that are neither still there, nor on the way,
      nor discarded were credited to the user; and nothing else was, and to nobody else. */
  lemma {:induction false} TrafficReachesItsUser(run: seq<State>, steps: seq<Step>, k: nat, u: int, w: string, n: int,
                                                 d: Direction)
    requires IsRun(run, steps) && k <= |steps| && Steady(run, k, u, w)
    ensures var s := run[k];
            Counted(StatsOf(s.history, n), w, d)
            == Counted(StatsOf(s.onNode, n), w, d) + Sum(s.flying, AtNode(n, w), d) + Sum(s.discarded, AtNode(n, w), d)
               + Share(s.credited, n, u, d) + Share(s.ledger, n, u, d) + Share(s.removed, n, u, d)
    ensures forall p | p in run[k].credited || p in run[k].ledger || p in run[k].removed ::
              p.owner == Some(u) <==> p.name == w
  {
    var s := run[k];
    forall p | p in s.credited || p in s.ledger || p in s.removed ensures p.owner == Some(u) <==> p.name == w {
      Reasons(run, steps, k, p);
      OwnerIsItsUser(run, steps, k, u, w, p);
    }
    ShareIsSum(s.credited, n, u, w, d);
    ShareIsSum(s.ledger, n, u, w, d);
    ShareIsSum(s.removed, n, u, w, d);
    RunConserves(run, steps, k, n, w, u, d);
  }

  // ---- what leaves the ledger, and what changes a row ----

  lemma {:induction false} KeepingCounts(ps: seq<Parcel>, gone: Key, hit: bool, p: Parcel)
    ensures multiset(Keeping(ps, gone, hit))[p] == if Matches(p, gone) == hit then multiset(ps)[p] else 0
    decreases |ps|
  {
    if ps != [] {
      var init, last := ps[..|ps| - 1], ps[|ps| - 1];
      assert ps == init + [last];
      KeepingCounts(init, gone, hit, p);
    }
  }

  /** Deleting a user or a node takes exactly its rows out of the ledger. */
  lemma {:induction false} DeletionTakes(s: State, step: Step, s': State, p: Parcel)
    requires Next(s, step, s') && (step.DeleteUser? || step.DeleteNode?)
    ensures var gone := if step.DeleteUser? then p.owner == Some(step.u) else p.node == step.n;
            && multiset(s'.ledger)[p] == (if gone then 0 else multiset(s.ledger)[p])
            && multiset(s'.removed)[p] == multiset(s.removed)[p] + if gone then multiset(s.ledger)[p] else 0
    ensures forall u :: (u in s'.users <==> u in s.users && !(step.DeleteUser? && u == step.u))
                        && (u in s'.users ==> s'.users[u] == s.users[u])
  {
    var gone := if step.DeleteUser? then For(step.u) else AllOf(step.n);
    KeepingCounts(s.ledger, gone, false, p);
    KeepingCounts(s.ledger, gone, true, p);
  }

  /** The counters of a row change only when it is credited, reset or restored; and a credit adds the
      parcel's bytes to its owner's row alone. */
  lemma CountersChange(s: State, step: Step, s': State, u: int)
    requires Next(s, step, s') && u in s.users && u in s'.users
    requires step.CreateUser? ==> u != s.nextUser
    ensures var before, after := s.users[u], s'.users[u];
            if step.Credit? && s.flying[step.i].owner == Some(u) then
              var t := s.flying[step.i].bytes;
              && after.name == before.name && after.used == before.used + t.up + t.down
              && after.up == before.up + t.up && after.down == before.down + t.down
            else if step == ClearUser(u) then after == Row(before.name, 0, 0, 0)
            else if step.RestoreTraffic? && s.resets[step.t].u == u then
              var p := s.resets[step.t];
              after == Row(before.name, p.used, p.up, p.down)
            else if step.RenameUser? && step.u == u then after == before.(name := step.name)
            else after == before
  {
  }
}
