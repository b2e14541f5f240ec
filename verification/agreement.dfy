/** Agreement between the tables and the nodes, in every interleaving. A node may
    be out of agreement only while some request still owes it a push, after an
    answer that said so, or when a Reality switch was reverted without a push. The
    invariant is kept at two levels: `strict` looks at whole rows and counts on the
    pushes of Reality switches too; otherwise Reality targets are not looked at and
    switches owe nothing. */
module Agreement {
  import opened Tables
  import opened Generator
  import opened EditProtocol
  import opened Views
  import opened RealityTargets
  import opened PushOutcome

  // ---- who still owes a node a push ----

  /** Request `r` will begin another sync of `n` in the round it is in. */
  ghost predicate Todo(s: State, r: int, n: int) {
    && r in s.reqs
    && ((s.reqs[r].Written? && n in TargetsNow(s.db, s.reqs[r])) || (s.reqs[r].Pushing? && n in s.reqs[r].todo))
  }

  /** Or in the restoring round that is sure to follow. */
  ghost predicate Owed(s: State, r: int, n: int) {
    || Todo(s, r, n)
    || (r in s.reqs && s.reqs[r].Pushing? && s.reqs[r].failed && !s.reqs[r].restoring && n in s.reqs[r].targets)
  }

  ghost predicate Syncing(s: State, r: int, n: int) {
    r in s.reqs && SyncingOn(s.reqs[r], n)
  }

  /** The pushes of a switch are not sure to follow: its revert pushes nothing. */
  predicate Debtor(q: Req, strict: bool) { strict || !q.job.Retarget? }

  ghost predicate Fresh(s: State, sync: Sync, strict: bool) {
    match sync
    case Idle => true
    case Locked(_) => true
    case GotAllowed(n, allowed) => allowed == UsersForNode(s.db, s.now, n)
    case GotUsers(n, roster) => roster == Roster(s.db, s.now, n)
    case GotRows(n, roster, rows) =>
      roster == Roster(s.db, s.now, n) && Seen(rows, strict) == Seen(RowsOf(s.db, n), strict)
  }

  ghost predicate OnUser(s: State, r: int, u: int) {
    r in s.reqs && UserOf(s.reqs[r].job) == Some(u)
  }

  // ---- the invariant ----

  ghost predicate ReqOk(s: State, q: Req) {
    match q
    case Starting(_) => true
    case GotUser(job, row) =>
      (job.EditUser? || job.DeleteUser? || job.ResetUserTraffic?) && job.u in s.db.users && s.db.users[job.u] == row
    case Ready(job, snap) => SnapOk(s.db, s.home, job, snap)
    case Written(job, _, undo, _) =>
      TargetsNow(s.db, q) <= s.db.nodes.Keys && Covered(s.db, s.now, s.home, job, undo, TargetsNow(s.db, q))
    case Pushing(job, undo, targets, todo, _, restoring, sync) =>
      && todo <= targets <= s.db.nodes.Keys
      && (sync != Idle ==> sync.n in targets && sync.n !in todo)
      && (!restoring ==> Covered(s.db, s.now, s.home, job, undo, targets))
      && (restoring ==> !job.Retarget?)
  }

  ghost predicate Exclusive(s: State) {
    && (forall r, p, u | r != p && OnUser(s, r, u) :: !OnUser(s, p, u))
    && (forall r, p, n | r != p && Syncing(s, r, n) :: !Syncing(s, p, n))
  }

  /** What a sync has read so far is current, unless its node is pushed again later or a switch was
      reverted after the rows were read. */
  ghost predicate ReadsCurrent(s: State, r: int, strict: bool) {
    r in s.reqs && s.reqs[r].Pushing? && s.reqs[r].sync != Idle ==>
      var n := s.reqs[r].sync.n;
      || Fresh(s, s.reqs[r].sync, strict) || (strict && s.reqs[r].sync.GotRows? && n in s.early)
      || exists p :: Todo(s, p, n) && Debtor(s.reqs[p], strict)
  }

  /** The configuration is what its rows and the present users of node `n` make. */
  ghost predicate Current(s: State, n: int, c: Copy, strict: bool) {
    c.config == Render(Roster(s.db, s.now, n), c.rows) && Seen(c.rows, strict) == Seen(RowsOf(s.db, n), strict)
  }

  ghost predicate OnNode(s: State, n: int, strict: bool) {
    ServedBy(s, n).Some? && Current(s, n, ServedBy(s, n).value, strict)
  }

  /** A request that is sure to push the node has yet to do so. */
  ghost predicate Awaited(s: State, n: int, strict: bool) {
    || (exists r :: Owed(s, r, n) && Debtor(s.reqs[r], strict))
    || (exists r :: Syncing(s, r, n) && Debtor(s.reqs[r], strict))
  }

  /** What the node serves is accounted for; and so is what its file holds, because the failed push of
      a switch may fall back to it. */
  ghost predicate Settled(s: State, n: int, strict: bool) {
    && (n in s.reported || n in s.stopped || (strict && n in s.reverted)
        || OnNode(s, n, strict) || Awaited(s, n, strict))
    && (strict || n in s.reported || !FileOf(s, n).Holds? || Current(s, n, FileOf(s, n).content, strict)
        || Awaited(s, n, strict))
  }

  /** The node serves a configuration with this credential, or its file holds one. */
  ghost predicate Shows(s: State, n: int, uuid: string) {
    || (n in s.deployed && uuid in Uuids(s.deployed[n]))
    || (FileOf(s, n).Holds? && uuid in Uuids(FileOf(s, n).content.config))
  }

  /** User `u` may appear on node `n`: it has access, or its removal is still being pushed. */
  ghost predicate Leaving(s: State, u: int, n: int) {
    exists r :: OnUser(s, r, u) && (Owed(s, r, n) || Syncing(s, r, n))
  }

  ghost predicate Carried(s: State, n: int, uuid: string) {
    exists u :: u in s.db.users && s.db.users[u].uuid == uuid && ((u, n) in s.db.access || Leaving(s, u, n))
  }

  ghost predicate MayRead(s: State, u: int, n: int) {
    u in s.db.users && ((u, n) in s.db.access || exists p :: OnUser(s, p, u) && Todo(s, p, n))
  }

  ghost predicate ReadsCarried(s: State, r: int) {
    r in s.reqs && s.reqs[r].Pushing? ==>
      match s.reqs[r].sync
      case GotAllowed(n, allowed) => forall u | u in allowed :: MayRead(s, u, n)
      case GotUsers(n, roster) => forall u | u in roster :: MayRead(s, u, n) && s.db.users[u].uuid == roster[u].uuid
      case GotRows(n, roster, _) => forall u | u in roster :: MayRead(s, u, n) && s.db.users[u].uuid == roster[u].uuid
      case _ => true
  }

  ghost predicate Marks(s: State) {
    s.early <= s.reverted && forall n | n in s.stopped :: n !in s.deployed
  }

  ghost predicate Inv(s: State, strict: bool) {
    && Valid(s.db) && HomeOk(s.db, s.home) && Marks(s)
    && (forall r | r in s.reqs :: ReqOk(s, s.reqs[r]))
    && Exclusive(s)
    && (forall r :: ReadsCurrent(s, r, strict))
    && (forall n | n in s.db.nodes :: Settled(s, n, strict))
    && (forall r :: ReadsCarried(s, r))
    && (forall n, uuid | n !in s.reported && Shows(s, n, uuid) :: Carried(s, n, uuid))
  }

  lemma {:induction false} InitHolds(s: State, strict: bool)
    requires Init(s)
    ensures Inv(s, strict)
  {
    forall n, uuid | n !in s.reported && Shows(s, n, uuid)
      ensures Carried(s, n, uuid)
    {
      assert InPlace(s, n);
      var roster := Roster(s.db, s.now, n);
      RenderCarriesRoster(roster, RowsOf(s.db, n), uuid);
      var u :| u in roster && roster[u].uuid == uuid;
      InRoster(s.db, s.now, n, u);
      assert (u, n) in s.db.access;
    }
    forall n | n in s.db.nodes ensures Settled(s, n, strict) {
      if n !in s.reported { assert InPlace(s, n) && OnNode(s, n, strict); }
    }
  }

  /** Nothing was noted of the node, and nothing it depends on has changed. */
  lemma SettledFrame(s: State, s': State, n: int, strict: bool)
    requires Settled(s, n, strict) && s'.now == s.now && SeenView(s.db, s'.db, s.now, n, strict)
    requires ServedBy(s', n) == ServedBy(s, n) && FileOf(s', n) == FileOf(s, n)
    requires (n in s.reported ==> n in s'.reported) && (n in s.stopped ==> n in s'.stopped)
    requires n in s.reverted ==> n in s'.reverted
    requires Awaited(s, n, strict) ==> Awaited(s', n, strict) || n in s'.reported
    ensures Settled(s', n, strict)
  {
  }

  // ---- steps that leave the tables and the nodes alone ----

  /** One request moves on. It may stop owing a node only by starting to sync it. */
  ghost predicate Moves(s: State, s': State, r: int) {
    && s' == s.(reqs := s'.reqs, early := s'.early) && s'.early <= s.early
    && (forall p | p != r :: (p in s.reqs <==> p in s'.reqs) && (p in s.reqs ==> s'.reqs[p] == s.reqs[p]))
    && (r in s'.reqs && r in s.reqs ==> s'.reqs[r].job == s.reqs[r].job)
    && (r in s'.reqs ==> ReqOk(s', s'.reqs[r]))
    && (forall n | Owed(s, r, n) :: Owed(s', r, n) || Syncing(s', r, n))
    && (forall n | Todo(s, r, n) && !Todo(s', r, n) :: forall p :: !Syncing(s, p, n))
    && (forall n | Syncing(s, r, n) :: Syncing(s', r, n))
    && (forall n, p | Syncing(s', r, n) && !Syncing(s, r, n) :: !Syncing(s, p, n))
    && (forall n | n in s.early && n !in s'.early :: Syncing(s, r, n))
  }

  lemma OthersSame(s: State, s': State, r: int)
    requires Moves(s, s', r)
    ensures forall p, n | p != r :: (Todo(s, p, n) <==> Todo(s', p, n)) && (Owed(s, p, n) <==> Owed(s', p, n))
                                    && (Syncing(s, p, n) <==> Syncing(s', p, n))
    ensures forall p, u | p != r :: OnUser(s, p, u) <==> OnUser(s', p, u)
  {}

  lemma {:induction false} MoveKeepsReads(s: State, s': State, r: int, p: int, strict: bool)
    requires Inv(s, strict) && Moves(s, s', r) && Exclusive(s') && p != r
    ensures ReadsCurrent(s', p, strict) && ReadsCarried(s', p)
  {
    OthersSame(s, s', r);
    if p in s'.reqs && s'.reqs[p].Pushing? && s'.reqs[p].sync != Idle {
      var n := s'.reqs[p].sync.n;
      assert Syncing(s, p, n) && ReadsCurrent(s, p, strict) && ReadsCarried(s, p);
      forall t | Todo(s, t, n) ensures Todo(s', t, n) {}
      if t :| Todo(s, t, n) && Debtor(s.reqs[t], strict) { assert Todo(s', t, n) && Debtor(s'.reqs[t], strict); }
      forall u | MayRead(s, u, n) ensures MayRead(s', u, n) {
        if (u, n) !in s.db.access {
          var t :| OnUser(s, t, u) && Todo(s, t, n);
          assert OnUser(s', t, u) && Todo(s', t, n);
        }
      }
    }
  }

  lemma MoveKeepsAwaited(s: State, s': State, r: int, n: int, strict: bool)
    requires Moves(s, s', r) && (r !in s'.reqs ==> !Owed(s, r, n) && !Syncing(s, r, n))
    ensures Awaited(s, n, strict) ==> Awaited(s', n, strict)
  {
    OthersSame(s, s', r);
    if t :| Owed(s, t, n) && Debtor(s.reqs[t], strict) {
      assert (Owed(s', t, n) || Syncing(s', t, n)) && Debtor(s'.reqs[t], strict);
    }
    if t :| Syncing(s, t, n) && Debtor(s.reqs[t], strict) { assert Syncing(s', t, n) && Debtor(s'.reqs[t], strict); }
  }

  lemma {:induction false} MoveKeepsInv(s: State, s': State, r: int, strict: bool)
    requires Inv(s, strict) && Moves(s, s', r) && Exclusive(s')
    requires ReadsCurrent(s', r, strict) && ReadsCarried(s', r)
    requires r !in s'.reqs ==> forall n :: !Owed(s, r, n) && !Syncing(s, r, n)
    ensures Inv(s', strict)
  {
    OthersSame(s, s', r);
    forall p | p in s'.reqs ensures ReqOk(s', s'.reqs[p]) {
      if p != r { assert ReqOk(s, s.reqs[p]); }
    }
    forall p ensures ReadsCurrent(s', p, strict) && ReadsCarried(s', p) {
      if p != r { MoveKeepsReads(s, s', r, p, strict); }
    }
    forall n | n in s'.db.nodes ensures Settled(s', n, strict) {
      MoveKeepsAwaited(s, s', r, n, strict);
      SettledFrame(s, s', n, strict);
    }
    forall n, uuid | n !in s'.reported && Shows(s', n, uuid)
      ensures Carried(s', n, uuid)
    {
      assert Carried(s, n, uuid);
      var u :| u in s.db.users && s.db.users[u].uuid == uuid && ((u, n) in s.db.access || Leaving(s, u, n));
      if (u, n) !in s.db.access {
        var t :| OnUser(s, t, u) && (Owed(s, t, n) || Syncing(s, t, n));
        assert OnUser(s', t, u) && (Owed(s', t, n) || Syncing(s', t, n));
      }
    }
  }

  // ---- steps that write the tables ----

  ghost predicate Rewrites(s: State, s': State, r: int, targets: set<int>, strict: bool) {
    && r in s.reqs && Confined(s.db, s'.db, s.now, s.reqs[r].job, targets, strict) && HomeOk(s'.db, s'.home)
    && s'.now == s.now && s'.deployed == s.deployed && s'.served == s.served && s'.files == s.files
    && s'.reported == s.reported && s'.stopped == s.stopped
    && s.reverted <= s'.reverted && s.early <= s'.early <= s'.reverted
    && (forall i | i in s.home :: i in s'.home && s'.home[i] == s.home[i])
    && Replaces(s, s', r)
    && (forall n | n in targets || (Owed(s, r, n) && Debtor(s.reqs[r], strict)) ::
          || (Todo(s', r, n) && Debtor(s'.reqs[r], strict))
          || (strict && n in s'.reverted && n in s'.early && UserOf(s.reqs[r].job).None?))
  }

  /** Only request `r` moves on, and it is syncing nothing. */
  ghost predicate Replaces(s: State, s': State, r: int) {
    && (forall p | p != r :: (p in s.reqs <==> p in s'.reqs) && (p in s.reqs ==> s'.reqs[p] == s.reqs[p]))
    && (r in s'.reqs && r in s.reqs ==> s'.reqs[r].job == s.reqs[r].job)
    && (r in s'.reqs ==> ReqOk(s', s'.reqs[r]))
    && (forall n :: !Syncing(s, r, n) && !Syncing(s', r, n) && !Todo(s, r, n))
  }

  /** A request's rows are touched by no other request. */
  lemma {:induction false} OtherRows(s: State, s': State, r: int, targets: set<int>, p: int, strict: bool)
    requires Inv(s, strict) && Rewrites(s, s', r, targets, strict) && p != r && p in s.reqs
    ensures RowsKept(s.db, s'.db, s.home, s'.home, s.reqs[p].job)
  {
    var mine := UserOf(s.reqs[p].job);
    if mine.Some? {
      var w := mine.value;
      assert OnUser(s, p, w) && !OnUser(s, r, w);
      assert forall n :: (w, n) in s'.db.access <==> (w, n) in s.db.access;
      assert forall n :: n in AccessOf(s'.db, w) <==> n in AccessOf(s.db, w);
      assert AccessOf(s'.db, w) == AccessOf(s.db, w);
    }
  }

  lemma {:induction false} OtherReqs(s: State, s': State, r: int, targets: set<int>, p: int, strict: bool)
    requires Inv(s, strict) && Rewrites(s, s', r, targets, strict) && p != r && p in s.reqs
    ensures ReqOk(s', s'.reqs[p])
    ensures s.reqs[p].Written? ==> TargetsNow(s'.db, s.reqs[p]) == TargetsNow(s.db, s.reqs[p])
  {
    var q := s.reqs[p];
    OtherRows(s, s', r, targets, p, strict);
    assert ReqOk(s, q);
    match q
    case Starting(_) =>
    case GotUser(_, _) =>
    case Ready(job, snap) => SnapFrame(s.db, s'.db, s.home, s'.home, job, snap);
    case Written(job, _, undo, _) => CoveredFrame(s.db, s'.db, s.now, s.home, s'.home, job, undo, TargetsNow(s.db, q));
    case Pushing(job, undo, targets', _, _, restoring, _) =>
      if !restoring { CoveredFrame(s.db, s'.db, s.now, s.home, s'.home, job, undo, targets'); }
  }

  /** No other request owes more or less than before. */
  lemma {:induction false} OthersOwe(s: State, s': State, r: int, targets: set<int>, strict: bool)
    requires Inv(s, strict) && Rewrites(s, s', r, targets, strict)
    ensures forall p, n | p != r :: (Todo(s, p, n) <==> Todo(s', p, n)) && (Owed(s, p, n) <==> Owed(s', p, n))
                                    && (Syncing(s, p, n) <==> Syncing(s', p, n))
    ensures forall p, u | p != r :: OnUser(s, p, u) <==> OnUser(s', p, u)
    ensures forall p | p in s'.reqs :: ReqOk(s', s'.reqs[p])
  {
    forall p | p != r && p in s.reqs
      ensures ReqOk(s', s'.reqs[p])
      ensures s.reqs[p].Written? ==> TargetsNow(s'.db, s.reqs[p]) == TargetsNow(s.db, s.reqs[p])
    {
      OtherReqs(s, s', r, targets, p, strict);
    }
  }

  lemma {:induction false} RewriteKeepsSettled(s: State, s': State, r: int, targets: set<int>, n: int, strict: bool)
    requires Inv(s, strict) && Rewrites(s, s', r, targets, strict) && Settled(s, n, strict)
    requires forall p, m | p != r :: (Owed(s, p, m) <==> Owed(s', p, m)) && (Syncing(s, p, m) <==> Syncing(s', p, m))
    ensures Settled(s', n, strict)
  {
    if n in targets {
      assert (Owed(s', r, n) && Debtor(s'.reqs[r], strict)) || (strict && n in s'.reverted);
    } else if !(strict && n in s'.reverted) {
      RewriteKeepsAwaited(s, s', r, targets, n, strict);
      SettledFrame(s, s', n, strict);
    }
  }

  lemma {:induction false} RewriteKeepsAwaited(s: State, s': State, r: int, targets: set<int>, n: int, strict: bool)
    requires Inv(s, strict) && Rewrites(s, s', r, targets, strict) && n !in targets && !(strict && n in s'.reverted)
    requires forall p, m | p != r :: (Owed(s, p, m) <==> Owed(s', p, m)) && (Syncing(s, p, m) <==> Syncing(s', p, m))
    ensures Awaited(s, n, strict) ==> Awaited(s', n, strict)
  {
    if t :| Owed(s, t, n) && Debtor(s.reqs[t], strict) { assert Owed(s', t, n) && Debtor(s'.reqs[t], strict); }
    if t :| Syncing(s, t, n) && Debtor(s.reqs[t], strict) { assert Syncing(s', t, n) && Debtor(s'.reqs[t], strict); }
  }

  lemma {:induction false} RewriteKeepsInv(s: State, s': State, r: int, targets: set<int>, strict: bool)
    requires Inv(s, strict) && Rewrites(s, s', r, targets, strict)
    ensures Inv(s', strict)
  {
    OthersOwe(s, s', r, targets, strict);
    assert Exclusive(s') by {
      assert forall u | OnUser(s', r, u) :: OnUser(s, r, u);
      assert Exclusive(s);
    }
    forall p ensures ReadsCurrent(s', p, strict) && ReadsCarried(s', p) {
      if p != r && p in s'.reqs && s'.reqs[p].Pushing? && s'.reqs[p].sync != Idle {
        RewriteKeepsReads(s, s', r, targets, p, strict);
      } else if p == r && r in s'.reqs && s'.reqs[r].Pushing? && s'.reqs[r].sync != Idle {
        assert Syncing(s', r, s'.reqs[r].sync.n);
      }
    }
    forall n | n in s'.db.nodes ensures Settled(s', n, strict) {
      RewriteKeepsSettled(s, s', r, targets, n, strict);
    }
    forall n, uuid | n !in s'.reported && Shows(s', n, uuid)
      ensures Carried(s', n, uuid)
    {
      RewriteKeepsCarried(s, s', r, targets, n, uuid, strict);
    }
  }

  lemma {:induction false} RewriteKeepsReads(s: State, s': State, r: int, targets: set<int>, p: int, strict: bool)
    requires Inv(s, strict) && Rewrites(s, s', r, targets, strict)
    requires p != r && p in s.reqs && s.reqs[p].Pushing? && s.reqs[p].sync != Idle
    requires forall t, n | t != r :: Todo(s, t, n) <==> Todo(s', t, n)
    ensures ReadsCurrent(s', p, strict) && ReadsCarried(s', p)
  {
    var n := s.reqs[p].sync.n;
    assert ReadsCurrent(s, p, strict) && ReadsCarried(s, p);
    if n in targets {
      assert (Todo(s', r, n) && Debtor(s'.reqs[r], strict)) || (strict && n in s'.early && UserOf(s.reqs[r].job).None?);
      if UserOf(s.reqs[r].job).None? { SameRosters(s.db, s'.db, s.now, n); }
    } else {
      assert SeenView(s.db, s'.db, s.now, n, strict);
    }
    if t :| Todo(s, t, n) && Debtor(s.reqs[t], strict) { assert Todo(s', t, n) && Debtor(s'.reqs[t], strict); }
    forall u | MayRead(s, u, n) ensures MayRead(s', u, n) {
      if (u, n) in s.db.access {
        if (u, n) !in s'.db.access {
          RemovedByItsOwnRequest(s, s', r, targets, u, n, strict);
        }
      } else {
        var t :| OnUser(s, t, u) && Todo(s, t, n);
        assert OnUser(s', t, u) && Todo(s', t, n);
      }
    }
  }

  lemma RemovedByItsOwnRequest(s: State, s': State, r: int, targets: set<int>, u: int, n: int, strict: bool)
    requires Rewrites(s, s', r, targets, strict) && (u, n) in s.db.access && (u, n) !in s'.db.access
    ensures OnUser(s', r, u) && Todo(s', r, n)
  {
  }

  lemma {:induction false} RewriteKeepsCarried(s: State, s': State, r: int, targets: set<int>, n: int, uuid: string,
                                               strict: bool)
    requires Inv(s, strict) && Rewrites(s, s', r, targets, strict)
    requires n !in s.reported && Shows(s, n, uuid)
    requires forall p | p != r :: (Owed(s, p, n) <==> Owed(s', p, n)) && (Syncing(s, p, n) <==> Syncing(s', p, n))
    requires forall p, u | p != r :: OnUser(s, p, u) <==> OnUser(s', p, u)
    ensures Carried(s', n, uuid)
  {
    assert Carried(s, n, uuid);
    var u :| u in s.db.users && s.db.users[u].uuid == uuid && ((u, n) in s.db.access || Leaving(s, u, n));
    assert u in s'.db.users && s'.db.users[u].uuid == uuid;
    if (u, n) in s.db.access {
      if (u, n) !in s'.db.access {
        RemovedByItsOwnRequest(s, s', r, targets, u, n, strict);
        assert Leaving(s', u, n);
      }
    } else {
      var t :| OnUser(s, t, u) && (Owed(s, t, n) || Syncing(s, t, n));
      if t == r { assert Todo(s', r, n); }
      assert OnUser(s', t, u) && (Owed(s', t, n) || Syncing(s', t, n));
    }
  }

  // ---- pushes ----

  /** Request `r` leaves node `n` and owes no node less. */
  ghost predicate Leaves(s: State, s': State, r: int, strict: bool) {
    && Inv(s, strict) && r in s.reqs && s.reqs[r].Pushing? && s.reqs[r].sync != Idle
    && var q := s.reqs[r];
       && r in s'.reqs && s'.reqs[r].Pushing?
       && s'.reqs == s.reqs[r := q.(sync := Idle, failed := s'.reqs[r].failed)]
       && (q.failed ==> s'.reqs[r].failed)
       && s'.db == s.db && s'.now == s.now && s'.home == s.home && s'.early == s.early && Marks(s')
       && forall m | m != q.sync.n :: SameNode(s, s', m)
  }

  /** Nothing is noted of node `m` that was not noted before. */
  ghost predicate SameNode(s: State, s': State, m: int) {
    && (m in s'.deployed <==> m in s.deployed) && (m in s.deployed ==> s'.deployed[m] == s.deployed[m])
    && (m in s'.served <==> m in s.served) && (m in s.served ==> s'.served[m] == s.served[m])
    && FileOf(s', m) == FileOf(s, m)
    && (m in s'.reported <==> m in s.reported) && (m in s'.reverted <==> m in s.reverted)
    && (m in s'.stopped <==> m in s.stopped)
  }

  lemma {:induction false} SyncEnds(s: State, s': State, r: int, strict: bool)
    requires Leaves(s, s', r, strict)
    ensures forall p, m :: Todo(s, p, m) <==> Todo(s', p, m)
    ensures forall p, m | Owed(s, p, m) :: Owed(s', p, m)
    ensures forall p, u :: OnUser(s, p, u) <==> OnUser(s', p, u)
    ensures forall p, m :: Syncing(s', p, m) <==> Syncing(s, p, m) && p != r
    ensures forall p | p in s.reqs :: p in s'.reqs && s'.reqs[p].job == s.reqs[p].job
    ensures Exclusive(s')
    ensures forall p | p in s'.reqs :: ReqOk(s', s'.reqs[p])
  {
    assert forall p, m :: Todo(s, p, m) <==> Todo(s', p, m);
    assert forall p, u :: OnUser(s, p, u) <==> OnUser(s', p, u);
    forall p | p in s'.reqs ensures ReqOk(s', s'.reqs[p]) {
      assert ReqOk(s, s.reqs[p]);
    }
  }

  lemma {:induction false} OtherReads(s: State, s': State, r: int, p: int, strict: bool)
    requires Leaves(s, s', r, strict)
    ensures ReadsCurrent(s', p, strict) && ReadsCarried(s', p)
  {
    SyncEnds(s, s', r, strict);
    if p != r && p in s.reqs && s.reqs[p].Pushing? && s.reqs[p].sync != Idle {
      assert ReadsCurrent(s, p, strict) && ReadsCarried(s, p);
      var n := s.reqs[p].sync.n;
      if t :| Todo(s, t, n) && Debtor(s.reqs[t], strict) { assert Todo(s', t, n) && Debtor(s'.reqs[t], strict); }
      forall u | MayRead(s, u, n) ensures MayRead(s', u, n) {
        if (u, n) !in s.db.access {
          var t :| OnUser(s, t, u) && Todo(s, t, n);
          assert OnUser(s', t, u) && Todo(s', t, n);
        }
      }
    }
  }

  lemma {:induction false} SettledElsewhere(s: State, s': State, r: int, m: int, strict: bool)
    requires Leaves(s, s', r, strict) && m != s.reqs[r].sync.n && Settled(s, m, strict)
    ensures Settled(s', m, strict)
  {
    SyncEnds(s, s', r, strict);
    assert SameNode(s, s', m);
    if t :| Owed(s, t, m) && Debtor(s.reqs[t], strict) { assert Owed(s', t, m) && Debtor(s'.reqs[t], strict); }
    if t :| Syncing(s, t, m) && Debtor(s.reqs[t], strict) { assert Syncing(s', t, m) && Debtor(s'.reqs[t], strict); }
    SettledFrame(s, s', m, strict);
  }

  lemma {:induction false} CarriedElsewhere(s: State, s': State, r: int, m: int, uuid: string, strict: bool)
    requires Leaves(s, s', r, strict) && m != s.reqs[r].sync.n
    requires m !in s'.reported && Shows(s', m, uuid)
    ensures Carried(s', m, uuid)
  {
    SyncEnds(s, s', r, strict);
    assert SameNode(s, s', m);
    assert Carried(s, m, uuid);
    var u :| u in s.db.users && s.db.users[u].uuid == uuid && ((u, m) in s.db.access || Leaving(s, u, m));
    if (u, m) !in s.db.access {
      var t :| OnUser(s, t, u) && (Owed(s, t, m) || Syncing(s, t, m));
      assert OnUser(s', t, u) && (Owed(s', t, m) || Syncing(s', t, m));
    }
  }

  /** A sync ends. It is enough to look at its own node. */
  lemma {:induction false} LeavingKeepsInv(s: State, s': State, r: int, strict: bool)
    requires Leaves(s, s', r, strict)
    requires var n := s.reqs[r].sync.n;
             && (n in s'.db.nodes ==> Settled(s', n, strict))
             && forall uuid | n !in s'.reported && Shows(s', n, uuid) :: Carried(s', n, uuid)
    ensures Inv(s', strict)
  {
    SyncEnds(s, s', r, strict);
    forall p ensures ReadsCurrent(s', p, strict) && ReadsCarried(s', p) { OtherReads(s, s', r, p, strict); }
    forall m | m in s'.db.nodes ensures Settled(s', m, strict) {
      assert Settled(s, m, strict);
      if m != s.reqs[r].sync.n { SettledElsewhere(s, s', r, m, strict); }
    }
    forall m, uuid | m !in s'.reported && Shows(s', m, uuid)
      ensures Carried(s', m, uuid)
    {
      if m != s.reqs[r].sync.n { CarriedElsewhere(s, s', r, m, uuid, strict); }
    }
  }

  // ---- what a push leaves ----

  /** What was read is current, or the node is pushed again. */
  lemma {:induction false} CandidateCurrent(s: State, s': State, r: int, strict: bool)
    requires Leaves(s, s', r, strict) && s.reqs[r].sync.GotRows?
    ensures var sync := s.reqs[r].sync;
            Current(s', sync.n, Candidate(sync), strict) || (strict && sync.n in s.early) || Awaited(s', sync.n, strict)
  {
    var sync := s.reqs[r].sync;
    SyncEnds(s, s', r, strict);
    assert ReadsCurrent(s, r, strict);
    if !Fresh(s, sync, strict) && !(strict && sync.n in s.early) {
      var p :| Todo(s, p, sync.n) && Debtor(s.reqs[p], strict);
      assert Owed(s', p, sync.n) && Debtor(s'.reqs[p], strict);
    }
  }

  lemma {:induction false} CandidateCarried(s: State, s': State, r: int, uuid: string, strict: bool)
    requires Leaves(s, s', r, strict) && s.reqs[r].sync.GotRows? && uuid in Uuids(Candidate(s.reqs[r].sync).config)
    ensures Carried(s', s.reqs[r].sync.n, uuid)
  {
    var sync := s.reqs[r].sync;
    SyncEnds(s, s', r, strict);
    assert ReadsCarried(s, r);
    RenderCarriesRoster(sync.roster, sync.rows, uuid);
    var u :| u in sync.roster && sync.roster[u].uuid == uuid;
    assert MayRead(s, u, sync.n) && s.db.users[u].uuid == uuid;
    if (u, sync.n) !in s.db.access {
      var p :| OnUser(s, p, u) && Todo(s, p, sync.n);
      assert OnUser(s', p, u) && Owed(s', p, sync.n);
    }
  }

  /** What landing notes of its own node and of the others. */
  lemma LandMarks(s: State, sync: Sync, s': State)
    requires Marks(s) && sync.GotRows?
    requires var l := Land(s, sync);
             && s'.deployed == l.deployed && s'.served == l.served && s'.files == l.files && s'.reverted == l.reverted
             && s'.early == s.early && s'.stopped == l.stopped
    requires forall m | m != sync.n :: m in s'.reported <==> m in s.reported
    ensures Marks(s') && forall m | m != sync.n :: SameNode(s, s', m)
    ensures ServedBy(s', sync.n) == Some(Candidate(sync)) && FileOf(s', sync.n) == Holds(Candidate(sync))
    ensures sync.n in s.reverted && sync.n in s.early ==> sync.n in s'.reverted
  {
  }

  lemma {:induction false} PushOkKeepsInv(s: State, s': State, r: int, strict: bool)
    requires Inv(s, strict) && Next(s, PushOk(r), s')
    ensures Inv(s', strict)
  {
    var sync := s.reqs[r].sync;
    assert ReqOk(s, s.reqs[r]) && sync.GotRows?;
    LandMarks(s, sync, s');
    assert Leaves(s, s', r, strict);
    CandidateCurrent(s, s', r, strict);
    forall uuid | Shows(s', sync.n, uuid) ensures Carried(s', sync.n, uuid) {
      CandidateCarried(s, s', r, uuid, strict);
    }
    LeavingKeepsInv(s, s', r, strict);
  }

  // ---- failed pushes ----

  /** What a failed push, or a sync that pushes nothing, leaves of its node. */
  ghost predicate Fails(s: State, s': State, r: int, strict: bool) {
    && Leaves(s, s', r, strict) && s'.reqs[r].failed && s.reported <= s'.reported && s.reqs[r].sync.n in s.db.nodes
    && (s.reqs[r].restoring ==> s.reqs[r].sync.n in s'.reported)
    && (s.reqs[r].job.Retarget? ==> !s.reqs[r].restoring)
  }

  /** The request owes the node another push, or its answer names it; only a switch does neither. */
  lemma {:induction false} FailureAwaited(s: State, s': State, r: int, strict: bool)
    requires Fails(s, s', r, strict)
    ensures s.reqs[r].sync.n in s'.reported || !Debtor(s.reqs[r], strict) || Awaited(s', s.reqs[r].sync.n, strict)
    ensures Awaited(s, s.reqs[r].sync.n, strict) ==>
              Awaited(s', s.reqs[r].sync.n, strict) || s.reqs[r].sync.n in s'.reported
  {
    var n := s.reqs[r].sync.n;
    SyncEnds(s, s', r, strict);
    assert ReqOk(s, s.reqs[r]);
    if !s.reqs[r].restoring && Debtor(s.reqs[r], strict) {
      assert Owed(s', r, n) && Debtor(s'.reqs[r], strict);
    } else if n !in s'.reported {
      if t :| Owed(s, t, n) && Debtor(s.reqs[t], strict) { assert Owed(s', t, n) && Debtor(s'.reqs[t], strict); }
      if t :| Syncing(s, t, n) && Debtor(s.reqs[t], strict) { assert Syncing(s', t, n) && Debtor(s'.reqs[t], strict); }
    }
  }

  /** The failed push of a switch: whatever it did, the node serves, and its file holds, something that
      was accounted for before or is current. */
  lemma {:induction false} FailureSettles(s: State, s': State, r: int, how: Failure, strict: bool)
    requires Fails(s, s', r, strict) && s.reqs[r].sync.GotRows?
    requires var n, q := s.reqs[r].sync.n, s.reqs[r]; var e := Effect(s, q, how);
             && ServedBy(s', n) == ServedBy(e, n) && FileOf(s', n) == FileOf(e, n)
             && (n in s'.stopped <==> n in e.stopped)
    ensures Settled(s', s.reqs[r].sync.n, strict)
  {
    var n := s.reqs[r].sync.n;
    FailureAwaited(s, s', r, strict);
    if n !in s'.reported && !Debtor(s.reqs[r], strict) {
      CandidateCurrent(s, s', r, strict);
      SwitchFailureSettles(s, s', r, how);
    }
  }

  lemma {:induction false} SwitchFailureSettles(s: State, s': State, r: int, how: Failure)
    requires Fails(s, s', r, false) && s.reqs[r].sync.GotRows? && s.reqs[r].job.Retarget?
    requires s.reqs[r].sync.n !in s'.reported
    requires var n, q := s.reqs[r].sync.n, s.reqs[r]; var e := Effect(s, q, how);
             && ServedBy(s', n) == ServedBy(e, n) && FileOf(s', n) == FileOf(e, n)
             && (n in s'.stopped <==> n in e.stopped)
    requires var n, c := s.reqs[r].sync.n, Candidate(s.reqs[r].sync); Current(s', n, c, false) || Awaited(s', n, false)
    requires Awaited(s, s.reqs[r].sync.n, false) ==> Awaited(s', s.reqs[r].sync.n, false)
    ensures Settled(s', s.reqs[r].sync.n, false)
  {
    var n := s.reqs[r].sync.n;
    assert Settled(s, n, false);
    EffectIsOutcome(s, s.reqs[r], how);
  }

  lemma {:induction false} FailureCarries(s: State, s': State, r: int, uuid: string, strict: bool)
    requires Fails(s, s', r, strict) && s.reqs[r].sync.n !in s'.reported && Shows(s, s.reqs[r].sync.n, uuid)
    ensures Carried(s', s.reqs[r].sync.n, uuid)
  {
    var n := s.reqs[r].sync.n;
    SyncEnds(s, s', r, strict);
    assert ReqOk(s, s.reqs[r]) && Syncing(s, r, n) && Carried(s, n, uuid);
    var u :| u in s.db.users && s.db.users[u].uuid == uuid && ((u, n) in s.db.access || Leaving(s, u, n));
    if (u, n) !in s.db.access {
      var p :| OnUser(s, p, u) && (Owed(s, p, n) || Syncing(s, p, n));
      if p != r { assert !Syncing(s, p, n); }
      assert OnUser(s', p, u) && Owed(s', p, n);
    }
  }

  /** Nothing new can show that was not read, served or in the file. */
  lemma FailureShows(s: State, q: Req, how: Failure, uuid: string)
    requires q.Pushing? && q.sync.GotRows? && Shows(Effect(s, q, how), q.sync.n, uuid)
    ensures Shows(s, q.sync.n, uuid) || uuid in Uuids(Candidate(q.sync).config)
  {
  }

  lemma EffectElsewhere(s: State, q: Req, how: Failure, m: int)
    requires q.Pushing? && q.sync.GotRows? && m != q.sync.n
    ensures SameNode(s, Effect(s, q, how), m)
  {
  }

  lemma EffectMarks(s: State, q: Req, how: Failure)
    requires q.Pushing? && q.sync.GotRows? && Marks(s)
    ensures Marks(Effect(s, q, how)) && Effect(s, q, how).early == s.early && Effect(s, q, how).reported == s.reported
    ensures var e := Effect(s, q, how); e.db == s.db && e.now == s.now && e.home == s.home && e.reqs == s.reqs
  {
  }

  /** Noting a failure touches no node. */
  lemma FailedTouchesNothing(s: State, r: int, q: Req, n: int)
    requires q.Pushing? && q.sync != Idle
    ensures var s' := Failed(s, r, q);
            && ServedBy(s', n) == ServedBy(s, n) && FileOf(s', n) == FileOf(s, n)
            && (n in s'.stopped <==> n in s.stopped) && (n != q.sync.n ==> SameNode(s, s', n))
            && forall uuid :: Shows(s', n, uuid) <==> Shows(s, n, uuid)
  {
  }

  lemma {:induction false} FailedLeaves(s: State, e: State, r: int, strict: bool)
    requires Inv(s, strict) && r in s.reqs && s.reqs[r].Pushing? && s.reqs[r].sync != Idle
    requires Marks(e) && e.early == s.early && e.reported == s.reported && e.db == s.db && e.now == s.now
    requires e.home == s.home
    requires e.reqs == s.reqs && forall m | m != s.reqs[r].sync.n :: SameNode(s, e, m)
    ensures Fails(s, Failed(e, r, s.reqs[r]), r, strict)
  {
    var q := s.reqs[r];
    assert ReqOk(s, q);
    forall m | m != q.sync.n ensures SameNode(s, Failed(e, r, q), m) {
      FailedTouchesNothing(e, r, q, m);
      assert SameNode(s, e, m);
    }
  }

  lemma {:induction false} PushFails(s: State, s': State, r: int, how: Failure, strict: bool)
    requires Inv(s, strict) && Next(s, PushFail(r, how), s')
    ensures Fails(s, s', r, strict) && s.reqs[r].sync.GotRows?
    ensures var n, e := s.reqs[r].sync.n, Effect(s, s.reqs[r], how);
            && ServedBy(s', n) == ServedBy(e, n) && FileOf(s', n) == FileOf(e, n)
            && (n in s'.stopped <==> n in e.stopped) && forall uuid :: Shows(s', n, uuid) <==> Shows(e, n, uuid)
  {
    var q := s.reqs[r];
    assert q.sync.GotRows? && s' == Failed(Effect(s, q, how), r, q);
    EffectMarks(s, q, how);
    forall m | m != q.sync.n ensures SameNode(s, Effect(s, q, how), m) { EffectElsewhere(s, q, how, m); }
    FailedTouchesNothing(Effect(s, q, how), r, q, q.sync.n);
    FailedLeaves(s, Effect(s, q, how), r, strict);
  }

  lemma {:induction false} PushFailKeepsInv(s: State, s': State, r: int, how: Failure, strict: bool)
    requires Inv(s, strict) && Next(s, PushFail(r, how), s')
    ensures Inv(s', strict)
  {
    PushFails(s, s', r, how, strict);
    FailureSettles(s, s', r, how, strict);
    var n := s.reqs[r].sync.n;
    forall uuid | n !in s'.reported && Shows(s', n, uuid) ensures Carried(s', n, uuid) {
      FailureShows(s, s.reqs[r], how, uuid);
      if Shows(s, n, uuid) {
        FailureCarries(s, s', r, uuid, strict);
      } else {
        CandidateCarried(s, s', r, uuid, strict);
      }
    }
    LeavingKeepsInv(s, s', r, strict);
  }

  lemma {:induction false} SkipSettles(s: State, s': State, r: int, strict: bool)
    requires Fails(s, s', r, strict) && s' == Failed(s, r, s.reqs[r])
    ensures Settled(s', s.reqs[r].sync.n, strict)
  {
    FailureAwaited(s, s', r, strict);
    assert Settled(s, s.reqs[r].sync.n, strict);
    SettledFrame(s, s', s.reqs[r].sync.n, strict);
  }

  /** A sync whose node is gone, or serves something else, pushes nothing. */
  lemma {:induction false} SkipKeepsInv(s: State, s': State, r: int, strict: bool)
    requires Inv(s, strict) && Next(s, Skip(r), s')
    ensures Inv(s', strict)
  {
    var n := s.reqs[r].sync.n;
    assert s' == Failed(s, r, s.reqs[r]);
    FailedLeaves(s, s, r, strict);
    FailedTouchesNothing(s, r, s.reqs[r], n);
    SkipSettles(s, s', r, strict);
    forall uuid | n !in s'.reported && Shows(s', n, uuid) ensures Carried(s', n, uuid) {
      FailureCarries(s, s', r, uuid, strict);
    }
    LeavingKeepsInv(s, s', r, strict);
  }

  // ---- each step ----

  lemma SameExclusive(s: State, s': State, r: int)
    requires Exclusive(s)
    requires forall p | p != r :: (p in s.reqs <==> p in s'.reqs) && (p in s.reqs ==> s'.reqs[p] == s.reqs[p])
    requires forall u | OnUser(s', r, u) :: OnUser(s, r, u)
    requires forall n | Syncing(s', r, n) :: Syncing(s, r, n)
    ensures Exclusive(s')
  {
    assert forall p, u | OnUser(s', p, u) :: OnUser(s, p, u);
    assert forall p, n | Syncing(s', p, n) :: Syncing(s, p, n);
  }

  lemma BeginMoves(s: State, s': State, r: int, job: Job, strict: bool)
    requires Next(s, Begin(r, job), s') && Exclusive(s)
    ensures Moves(s, s', r) && Exclusive(s') && ReadsCurrent(s', r, strict) && ReadsCarried(s', r)
  {
    assert forall n :: !Owed(s, r, n) && !Todo(s, r, n) && !Syncing(s, r, n) && !Syncing(s', r, n);
    forall p, u | p != r && OnUser(s', p, u) ensures !OnUser(s', r, u) {
      assert UserOf(job).Some? ==> UserOf(s.reqs[p].job) != UserOf(job);
    }
    assert forall p, u | p != r && OnUser(s', p, u) :: OnUser(s, p, u);
    assert forall p, n | Syncing(s', p, n) :: p != r && Syncing(s, p, n);
  }

  lemma {:induction false} BeginKeepsInv(s: State, s': State, r: int, job: Job, strict: bool)
    requires Inv(s, strict) && Next(s, Begin(r, job), s')
    ensures Inv(s', strict)
  {
    BeginMoves(s, s', r, job, strict);
    MoveKeepsInv(s, s', r, strict);
  }

  lemma ReadReqOk(s: State, step: Step, s': State)
    requires Next(s, step, s') && Valid(s.db) && HomeOk(s.db, s.home)
    requires step.ReadUser? || step.ReadAccess? || step.ReadInbound? || step.ReadBack?
    requires ReqOk(s, s.reqs[step.r])
    ensures s' == s.(reqs := s'.reqs)
    ensures step.r in s'.reqs ==> ReqOk(s', s'.reqs[step.r]) && s'.reqs[step.r].job == s.reqs[step.r].job
    ensures forall p | p != step.r :: (p in s.reqs <==> p in s'.reqs) && (p in s.reqs ==> s'.reqs[p] == s.reqs[p])
  {
    if step.ReadInbound? {
      SnapshotReqOk(s, step, s');
    }
  }

  lemma SnapshotReqOk(s: State, step: Step, s': State)
    requires Next(s, step, s') && Valid(s.db) && HomeOk(s.db, s.home) && step.ReadInbound?
    ensures step.r in s'.reqs ==> ReqOk(s', s'.reqs[step.r])
  {
  }

  lemma ReadMoves(s: State, step: Step, s': State, strict: bool)
    requires Next(s, step, s') && Exclusive(s) && Valid(s.db) && HomeOk(s.db, s.home)
    requires step.ReadUser? || step.ReadAccess? || step.ReadInbound? || step.ReadBack?
    requires ReqOk(s, s.reqs[step.r])
    ensures var r := step.r;
            && Moves(s, s', r) && Exclusive(s') && ReadsCurrent(s', r, strict) && ReadsCarried(s', r)
            && (r !in s'.reqs ==> forall n :: !Owed(s, r, n) && !Syncing(s, r, n))
  {
    var r := step.r;
    ReadReqOk(s, step, s');
    assert forall n :: !Syncing(s, r, n) && !Syncing(s', r, n);
    if step.ReadBack? {
      assert forall n :: Todo(s, r, n) <==> Todo(s', r, n);
    } else {
      assert forall n :: !Todo(s, r, n) && !Owed(s, r, n);
    }
    SameExclusive(s, s', r);
  }

  /** Reading a snapshot, reading back: the request's own stage is all that changes. */
  lemma {:induction false} ReadKeepsInv(s: State, step: Step, s': State, strict: bool)
    requires Inv(s, strict) && Next(s, step, s')
    requires step.ReadUser? || step.ReadAccess? || step.ReadInbound? || step.ReadBack?
    ensures Inv(s', strict)
  {
    ReadMoves(s, step, s', strict);
    MoveKeepsInv(s, s', step.r, strict);
  }

  predicate IsQuery(step: Step) { step.Lock? || step.QueryAllowed? || step.QueryUsers? || step.QueryRows? }

  lemma {:induction false} QueryKeepsInv(s: State, step: Step, s': State, strict: bool)
    requires Inv(s, strict) && Next(s, step, s') && IsQuery(step)
    ensures Inv(s', strict)
  {
    var r := step.r;
    assert ReqOk(s, s.reqs[r]);
    if step.Lock? { LockMoves(s, r, step.n, s'); } else { QueryMoves(s, step, s'); }
    QueryReads(s, step, s', strict);
    MoveKeepsInv(s, s', r, strict);
  }

  lemma {:induction false} LockMoves(s: State, r: int, n: int, s': State)
    requires Next(s, Lock(r, n), s') && Exclusive(s) && ReqOk(s, s.reqs[r])
    ensures Moves(s, s', r) && Exclusive(s') && r in s'.reqs
  {
    forall p ensures !Syncing(s, p, n) { if p in s.reqs { assert !SyncingOn(s.reqs[p], n); } }
    forall p, m | Syncing(s', p, m) ensures Syncing(s, p, m) || (p == r && m == n) {}
    assert forall p, u | OnUser(s', p, u) :: OnUser(s, p, u);
  }

  lemma {:induction false} QueryMoves(s: State, step: Step, s': State)
    requires step.QueryAllowed? || step.QueryUsers? || step.QueryRows?
    requires Next(s, step, s') && Exclusive(s) && ReqOk(s, s.reqs[step.r])
    ensures Moves(s, s', step.r) && Exclusive(s') && step.r in s'.reqs
    ensures forall p, m :: Todo(s, p, m) <==> Todo(s', p, m)
  {
    var r := step.r;
    forall p, m | Syncing(s', p, m) ensures Syncing(s, p, m) {}
    SameExclusive(s, s', r);
  }

  lemma {:induction false} QueryReads(s: State, step: Step, s': State, strict: bool)
    requires Inv(s, strict) && Next(s, step, s') && IsQuery(step)
    requires step.Lock? || forall p, m :: Todo(s, p, m) <==> Todo(s', p, m)
    ensures ReadsCurrent(s', step.r, strict) && ReadsCarried(s', step.r)
  {
    var r := step.r;
    var q, q' := s.reqs[r], s'.reqs[r];
    assert ReadsCurrent(s, r, strict) && ReadsCarried(s, r);
    if !step.Lock? {
      var n := q.sync.n;
      if p :| Todo(s, p, n) && Debtor(s.reqs[p], strict) { assert Todo(s', p, n) && Debtor(s'.reqs[p], strict); }
      forall u | MayRead(s, u, n) ensures MayRead(s', u, n) {
        if (u, n) !in s.db.access {
          var p :| OnUser(s, p, u) && Todo(s, p, n);
          assert OnUser(s', p, u) && Todo(s', p, n);
        }
      }
      if step.QueryAllowed? {
        forall u | u in q'.sync.allowed ensures MayRead(s', u, n) {
          var pair :| pair in s.db.access && pair.1 == n && pair.0 == u;
          assert pair == (u, n);
        }
      }
    }
  }

  lemma {:induction false} WriteKeepsInv(s: State, s': State, r: int, strict: bool)
    requires Inv(s, strict) && Next(s, DoWrite(r), s')
    ensures Inv(s', strict)
  {
    var q := s.reqs[r];
    assert ReqOk(s, q);
    if Write(s.db, q.job, q.snap).Refused? {
      assert forall n :: !Owed(s, r, n) && !Syncing(s, r, n) && !Todo(s, r, n);
      SameExclusive(s, s', r);
      MoveKeepsInv(s, s', r, strict);
    } else if q.job.Retarget? && !strict {
      SwitchUnseen(s, s', r);
      RewriteKeepsInv(s, s', r, {}, strict);
    } else {
      WriteRewrites(s, s', r, strict);
      RewriteKeepsInv(s, s', r, TargetsNow(s'.db, s'.reqs[r]), strict);
    }
  }

  /** What a first write does to the tables. */
  lemma {:induction false} WrittenTables(s: State, s': State, r: int, strict: bool)
    requires Next(s, DoWrite(r), s') && Valid(s.db) && HomeOk(s.db, s.home) && ReqOk(s, s.reqs[r])
    requires Write(s.db, s.reqs[r].job, s.reqs[r].snap).Wrote?
    ensures r in s'.reqs && s'.reqs[r].Written? && ReqOk(s', s'.reqs[r])
    ensures Confined(s.db, s'.db, s.now, s.reqs[r].job, TargetsNow(s'.db, s'.reqs[r]), strict) && HomeOk(s'.db, s'.home)
  {
    var q := s.reqs[r];
    WriteReachesTargets(s.db, s.now, s.home, q.job, q.snap);
    ContainedIsConfined(s.db, s'.db, s.now, q.job, TargetsNow(s'.db, s'.reqs[r]), strict);
  }

  /** What it leaves alone, and that its request now owes its targets a push. */
  lemma {:induction false} WrittenRequest(s: State, s': State, r: int)
    requires Next(s, DoWrite(r), s') && Write(s.db, s.reqs[r].job, s.reqs[r].snap).Wrote?
    requires r in s'.reqs && s'.reqs[r].Written? && ReqOk(s', s'.reqs[r]) && s.early <= s.reverted
    requires forall i | i in s.home :: i < s.db.nextInbound
    ensures Replaces(s, s', r) && s'.reqs[r].job == s.reqs[r].job
    ensures s' == s.(db := s'.db, home := s'.home, reqs := s'.reqs)
    ensures forall i | i in s.home :: i in s'.home && s'.home[i] == s.home[i]
    ensures forall n :: !Owed(s, r, n)
    ensures forall n | n in TargetsNow(s'.db, s'.reqs[r]) :: Todo(s', r, n)
  {
    assert forall n :: !Owed(s, r, n) && !Todo(s, r, n) && !Syncing(s, r, n) && !Syncing(s', r, n);
  }

  lemma {:induction false} WriteRewrites(s: State, s': State, r: int, strict: bool)
    requires Next(s, DoWrite(r), s') && Inv(s, strict)
    requires Write(s.db, s.reqs[r].job, s.reqs[r].snap).Wrote? && Debtor(s.reqs[r], strict)
    ensures r in s'.reqs && s'.reqs[r].Written? && Rewrites(s, s', r, TargetsNow(s'.db, s'.reqs[r]), strict)
  {
    WrittenTables(s, s', r, strict);
    WrittenRequest(s, s', r);
  }

  lemma {:induction false} SwitchTables(s: State, s': State, r: int)
    requires Next(s, DoWrite(r), s') && Valid(s.db) && HomeOk(s.db, s.home) && ReqOk(s, s.reqs[r])
    requires s.reqs[r].job.Retarget?
    requires Write(s.db, s.reqs[r].job, s.reqs[r].snap).Wrote?
    ensures Confined(s.db, s'.db, s.now, s.reqs[r].job, {}, false)
  {
    var q := s.reqs[r];
    var i, row := q.snap.i, q.snap.inbound;
    SniOnly(row.settings, q.job.sni);
    SwitchConfined(s.db, s.now, s.home, q.job, i, row, WithSni(row.settings, q.job.sni));
  }

  /** Up to Reality targets, a switch writes nothing. */
  lemma {:induction false} SwitchUnseen(s: State, s': State, r: int)
    requires Next(s, DoWrite(r), s') && Inv(s, false) && s.reqs[r].job.Retarget?
    requires Write(s.db, s.reqs[r].job, s.reqs[r].snap).Wrote?
    ensures Rewrites(s, s', r, {}, false)
  {
    assert ReqOk(s, s.reqs[r]);
    WrittenTables(s, s', r, false);
    WrittenRequest(s, s', r);
    SwitchTables(s, s', r);
  }

  lemma {:induction false} RollBackKeepsInv(s: State, s': State, r: int, strict: bool)
    requires Inv(s, strict) && Next(s, RollBack(r), s')
    ensures Inv(s', strict)
  {
    var q := s.reqs[r];
    assert ReqOk(s, q);
    if Revert(s.db, q.undo).None? {
      RefusedRollBack(s, s', r, strict);
    } else if q.job.Retarget? && !strict {
      RevertUnseen(s, s', r);
      RewriteKeepsInv(s, s', r, {}, strict);
    } else {
      RevertRewrites(s, s', r, strict);
      RewriteKeepsInv(s, s', r, q.targets, strict);
    }
  }

  lemma {:induction false} RevertedTables(s: State, s': State, r: int, strict: bool)
    requires Next(s, RollBack(r), s') && Valid(s.db) && HomeOk(s.db, s.home) && ReqOk(s, s.reqs[r])
    requires Revert(s.db, s.reqs[r].undo).Some?
    ensures Confined(s.db, s'.db, s.now, s.reqs[r].job, s.reqs[r].targets, strict) && HomeOk(s'.db, s'.home)
  {
    var q := s.reqs[r];
    RevertReachesTargets(s.db, s.now, s.home, q.job, q.undo, q.targets);
    ContainedIsConfined(s.db, s'.db, s.now, q.job, q.targets, strict);
  }

  lemma {:induction false} RevertedRequest(s: State, s': State, r: int)
    requires Next(s, RollBack(r), s') && Revert(s.db, s.reqs[r].undo).Some? && ReqOk(s, s.reqs[r])
    requires s'.db.nodes == s.db.nodes
    requires s.early <= s.reverted
    ensures Replaces(s, s', r)
    ensures s' == s.(db := s'.db, reqs := s'.reqs, reverted := s'.reverted, early := s'.early)
    ensures s.reverted <= s'.reverted && s.early <= s'.early <= s'.reverted
    ensures s.reqs[r].job.Retarget? ==> s.reqs[r].targets <= s'.early && r !in s'.reqs
    ensures !s.reqs[r].job.Retarget? ==> r in s'.reqs && forall n | n in s.reqs[r].targets :: Todo(s', r, n)
    ensures forall n | Owed(s, r, n) :: n in s.reqs[r].targets
  {
    assert forall n :: !Todo(s, r, n) && !Syncing(s, r, n) && !Syncing(s', r, n);
  }

  lemma {:induction false} RevertRewrites(s: State, s': State, r: int, strict: bool)
    requires Next(s, RollBack(r), s') && Inv(s, strict) && Revert(s.db, s.reqs[r].undo).Some?
    requires Debtor(s.reqs[r], strict)
    ensures Rewrites(s, s', r, s.reqs[r].targets, strict)
  {
    assert ReqOk(s, s.reqs[r]);
    RevertedTables(s, s', r, strict);
    RevertedRequest(s, s', r);
    if s.reqs[r].job.Retarget? { assert UserOf(s.reqs[r].job).None?; }
  }

  lemma {:induction false} TakenBackTables(s: State, s': State, r: int)
    requires Next(s, RollBack(r), s') && Valid(s.db) && HomeOk(s.db, s.home) && ReqOk(s, s.reqs[r])
    requires s.reqs[r].job.Retarget?
    requires Revert(s.db, s.reqs[r].undo).Some?
    ensures Confined(s.db, s'.db, s.now, s.reqs[r].job, {}, false)
  {
    var q := s.reqs[r];
    SwitchConfined(s.db, s.now, s.home, q.job, q.undo.i, q.undo.inbound, q.undo.inbound.settings);
  }

  lemma {:induction false} RevertUnseen(s: State, s': State, r: int)
    requires Next(s, RollBack(r), s') && Inv(s, false) && Revert(s.db, s.reqs[r].undo).Some? && s.reqs[r].job.Retarget?
    ensures Rewrites(s, s', r, {}, false)
  {
    assert ReqOk(s, s.reqs[r]);
    RevertedTables(s, s', r, false);
    RevertedRequest(s, s', r);
    TakenBackTables(s, s', r);
  }

  /** The compensating write of request `r` is refused: its targets are reported. */
  ghost predicate Refuses(s: State, s': State, r: int, strict: bool) {
    && Inv(s, strict) && r in s.reqs && Idling(s.reqs[r])
    && s' == End(s, r).(reported := s.reported + s.reqs[r].targets)
  }

  lemma {:induction false} RefusedOwe(s: State, s': State, r: int, strict: bool)
    requires Refuses(s, s', r, strict)
    ensures forall p, n | p != r :: Todo(s, p, n) <==> Todo(s', p, n)
    ensures forall p, n | p != r :: Owed(s, p, n) <==> Owed(s', p, n)
    ensures forall p, n | p != r :: Syncing(s, p, n) <==> Syncing(s', p, n)
    ensures forall n :: !Todo(s, r, n) && !Syncing(s, r, n) && (Owed(s, r, n) ==> n in s'.reported)
  {
    assert ReqOk(s, s.reqs[r]);
  }

  lemma {:induction false} RefusedReads(s: State, s': State, r: int, p: int, strict: bool)
    requires Refuses(s, s', r, strict)
    ensures ReadsCurrent(s', p, strict) && ReadsCarried(s', p)
  {
    RefusedOwe(s, s', r, strict);
    if p in s'.reqs && s'.reqs[p].Pushing? && s'.reqs[p].sync != Idle {
      var n := s'.reqs[p].sync.n;
      assert ReadsCurrent(s, p, strict) && ReadsCarried(s, p);
      if t :| Todo(s, t, n) && Debtor(s.reqs[t], strict) { assert Todo(s', t, n) && Debtor(s'.reqs[t], strict); }
      forall u | MayRead(s, u, n) ensures MayRead(s', u, n) {
        if (u, n) !in s.db.access {
          var t :| OnUser(s, t, u) && Todo(s, t, n);
          assert OnUser(s', t, u) && Todo(s', t, n);
        }
      }
    }
  }

  lemma {:induction false} RefusedSettles(s: State, s': State, r: int, n: int, strict: bool)
    requires Refuses(s, s', r, strict) && n in s.db.nodes
    ensures Settled(s', n, strict)
  {
    RefusedOwe(s, s', r, strict);
    if t :| Owed(s, t, n) && Debtor(s.reqs[t], strict) {
      assert (Owed(s', t, n) && Debtor(s'.reqs[t], strict)) || n in s'.reported;
    }
    if t :| Syncing(s, t, n) && Debtor(s.reqs[t], strict) { assert Syncing(s', t, n) && Debtor(s'.reqs[t], strict); }
    SettledFrame(s, s', n, strict);
  }

  lemma {:induction false} RefusedCarries(s: State, s': State, r: int, n: int, uuid: string, strict: bool)
    requires Refuses(s, s', r, strict) && n !in s'.reported && Shows(s', n, uuid)
    ensures Carried(s', n, uuid)
  {
    RefusedOwe(s, s', r, strict);
    assert Carried(s, n, uuid);
    var u :| u in s.db.users && s.db.users[u].uuid == uuid && ((u, n) in s.db.access || Leaving(s, u, n));
    if (u, n) !in s.db.access {
      var t :| OnUser(s, t, u) && (Owed(s, t, n) || Syncing(s, t, n));
      assert OnUser(s', t, u) && (Owed(s', t, n) || Syncing(s', t, n));
    }
  }

  lemma {:induction false} RefusedRollBack(s: State, s': State, r: int, strict: bool)
    requires Refuses(s, s', r, strict)
    ensures Inv(s', strict)
  {
    SameExclusive(s, s', r);
    forall p | p in s'.reqs ensures ReqOk(s', s'.reqs[p]) { assert ReqOk(s, s.reqs[p]); }
    forall p ensures ReadsCurrent(s', p, strict) && ReadsCarried(s', p) { RefusedReads(s, s', r, p, strict); }
    forall n | n in s'.db.nodes ensures Settled(s', n, strict) { RefusedSettles(s, s', r, n, strict); }
    forall n, uuid | n !in s'.reported && Shows(s', n, uuid) ensures Carried(s', n, uuid) {
      RefusedCarries(s, s', r, n, uuid, strict);
    }
  }

  lemma {:induction false} FinishKeepsInv(s: State, s': State, r: int, strict: bool)
    requires Inv(s, strict) && Next(s, Finish(r), s')
    ensures Inv(s', strict)
  {
    var q := s.reqs[r];
    assert ReqOk(s, q);
    if q.job.DeleteUser? && !q.restoring {
      RowDeletion(s, s', r, strict);
    } else {
      SameExclusive(s, s', r);
      MoveKeepsInv(s, s', r, strict);
    }
  }

  /** The row of a deleted user is removed when nothing mentions the user any more. */
  ghost predicate Removes(s: State, s': State, r: int, u: int, strict: bool) {
    && Inv(s, strict) && r in s.reqs && Idling(s.reqs[r]) && !s.reqs[r].failed && !s.reqs[r].restoring
    && s.reqs[r].job == DeleteUser(u)
    && s' == End(s, r).(db := s.db.(users := s.db.users - {u}, access := s'.db.access))
    && (forall p :: p in s'.db.access <==> p in s.db.access && p.0 != u)
  }

  lemma {:induction false} RowDeletion(s: State, s': State, r: int, strict: bool)
    requires Inv(s, strict) && Next(s, Finish(r), s') && s.reqs[r].job.DeleteUser? && !s.reqs[r].restoring
    ensures Inv(s', strict)
  {
    assert Removes(s, s', r, s.reqs[r].job.u, strict);
    RemovalKeepsInv(s, s', r, s.reqs[r].job.u, strict);
  }

  lemma {:induction false} RemovalKeepsInv(s: State, s': State, r: int, u: int, strict: bool)
    requires Removes(s, s', r, u, strict)
    ensures Inv(s', strict)
  {
    RemovedEverywhere(s, s', r, u, strict);
    RemovalKeepsOthers(s, s', r, u, strict);
    SameExclusive(s, s', r);
    forall p ensures ReadsCurrent(s', p, strict) && ReadsCarried(s', p) {
      RemovalKeepsReads(s, s', r, u, p, strict);
    }
    forall n | n in s'.db.nodes ensures Settled(s', n, strict) {
      assert SameView(s.db, s'.db, s.now, n);
      if t :| Owed(s, t, n) && Debtor(s.reqs[t], strict) { assert Owed(s', t, n) && Debtor(s'.reqs[t], strict); }
      if t :| Syncing(s, t, n) && Debtor(s.reqs[t], strict) { assert Syncing(s', t, n) && Debtor(s'.reqs[t], strict); }
      SettledFrame(s, s', n, strict);
    }
    forall n, uuid | n !in s'.reported && Shows(s', n, uuid)
      ensures Carried(s', n, uuid)
    {
      RemovalKeepsCarried(s, s', r, u, n, uuid, strict);
    }
  }

  lemma {:induction false} RemovalKeepsCarried(s: State, s': State, r: int, u: int, n: int, uuid: string, strict: bool)
    requires Removes(s, s', r, u, strict)
    requires n !in s.reported && Shows(s, n, uuid)
    ensures Carried(s', n, uuid)
  {
    assert Carried(s, n, uuid);
    var w :| w in s.db.users && s.db.users[w].uuid == uuid && ((w, n) in s.db.access || Leaving(s, w, n));
    if (w, n) in s.db.access {
      RemovedEverywhere(s, s', r, u, strict);
    } else {
      RemovalKeepsLeaving(s, s', r, u, w, n, strict);
    }
  }

  lemma {:induction false} RemovalKeepsLeaving(s: State, s': State, r: int, u: int, w: int, n: int, strict: bool)
    requires Removes(s, s', r, u, strict) && Leaving(s, w, n)
    ensures w != u && Leaving(s', w, n)
  {
    var t :| OnUser(s, t, w) && (Owed(s, t, n) || Syncing(s, t, n));
    assert t != r && OnUser(s, r, u);
    StillLeaving(s, s', r, u, t, w, n, strict);
  }

  lemma StillLeaving(s: State, s': State, r: int, u: int, t: int, w: int, n: int, strict: bool)
    requires Removes(s, s', r, u, strict) && t != r && OnUser(s, t, w) && (Owed(s, t, n) || Syncing(s, t, n))
    ensures OnUser(s', t, w) && (Owed(s', t, n) || Syncing(s', t, n))
  {
    RemovalKeepsOthers(s, s', r, u, strict);
  }

  /** By then the user has no access left, so no node's view changes. */
  lemma {:induction false} RemovedEverywhere(s: State, s': State, r: int, u: int, strict: bool)
    requires Removes(s, s', r, u, strict)
    ensures u in s.db.users && s'.db.access == s.db.access && Valid(s'.db) && HomeOk(s'.db, s'.home)
    ensures forall n :: (u, n) !in s.db.access && SameView(s.db, s'.db, s.now, n)
    ensures forall n :: !Todo(s, r, n) && !Owed(s, r, n) && !Syncing(s, r, n)
    ensures forall p | p != r :: !OnUser(s, p, u)
  {
    assert ReqOk(s, s.reqs[r]);
    forall n ensures (u, n) !in s.db.access { assert n !in AccessOf(s.db, u); }
    assert OnUser(s, r, u);
    forall p: (int, int) | p in s.db.access ensures p.0 != u { assert p == (u, p.1) || p.0 != u; }
    forall n ensures SameView(s.db, s'.db, s.now, n) {
      UserView(s.db, s'.db, s.now, u, n);
    }
  }

  lemma {:induction false} RemovalKeepsOthers(s: State, s': State, r: int, u: int, strict: bool)
    requires Removes(s, s', r, u, strict)
    ensures forall p, n | p != r :: (Todo(s, p, n) <==> Todo(s', p, n)) && (Owed(s, p, n) <==> Owed(s', p, n))
                                    && (Syncing(s, p, n) <==> Syncing(s', p, n))
    ensures forall p, w | p != r :: OnUser(s, p, w) <==> OnUser(s', p, w)
    ensures forall p | p in s'.reqs :: ReqOk(s', s'.reqs[p])
  {
    RemovedEverywhere(s, s', r, u, strict);
    forall p | p != r && p in s.reqs
      ensures ReqOk(s', s.reqs[p])
      ensures s.reqs[p].Written? ==> TargetsNow(s'.db, s.reqs[p]) == TargetsNow(s.db, s.reqs[p])
    {
      var q := s.reqs[p];
      assert ReqOk(s, q) && !OnUser(s, p, u);
      if UserOf(q.job).Some? { assert AccessOf(s'.db, UserOf(q.job).value) == AccessOf(s.db, UserOf(q.job).value); }
      assert RowsKept(s.db, s'.db, s.home, s'.home, q.job);
      match q
      case Starting(_) =>
      case GotUser(_, _) =>
      case Ready(job, snap) => SnapFrame(s.db, s'.db, s.home, s'.home, job, snap);
      case Written(job, _, undo, _) =>
        CoveredFrame(s.db, s'.db, s.now, s.home, s'.home, job, undo, TargetsNow(s.db, q));
      case Pushing(job, undo, targets, _, _, restoring, _) =>
        if !restoring { CoveredFrame(s.db, s'.db, s.now, s.home, s'.home, job, undo, targets); }
    }
  }

  lemma {:induction false} RemovalKeepsReads(s: State, s': State, r: int, u: int, p: int, strict: bool)
    requires Removes(s, s', r, u, strict)
    ensures ReadsCurrent(s', p, strict) && ReadsCarried(s', p)
  {
    if p in s'.reqs && s'.reqs[p].Pushing? && s'.reqs[p].sync != Idle {
      RemovedEverywhere(s, s', r, u, strict);
      RemovalKeepsOthers(s, s', r, u, strict);
      var n := s.reqs[p].sync.n;
      assert ReadsCurrent(s, p, strict) && ReadsCarried(s, p) && SameView(s.db, s'.db, s.now, n);
      if t :| Todo(s, t, n) && Debtor(s.reqs[t], strict) { assert Todo(s', t, n) && Debtor(s'.reqs[t], strict); }
      forall w | MayRead(s, w, n) ensures MayRead(s', w, n) && w != u {
        if (w, n) !in s.db.access {
          var t :| OnUser(s, t, w) && Todo(s, t, n);
          assert t != r;
          assert OnUser(s', t, w) && Todo(s', t, n);
        }
      }
    }
  }

  lemma {:induction false} StepKeepsInv(s: State, step: Step, s': State, strict: bool)
    requires Inv(s, strict) && Next(s, step, s')
    ensures Inv(s', strict)
  {
    match step
    case Begin(r, job) => BeginKeepsInv(s, s', r, job, strict);
    case ReadUser(_) => ReadKeepsInv(s, step, s', strict);
    case ReadAccess(_) => ReadKeepsInv(s, step, s', strict);
    case ReadInbound(_, _) => ReadKeepsInv(s, step, s', strict);
    case ReadBack(_) => ReadKeepsInv(s, step, s', strict);
    case DoWrite(r) => WriteKeepsInv(s, s', r, strict);
    case Lock(_, _) => QueryKeepsInv(s, step, s', strict);
    case QueryAllowed(_) => QueryKeepsInv(s, step, s', strict);
    case QueryUsers(_) => QueryKeepsInv(s, step, s', strict);
    case QueryRows(_) => QueryKeepsInv(s, step, s', strict);
    case Skip(r) => SkipKeepsInv(s, s', r, strict);
    case PushFail(r, how) => PushFailKeepsInv(s, s', r, how, strict);
    case PushOk(r) => PushOkKeepsInv(s, s', r, strict);
    case RollBack(r) => RollBackKeepsInv(s, s', r, strict);
    case Finish(r) => FinishKeepsInv(s, s', r, strict);
  }

  lemma {:induction false} RunKeepsInv(run: seq<State>, steps: seq<Step>, k: nat, strict: bool)
    requires IsRun(run, steps) && k < |run|
    ensures Inv(run[k], strict)
  {
    if k == 0 {
      InitHolds(run[0], strict);
    } else {
      RunKeepsInv(run, steps, k - 1, strict);
      StepKeepsInv(run[k - 1], steps[k - 1], run[k], strict);
    }
  }

  /** In every interleaving, once nothing is in flight every node agrees with the tables, except a
      node named in a failed restore and not pushed since, a node on which a Reality switch was
      reverted after the rows it serves were read, and a node whose service a failed switch stopped. */
  lemma {:induction false} QuietNodesAgree(run: seq<State>, steps: seq<Step>, n: int)
    requires IsRun(run, steps)
    requires var s := run[|run| - 1];
             s.reqs == map[] && n in s.db.nodes && n !in s.reported && n !in s.reverted && n !in s.stopped
    ensures Agrees(run[|run| - 1], n)
  {
    RunKeepsInv(run, steps, |run| - 1, true);
    var s := run[|run| - 1];
    assert Settled(s, n, true);
    assert forall r :: !Owed(s, r, n) && !Syncing(s, r, n);
  }

  /** A node that serves another Reality target than the tables hold for an enabled inbound. */
  ghost predicate OffTarget(s: State, n: int) {
    n in s.served && exists i ::
      i in RowsOf(s.db, n) && i in s.served[n] && Retargeted(s.served[n][i], RowsOf(s.db, n)[i])
  }

  /** Exactly when a node that nothing reported disagrees: a failed switch left its service down, or a
      switch was reverted after the rows it serves were read and the targets read are not the stored
      ones. Nothing else of its configuration can differ. */
  lemma {:induction false} QuietDisagreesIff(run: seq<State>, steps: seq<Step>, n: int)
    requires IsRun(run, steps)
    requires var s := run[|run| - 1]; s.reqs == map[] && n in s.db.nodes && n !in s.reported
    ensures var s := run[|run| - 1]; !Agrees(s, n) <==> n in s.stopped || (n in s.reverted && OffTarget(s, n))
  {
    RunKeepsInv(run, steps, |run| - 1, false);
    var s := run[|run| - 1];
    assert Settled(s, n, false) && Marks(s);
    assert forall r :: !Owed(s, r, n) && !Syncing(s, r, n);
    if n !in s.stopped {
      assert OnNode(s, n, false);
      RendersAlikeIff(Roster(s.db, s.now, n), s.served[n], RowsOf(s.db, n));
      if n !in s.reverted { QuietNodesAgree(run, steps, n); }
    }
  }

  /** Deletion is crash-safe in every interleaving: at every step, a node that no failed restore
      names carries no credential of a user whose row is gone, nor does the file it would fall back to. */
  lemma {:induction false} NoOrphanCredential(run: seq<State>, steps: seq<Step>, k: nat, n: int, uuid: string)
    requires IsRun(run, steps) && k < |run|
    requires n !in run[k].reported && Shows(run[k], n, uuid)
    ensures exists u :: u in run[k].db.users && run[k].db.users[u].uuid == uuid
  {
    RunKeepsInv(run, steps, k, true);
    assert Carried(run[k], n, uuid);
  }

  /** A user's row is still there when its deletion comes to remove it. */
  lemma {:induction false} DeletionFindsRow(run: seq<State>, steps: seq<Step>, k: nat, r: int)
    requires IsRun(run, steps) && k < |run| && r in run[k].reqs
    requires var q := run[k].reqs[r]; Idling(q) && q.job.DeleteUser? && !q.failed && !q.restoring
    ensures DeleteWithRelatedData(run[k].db, run[k].reqs[r].job.u).Some?
    ensures AccessOf(run[k].db, run[k].reqs[r].job.u) == {}
  {
    RunKeepsInv(run, steps, k, true);
    assert ReqOk(run[k], run[k].reqs[r]);
  }
}
