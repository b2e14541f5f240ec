/** Which configurations a database write can change: only those of the nodes the
    request pushes to (handler/user.go:122-125, handler/sync.go:27-52). */
module Views {
  import opened Tables
  import opened Generator
  import opened EditProtocol

  /** The generator's three reads for node `n` give the same answers. */
  ghost predicate SameView(db: Db, db': Db, now: string, n: int) {
    && UsersForNode(db, now, n) == UsersForNode(db', now, n)
    && Roster(db, now, n) == Roster(db', now, n)
    && RowsOf(db, n) == RowsOf(db', n)
  }

  /** The rows of a node as they are, or up to what a Reality switch rewrites. */
  function Seen(rows: map<int, Inbound>, strict: bool): map<int, Inbound> {
    if strict then rows else map i | i in rows :: Bare(rows[i])
  }

  ghost predicate SeenView(db: Db, db': Db, now: string, n: int, strict: bool) {
    && UsersForNode(db, now, n) == UsersForNode(db', now, n)
    && Roster(db, now, n) == Roster(db', now, n)
    && Seen(RowsOf(db, n), strict) == Seen(RowsOf(db', n), strict)
  }

  function Standing(row: User, now: string): Option<Credential> {
    if Eligible(row, now) then Some(Credential(row.name, row.uuid)) else None
  }

  /** What user `u` contributes to the configuration of node `n`. */
  function Shown(db: Db, now: string, u: int, n: int): Option<Credential> {
    if u in db.users && (u, n) in db.access then Standing(db.users[u], now) else None
  }

  ghost predicate OnlyUser(db: Db, db': Db, u: int) {
    && db' == db.(users := db'.users, access := db'.access)
    && (forall w | w != u :: (w in db.users <==> w in db'.users) && (w in db.users ==> db'.users[w] == db.users[w]))
    && (forall p: (int, int) | p.0 != u :: p in db.access <==> p in db'.access)
  }

  ghost predicate OnlyInbounds(db: Db, db': Db) {
    db' == db.(inbounds := db'.inbounds, nextInbound := db'.nextInbound) && db.nextInbound <= db'.nextInbound
  }

  lemma {:induction false} UserView(db: Db, db': Db, now: string, u: int, n: int)
    requires OnlyUser(db, db', u) && Shown(db, now, u, n) == Shown(db', now, u, n)
    ensures SameView(db, db', now, n)
  {
    var a, a' := UsersForNode(db, now, n), UsersForNode(db', now, n);
    forall w ensures (w in a <==> Shown(db, now, w, n).Some?) && (w in a' <==> Shown(db', now, w, n).Some?) {
      InRoster(db, now, n, w);
      InRoster(db', now, n, w);
    }
    forall w ensures Shown(db, now, w, n) == Shown(db', now, w, n) {
      if w != u { assert (w, n) in db.access <==> (w, n) in db'.access; }
    }
    assert forall w :: w in a <==> w in a';
    var r, r' := Roster(db, now, n), Roster(db', now, n);
    assert forall w :: w in r <==> w in r';
    assert forall w | w in r :: r[w] == r'[w];
    assert r == r';
  }

  lemma InRoster(db: Db, now: string, n: int, w: int)
    ensures w in UsersForNode(db, now, n) <==> Shown(db, now, w, n).Some?
    ensures w in UsersForNode(db, now, n) ==>
              w in Roster(db, now, n) && Some(Roster(db, now, n)[w]) == Shown(db, now, w, n)
    ensures w in Roster(db, now, n) ==> w in UsersForNode(db, now, n)
  {
  }

  lemma InboundView(db: Db, db': Db, now: string, n: int)
    requires OnlyInbounds(db, db')
    requires forall i | i in db.inbounds && db.inbounds[i].node == n ::
               i in db'.inbounds && db'.inbounds[i] == db.inbounds[i]
    requires forall i | i in db'.inbounds && db'.inbounds[i].node == n ::
               i in db.inbounds && db'.inbounds[i] == db.inbounds[i]
    ensures SameView(db, db', now, n)
  {
    var r, r' := RowsOf(db, n), RowsOf(db', n);
    assert forall i :: i in r <==> i in r';
    assert forall i | i in r :: r[i] == r'[i];
    assert r == r';
  }

  // ---- a request's own rows, while it is in flight ----

  /** The snapshot still matches the tables. */
  ghost predicate SnapOk(db: Db, home: map<int, Inbound>, job: Job, snap: Snap) {
    match (job, snap)
    case (ChangeAccess(u, _), AccessSnap(ids)) => AccessOf(db, u) == ids
    case (AddInbound(n, _, _, _, _), NoSnap) => n in db.nodes
    case (RemoveInbound(_), InboundSnap(i, row)) =>
      i in home && Kin(row, home[i]) && row.node in db.nodes && 0 < i < db.nextInbound
    case (Reorder(n, _), OrderSnap(_)) => n in db.nodes
    case (Retarget(n, _), InboundSnap(i, row)) =>
      && i in home && Kin(row, home[i]) && row.node == n && row.protocol == "vless-reality"
      && n in db.nodes && 0 < i < db.nextInbound
    case (_, UserSnap(row, ids)) =>
      (job.EditUser? || job.DeleteUser? || job.ResetUserTraffic?)
      && job.u in db.users && db.users[job.u] == row && AccessOf(db, job.u) == ids
    case (_, _) => false
  }

  /** Undoing the write changes the configuration of no node outside `targets`. */
  ghost predicate Covered(db: Db, now: string, home: map<int, Inbound>, job: Job, undo: Undo, targets: set<int>) {
    match undo
    case UndoUser(u, row, ids) =>
      && (job.EditUser? || job.DeleteUser?) && job.u == u
      && ids <= db.nodes.Keys && u in db.users && db.users[u].uuid == row.uuid && db.users[u].used == row.used
      && (forall n | n !in targets :: (n in AccessOf(db, u) <==> n in ids)
                                      && (n in ids ==> Standing(db.users[u], now) == Standing(row, now)))
      && (job.DeleteUser? ==> AccessOf(db, u) == {})
    case UndoTraffic(u, row) =>
      job.ResetUserTraffic? && job.u == u && u in db.users && db.users[u].uuid == row.uuid && AccessOf(db, u) <= targets
    case UndoAccess(u, ids) =>
      && job.ChangeAccess? && job.u == u && ids <= db.nodes.Keys
      && (forall n | n !in targets :: n in AccessOf(db, u) <==> n in ids)
    case UndoAdd(i) => job.AddInbound? && i in home && home[i].node in targets
    case UndoRemove(i, row) =>
      && job.RemoveInbound? && i in home && Kin(row, home[i]) && row.node in targets
      && row.node in db.nodes && 0 < i < db.nextInbound
    case UndoReorder(n, _) => job.Reorder? && n in targets
    case UndoSettings(i, row) =>
      job.Retarget? && i in home && Kin(row, home[i]) && row.node in targets && row.protocol == "vless-reality"
  }

  /** Nothing `job` depends on has changed. */
  ghost predicate RowsKept(db: Db, db': Db, home: map<int, Inbound>, home': map<int, Inbound>, job: Job) {
    && db'.nodes == db.nodes && db.nextInbound <= db'.nextInbound
    && (forall i | i in home :: i in home' && home'[i] == home[i])
    && (UserOf(job).Some? ==>
          var w := UserOf(job).value;
          && (w in db'.users <==> w in db.users) && (w in db.users ==> db'.users[w] == db.users[w])
          && AccessOf(db', w) == AccessOf(db, w))
  }

  lemma SnapFrame(db: Db, db': Db, home: map<int, Inbound>, home': map<int, Inbound>, job: Job, snap: Snap)
    requires RowsKept(db, db', home, home', job) && SnapOk(db, home, job, snap)
    ensures SnapOk(db', home', job, snap)
  {}

  lemma CoveredFrame(db: Db, db': Db, now: string, home: map<int, Inbound>, home': map<int, Inbound>, job: Job,
                     undo: Undo,
                     targets: set<int>)
    requires RowsKept(db, db', home, home', job) && Covered(db, now, home, job, undo, targets)
    ensures Covered(db', now, home', job, undo, targets)
  {}

  ghost predicate KeepsUuids(db: Db, db': Db) {
    forall w | w in db.users :: w in db'.users && db'.users[w].uuid == db.users[w].uuid
  }

  /** A write that touches only `job`'s rows, and only the views of `targets`. */
  ghost predicate Contained(db: Db, db': Db, now: string, job: Job, targets: set<int>) {
    && Valid(db') && KeepsUuids(db, db')
    && (if UserOf(job).Some? then OnlyUser(db, db', UserOf(job).value) else OnlyInbounds(db, db'))
    && (forall n | n !in targets :: SameView(db, db', now, n))
    && (forall p | p in db.access && p !in db'.access :: p.1 in targets)
    && targets <= db.nodes.Keys
  }

  /** The same up to Reality targets, when those are not looked at. */
  ghost predicate Confined(db: Db, db': Db, now: string, job: Job, targets: set<int>, strict: bool) {
    && Valid(db') && KeepsUuids(db, db')
    && (if UserOf(job).Some? then OnlyUser(db, db', UserOf(job).value) else OnlyInbounds(db, db'))
    && (forall n | n !in targets :: SeenView(db, db', now, n, strict))
    && (forall p | p in db.access && p !in db'.access :: p.1 in targets)
    && targets <= db.nodes.Keys
  }

  lemma ContainedIsConfined(db: Db, db': Db, now: string, job: Job, targets: set<int>, strict: bool)
    requires Contained(db, db', now, job, targets)
    ensures Confined(db, db', now, job, targets, strict)
  {
    forall n | n !in targets ensures SeenView(db, db', now, n, strict) { assert SameView(db, db', now, n); }
  }

  lemma SameRosters(db: Db, db': Db, now: string, n: int)
    requires db'.users == db.users && db'.access == db.access
    ensures UsersForNode(db, now, n) == UsersForNode(db', now, n) && Roster(db, now, n) == Roster(db', now, n)
  {
    assert forall u :: u in UsersForNode(db, now, n) <==> u in UsersForNode(db', now, n);
  }

  // ---- Reality targets ----

  /** Writing settings that differ in the target only leaves a row as it is, up to its target. */
  lemma BareKept(cur: Inbound, row: Inbound, settings: Settings)
    requires Kin(cur, row) && row.protocol == "vless-reality" && settings - TARGET_KEYS == row.settings - TARGET_KEYS
    ensures var swapped := cur.(tag := row.tag, protocol := row.protocol, port := row.port, settings := settings);
            Bare(swapped) == Bare(cur) && swapped.node == cur.node
  {
    assert Bare(cur.(sortOrder := 0)) == Bare(row.(sortOrder := 0));
  }

  lemma SniOnly(s: Settings, sni: string)
    ensures WithSni(s, sni) - TARGET_KEYS == s - TARGET_KEYS
  {
  }

  lemma RowSwapped(db: Db, i: int, row: Inbound, now: string, n: int)
    requires i in db.inbounds && Bare(row) == Bare(db.inbounds[i]) && row.node == db.inbounds[i].node
    ensures SeenView(db, db.(inbounds := db.inbounds[i := row]), now, n, false)
  {
    var db' := db.(inbounds := db.inbounds[i := row]);
    SameRosters(db, db', now, n);
    var a, b := Seen(RowsOf(db, n), false), Seen(RowsOf(db', n), false);
    assert forall j :: j in a <==> j in b;
    assert forall j | j in a :: a[j] == b[j];
  }

  /** A Reality switch and its revert change no node, up to the target. */
  lemma {:induction false} SwitchConfined(db: Db, now: string, home: map<int, Inbound>, job: Job, i: int, row: Inbound,
                                          settings: Settings)
    requires Valid(db) && HomeOk(db, home) && job.Retarget? && i in db.inbounds && i in home && Kin(row, home[i])
    requires row.protocol == "vless-reality" && settings - TARGET_KEYS == row.settings - TARGET_KEYS
    ensures var db' := UpdateInbound(db, i, row.tag, row.protocol, row.port, settings).value;
            Confined(db, db', now, job, {}, false)
  {
    var cur := db.inbounds[i];
    assert Kin(cur, row) by { assert Kin(cur, home[i]); }
    BareKept(cur, row, settings);
    var swapped := cur.(tag := row.tag, protocol := row.protocol, port := row.port, settings := settings);
    var db' := UpdateInbound(db, i, row.tag, row.protocol, row.port, settings).value;
    forall n ensures SeenView(db, db', now, n, false) { RowSwapped(db, i, swapped, now, n); }
  }

  lemma ValidAccess(db: Db, u: int, ids: set<int>)
    requires Valid(db) && u in db.users && ids <= db.nodes.Keys
    ensures Valid(SetAccess(db, u, ids)) && AccessOf(SetAccess(db, u, ids), u) == ids
  {}

  lemma ValidPatch(db: Db, u: int, p: Patch)
    requires Valid(db) && u in db.users
    ensures Valid(db.(users := db.users[u := Patched(db.users[u], p)]))
  {}

  lemma CleanAscending(ids: set<int>)
    requires forall i | i in ids :: i > 0
    ensures CleanIds(AscendingIds(ids)) == ids
  {}

  // ---- the first write of each request ----

  /** Editing a user: the union of the old and new nodes when any field of the configuration or
      the list itself was sent, the difference otherwise. */
  lemma {:induction false} UserEditReaches(db: Db, now: string, home: map<int, Inbound>, job: Job, snap: Snap)
    requires Valid(db) && SnapOk(db, home, job, snap) && job.EditUser? && Write(db, job, snap).Wrote?
    ensures var w := Write(db, job, snap); var t := Targets(job, snap, w.after, AccessOf(w.db, job.u));
            Contained(db, w.db, now, job, t) && Covered(w.db, now, home, job, w.undo, t)
  {
    var u, row := job.u, db.users[job.u];
    var w := Write(db, job, snap);
    var db' := w.db;
    var t := Targets(job, snap, w.after, AccessOf(db', u));
    ValidPatch(db, u, job.patch);
    var patched := db.(users := db.users[u := Patched(row, job.patch)]);
    if job.ids.Some? {
      ValidAccess(patched, u, CleanIds(job.ids.value));
    } else {
      assert AccessOf(db', u) == AccessOf(db, u);
    }
    assert AccessOf(db, u) <= db.nodes.Keys by {
      forall n | n in AccessOf(db, u) ensures n in db.nodes { assert (u, n) in db.access; }
    }
    forall n | n !in t
      ensures SameView(db, db', now, n)
    {
      assert (u, n) in db.access <==> n in AccessOf(db, u);
      assert (u, n) in db'.access <==> n in AccessOf(db', u);
      UserView(db, db', now, u, n);
    }
  }

  lemma {:induction false} UserDeletionReaches(db: Db, now: string, home: map<int, Inbound>, job: Job, snap: Snap)
    requires Valid(db) && SnapOk(db, home, job, snap) && job.DeleteUser? && Write(db, job, snap).Wrote?
    ensures var w := Write(db, job, snap); var t := Targets(job, snap, w.after, AccessOf(w.db, job.u));
            Contained(db, w.db, now, job, t) && Covered(w.db, now, home, job, w.undo, t)
  {
  }

  lemma {:induction false} ResetReaches(db: Db, now: string, home: map<int, Inbound>, job: Job, snap: Snap)
    requires Valid(db) && SnapOk(db, home, job, snap) && job.ResetUserTraffic? && Write(db, job, snap).Wrote?
    ensures var w := Write(db, job, snap); var t := Targets(job, snap, w.after, AccessOf(w.db, job.u));
            Contained(db, w.db, now, job, t) && Covered(w.db, now, home, job, w.undo, t)
  {
  }

  lemma {:induction false} AccessChangeReaches(db: Db, now: string, home: map<int, Inbound>, job: Job, snap: Snap)
    requires Valid(db) && SnapOk(db, home, job, snap) && job.ChangeAccess? && Write(db, job, snap).Wrote?
    ensures var w := Write(db, job, snap); var t := Targets(job, snap, w.after, AccessOf(w.db, job.u));
            Contained(db, w.db, now, job, t) && Covered(w.db, now, home, job, w.undo, t)
  {
    var u := job.u;
    var w := Write(db, job, snap);
    var after := AccessAfter(db, u, job.edit).value;
    assert AccessOf(w.db, u) == after;
    assert snap.ids <= db.nodes.Keys && (u !in db.users ==> snap.ids == {}) by {
      forall n | n in snap.ids ensures n in db.nodes && u in db.users { assert (u, n) in db.access; }
    }
    assert after <= db.nodes.Keys && (u !in db.users ==> after == {});
    assert Valid(w.db);
    forall n | n !in Changed(snap.ids, after)
      ensures SameView(db, w.db, now, n)
    {
      assert (u, n) in db.access <==> n in snap.ids;
      UserView(db, w.db, now, u, n);
    }
  }

  lemma {:induction false} InboundWriteReaches(db: Db, now: string, home: map<int, Inbound>, job: Job, snap: Snap)
    requires Valid(db) && HomeOk(db, home) && SnapOk(db, home, job, snap) && UserOf(job).None?
    requires Write(db, job, snap).Wrote?
    ensures var w := Write(db, job, snap); var t := Targets(job, snap, w.after, {});
            var home' := if job.AddInbound? then home[db.nextInbound := NewRow(job)] else home;
            Contained(db, w.db, now, job, t) && Covered(w.db, now, home', job, w.undo, t) && HomeOk(w.db, home')
  {
    var w := Write(db, job, snap);
    var t := Targets(job, snap, w.after, {});
    if job.Reorder? {
      ReorderOnlySorts(db, job.n, job.items);
    }
    forall n | n !in t
      ensures SameView(db, w.db, now, n)
    {
      InboundView(db, w.db, now, n);
    }
  }

  /** Target sets suffice: whatever the request, its write leaves the configuration of every node
      outside the set it pushes to as it was, and so would undoing it. */
  lemma {:induction false} WriteReachesTargets(db: Db, now: string, home: map<int, Inbound>, job: Job, snap: Snap)
    requires Valid(db) && HomeOk(db, home) && SnapOk(db, home, job, snap) && Write(db, job, snap).Wrote?
    ensures var w := Write(db, job, snap); var t := Targets(job, snap, w.after, Access(w.db, job));
            var home' := if job.AddInbound? then home[db.nextInbound := NewRow(job)] else home;
            Contained(db, w.db, now, job, t) && Covered(w.db, now, home', job, w.undo, t) && HomeOk(w.db, home')
  {
    match job
    case EditUser(_, _, _) => UserEditReaches(db, now, home, job, snap);
    case DeleteUser(_) => UserDeletionReaches(db, now, home, job, snap);
    case ResetUserTraffic(_) => ResetReaches(db, now, home, job, snap);
    case ChangeAccess(_, _) => AccessChangeReaches(db, now, home, job, snap);
    case _ => InboundWriteReaches(db, now, home, job, snap);
  }

  // ---- the compensating write ----

  lemma {:induction false} UserRestoreReaches(db: Db, now: string, home: map<int, Inbound>, job: Job, undo: Undo,
                                              targets: set<int>)
    requires Valid(db) && undo.UndoUser? && Covered(db, now, home, job, undo, targets) && Revert(db, undo).Some?
    requires targets <= db.nodes.Keys
    ensures Contained(db, Revert(db, undo).value, now, job, targets)
  {
    var u, db' := undo.u, Revert(db, undo).value;
    CleanAscending(undo.ids);
    ValidPatch(db, u, RestorePatch(undo.row));
    ValidAccess(db.(users := db.users[u := Patched(db.users[u], RestorePatch(undo.row))]), u, undo.ids);
    assert Standing(db'.users[u], now) == Standing(undo.row, now);
    forall n | n !in targets
      ensures SameView(db, db', now, n)
    {
      assert (u, n) in db.access <==> n in AccessOf(db, u);
      UserView(db, db', now, u, n);
    }
    assert forall n | n in AccessOf(db, u) && n !in undo.ids :: n in targets;
    forall p: (int, int) | p in db.access && p !in db'.access ensures p.1 in targets {
      assert p.0 == u && p == (u, p.1);
      var n := p.1;
      assert n in AccessOf(db, u);
      assert AccessOf(db', u) == undo.ids;
      assert n !in AccessOf(db', u);
    }
  }

  lemma {:induction false} TrafficRestoreReaches(db: Db, now: string, home: map<int, Inbound>, job: Job, undo: Undo,
                                                 targets: set<int>)
    requires Valid(db) && undo.UndoTraffic? && Covered(db, now, home, job, undo, targets) && targets <= db.nodes.Keys
    ensures Contained(db, Revert(db, undo).value, now, job, targets)
  {
  }

  lemma {:induction false} AccessRestoreReaches(db: Db, now: string, home: map<int, Inbound>, job: Job, undo: Undo,
                                                targets: set<int>)
    requires Valid(db) && undo.UndoAccess? && Covered(db, now, home, job, undo, targets) && Revert(db, undo).Some?
    requires targets <= db.nodes.Keys
    ensures Contained(db, Revert(db, undo).value, now, job, targets)
  {
    var u, db' := undo.u, Revert(db, undo).value;
    CleanAscending(undo.ids);
    ValidAccess(db, u, undo.ids);
    forall n | n !in targets
      ensures SameView(db, db', now, n)
    {
      assert (u, n) in db.access <==> n in AccessOf(db, u);
      UserView(db, db', now, u, n);
    }
    assert forall n | n in AccessOf(db, u) && n !in undo.ids :: n in targets;
    forall p: (int, int) | p in db.access && p !in db'.access ensures p.1 in targets {
      assert p.0 == u && p == (u, p.1);
      var n := p.1;
      assert n in AccessOf(db, u);
      assert AccessOf(db', u) == undo.ids;
      assert n !in AccessOf(db', u);
    }
  }

  lemma {:induction false} InboundRestoreReaches(db: Db, now: string, home: map<int, Inbound>, job: Job, undo: Undo,
                                                 targets: set<int>)
    requires Valid(db) && HomeOk(db, home) && UserOf(job).None? && Covered(db, now, home, job, undo, targets)
    requires targets <= db.nodes.Keys && Revert(db, undo).Some?
    ensures Contained(db, Revert(db, undo).value, now, job, targets) && HomeOk(Revert(db, undo).value, home)
  {
    var db' := Revert(db, undo).value;
    if undo.UndoReorder? {
      ReorderOnlySorts(db, undo.n, undo.items);
    }
    forall n | n !in targets
      ensures SameView(db, db', now, n)
    {
      InboundView(db, db', now, n);
    }
  }

  lemma {:induction false} RevertReachesTargets(db: Db, now: string, home: map<int, Inbound>, job: Job, undo: Undo,
                                                targets: set<int>)
    requires Valid(db) && HomeOk(db, home) && Covered(db, now, home, job, undo, targets)
    requires targets <= db.nodes.Keys && Revert(db, undo).Some?
    ensures Contained(db, Revert(db, undo).value, now, job, targets) && HomeOk(Revert(db, undo).value, home)
  {
    match undo
    case UndoUser(_, _, _) => UserRestoreReaches(db, now, home, job, undo, targets);
    case UndoTraffic(_, _) => TrafficRestoreReaches(db, now, home, job, undo, targets);
    case UndoAccess(_, _) => AccessRestoreReaches(db, now, home, job, undo, targets);
    case _ => InboundRestoreReaches(db, now, home, job, undo, targets);
  }
}
