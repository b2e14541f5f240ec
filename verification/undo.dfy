/** "Rolled back" means the tables are as they were (handler/user.go:127-139,
    168-193, 227-239, handler/auth.go:387-402, handler/node.go:247-302, 353-379). */
module Rollback {
  import opened Tables
  import opened Generator
  import opened EditProtocol

  /** users.name is UNIQUE. */
  ghost predicate NamesUnique(db: Db) {
    forall v, w | v in db.users && w in db.users && db.users[v].name == db.users[w].name :: v == w
  }

  /** The snapshot a handler takes when nothing runs between its reads and its write. */
  ghost predicate Taken(db: Db, job: Job, snap: Snap) {
    match (job, snap)
    case (ChangeAccess(u, _), AccessSnap(ids)) => ids == AccessOf(db, u)
    case (_, UserSnap(row, ids)) =>
      (job.EditUser? || job.DeleteUser? || job.ResetUserTraffic?)
      && job.u in db.users && db.users[job.u] == row && ids == AccessOf(db, job.u)
    case (_, _) => Snapshot(db, job, snap)
  }

  /** The tables before the request, but for the note of an edited user and the id counter. */
  function Restored(db: Db, after: Db, job: Job): Db
    requires job.EditUser? ==> job.u in db.users && job.u in after.users
  {
    match job
    case EditUser(u, _, _) => db.(users := db.users[u := db.users[u].(note := after.users[u].note)])
    case AddInbound(_, _, _, _, _) => db.(nextInbound := after.nextInbound)
    case _ => db
  }

  lemma {:induction false} SetAccessBack(db: Db, u: int, ids: set<int>)
    ensures SetAccess(SetAccess(db, u, ids), u, AccessOf(db, u)) == db
  {
  }

  lemma CleanAccess(db: Db, u: int)
    requires Valid(db)
    ensures CleanIds(AscendingIds(AccessOf(db, u))) == AccessOf(db, u) <= db.nodes.Keys
    ensures AccessOf(db, u) != {} ==> u in db.users
  {
  }

  lemma {:induction false} UserRestored(db: Db, u: int, edited: User, ids: set<int>)
    requires Valid(db) && NamesUnique(db) && u in db.users
    requires edited == Patched(db.users[u], Patch(Some(edited.name), Some(edited.enabled), Some(edited.limit),
                                                  Some(edited.resetDay), Some(edited.expireAt), Some(edited.note)))
    ensures var db' := SetAccess(db.(users := db.users[u := edited]), u, ids);
            RestoreUser(db', u, db.users[u], AccessOf(db, u))
            == Some(db.(users := db.users[u := db.users[u].(note := edited.note)]))
  {
    var mid := db.(users := db.users[u := edited]);
    var db' := SetAccess(mid, u, ids);
    CleanAccess(db, u);
    assert !NameTaken(db', u, RestorePatch(db.users[u]));
    assert AccessOf(mid, u) == AccessOf(db, u);
    SetAccessBack(mid, u, ids);
    var restored := Patched(edited, RestorePatch(db.users[u]));
    var back := SetAccess(db'.(users := db'.users[u := restored]), u, AccessOf(db, u));
    assert back.access == SetAccess(db', u, AccessOf(mid, u)).access;
    var row := db.users[u].(note := edited.note);
    assert Patched(edited, RestorePatch(db.users[u])) == row;
    assert back.users == db.users[u := row];
  }

  // ---- reordering ----

  function ItemsOf(rows: map<int, Inbound>, ids: seq<int>): seq<ReorderItem>
    requires forall k | 0 <= k < |ids| :: ids[k] in rows
  {
    seq(|ids|, k requires 0 <= k < |ids| => ReorderItem(ids[k], rows[ids[k]].sortOrder))
  }

  /** Writing the old orders of `ids` back to rows that differ from `base` only in their order. */
  lemma {:induction false} OrdersRestored(db: Db, base: Db, n: int, ids: seq<int>)
    requires db.inbounds.Keys == base.inbounds.Keys && db == base.(inbounds := db.inbounds)
    requires forall k | 0 <= k < |ids| :: ids[k] in base.inbounds && base.inbounds[ids[k]].node == n
    requires forall i | i in db.inbounds :: db.inbounds[i] == base.inbounds[i].(sortOrder := db.inbounds[i].sortOrder)
    requires forall i | i in db.inbounds && db.inbounds[i] != base.inbounds[i] :: i in ids
    ensures ReorderInbounds(db, n, ItemsOf(base.inbounds, ids)) == Some(base)
    decreases |ids|
  {
    var items := ItemsOf(base.inbounds, ids);
    if ids == [] {
      assert forall i | i in db.inbounds :: db.inbounds[i] == base.inbounds[i];
      assert db.inbounds == base.inbounds;
    } else {
      var it := items[0];
      var next := db.(inbounds := db.inbounds[it.id := db.inbounds[it.id].(sortOrder := it.sortOrder)]);
      assert ids == [ids[0]] + ids[1..];
      OrdersRestored(next, base, n, ids[1..]);
      assert items[1..] == ItemsOf(base.inbounds, ids[1..]);
    }
  }

  lemma {:induction false} ReorderRestored(db: Db, job: Job, snap: Snap)
    requires job.Reorder? && Snapshot(db, job, snap) && Write(db, job, snap).Wrote?
    ensures Revert(Write(db, job, snap).db, Write(db, job, snap).undo) == Some(db)
  {
    var n := job.n;
    var ids := InboundOrder(RowsOf(db, n));
    forall k | 0 <= k < |ids| ensures ids[k] in RowsOf(db, n) { assert ids[k] in ids; }
    ReorderOnlySorts(db, n, job.items);
    OrdersRestored(Write(db, job, snap).db, db, n, ids);
    assert snap.items == ItemsOf(db.inbounds, ids);
  }

  /** Run with nothing in between, a write and its compensation leave the tables as they were. */
  lemma {:induction false} RevertUndoesWrite(db: Db, job: Job, snap: Snap)
    requires Valid(db) && NamesUnique(db) && Taken(db, job, snap) && Write(db, job, snap).Wrote?
    requires job.ChangeAccess? ==> job.u in db.users
    ensures var w := Write(db, job, snap); Revert(w.db, w.undo) == Some(Restored(db, w.db, job))
  {
    match job
    case EditUser(_, _, _) => EditRestored(db, job, snap);
    case DeleteUser(u) =>
      UserRestored(db, u, Patched(db.users[u], DISABLE), {});
      assert CleanIds([]) == {};
      assert db.users[u := db.users[u].(note := db.users[u].note)] == db.users;
    case ResetUserTraffic(u) =>
      assert ResetTraffic(db, u).users[u := db.users[u]] == db.users;
    case ChangeAccess(u, edit) =>
      CleanAccess(db, u);
      SetAccessBack(db, u, AccessAfter(db, u, edit).value);
    case Reorder(_, _) => ReorderRestored(db, job, snap);
    case _ => InboundRestored(db, job, snap);
  }

  lemma {:induction false} EditRestored(db: Db, job: Job, snap: Snap)
    requires Valid(db) && NamesUnique(db) && job.EditUser? && Taken(db, job, snap) && Write(db, job, snap).Wrote?
    ensures var w := Write(db, job, snap); Revert(w.db, w.undo) == Some(Restored(db, w.db, job))
  {
    var u := job.u;
    var edited := Patched(db.users[u], job.patch);
    if job.ids.Some? {
      UserRestored(db, u, edited, CleanIds(job.ids.value));
    } else {
      UserRestored(db, u, edited, AccessOf(db, u));
      var mid := db.(users := db.users[u := edited]);
      SameAccess(mid, u);
      assert AccessOf(mid, u) == AccessOf(db, u);
    }
  }

  lemma {:induction false} InboundRestored(db: Db, job: Job, snap: Snap)
    requires Valid(db) && Taken(db, job, snap) && Write(db, job, snap).Wrote?
    requires job.AddInbound? || job.RemoveInbound? || job.Retarget?
    ensures var w := Write(db, job, snap); Revert(w.db, w.undo) == Some(Restored(db, w.db, job))
  {
    var w := Write(db, job, snap);
    match job
    case AddInbound(_, _, _, _, _) => assert w.db.inbounds - {db.nextInbound} == db.inbounds;
    case RemoveInbound(i) => assert w.db.inbounds[i := db.inbounds[i]] == db.inbounds;
    case Retarget(_, _) => assert w.db.inbounds[snap.i := snap.inbound] == db.inbounds;
  }

  lemma {:induction false} SameAccess(db: Db, u: int)
    ensures SetAccess(db, u, AccessOf(db, u)) == db
  {
  }

  /** The note of the edited user is the one thing an edit's rollback can lose. */
  lemma EditRollbackExact(db: Db, job: Job, snap: Snap)
    requires Valid(db) && NamesUnique(db) && job.EditUser? && Taken(db, job, snap) && Write(db, job, snap).Wrote?
    ensures var w := Write(db, job, snap);
            Revert(w.db, w.undo) == Some(db) <==> (job.patch.note.None? || job.patch.note.value == db.users[job.u].note)
  {
    RevertUndoesWrite(db, job, snap);
    var w := Write(db, job, snap);
    var back := Restored(db, w.db, job);
    assert back.users[job.u].note == Or(job.patch.note, db.users[job.u].note);
    if back.users[job.u].note == db.users[job.u].note { assert back.users == db.users; }
  }
}
