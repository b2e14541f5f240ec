/** What each statement of the panel does to the tables, row by row and field by
    field, and exactly when it is refused (model/user.go, model/access.go,
    model/node.go). Each relation holds of one result only, the one computed. */
module Writes {
  import opened Tables
  import opened EditProtocol

  lemma SamePairs(a: set<(int, int)>, b: set<(int, int)>)
    requires forall v, m :: (v, m) in a <==> (v, m) in b
    ensures a == b
  {
    forall p: (int, int) ensures p in a <==> p in b {
      var v, m := p.0, p.1;
      assert p == (v, m);
      assert (v, m) in a <==> (v, m) in b;
    }
  }

  lemma SameUsers(a: map<int, User>, b: map<int, User>)
    requires (forall u :: u in a <==> u in b) && forall u | u in a :: a[u] == b[u]
    ensures a == b
  {
    assert forall u :: u in a <==> u in b;
    assert forall u | u in a :: a[u] == b[u];
  }

  lemma SameInbounds(a: map<int, Inbound>, b: map<int, Inbound>)
    requires (forall i :: i in a <==> i in b) && forall i | i in a :: a[i] == b[i]
    ensures a == b
  {
    assert forall i :: i in a <==> i in b;
    assert forall i | i in a :: a[i] == b[i];
  }

  // ---- user_access ----

  ghost predicate AccessPermitted(db: Db, u: int, e: AccessEdit) {
    match e
    case Grant(n) => u in db.users && n in db.nodes
    case GrantAll => u in db.users
    case Revoke(_) => true
    case RevokeAll => true
    case Replace(ids) => u in db.users && forall m | m in ids && m > 0 :: m in db.nodes
  }

  /** Only the rows of user `u` change, and of those only the ones the edit names. */
  ghost predicate AccessEdited(before: Db, after: Db, u: int, e: AccessEdit) {
    && after == before.(access := after.access)
    && forall v, m :: (v, m) in after.access <==>
         if v != u then (v, m) in before.access
         else
           match e
           case Grant(n) => (u, m) in before.access || m == n
           case GrantAll => (u, m) in before.access || m in before.nodes
           case Revoke(n) => (u, m) in before.access && m != n
           case RevokeAll => false
           case Replace(ids) => m > 0 && m in ids
  }

  lemma {:induction false} AccessEditIs(db: Db, u: int, e: AccessEdit, r: Db)
    ensures EditAccess(db, u, e) == Some(r) <==> AccessPermitted(db, u, e) && AccessEdited(db, r, u, e)
    ensures EditAccess(db, u, e) == None <==> !AccessPermitted(db, u, e)
  {
    if AccessPermitted(db, u, e) {
      var w := EditAccess(db, u, e).value;
      assert AccessEdited(db, w, u, e);
      if AccessEdited(db, r, u, e) {
        SamePairs(r.access, w.access);
      }
    }
  }

  /** The nodes whose configuration the edit concerns: those the user gains or loses. */
  ghost function Moved(db: Db, u: int, e: AccessEdit): set<int> {
    var had := set p | p in db.access && p.0 == u :: p.1;
    match e
    case Grant(n) => {n} - had
    case GrantAll => (set n | n in db.nodes) - had
    case Revoke(n) => had * {n}
    case RevokeAll => had
    case Replace(ids) => var list := set m | m in ids && m > 0; (had - list) + (list - had)
  }

  lemma MovedIs(db: Db, u: int, e: AccessEdit)
    requires EditAccess(db, u, e).Some?
    ensures Moved(db, u, e) == Changed(AccessOf(db, u), AccessOf(EditAccess(db, u, e).value, u))
  {
    var had := set p | p in db.access && p.0 == u :: p.1;
    assert had == AccessOf(db, u);
    AccessEditIs(db, u, e, EditAccess(db, u, e).value);
    var r := EditAccess(db, u, e).value;
    forall m ensures m in Moved(db, u, e) <==> (m in AccessOf(db, u)) != (m in AccessOf(r, u)) {
      assert (u, m) in r.access <==> m in AccessOf(r, u);
      assert (u, m) in db.access <==> m in had;
    }
  }

  // ---- users ----

  ghost predicate EditPermitted(db: Db, u: int, p: Patch, wanted: Option<seq<int>>) {
    && u in db.users
    && (p.name.Some? ==> forall w | w in db.users && w != u :: db.users[w].name != p.name.value)
    && (wanted.Some? ==> forall m | m in wanted.value && m > 0 :: m in db.nodes)
  }

  /** Each field that was sent is stored, every other one is as it was; the access list is replaced if
      one was sent. */
  ghost predicate UserEdited(before: Db, after: Db, u: int, p: Patch, wanted: Option<seq<int>>) {
    && u in before.users && after.users.Keys == before.users.Keys
    && after == before.(users := after.users, access := after.access)
    && (forall v | v in before.users && v != u :: after.users[v] == before.users[v])
    && (var old', new' := before.users[u], after.users[u];
        && new'.name == (if p.name.Some? then p.name.value else old'.name)
        && new'.enabled == (if p.enabled.Some? then p.enabled.value else old'.enabled)
        && new'.limit == (if p.limit.Some? then p.limit.value else old'.limit)
        && new'.resetDay == (if p.resetDay.Some? then p.resetDay.value else old'.resetDay)
        && new'.expireAt == (if p.expireAt.Some? then p.expireAt.value else old'.expireAt)
        && new'.note == (if p.note.Some? then p.note.value else old'.note)
        && new'.uuid == old'.uuid && new'.lastReset == old'.lastReset
        && new'.used == old'.used && new'.up == old'.up && new'.down == old'.down)
    && forall v, m :: (v, m) in after.access <==>
         if v == u && wanted.Some? then m > 0 && m in wanted.value else (v, m) in before.access
  }

  /** The nodes whose configuration the edit concerns: all of the user's when a list is sent, or a field
      that a configuration is made from takes another value; and none otherwise. */
  ghost function EditedOn(db: Db, u: int, p: Patch, wanted: Option<seq<int>>): set<int>
    requires u in db.users
  {
    var had, row := set q | q in db.access && q.0 == u :: q.1, db.users[u];
    if wanted.Some? then had + set m | m in wanted.value && m > 0
    else if || (p.name.Some? && p.name.value != row.name) || (p.enabled.Some? && p.enabled.value != row.enabled)
            || (p.limit.Some? && p.limit.value != row.limit) || (p.expireAt.Some? && p.expireAt.value != row.expireAt)
    then had
    else {}
  }

  lemma EditedOnIs(db: Db, u: int, p: Patch, wanted: Option<seq<int>>)
    requires u in db.users && Edited(db, u, p, wanted).Some?
    ensures var r := Edited(db, u, p, wanted).value;
            EditedOn(db, u, p, wanted)
            == Targets(EditUser(u, p, wanted), UserSnap(db.users[u], AccessOf(db, u)), Some(r.users[u]), AccessOf(r, u))
  {
    var r := Edited(db, u, p, wanted).value;
    var had := set q | q in db.access && q.0 == u :: q.1;
    assert had == AccessOf(db, u);
    assert AccessOf(r, u) == if wanted.Some? then CleanIds(wanted.value) else AccessOf(db, u);
  }

  function Edited(db: Db, u: int, p: Patch, wanted: Option<seq<int>>): Option<Db> {
    if wanted.Some? then UpdateWithAccess(db, u, p, wanted.value) else UpdateUser(db, u, p)
  }

  lemma {:induction false} UserEditIs(db: Db, u: int, p: Patch, wanted: Option<seq<int>>, r: Db)
    ensures Edited(db, u, p, wanted) == Some(r) <==> EditPermitted(db, u, p, wanted) && UserEdited(db, r, u, p, wanted)
    ensures Edited(db, u, p, wanted) == None <==> !EditPermitted(db, u, p, wanted)
  {
    if EditPermitted(db, u, p, wanted) {
      var w := Edited(db, u, p, wanted).value;
      UserEditDone(db, w, u, p, wanted);
      if UserEdited(db, r, u, p, wanted) {
        SameUsers(r.users, w.users);
        SamePairs(r.access, w.access);
      }
    }
  }

  lemma UserEditDone(db: Db, w: Db, u: int, p: Patch, wanted: Option<seq<int>>)
    requires Edited(db, u, p, wanted) == Some(w)
    ensures UserEdited(db, w, u, p, wanted)
  {
  }

  ghost predicate UserRemoved(before: Db, after: Db, u: int) {
    && after == before.(users := after.users, access := after.access)
    && (forall v :: v in after.users <==> v in before.users && v != u)
    && (forall v | v in after.users :: after.users[v] == before.users[v])
    && forall v, m :: (v, m) in after.access <==> (v, m) in before.access && v != u
  }

  lemma {:induction false} UserRemovalIs(db: Db, u: int, r: Db)
    ensures DeleteWithRelatedData(db, u) == Some(r) <==> u in db.users && UserRemoved(db, r, u)
  {
    if u in db.users && UserRemoved(db, r, u) {
      var w := DeleteWithRelatedData(db, u).value;
      SameUsers(r.users, w.users);
      SamePairs(r.access, w.access);
    }
  }

  ghost predicate CountersCleared(before: Db, after: Db, u: int) {
    && after == before.(users := after.users) && after.users.Keys == before.users.Keys
    && forall v | v in before.users ::
         var old', new' := before.users[v], after.users[v];
         if v != u then new' == old'
         else
           && new'.used == 0 && new'.up == 0 && new'.down == 0
           && new' == old'.(used := new'.used, up := new'.up, down := new'.down)
  }

  lemma ResetIs(db: Db, u: int, r: Db)
    ensures r == ResetTraffic(db, u) <==> CountersCleared(db, r, u)
  {
    if CountersCleared(db, r, u) { SameUsers(r.users, ResetTraffic(db, u).users); }
  }

  /** The three counters and the day of the last reset are those of `row` again. */
  ghost predicate TrafficRestored(before: Db, after: Db, u: int, row: User) {
    && after == before.(users := after.users) && after.users.Keys == before.users.Keys
    && forall v | v in before.users ::
         var old', new' := before.users[v], after.users[v];
         if v != u then new' == old'
         else
           && new'.used == row.used && new'.up == row.up && new'.down == row.down && new'.lastReset == row.lastReset
           && new' == old'.(used := new'.used, up := new'.up, down := new'.down, lastReset := new'.lastReset)
  }

  lemma RestoreIs(db: Db, u: int, row: User, r: Db)
    ensures r == RestoreTraffic(db, u, row) <==> TrafficRestored(db, r, u, row)
  {
    if TrafficRestored(db, r, u, row) { SameUsers(r.users, RestoreTraffic(db, u, row).users); }
  }

  // ---- node_inbounds ----

  ghost predicate InboundAdded(before: Db, after: Db, n: int, tag: string, protocol: string, port: int,
                               settings: Settings) {
    && after == before.(inbounds := after.inbounds, nextInbound := after.nextInbound)
    && after.nextInbound == before.nextInbound + 1
    && (forall i :: i in after.inbounds <==> i in before.inbounds || i == before.nextInbound)
    && (forall i | i in before.inbounds && i != before.nextInbound :: after.inbounds[i] == before.inbounds[i])
    && (var row := after.inbounds[before.nextInbound];
        && row.node == n && row.tag == tag && row.protocol == protocol && row.port == port
        && row.settings == settings && row.enabled && row.sortOrder == 0)
  }

  lemma AdditionIs(db: Db, n: int, tag: string, protocol: string, port: int, settings: Settings, r: Db)
    ensures r == CreateInbound(db, n, tag, protocol, port, settings)
            <==> InboundAdded(db, r, n, tag, protocol, port, settings)
  {
    if InboundAdded(db, r, n, tag, protocol, port, settings) {
      SameInbounds(r.inbounds, CreateInbound(db, n, tag, protocol, port, settings).inbounds);
    }
  }

  ghost predicate InboundRemoved(before: Db, after: Db, i: int) {
    && after == before.(inbounds := after.inbounds)
    && (forall j :: j in after.inbounds <==> j in before.inbounds && j != i)
    && forall j | j in after.inbounds :: after.inbounds[j] == before.inbounds[j]
  }

  lemma RemovalIs(db: Db, i: int, r: Db)
    ensures DeleteInbound(db, i) == Some(r) <==> i in db.inbounds && InboundRemoved(db, r, i)
  {
    if i in db.inbounds && InboundRemoved(db, r, i) { SameInbounds(r.inbounds, db.inbounds - {i}); }
  }

  /** Exactly the two target settings are rewritten. */
  ghost predicate TargetSwitched(before: Db, after: Db, i: int, sni: string) {
    && i in before.inbounds && after == before.(inbounds := after.inbounds)
    && after.inbounds.Keys == before.inbounds.Keys
    && (forall j | j in before.inbounds && j != i :: after.inbounds[j] == before.inbounds[j])
    && (var s, t := before.inbounds[i].settings, after.inbounds[i].settings;
        && after.inbounds[i] == before.inbounds[i].(settings := t)
        && "sni" in t && t["sni"] == Str(sni) && "handshake_server" in t && t["handshake_server"] == Str(sni)
        && forall key | key != "sni" && key != "handshake_server" ::
             (key in t <==> key in s) && (key in s ==> t[key] == s[key]))
  }

  lemma SwitchIs(db: Db, i: int, sni: string, r: Db)
    requires i in db.inbounds
    ensures var row := db.inbounds[i];
            UpdateInbound(db, i, row.tag, row.protocol, row.port, WithSni(row.settings, sni)) == Some(r)
            <==> TargetSwitched(db, r, i, sni)
  {
    var row := db.inbounds[i];
    var w := UpdateInbound(db, i, row.tag, row.protocol, row.port, WithSni(row.settings, sni)).value;
    if TargetSwitched(db, r, i, sni) {
      var t, t' := r.inbounds[i].settings, w.inbounds[i].settings;
      assert forall key :: key in t <==> key in t';
      assert forall key | key in t :: t[key] == t'[key];
      assert t == t';
      SameInbounds(r.inbounds, w.inbounds);
    }
  }

  ghost predicate ReorderPermitted(db: Db, n: int, items: seq<ReorderItem>) {
    forall k | 0 <= k < |items| :: items[k].id in db.inbounds && db.inbounds[items[k].id].node == n
  }

  /** The k-th item is the last one about its row. */
  ghost predicate LastAbout(items: seq<ReorderItem>, k: int) {
    0 <= k < |items| && forall l | k < l < |items| :: items[l].id != items[k].id
  }

  /** Each row that is named has the order its last item gives it; nothing else changes. */
  ghost predicate Reordered(before: Db, after: Db, items: seq<ReorderItem>) {
    && after == before.(inbounds := after.inbounds) && after.inbounds.Keys == before.inbounds.Keys
    && (forall i | i in before.inbounds :: after.inbounds[i].(sortOrder := 0) == before.inbounds[i].(sortOrder := 0))
    && (forall k | LastAbout(items, k) && items[k].id in after.inbounds ::
          after.inbounds[items[k].id].sortOrder == items[k].sortOrder)
    && (forall i | i in before.inbounds && (forall k | 0 <= k < |items| :: items[k].id != i) ::
          after.inbounds[i] == before.inbounds[i])
  }

  lemma {:induction false} ReorderingIs(db: Db, n: int, items: seq<ReorderItem>)
    ensures ReorderInbounds(db, n, items).Some? <==> ReorderPermitted(db, n, items)
    ensures ReorderPermitted(db, n, items) ==> Reordered(db, ReorderInbounds(db, n, items).value, items)
    decreases |items|
  {
    if items != [] {
      var it, rest := items[0], items[1..];
      if it.id in db.inbounds && db.inbounds[it.id].node == n {
        var next := db.(inbounds := db.inbounds[it.id := db.inbounds[it.id].(sortOrder := it.sortOrder)]);
        ReorderingIs(next, n, rest);
        assert ReorderPermitted(next, n, rest) <==> ReorderPermitted(db, n, items) by {
          assert forall k | 1 <= k < |items| :: items[k] == rest[k - 1];
          assert forall k | 0 <= k < |rest| :: rest[k] == items[k + 1];
        }
        if ReorderPermitted(next, n, rest) { FirstReordered(db, next, ReorderInbounds(next, n, rest).value, items); }
      } else {
        assert !ReorderPermitted(db, n, items);
      }
    }
  }

  lemma FirstReordered(db: Db, next: Db, after: Db, items: seq<ReorderItem>)
    requires items != [] && items[0].id in db.inbounds
    requires next == db.(inbounds := db.inbounds[items[0].id :=
                                       db.inbounds[items[0].id].(sortOrder := items[0].sortOrder)])
    requires Reordered(next, after, items[1..])
    ensures Reordered(db, after, items)
  {
    var it, rest := items[0], items[1..];
    assert forall k | 0 <= k < |rest| :: rest[k] == items[k + 1];
    forall k | LastAbout(items, k) && items[k].id in after.inbounds
      ensures after.inbounds[items[k].id].sortOrder == items[k].sortOrder
    {
      if k > 0 {
        assert LastAbout(rest, k - 1);
      } else {
        assert forall l | 0 <= l < |rest| :: rest[l].id != it.id;
        assert after.inbounds[it.id] == next.inbounds[it.id];
      }
    }
    forall i | i in db.inbounds && (forall k | 0 <= k < |items| :: items[k].id != i)
      ensures after.inbounds[i] == db.inbounds[i]
    {
      assert items[0].id != i;
      assert forall k | 0 <= k < |rest| :: rest[k].id != i;
      assert next.inbounds[i] == db.inbounds[i];
    }
  }
}
