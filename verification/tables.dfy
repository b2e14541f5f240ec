/** The panel's tables and the statements that change them (model/user.go,
    model/access.go, model/node.go). A table is a map from row id to row; the
    user_access table is a set of (user, node) pairs, because nothing reads its
    row ids. A statement or transaction that the database refuses is `None`, and
    then changes nothing. */
module Tables {

  datatype Option<+T> = None | Some(value: T)

  /** The values a settings object can hold, as encoding/json decodes them. */
  datatype Json = Str(s: string) | Num(r: real) | Other(raw: string)

  type Settings = map<string, Json>

  /** `v, _ := s[key].(string)`: the string under `key`, or "". */
  function Text(s: Settings, key: string): string {
    if key in s && s[key].Str? then s[key].s else ""
  }

  datatype User = User(name: string, uuid: string, enabled: bool, limit: int, used: int, up: int, down: int,
                       resetDay: int, lastReset: string, note: string, expireAt: string)

  datatype Node = Node(name: string, host: string, domain: string, proxyType: string, enabled: bool, sortOrder: int)

  datatype Inbound = Inbound(node: int, tag: string, protocol: string, port: int, settings: Settings,
                             enabled: bool, sortOrder: int)

  datatype Db = Db(users: map<int, User>, nodes: map<int, Node>, access: set<(int, int)>,
                   inbounds: map<int, Inbound>, nextInbound: int)

  /** What the schema and the handlers keep true of the tables: ids are positive,
      access rows refer to rows that exist, inbound ids come from a counter. */
  ghost predicate Valid(db: Db) {
    && (forall n | n in db.nodes :: n > 0)
    && (forall p | p in db.access :: p.0 in db.users && p.1 in db.nodes)
    && (forall i | i in db.inbounds :: 0 < i < db.nextInbound && db.inbounds[i].node in db.nodes)
    && 0 < db.nextInbound
  }

  /** Byte-wise text order, as SQLite and Go compare timestamps. */
  predicate Before(a: string, b: string) {
    b != "" && (a == "" || a[0] < b[0] || (a[0] == b[0] && Before(a[1..], b[1..])))
  }

  lemma {:induction false} BeforeIsTotal(a: string, b: string)
    ensures Before(a, b) || a == b || Before(b, a)
    ensures !(Before(a, b) && (a == b || Before(b, a)))
  {
    if a != "" && b != "" && a[0] == b[0] {
      BeforeIsTotal(a[1..], b[1..]);
      assert a == [a[0]] + a[1..] && b == [b[0]] + b[1..];
    }
  }

  /** The WHERE clause of UserStore.ListEnabled. */
  predicate Listed(u: User, now: string) {
    u.enabled && (u.expireAt == "" || Before(now, u.expireAt))
  }

  /** The WHERE clause of AccessStore.UsersForNode. */
  predicate Eligible(u: User, now: string) {
    Listed(u, now) && (u.limit == 0 || u.used < u.limit)
  }

  // ---- ordered reads ----

  function AscendingIds(s: set<int>): (ids: seq<int>)
    ensures forall x :: x in ids <==> x in s
    ensures forall i, j | 0 <= i < j < |ids| :: ids[i] < ids[j]
  {
    if s == {} then [] else
      LeastExists(s);
      var m :| Least(s, m);
      [m] + AscendingIds(s - {m})
  }

  predicate Least(s: set<int>, m: int) { m in s && forall x | x in s :: m <= x }

  lemma Inhabited(s: set<int>)
    requires s != {}
    ensures exists x :: x in s
  {
    if forall x :: x !in s { assert false; }
  }

  lemma {:induction false} LeastExists(s: set<int>)
    requires s != {}
    ensures exists m :: Least(s, m)
  {
    Inhabited(s);
    var a :| a in s;
    if s != {a} {
      LeastExists(s - {a});
      var b :| Least(s - {a}, b);
      var m := if a <= b then a else b;
      forall x | x in s ensures m <= x { if x != a { assert x in s - {a}; } }
      assert Least(s, m);
    } else {
      assert Least(s, a);
    }
  }

  /** ORDER BY sort_order, id. */
  predicate Precedes(rows: map<int, Inbound>, i: int, j: int)
    requires i in rows && j in rows
  {
    rows[i].sortOrder < rows[j].sortOrder || (rows[i].sortOrder == rows[j].sortOrder && i <= j)
  }

  lemma {:induction false} FirstExists(rows: map<int, Inbound>, s: set<int>)
    requires s != {} && s <= rows.Keys
    ensures exists m :: m in s && forall x | x in s :: Precedes(rows, m, x)
  {
    Inhabited(s);
    var a :| a in s;
    if s != {a} {
      FirstExists(rows, s - {a});
      var b :| b in s - {a} && forall x | x in s - {a} :: Precedes(rows, b, x);
      var m := if Precedes(rows, a, b) then a else b;
      forall x | x in s ensures Precedes(rows, m, x) { if x != a { assert x in s - {a}; } }
    } else {
      assert forall x | x in s :: Precedes(rows, a, x);
    }
  }

  /** The ids of `rows` in the order ListInbounds returns them. */
  function InboundOrder(rows: map<int, Inbound>): (ids: seq<int>)
    ensures forall x :: x in ids <==> x in rows
    ensures forall i, j | 0 <= i < j < |ids| :: ids[i] != ids[j] && Precedes(rows, ids[i], ids[j])
  {
    Ordered(rows, rows.Keys)
  }

  function Ordered(rows: map<int, Inbound>, s: set<int>): (ids: seq<int>)
    requires s <= rows.Keys
    ensures forall x :: x in ids <==> x in s
    ensures forall i, j | 0 <= i < j < |ids| :: ids[i] != ids[j] && Precedes(rows, ids[i], ids[j])
    decreases s
  {
    if s == {} then [] else
      FirstExists(rows, s);
      var m :| m in s && forall x | x in s :: Precedes(rows, m, x);
      [m] + Ordered(rows, s - {m})
  }

  function RowsOf(db: Db, n: int): map<int, Inbound> {
    map i | i in db.inbounds && db.inbounds[i].node == n :: db.inbounds[i]
  }

  function AccessOf(db: Db, u: int): (ids: set<int>)
    ensures forall n :: n in ids <==> (u, n) in db.access
  {
    set p | p in db.access && p.0 == u :: p.1
  }

  // ---- user_access ----

  function SetOf(ids: seq<int>): set<int> {
    set i | i in ids
  }

  lemma PrefixSet(ids: seq<int>, k: nat)
    requires k < |ids|
    ensures SetOf(ids[..k + 1]) == SetOf(ids[..k]) + {ids[k]}
  {
  }

  lemma SetOfAscending(s: set<int>)
    ensures SetOf(AscendingIds(s)) == s
  {
  }

  function CleanIds(ids: seq<int>): set<int> {
    set i | i in ids && i > 0
  }

  function SetAccess(db: Db, u: int, ids: set<int>): (r: Db)
    ensures r.users == db.users && r.nodes == db.nodes && r.inbounds == db.inbounds && r.nextInbound == db.nextInbound
    ensures forall p :: p in r.access <==> (if p.0 == u then p.1 in ids else p in db.access)
  {
    var granted := set n | n in ids :: (u, n);
    assert forall n | n in ids :: (u, n) in granted;
    assert forall p: (int, int) | p.0 == u :: p == (u, p.1);
    db.(access := (set p | p in db.access && p.0 != u) + granted)
  }

  datatype AccessEdit = Grant(n: int) | GrantAll | Revoke(n: int) | RevokeAll | Replace(ids: seq<int>)

  /** The nodes user `u` may use after the edit, or None if it is refused. */
  function AccessAfter(db: Db, u: int, e: AccessEdit): Option<set<int>> {
    match e
    case Grant(n) => if u in db.users && n in db.nodes then Some(AccessOf(db, u) + {n}) else None
    case GrantAll => if u in db.users then Some(AccessOf(db, u) + db.nodes.Keys) else None
    case Revoke(n) => Some(AccessOf(db, u) - {n})
    case RevokeAll => Some({})
    case Replace(ids) => if u in db.users && CleanIds(ids) <= db.nodes.Keys then Some(CleanIds(ids)) else None
  }

  function EditAccess(db: Db, u: int, e: AccessEdit): Option<Db> {
    match AccessAfter(db, u, e)
    case None => None
    case Some(ids) => Some(SetAccess(db, u, ids))
  }

  // ---- users ----

  datatype Patch = Patch(name: Option<string>, enabled: Option<bool>, limit: Option<int>, resetDay: Option<int>,
                         expireAt: Option<string>, note: Option<string>)

  function Or<T>(o: Option<T>, d: T): T { if o.Some? then o.value else d }

  function Patched(u: User, p: Patch): User {
    u.(name := Or(p.name, u.name), enabled := Or(p.enabled, u.enabled), limit := Or(p.limit, u.limit),
       resetDay := Or(p.resetDay, u.resetDay), expireAt := Or(p.expireAt, u.expireAt), note := Or(p.note, u.note))
  }

  /** users.name is UNIQUE: another row already has this name. */
  predicate NameTaken(db: Db, u: int, p: Patch) {
    p.name.Some? && exists w :: w in db.users && w != u && db.users[w].name == p.name.value
  }

  function UpdateUser(db: Db, u: int, p: Patch): Option<Db> {
    if u !in db.users || NameTaken(db, u, p) then None
    else Some(db.(users := db.users[u := Patched(db.users[u], p)]))
  }

  function UpdateWithAccess(db: Db, u: int, p: Patch, ids: seq<int>): Option<Db> {
    if u !in db.users || !(CleanIds(ids) <= db.nodes.Keys) || NameTaken(db, u, p) then None
    else Some(SetAccess(db.(users := db.users[u := Patched(db.users[u], p)]), u, CleanIds(ids)))
  }

  function DeleteWithRelatedData(db: Db, u: int): Option<Db> {
    if u !in db.users then None else Some(SetAccess(db, u, {}).(users := db.users - {u}))
  }

  function ResetTraffic(db: Db, u: int): Db {
    if u !in db.users then db else db.(users := db.users[u := db.users[u].(used := 0, up := 0, down := 0)])
  }

  function WithTraffic(row: User, from: User): User {
    row.(used := from.used, up := from.up, down := from.down, lastReset := from.lastReset)
  }

  function RestoreTraffic(db: Db, u: int, before: User): Db {
    if u !in db.users then db else db.(users := db.users[u := WithTraffic(db.users[u], before)])
  }

  /** handler.restoreUser writes every editable field back except the note. */
  function RestorePatch(before: User): Patch {
    Patch(Some(before.name), Some(before.enabled), Some(before.limit), Some(before.resetDay), Some(before.expireAt),
          None)
  }

  function RestoreUser(db: Db, u: int, before: User, ids: set<int>): Option<Db> {
    UpdateWithAccess(db, u, RestorePatch(before), AscendingIds(ids))
  }

  // ---- node_inbounds ----

  /** INSERT without id, enabled or sort_order: those take the schema's defaults. */
  function CreateInbound(db: Db, n: int, tag: string, protocol: string, port: int, settings: Settings): Db {
    db.(inbounds := db.inbounds[db.nextInbound := Inbound(n, tag, protocol, port, settings, true, 0)],
        nextInbound := db.nextInbound + 1)
  }

  function UpdateInbound(db: Db, i: int, tag: string, protocol: string, port: int, settings: Settings): Option<Db> {
    if i !in db.inbounds then None
    else Some(db.(inbounds := db.inbounds[i := db.inbounds[i].(tag := tag, protocol := protocol, port := port,
                                                               settings := settings)]))
  }

  function DeleteInbound(db: Db, i: int): Option<Db> {
    if i !in db.inbounds then None else Some(db.(inbounds := db.inbounds - {i}))
  }

  /** INSERT with the old id: refused while a row has that id. */
  function RestoreInbound(db: Db, i: int, row: Inbound): Option<Db> {
    if i in db.inbounds then None else Some(db.(inbounds := db.inbounds[i := row]))
  }

  datatype ReorderItem = ReorderItem(id: int, sortOrder: int)

  function ReorderInbounds(db: Db, n: int, items: seq<ReorderItem>): Option<Db>
    decreases |items|
  {
    if items == [] then Some(db)
    else
      var it := items[0];
      if it.id !in db.inbounds || db.inbounds[it.id].node != n then None
      else ReorderInbounds(db.(inbounds := db.inbounds[it.id := db.inbounds[it.id].(sortOrder := it.sortOrder)]),
                           n, items[1..])
  }

  /** What ReorderInbounds leaves alone, whatever the items say. */
  lemma {:induction false} ReorderOnlySorts(db: Db, n: int, items: seq<ReorderItem>)
    requires ReorderInbounds(db, n, items).Some?
    ensures var r := ReorderInbounds(db, n, items).value;
            && r.inbounds.Keys == db.inbounds.Keys && r == db.(inbounds := r.inbounds)
            && forall i | i in db.inbounds :: r.inbounds[i] == db.inbounds[i].(sortOrder := r.inbounds[i].sortOrder)
                                              && (db.inbounds[i].node != n ==> r.inbounds[i] == db.inbounds[i])
    decreases |items|
  {
    if items != [] {
      var it := items[0];
      var next := db.(inbounds := db.inbounds[it.id := db.inbounds[it.id].(sortOrder := it.sortOrder)]);
      ReorderOnlySorts(next, n, items[1..]);
    }
  }
}
