/** The server configuration generator (singbox/generator.go, singbox/hysteria.go
    and handler/config.go's generateConfig). A configuration keeps the values the
    source takes from the tables; constant JSON is not kept. */
module Generator {
  import opened Tables

  /** The two fields of a user row that reach a configuration. */
  datatype Credential = Credential(name: string, uuid: string)

  datatype Tls = Tls(serverName: string, certPath: string, keyPath: string)

  datatype ServerInbound =
    | Hysteria2(tag: string, port: int, users: seq<Credential>, tls: Tls, obfsPassword: string)
    | Reality(tag: string, port: int, users: seq<Credential>, serverName: string, privateKey: string,
              shortId: string, handshakeServer: string, handshakePort: int)
    | HttpUpgrade(tag: string, port: int, users: seq<Credential>, host: string, path: string, tls2: Option<Tls>)

  datatype Stats = NoStats | Stats(tags: seq<string>, names: seq<string>)

  datatype Config = Config(stats: Stats, inbounds: seq<ServerInbound>)

  // ---- settings ----

  function HysteriaProfile(s: Settings): string {
    if Text(s, "profile") != "" then Text(s, "profile")
    else if Text(s, "obfs_password") != "" then "salamander"
    else "quic"
  }

  function ObfsPassword(s: Settings): string {
    if HysteriaProfile(s) != "salamander" then "" else Text(s, "obfs_password")
  }

  /** Go's float64-to-int conversion drops the fraction. */
  function Truncated(r: real): int {
    if r >= 0.0 then r.Floor else -((-r).Floor)
  }

  function HandshakePort(s: Settings): int {
    if "handshake_port" in s && s["handshake_port"].Num? then Truncated(s["handshake_port"].r) else 443
  }

  function UpgradePath(s: Settings): string {
    if Text(s, "path") == "" then "/upgrade" else Text(s, "path")
  }

  // ---- inbounds ----

  const KNOWN := {"hysteria2", "vless-reality", "vless-httpupgrade"}

  function DecimalDigit(d: int): char
    requires 0 <= d < 10
  {
    "0123456789"[d]
  }

  function Decimal(n: nat): (s: string)
    ensures s != ""
  {
    if n < 10 then [DecimalDigit(n)] else Decimal(n / 10) + [DecimalDigit(n % 10)]
  }

  function Signed(n: int): string {
    if n < 0 then "-" + Decimal(-n) else Decimal(n)
  }

  function UniqueTag(row: Inbound, used: set<string>): string {
    var base := if row.tag == "" then row.protocol else row.tag;
    if base !in used then base else base + "-" + Signed(row.port)
  }

  function BuildInbound(users: seq<Credential>, row: Inbound, tag: string): ServerInbound
    requires row.protocol in KNOWN
  {
    var s := row.settings;
    if row.protocol == "hysteria2" then
      Hysteria2(tag, row.port, users,
                Tls(Text(s, "domain"), Text(s, "cert_path"), Text(s, "key_path")), ObfsPassword(s))
    else if row.protocol == "vless-reality" then
      Reality(tag, row.port, users, Text(s, "sni"), Text(s, "private_key"), Text(s, "short_id"),
              if Text(s, "handshake_server") == "" then Text(s, "sni") else Text(s, "handshake_server"),
              HandshakePort(s))
    else
      HttpUpgrade(tag, row.port, users, Text(s, "domain"), UpgradePath(s),
                  if Text(s, "cert_path") != "" && Text(s, "key_path") != ""
                  then Some(Tls(Text(s, "domain"), Text(s, "cert_path"), Text(s, "key_path"))) else None)
  }

  /** The inbounds built from `rows`, and the tags taken once they are built. */
  function Build(users: seq<Credential>, rows: seq<Inbound>): (seq<ServerInbound>, set<string>) {
    if rows == [] then ([], {})
    else
      var (built, used) := Build(users, rows[..|rows| - 1]);
      var row := rows[|rows| - 1];
      if !row.enabled then (built, used)
      else
        var tag := UniqueTag(row, used);
        (if row.protocol in KNOWN then built + [BuildInbound(users, row, tag)] else built, used + {tag})
  }

  function Tags(inbounds: seq<ServerInbound>): seq<string> {
    if inbounds == [] then []
    else
      var tag := inbounds[|inbounds| - 1].tag;
      Tags(inbounds[..|inbounds| - 1]) + (if tag != "" then [tag] else [])
  }

  function Names(users: seq<Credential>): seq<string> {
    seq(|users|, i requires 0 <= i < |users| => users[i].name)
  }

  function GenerateConfig(users: seq<Credential>, rows: seq<Inbound>): Config {
    var inbounds := Build(users, rows).0;
    var tags := Tags(inbounds);
    Config(if tags != [] && users != [] then Stats(tags, Names(users)) else NoStats, inbounds)
  }

  /** buildInbounds: one pass over the rows with the set of tags taken so far. */
  method BuildInbounds(users: seq<Credential>, rows: seq<Inbound>) returns (result: seq<ServerInbound>)
    ensures result == Build(users, rows).0
  {
    result := [];
    var usedTags: set<string> := {};
    for k := 0 to |rows|
      invariant (result, usedTags) == Build(users, rows[..k])
    {
      assert rows[..k + 1][..k] == rows[..k];
      var row := rows[k];
      if row.enabled {
        var tag := UniqueTag(row, usedTags);
        usedTags := usedTags + {tag};
        if row.protocol in KNOWN {
          result := result + [BuildInbound(users, row, tag)];
        }
      }
    }
    assert rows[..|rows|] == rows;
  }

  // ---- what a node is given ----

  /** AccessStore.UsersForNode. */
  function UsersForNode(db: Db, now: string, n: int): set<int> {
    set p | p in db.access && p.1 == n && p.0 in db.users && Eligible(db.users[p.0], now) :: p.0
  }

  /** ListEnabled, keeping the users whose id is in `allowed`. */
  function EnabledAmong(db: Db, now: string, allowed: set<int>): map<int, Credential> {
    map u | u in db.users && Listed(db.users[u], now) && u in allowed
      :: Credential(db.users[u].name, db.users[u].uuid)
  }

  function Roster(db: Db, now: string, n: int): map<int, Credential> {
    EnabledAmong(db, now, UsersForNode(db, now, n))
  }

  /** ORDER BY id. */
  function Listing(roster: map<int, Credential>): seq<Credential> {
    var ids := AscendingIds(roster.Keys);
    seq(|ids|, k requires 0 <= k < |ids| => roster[ids[k]])
  }

  function ListRows(rows: map<int, Inbound>): seq<Inbound> {
    var ids := InboundOrder(rows);
    seq(|ids|, k requires 0 <= k < |ids| => rows[ids[k]])
  }

  /** The configuration made from one read of the users and one of the inbounds. */
  function Render(roster: map<int, Credential>, rows: map<int, Inbound>): Config {
    GenerateConfig(Listing(roster), ListRows(rows))
  }

  /** The configuration of node `n` when the three reads see the same tables. */
  function Generated(db: Db, now: string, n: int): Config {
    Render(Roster(db, now, n), RowsOf(db, n))
  }

  /** generateConfig's loops: collect the allowed ids, then keep the enabled users among them. */
  method KeepAllowed(users: seq<int>, table: map<int, User>, allowedIds: seq<int>) returns (kept: seq<Credential>)
    requires forall u | u in users :: u in table
    ensures kept == KeptFrom(users, table, set i | i in allowedIds)
  {
    var allowed: set<int> := {};
    for k := 0 to |allowedIds|
      invariant allowed == set i | i in allowedIds[..k]
    {
      allowed := allowed + {allowedIds[k]};
      assert allowedIds[..k + 1] == allowedIds[..k] + [allowedIds[k]];
    }
    assert allowedIds[..|allowedIds|] == allowedIds;
    kept := [];
    for k := 0 to |users|
      invariant kept == KeptFrom(users[..k], table, allowed)
    {
      assert users[..k + 1][..k] == users[..k] && users[k] in users;
      if users[k] in allowed {
        kept := kept + [Credential(table[users[k]].name, table[users[k]].uuid)];
      }
    }
    assert users[..|users|] == users;
  }

  function KeptFrom(users: seq<int>, table: map<int, User>, allowed: set<int>): seq<Credential>
    requires forall u | u in users :: u in table
  {
    if users == [] then []
    else
      var u := users[|users| - 1];
      KeptFrom(users[..|users| - 1], table, allowed)
      + (if u in allowed then [Credential(table[u].name, table[u].uuid)] else [])
  }

  /** Filtering the ordered list of enabled users is listing the roster. */
  lemma {:induction false} KeepingAllowedIsListing(ids: seq<int>, db: Db, now: string, allowed: set<int>)
    requires ids == AscendingIds(set u | u in db.users && Listed(db.users[u], now))
    ensures KeptFrom(ids, db.users, allowed) == Listing(EnabledAmong(db, now, allowed))
  {
    var s := set u | u in db.users && Listed(db.users[u], now);
    RosterKeys(db, now, allowed, s);
    FilteredAscending(ids, s, allowed);
    KeptIsFiltered(ids, db, now, allowed);
    ListingIs(EnabledAmong(db, now, allowed), Filtered(ids, allowed), KeptFrom(ids, db.users, allowed));
  }

  lemma ListingIs(roster: map<int, Credential>, ids: seq<int>, listed: seq<Credential>)
    requires ids == AscendingIds(roster.Keys) && |listed| == |ids|
    requires forall k | 0 <= k < |ids| :: ids[k] in roster && listed[k] == roster[ids[k]]
    ensures listed == Listing(roster)
  {
  }

  lemma RosterKeys(db: Db, now: string, allowed: set<int>, s: set<int>)
    requires forall u :: u in s <==> u in db.users && Listed(db.users[u], now)
    ensures EnabledAmong(db, now, allowed).Keys == s * allowed
  {
    assert forall u :: u in EnabledAmong(db, now, allowed).Keys <==> u in s * allowed;
  }

  function Filtered(ids: seq<int>, keep: set<int>): (r: seq<int>)
    ensures forall x :: x in r <==> x in ids && x in keep
  {
    if ids == [] then []
    else
      var u := ids[|ids| - 1];
      assert ids == ids[..|ids| - 1] + [u];
      Filtered(ids[..|ids| - 1], keep) + (if u in keep then [u] else [])
  }

  lemma {:induction false} KeptIsFiltered(ids: seq<int>, db: Db, now: string, allowed: set<int>)
    requires forall u | u in ids :: u in db.users && Listed(db.users[u], now)
    ensures forall u | u in Filtered(ids, allowed) :: u in EnabledAmong(db, now, allowed)
    ensures |KeptFrom(ids, db.users, allowed)| == |Filtered(ids, allowed)|
    ensures forall k | 0 <= k < |Filtered(ids, allowed)| ::
              Filtered(ids, allowed)[k] in EnabledAmong(db, now, allowed)
              && KeptFrom(ids, db.users, allowed)[k] == EnabledAmong(db, now, allowed)[Filtered(ids, allowed)[k]]
    decreases |ids|
  {
    if ids != [] {
      var init := ids[..|ids| - 1];
      assert ids == init + [ids[|ids| - 1]];
      KeptIsFiltered(init, db, now, allowed);
    }
  }

  ghost predicate Ascending(ids: seq<int>) {
    forall i, j | 0 <= i < j < |ids| :: ids[i] < ids[j]
  }

  lemma {:induction false} FilteredAscending(ids: seq<int>, s: set<int>, keep: set<int>)
    requires ids == AscendingIds(s)
    ensures Filtered(ids, keep) == AscendingIds(s * keep)
  {
    FilterKeepsOrder(ids, keep);
    SameAscending(Filtered(ids, keep), AscendingIds(s * keep));
  }

  lemma {:induction false} FilterKeepsOrder(ids: seq<int>, keep: set<int>)
    requires Ascending(ids)
    ensures Ascending(Filtered(ids, keep))
    decreases |ids|
  {
    if ids != [] {
      var init := ids[..|ids| - 1];
      FilterKeepsOrder(init, keep);
      var f := Filtered(init, keep);
      forall k | 0 <= k < |f| ensures f[k] < ids[|ids| - 1] { assert f[k] in init; }
    }
  }

  /** A set has one ascending listing. */
  lemma {:induction false} SameAscending(a: seq<int>, b: seq<int>)
    requires Ascending(a) && Ascending(b) && forall x :: x in a <==> x in b
    ensures a == b
    decreases |a|
  {
    if a == [] {
      assert forall k | 0 <= k < |b| :: b[k] in b;
    } else {
      assert a[0] in a && a[0] in b;
      assert b[0] in b && b[0] in a;
      assert a[0] == b[0];
      forall x ensures x in a[1..] <==> x in b[1..] {
        assert x in a[1..] <==> x in a && x != a[0] by { assert a == [a[0]] + a[1..]; }
        assert x in b[1..] <==> x in b && x != b[0] by { assert b == [b[0]] + b[1..]; }
      }
      SameAscending(a[1..], b[1..]);
      assert a == [a[0]] + a[1..] && b == [b[0]] + b[1..];
    }
  }

  // ---- the credentials a configuration carries ----

  function Uuids(c: Config): set<string> {
    set k, j | 0 <= k < |c.inbounds| && 0 <= j < |c.inbounds[k].users| :: c.inbounds[k].users[j].uuid
  }

  /** A configuration carries no credential that was not in the roster it was made from. */
  lemma {:induction false} RenderCarriesRoster(roster: map<int, Credential>, rows: map<int, Inbound>, uuid: string)
    requires uuid in Uuids(Render(roster, rows))
    ensures exists u :: u in roster && roster[u].uuid == uuid
  {
    var users := Listing(roster);
    var built := Build(users, ListRows(rows)).0;
    BuiltUsers(users, ListRows(rows));
    var k, j :| 0 <= k < |built| && 0 <= j < |built[k].users| && built[k].users[j].uuid == uuid;
    var ids := AscendingIds(roster.Keys);
    assert built[k].users == users;
    assert users[j] == roster[ids[j]] && ids[j] in ids;
    assert ids[j] in roster.Keys;
  }

  lemma {:induction false} BuiltUsers(users: seq<Credential>, rows: seq<Inbound>)
    ensures forall k | 0 <= k < |Build(users, rows).0| :: Build(users, rows).0[k].users == users
    decreases |rows|
  {
    if rows != [] {
      BuiltUsers(users, rows[..|rows| - 1]);
    }
  }

  /** No inbound rows, no inbounds. */
  lemma NoRowsNoInbounds(db: Db, now: string, n: int)
    requires RowsOf(db, n) == map[]
    ensures Generated(db, now, n).inbounds == []
  {
  }
}
