/** Subscriptions against server configurations (handler/subscription.go, IsActive
    in model/user.go): what an active user is served, and what the configuration
    generated from the same tables at the same instant accepts. */
module Subscription {
  import opened Tables
  import opened Generator
  import opened Links
  import opened Stores
  import opened Calendar
  import opened MonthlyReset

  predicate IsActive(u: User, now: string) {
    u.enabled && !(u.expireAt != "" && Before(u.expireAt, now)) && !(u.limit > 0 && u.used >= u.limit)
  }

  /** The handler's test and the generator's two queries differ exactly at the expiry second and for
      a negative limit that has been used up. */
  lemma ActiveButNotEligible(u: User, now: string)
    ensures Eligible(u, now) ==> IsActive(u, now)
    ensures IsActive(u, now) && !Eligible(u, now) <==>
              && u.enabled && (u.expireAt == "" || !Before(u.expireAt, now)) && (u.limit <= 0 || u.used < u.limit)
              && ((u.expireAt != "" && u.expireAt == now) || (u.limit < 0 && u.used >= u.limit))
  {
    BeforeIsTotal(u.expireAt, now);
  }

  /** An answer of NodeStore.List: every node once, in some order. */
  ghost predicate Lists(db: Db, listing: seq<int>) {
    && (forall n :: n in listing <==> n in db.nodes)
    && forall i, j | 0 <= i < j < |listing| :: listing[i] != listing[j]
  }

  function ServedNodes(db: Db, u: int, listing: seq<int>): seq<Served>
    requires forall n | n in listing :: n in db.nodes
  {
    if listing == [] then []
    else
      var n := listing[|listing| - 1];
      ServedNodes(db, u, listing[..|listing| - 1])
      + (if db.nodes[n].enabled && n in AccessOf(db, u) then [Served(db.nodes[n], ListRows(RowsOf(db, n)))] else [])
  }

  /** The handler's loops: collect the accessible ids, then keep the enabled nodes among them. */
  method CollectNodes(db: Db, u: int, nodes: seq<int>, accessible: seq<int>) returns (kept: seq<Served>)
    requires (forall n | n in nodes :: n in db.nodes) && accessible == AscendingIds(AccessOf(db, u))
    ensures kept == ServedNodes(db, u, nodes)
  {
    var accessSet: set<int> := {};
    for k := 0 to |accessible|
      invariant accessSet == SetOf(accessible[..k])
    {
      accessSet := accessSet + {accessible[k]};
      PrefixSet(accessible, k);
    }
    assert accessible[..|accessible|] == accessible;
    SetOfAscending(AccessOf(db, u));
    kept := [];
    for k := 0 to |nodes|
      invariant kept == ServedNodes(db, u, nodes[..k])
    {
      assert nodes[..k + 1][..k] == nodes[..k];
      var n := nodes[k];
      if !db.nodes[n].enabled || n !in accessSet { continue; }
      kept := kept + [Served(db.nodes[n], ListRows(RowsOf(db, n)))];
    }
    assert nodes[..|nodes|] == nodes;
  }

  /** GET /sub/{token}, once the token has named user `u`: the monthly reset comes first. */
  method Serve(db: Database, u: int, now: string, today: Date, listing: seq<int>) returns (answer: Option<seq<Served>>)
    requires Clock(today) && Lists(db.State(), listing)
    modifies db
    ensures db.State() == if u in old(db.users)
                          then old(db.State()).(users := old(db.users)[u := Checked(old(db.users)[u], today)])
                          else old(db.State())
    ensures answer.Some? <==>
              && u in db.users && db.users[u].enabled
              && (db.users[u].expireAt == "" || !Before(db.users[u].expireAt, now))
              && (db.users[u].limit <= 0 || db.users[u].used < db.users[u].limit)
    ensures answer.Some? ==> answer.value == ServedNodes(db.State(), u, listing)
  {
    if u !in db.users { return None; }
    var user := CheckTrafficReset(db, u, db.users[u], today);
    assert db.users == old(db.users)[u := user];
    if !IsActive(user, now) { return None; }
    var accessible := db.ListNodeIds(u);
    var nodes := CollectNodes(db.State(), u, listing, accessible);
    answer := Some(nodes);
  }

  // ---- what the server accepts ----

  function Credentials(ib: ServerInbound): set<string> {
    set k | 0 <= k < |ib.users| :: ib.users[k].uuid
  }

  /** A server inbound serves a client that dials the endpoint. `pairs` are the X25519 key pairs,
      private half first. HTTPUpgrade clients reach the node through a CDN under its domain, so only their
      port is free. */
  ghost predicate Admits(ib: ServerInbound, e: Endpoint, pairs: set<(string, string)>) {
    e.credential in Credentials(ib)
    && match ib
       case Hysteria2(_, port, _, tls, obfs) =>
         e.transport.Quic? && e.port == port && e.sni == tls.serverName && e.transport.obfsPassword == obfs
       case Reality(_, port, _, serverName, privateKey, shortId, _, _) =>
         && e.transport.RealityTcp? && e.port == port && e.sni == serverName
         && e.transport.shortId == shortId && (privateKey, e.transport.publicKey) in pairs
       case HttpUpgrade(_, _, _, host, path, _) =>
         e.transport.Upgrade? && e.port == 443 && e.sni == host && e.transport.host == host && e.transport.path == path
  }

  /** The row itself holds what its kind of inbound is bound to. */
  ghost predicate Sound(row: Inbound, pairs: set<(string, string)>) {
    if row.protocol == "vless-reality" then
      (Text(row.settings, "private_key"), Text(row.settings, "public_key")) in pairs
    else Text(row.settings, "domain") != ""
  }

  /** uuid is UNIQUE in users. */
  ghost predicate UuidsUnique(db: Db) {
    forall u, w | u in db.users && w in db.users && db.users[u].uuid == db.users[w].uuid :: u == w
  }

  lemma {:induction false} RosterHas(db: Db, now: string, u: int, n: int)
    requires u in db.users && (u, n) in db.access && Eligible(db.users[u], now)
    ensures exists k ::
              0 <= k < |Listing(Roster(db, now, n))| && Listing(Roster(db, now, n))[k].uuid == db.users[u].uuid
  {
    var pair := (u, n);
    assert pair in db.access && pair.0 in UsersForNode(db, now, n);
    var roster := Roster(db, now, n);
    var ids := AscendingIds(roster.Keys);
    assert u in roster.Keys && u in ids;
    var k :| 0 <= k < |ids| && ids[k] == u;
    assert Listing(roster)[k] == roster[u];
  }

  lemma {:induction false} RosterOnly(db: Db, now: string, u: int, n: int)
    requires u in db.users && UuidsUnique(db)
    requires exists k ::
               0 <= k < |Listing(Roster(db, now, n))| && Listing(Roster(db, now, n))[k].uuid == db.users[u].uuid
    ensures Eligible(db.users[u], now)
  {
    var roster := Roster(db, now, n);
    var ids := AscendingIds(roster.Keys);
    var k :| 0 <= k < |Listing(roster)| && Listing(roster)[k].uuid == db.users[u].uuid;
    assert ids[k] in ids && ids[k] in roster.Keys;
    assert ids[k] == u && u in UsersForNode(db, now, n);
  }

  /** What one row's inbound accepts of the link made from that row: exactly the users the generator
      still counts, as long as the row stores the domain or the key pair it is bound to. */
  lemma {:induction false} AcceptedIff(db: Db, now: string, u: int, n: int, row: Inbound, name: string, tag: string,
                                       pairs: set<(string, string)>)
    requires u in db.users && n in db.nodes && (u, n) in db.access && UuidsUnique(db) && row.protocol in KNOWN
    requires UriOf(db.users[u].uuid, db.nodes[n], row, name).Some?
    ensures Admits(BuildInbound(Listing(Roster(db, now, n)), row, tag),
                   DialUri(UriOf(db.users[u].uuid, db.nodes[n], row, name).value), pairs)
            <==> Eligible(db.users[u], now) && Sound(row, pairs)
  {
    var users := Listing(Roster(db, now, n));
    var ib := BuildInbound(users, row, tag);
    ListedIff(db, now, u, n, ib);
    LinkMatches(users, row, tag, db.users[u].uuid, db.nodes[n], name, pairs);
  }

  lemma ListedIff(db: Db, now: string, u: int, n: int, ib: ServerInbound)
    requires u in db.users && (u, n) in db.access && UuidsUnique(db) && ib.users == Listing(Roster(db, now, n))
    ensures db.users[u].uuid in Credentials(ib) <==> Eligible(db.users[u], now)
  {
    if Eligible(db.users[u], now) { RosterHas(db, now, u, n); }
    if db.users[u].uuid in Credentials(ib) { RosterOnly(db, now, u, n); }
  }

  lemma LinkMatches(users: seq<Credential>, row: Inbound, tag: string, uuid: string, node: Node, name: string,
                    pairs: set<(string, string)>)
    requires row.protocol in KNOWN && UriOf(uuid, node, row, name).Some?
    ensures var ib := BuildInbound(users, row, tag);
            Admits(ib, DialUri(UriOf(uuid, node, row, name).value), pairs) <==>
              uuid in Credentials(ib) && Sound(row, pairs)
  {
    var p := ProxyOf(uuid, node, row, name);
    SameEndpoint(uuid, node, row, name, name);
    assert DialUri(UriOf(uuid, node, row, name).value) == DialProxy(p.value);
  }

  // ---- every link of a subscription ----

  /** An enabled row of the list has an inbound of its own in what is built from the list. */
  lemma {:induction false} BuiltFrom(users: seq<Credential>, rows: seq<Inbound>, k: nat)
    requires k < |rows| && rows[k].enabled && rows[k].protocol in KNOWN
    ensures exists j, tag ::
              0 <= j < |Build(users, rows).0| && Build(users, rows).0[j] == BuildInbound(users, rows[k], tag)
    decreases |rows|
  {
    var init, last := rows[..|rows| - 1], rows[|rows| - 1];
    var before := Build(users, init).0;
    if k == |rows| - 1 {
      assert Build(users, rows).0[|before|] == BuildInbound(users, last, UniqueTag(last, Build(users, init).1));
    } else {
      BuiltFrom(users, init, k);
      var j, tag :| 0 <= j < |before| && before[j] == BuildInbound(users, init[k], tag);
      assert Build(users, rows).0[j] == BuildInbound(users, rows[k], tag);
    }
  }

  /** The row a link was made from. */
  lemma {:induction false} LinkFromRow(uuid: string, node: Node, rows: seq<Inbound>, i: nat)
    returns (k: nat, name: string)
    requires i < |NodeUris(uuid, node, rows)|
    ensures k < |rows| && rows[k].enabled && rows[k].protocol in KNOWN
    ensures UriOf(uuid, node, rows[k], name) == Some(NodeUris(uuid, node, rows)[i])
    decreases |rows|
  {
    var init := rows[..|rows| - 1];
    if i < |NodeUris(uuid, node, init)| {
      k, name := LinkFromRow(uuid, node, init, i);
    } else {
      k := |rows| - 1;
      LinksStep(uuid, node, rows, k);
      assert rows[..k + 1] == rows && rows[..k] == init;
      name := ProxyNames.Named(Base(node, rows[k]), ProxyNames.Occurrences(LinkBases(node, rows), Base(node, rows[k])));
    }
  }

  lemma {:induction false} LinkFromServed(uuid: string, nodes: seq<Served>, i: nat) returns (m: nat, j: nat)
    requires i < |Uris(uuid, nodes)|
    ensures m < |nodes| && j < |NodeUris(uuid, nodes[m].node, nodes[m].rows)|
    ensures Uris(uuid, nodes)[i] == NodeUris(uuid, nodes[m].node, nodes[m].rows)[j]
    decreases |nodes|
  {
    var front := Uris(uuid, nodes[..|nodes| - 1]);
    if i < |front| {
      m, j := LinkFromServed(uuid, nodes[..|nodes| - 1], i);
    } else {
      m, j := |nodes| - 1, i - |front|;
    }
  }

  lemma {:induction false} ServedFrom(db: Db, u: int, listing: seq<int>, s: Served)
    requires (forall n | n in listing :: n in db.nodes) && s in ServedNodes(db, u, listing)
    ensures exists n :: n in db.nodes && (u, n) in db.access && s == Served(db.nodes[n], ListRows(RowsOf(db, n)))
    decreases |listing|
  {
    var n := listing[|listing| - 1];
    if s in ServedNodes(db, u, listing[..|listing| - 1]) {
      ServedFrom(db, u, listing[..|listing| - 1], s);
    } else {
      assert n in AccessOf(db, u);
    }
  }

  /** Every link an active user is served, in either format, is accepted by the configuration of its
      node: for a limit that is not negative, before the expiry second, and over sound rows. */
  lemma {:induction false} EveryLinkAccepted(db: Db, now: string, u: int, listing: seq<int>,
                                             pairs: set<(string, string)>, i: nat)
    requires Lists(db, listing) && u in db.users && IsActive(db.users[u], now) && UuidsUnique(db)
    requires db.users[u].limit >= 0 && (db.users[u].expireAt != "" ==> db.users[u].expireAt != now)
    requires forall r | r in db.inbounds && db.inbounds[r].enabled && (u, db.inbounds[r].node) in db.access ::
               Sound(db.inbounds[r], pairs)
    requires i < |Proxies(db.users[u].uuid, ServedNodes(db, u, listing))|
    ensures var e := DialProxy(Proxies(db.users[u].uuid, ServedNodes(db, u, listing))[i]);
            exists n, j :: n in db.nodes && (u, n) in db.access && 0 <= j < |Generated(db, now, n).inbounds|
                           && Admits(Generated(db, now, n).inbounds[j], e, pairs)
  {
    var uuid, served := db.users[u].uuid, ServedNodes(db, u, listing);
    SameEndpoints(uuid, served);
    assert DialUris(Uris(uuid, served))[i] == DialProxies(Proxies(uuid, served))[i];
    ActiveButNotEligible(db.users[u], now);
    var s, j := LinkFromServed(uuid, served, i);
    ServedFrom(db, u, listing, served[s]);
    var n :| n in db.nodes && (u, n) in db.access && served[s] == Served(db.nodes[n], ListRows(RowsOf(db, n)));
    var rows := ListRows(RowsOf(db, n));
    var k, name := LinkFromRow(uuid, db.nodes[n], rows, j);
    var users := Listing(Roster(db, now, n));
    BuiltFrom(users, rows, k);
    var m, tag :| 0 <= m < |Build(users, rows).0| && Build(users, rows).0[m] == BuildInbound(users, rows[k], tag);
    RowIsStored(db, n, k);
    AcceptedIff(db, now, u, n, rows[k], name, tag, pairs);
    assert Generated(db, now, n).inbounds[m] == BuildInbound(users, rows[k], tag);
  }

  lemma RowIsStored(db: Db, n: int, k: nat)
    requires k < |ListRows(RowsOf(db, n))|
    ensures exists r :: r in db.inbounds && db.inbounds[r] == ListRows(RowsOf(db, n))[k] && db.inbounds[r].node == n
  {
    var ids := InboundOrder(RowsOf(db, n));
    assert ids[k] in ids && ids[k] in RowsOf(db, n);
  }

  // ---- nothing is left out ----

  lemma EmitsForAll(uuid: string, node: Node, row: Inbound, name: string)
    requires Emits(node, row)
    ensures UriOf(uuid, node, row, name).Some?
  {
  }

  lemma LastRowHasLink(uuid: string, node: Node, rows: seq<Inbound>) returns (name: string)
    requires rows != [] && rows[|rows| - 1].enabled && Emits(node, rows[|rows| - 1])
    ensures UriOf(uuid, node, rows[|rows| - 1], name).Some?
    ensures UriOf(uuid, node, rows[|rows| - 1], name).value in NodeUris(uuid, node, rows)
  {
    var row := rows[|rows| - 1];
    name := ProxyNames.Named(Base(node, row), ProxyNames.Occurrences(LinkBases(node, rows), Base(node, row)));
    EmitsForAll(uuid, node, row, name);
  }

  lemma {:induction false} RowHasLink(uuid: string, node: Node, rows: seq<Inbound>, k: nat)
    returns (uri: Uri, name: string)
    requires k < |rows| && rows[k].enabled && Emits(node, rows[k])
    ensures uri in NodeUris(uuid, node, rows) && UriOf(uuid, node, rows[k], name) == Some(uri)
    decreases |rows|
  {
    if k < |rows| - 1 {
      uri, name := RowHasLink(uuid, node, rows[..|rows| - 1], k);
    } else {
      name := LastRowHasLink(uuid, node, rows);
      uri := UriOf(uuid, node, rows[k], name).value;
    }
  }

  lemma {:induction false} NodeHasLinks(uuid: string, db: Db, u: int, listing: seq<int>, n: int, uri: Uri)
    requires (forall m | m in listing :: m in db.nodes) && n in listing && db.nodes[n].enabled && (u, n) in db.access
    requires uri in NodeUris(uuid, db.nodes[n], ListRows(RowsOf(db, n)))
    ensures uri in Uris(uuid, ServedNodes(db, u, listing))
    decreases |listing|
  {
    var init, last := listing[..|listing| - 1], listing[|listing| - 1];
    assert listing == init + [last];
    var front, all := ServedNodes(db, u, init), ServedNodes(db, u, listing);
    assert last == n ==> n in AccessOf(db, u);
    if all != front { assert all[..|all| - 1] == front; }
    if last != n { NodeHasLinks(uuid, db, u, init, n, uri); }
  }

  /** Each enabled inbound of an enabled node the user may use has its link, when it has the settings
      a client needs. */
  lemma {:induction false} EveryInboundLinked(db: Db, u: int, uuid: string, listing: seq<int>, i: int)
    requires Lists(db, listing) && i in db.inbounds && db.inbounds[i].enabled
    requires var n := db.inbounds[i].node;
             n in db.nodes && db.nodes[n].enabled && (u, n) in db.access && Emits(db.nodes[n], db.inbounds[i])
    ensures exists uri, name :: uri in Uris(uuid, ServedNodes(db, u, listing))
                                && Some(uri) == UriOf(uuid, db.nodes[db.inbounds[i].node], db.inbounds[i], name)
  {
    var n := db.inbounds[i].node;
    var rows, ids := ListRows(RowsOf(db, n)), InboundOrder(RowsOf(db, n));
    assert i in ids;
    var k :| 0 <= k < |ids| && ids[k] == i;
    assert rows[k] == db.inbounds[i];
    var uri, name := RowHasLink(uuid, db.nodes[n], rows, k);
    NodeHasLinks(uuid, db, u, listing, n, uri);
    assert uri in Uris(uuid, ServedNodes(db, u, listing));
    assert Some(uri) == UriOf(uuid, db.nodes[n], db.inbounds[i], name);
  }

  /** The names of the whole Clash file are distinct, because node names are. */
  lemma {:induction false} ServedNamesDistinct(db: Db, u: int, listing: seq<int>, uuid: string)
    requires Lists(db, listing)
    requires forall n, m | n in db.nodes && m in db.nodes && db.nodes[n].name == db.nodes[m].name :: n == m
    ensures var names := Proxies(uuid, ServedNodes(db, u, listing));
            && (forall i, j | 0 <= i < j < |names| :: names[i].name != names[j].name)
            && forall p | p in names :: p.name !in {"Proxy", "Auto", "DIRECT"}
  {
    ServedDistinct(db, u, listing);
    NamesDistinct(uuid, ServedNodes(db, u, listing));
  }

  lemma {:induction false} ServedDistinct(db: Db, u: int, listing: seq<int>)
    requires forall n | n in listing :: n in db.nodes
    requires forall i, j | 0 <= i < j < |listing| :: listing[i] != listing[j]
    requires forall n, m | n in db.nodes && m in db.nodes && db.nodes[n].name == db.nodes[m].name :: n == m
    ensures forall s | s in ServedNodes(db, u, listing) :: exists n :: n in listing && s.node == db.nodes[n]
    ensures forall i, j | 0 <= i < j < |ServedNodes(db, u, listing)| ::
              ServedNodes(db, u, listing)[i].node.name != ServedNodes(db, u, listing)[j].node.name
    decreases |listing|
  {
    if listing != [] {
      var init, last := listing[..|listing| - 1], listing[|listing| - 1];
      ServedDistinct(db, u, init);
      var front := ServedNodes(db, u, init);
      forall s | s in front
        ensures s.node.name != db.nodes[last].name && exists n :: n in listing && s.node == db.nodes[n]
      {
        var n :| n in init && s.node == db.nodes[n];
        assert n != last;
      }
    }
  }
}
