/** What a subscription offers, read off the tables (singbox/generator.go:223-320,
    singbox/hysteria.go:39-44, singbox/clash.go:11-75, handler/subscription.go:47-68):
    which inbounds of which nodes, in which order, and how a client reaches each. */
module Endpoints {
  import opened Tables
  import opened Generator
  import opened Links
  import opened Subscription

  // ---- one inbound ----

  function Stored(s: Settings, key: string, default: string): string {
    if Text(s, key) != "" then Text(s, key) else default
  }

  /** There is something to dial: a domain, or a Reality target with its public key. */
  ghost predicate Usable(node: Node, row: Inbound) {
    match row.protocol
    case "hysteria2" => Text(row.settings, "domain") != "" || node.domain != ""
    case "vless-reality" => Text(row.settings, "sni") != "" && Text(row.settings, "public_key") != ""
    case "vless-httpupgrade" => Text(row.settings, "domain") != "" || node.domain != ""
    case _ => false
  }

  /** The client dials the address stored for the inbound, or else the node's; with the settings of the
      row, or their defaults. HTTPUpgrade is dialled at the CDN's port. */
  ghost predicate Offers(e: Endpoint, uuid: string, node: Node, row: Inbound) {
    var s := row.settings;
    && e.credential == uuid
    && match row.protocol
       case "hysteria2" =>
         && e.server == e.sni == Stored(s, "domain", node.domain) && e.port == row.port
         && e.transport == Quic(if Text(s, "profile") in {"", "salamander"} then Text(s, "obfs_password") else "")
       case "vless-reality" =>
         && e.server == Stored(s, "server", node.host) && e.port == row.port && e.sni == Text(s, "sni")
         && e.transport == RealityTcp(Text(s, "public_key"), Text(s, "short_id"), Stored(s, "fingerprint", "chrome"))
       case "vless-httpupgrade" =>
         && e.server == e.sni == Stored(s, "domain", node.domain) && e.port == 443
         && e.transport == Upgrade(Stored(s, "domain", node.domain), Stored(s, "path", "/upgrade"), "chrome")
       case _ => false
  }

  /** The parameters of a link, by the names clients look for. */
  ghost predicate Spelled(u: Uri, e: Endpoint, name: string) {
    && u.name == name && u.host == e.server && u.port == e.port && u.credential == e.credential
    && "sni" in u.query && u.query["sni"] == e.sni
    && match e.transport
       case Quic(obfs) =>
         && u.scheme == "hysteria2" && "alpn" in u.query && u.query["alpn"] == "h3"
         && (if obfs == "" then "obfs" !in u.query
             else
               && "obfs" in u.query && u.query["obfs"] == "salamander"
               && "obfs-password" in u.query && u.query["obfs-password"] == obfs)
       case RealityTcp(key, id, fingerprint) =>
         && u.scheme == "vless" && "security" in u.query && u.query["security"] == "reality"
         && "pbk" in u.query && u.query["pbk"] == key && "sid" in u.query && u.query["sid"] == id
         && "fp" in u.query && u.query["fp"] == fingerprint
         && "flow" in u.query && u.query["flow"] == "xtls-rprx-vision"
         && "type" in u.query && u.query["type"] == "tcp"
       case Upgrade(host, path, fingerprint) =>
         && u.scheme == "vless" && "security" in u.query && u.query["security"] == "tls"
         && "type" in u.query && u.query["type"] == "httpupgrade"
         && "host" in u.query && u.query["host"] == host && "path" in u.query && u.query["path"] == path
         && "fp" in u.query && u.query["fp"] == fingerprint
  }

  lemma LinkIs(uuid: string, node: Node, row: Inbound, name: string)
    ensures UriOf(uuid, node, row, name).Some? <==> Usable(node, row)
    ensures Usable(node, row) ==>
              var u := UriOf(uuid, node, row, name).value;
              Offers(DialUri(u), uuid, node, row) && Spelled(u, DialUri(u), name)
  {
  }

  // ---- names ----

  function KindName(protocol: string): string {
    match protocol
    case "hysteria2" => "Hy2"
    case "vless-reality" => "Reality"
    case "vless-httpupgrade" => "CDN"
    case _ => ""
  }

  /** The node, the kind, and from the second of its kind on a number. */
  function Numbered(node: string, kind: string, k: int): string {
    node + "-" + kind + if k <= 1 then "" else "-" + Decimal(k)
  }

  lemma NamedIs(node: Node, row: Inbound, k: nat)
    requires row.protocol in KNOWN && k > 0
    ensures ProxyNames.Named(Base(node, row), k) == Numbered(node.name, KindName(row.protocol), k)
  {
  }

  lemma AfterDash(name: string, kind: string)
    ensures (name + "-" + kind)[|name| + 1..] == kind
  {
  }

  lemma SameBase(node: Node, a: Inbound, b: Inbound)
    requires a.protocol in KNOWN
    ensures Base(node, a) == Base(node, b) <==> a.protocol == b.protocol
  {
    if b.protocol in KNOWN {
      AfterDash(node.name, KindName(a.protocol));
      AfterDash(node.name, KindName(b.protocol));
    } else {
      assert |Base(node, a)| > |node.name| == |Base(node, b)|;
    }
  }

  /** The switched-on rows of the protocol. */
  function CountOn(rows: seq<Inbound>, protocol: string): nat {
    if rows == [] then 0
    else
      var row := rows[|rows| - 1];
      CountOn(rows[..|rows| - 1], protocol) + if row.enabled && row.protocol == protocol then 1 else 0
  }

  /** Those of them that can be dialled. */
  function CountUsable(node: Node, rows: seq<Inbound>, protocol: string): nat {
    if rows == [] then 0
    else
      var row := rows[|rows| - 1];
      CountUsable(node, rows[..|rows| - 1], protocol)
      + if row.enabled && row.protocol == protocol && Emits(node, row) then 1 else 0
  }

  lemma OneMore(bases: seq<string>, last: string, base: string)
    ensures ProxyNames.Occurrences(bases + [last], base)
            == ProxyNames.Occurrences(bases, base) + if last == base then 1 else 0
  {
    assert (bases + [last])[..|bases|] == bases;
  }

  lemma {:induction false} LinkCount(node: Node, rows: seq<Inbound>, row: Inbound, base: string)
    requires row.protocol in KNOWN && base == Base(node, row)
    ensures ProxyNames.Occurrences(LinkBases(node, rows), base) == CountUsable(node, rows, row.protocol)
    decreases |rows|
  {
    if rows != [] {
      var init, last := rows[..|rows| - 1], rows[|rows| - 1];
      LinkCount(node, init, row, base);
      SameBase(node, row, last);
      OneMore(LinkBases(node, init), Base(node, last), base);
      assert LinkBases(node, init) + [] == LinkBases(node, init);
    }
  }

  lemma {:induction false} ProxyCount(node: Node, rows: seq<Inbound>, row: Inbound, base: string)
    requires row.protocol in KNOWN && base == Base(node, row)
    ensures ProxyNames.Occurrences(ClashBases(node, rows), base) == CountOn(rows, row.protocol)
    decreases |rows|
  {
    if rows != [] {
      var init, last := rows[..|rows| - 1], rows[|rows| - 1];
      ProxyCount(node, init, row, base);
      if last.enabled {
        SameBase(node, row, last);
        LastBase(node, rows);
        OneMore(ClashBases(node, init), Base(node, last), base);
      } else {
        assert ClashBases(node, rows) == ClashBases(node, init) + [] == ClashBases(node, init);
      }
    }
  }

  lemma LastBase(node: Node, rows: seq<Inbound>)
    requires rows != [] && rows[|rows| - 1].enabled
    ensures ClashBases(node, rows) == ClashBases(node, rows[..|rows| - 1]) + [Base(node, rows[|rows| - 1])]
  {
  }

  /** The link made from the k-th row is numbered among the links of its protocol; the proxy among the
      switched-on rows of its protocol, dialled or not. */
  lemma {:induction false} NamesAre(uuid: string, node: Node, rows: seq<Inbound>, k: nat) returns (u: Uri, p: Proxy)
    requires k < |rows| && rows[k].enabled && Usable(node, rows[k])
    ensures u in NodeUris(uuid, node, rows) && Offers(DialUri(u), uuid, node, rows[k])
    ensures p in NodeProxies(uuid, node, rows) && Offers(DialProxy(p), uuid, node, rows[k])
    ensures var protocol := rows[k].protocol;
            && u.name == Numbered(node.name, KindName(protocol), CountUsable(node, rows[..k + 1], protocol))
            && p.name == Numbered(node.name, KindName(protocol), CountOn(rows[..k + 1], protocol))
    decreases |rows|
  {
    if k < |rows| - 1 {
      var init := rows[..|rows| - 1];
      u, p := NamesAre(uuid, node, init, k);
      NoneIsLost(uuid, node, rows, u, p);
      assert init[..k + 1] == rows[..k + 1];
    } else {
      u, p := LastNames(uuid, node, rows);
      assert rows[..k + 1] == rows;
    }
  }

  lemma NoneIsLost(uuid: string, node: Node, rows: seq<Inbound>, u: Uri, p: Proxy)
    requires rows != []
    ensures u in NodeUris(uuid, node, rows[..|rows| - 1]) ==> u in NodeUris(uuid, node, rows)
    ensures p in NodeProxies(uuid, node, rows[..|rows| - 1]) ==> p in NodeProxies(uuid, node, rows)
  {
  }

  lemma LastNames(uuid: string, node: Node, rows: seq<Inbound>) returns (u: Uri, p: Proxy)
    requires rows != [] && rows[|rows| - 1].enabled && Usable(node, rows[|rows| - 1])
    ensures var row := rows[|rows| - 1];
            && u in NodeUris(uuid, node, rows) && Offers(DialUri(u), uuid, node, row)
            && p in NodeProxies(uuid, node, rows) && Offers(DialProxy(p), uuid, node, row)
            && u.name == Numbered(node.name, KindName(row.protocol), CountUsable(node, rows, row.protocol))
            && p.name == Numbered(node.name, KindName(row.protocol), CountOn(rows, row.protocol))
  {
    var row := rows[|rows| - 1];
    var i, j := ProxyNames.Occurrences(LinkBases(node, rows), Base(node, row)),
                ProxyNames.Occurrences(ClashBases(node, rows), Base(node, row));
    var name, other := ProxyNames.Named(Base(node, row), i), ProxyNames.Named(Base(node, row), j);
    LinkIs(uuid, node, row, name);
    LinkIs("", node, row, "");
    LinkCount(node, rows, row, Base(node, row));
    ProxyCount(node, rows, row, Base(node, row));
    assert CountUsable(node, rows, row.protocol) > 0 && CountOn(rows, row.protocol) > 0;
    NamedIs(node, row, i);
    NamedIs(node, row, j);
    SameEndpoint(uuid, node, row, name, other);
    u, p := UriOf(uuid, node, row, name).value, ProxyOf(uuid, node, row, other).value;
    ProxyKeepsName(uuid, node, row, other);
  }

  lemma ProxyKeepsName(uuid: string, node: Node, row: Inbound, name: string)
    ensures ProxyOf(uuid, node, row, name).Some? ==> ProxyOf(uuid, node, row, name).value.name == name
  {
  }

  // ---- all of them ----

  /** The row a link is made from: the `row`-th of the `node`-th node. */
  datatype Spot = Spot(node: int, row: int)

  ghost predicate Inside(p: Spot, nodes: seq<Served>) {
    0 <= p.node < |nodes| && 0 <= p.row < |nodes[p.node].rows|
  }

  /** Node by node, and row by row. */
  ghost predicate InTurn(at: seq<Spot>) {
    forall i, j | 0 <= i < j < |at| :: at[i].node < at[j].node || (at[i].node == at[j].node && at[i].row < at[j].row)
  }

  /** The row is switched on and can be dialled, and so is its node. */
  ghost predicate OnOffer(p: Spot, nodes: seq<Served>)
    requires Inside(p, nodes)
  {
    var n := nodes[p.node];
    n.node.enabled && n.rows[p.row].enabled && Usable(n.node, n.rows[p.row])
  }

  ghost predicate Covers(at: seq<Spot>, nodes: seq<Served>) {
    && InTurn(at)
    && (forall i | 0 <= i < |at| :: Inside(at[i], nodes))
    && forall p | Inside(p, nodes) :: p in at <==> OnOffer(p, nodes)
  }

  ghost predicate OfferedAt(e: Endpoint, uuid: string, nodes: seq<Served>, p: Spot) {
    Inside(p, nodes) && Offers(e, uuid, nodes[p.node].node, nodes[p.node].rows[p.row])
  }

  ghost predicate OffersAll(es: seq<Endpoint>, uuid: string, nodes: seq<Served>, at: seq<Spot>) {
    |es| == |at| && forall i | 0 <= i < |at| :: OfferedAt(es[i], uuid, nodes, at[i])
  }

  ghost predicate CoversRows(at: seq<int>, node: Node, rows: seq<Inbound>) {
    && (forall i, j | 0 <= i < j < |at| :: at[i] < at[j])
    && (forall i | 0 <= i < |at| :: 0 <= at[i] < |rows|)
    && forall k | 0 <= k < |rows| :: k in at <==> rows[k].enabled && Usable(node, rows[k])
  }

  ghost predicate OffersRows(es: seq<Endpoint>, uuid: string, node: Node, rows: seq<Inbound>, at: seq<int>)
    requires CoversRows(at, node, rows)
  {
    |es| == |at| && forall i | 0 <= i < |at| :: Offers(es[i], uuid, node, rows[at[i]])
  }

  lemma {:induction false} NodeIs(uuid: string, node: Node, rows: seq<Inbound>) returns (at: seq<int>)
    ensures CoversRows(at, node, rows) && OffersRows(DialUris(NodeUris(uuid, node, rows)), uuid, node, rows, at)
    decreases |rows|
  {
    if rows == [] {
      at := [];
    } else {
      var init, k := rows[..|rows| - 1], |rows| - 1;
      var before := NodeIs(uuid, node, init);
      LinksStep(uuid, node, rows, k);
      assert rows[..k + 1] == rows && rows[..k] == init;
      var base := Base(node, rows[k]);
      var name := ProxyNames.Named(base, ProxyNames.Occurrences(LinkBases(node, rows), base));
      LinkIs(uuid, node, rows[k], name);
      at := NextRow(NodeUris(uuid, node, init), UriOf(uuid, node, rows[k], name), uuid, node, rows, before);
    }
  }

  lemma NextRow(uris: seq<Uri>, u: Option<Uri>, uuid: string, node: Node, rows: seq<Inbound>, before: seq<int>)
    returns (at: seq<int>)
    requires rows != []
    requires CoversRows(before, node, rows[..|rows| - 1])
    requires OffersRows(DialUris(uris), uuid, node, rows[..|rows| - 1], before)
    requires u.Some? <==> Usable(node, rows[|rows| - 1])
    requires u.Some? ==> Offers(DialUri(u.value), uuid, node, rows[|rows| - 1])
    ensures CoversRows(at, node, rows)
    ensures OffersRows(DialUris(uris + if rows[|rows| - 1].enabled then Links.Listed(u) else []), uuid, node, rows, at)
  {
    var init, last := rows[..|rows| - 1], |rows| - 1;
    at := if rows[last].enabled && u.Some? then before + [last] else before;
    forall k | 0 <= k < |rows| ensures k in at <==> rows[k].enabled && Usable(node, rows[k]) {
      if k < last {
        assert rows[k] == init[k];
        assert k in at <==> k in before;
      } else {
        assert k !in before;
      }
    }
    var all := uris + if rows[last].enabled then Links.Listed(u) else [];
    forall i | 0 <= i < |at| ensures Offers(DialUris(all)[i], uuid, node, rows[at[i]]) {
      if i < |before| { assert DialUris(all)[i] == DialUris(uris)[i] && rows[at[i]] == init[before[i]]; }
    }
  }

  function Spots(m: int, rows: seq<int>): seq<Spot> { seq(|rows|, i requires 0 <= i < |rows| => Spot(m, rows[i])) }

  /** A subscription, in either format, offers exactly the usable inbounds, in order. */
  lemma {:induction false} SubscriptionIs(uuid: string, nodes: seq<Served>) returns (at: seq<Spot>)
    ensures Covers(at, nodes) && OffersAll(DialUris(Uris(uuid, nodes)), uuid, nodes, at)
    ensures DialUris(Uris(uuid, nodes)) == DialProxies(Proxies(uuid, nodes))
  {
    SameEndpoints(uuid, nodes);
    at := UrisAre(uuid, nodes);
  }

  lemma {:induction false} UrisAre(uuid: string, nodes: seq<Served>) returns (at: seq<Spot>)
    ensures Covers(at, nodes) && OffersAll(DialUris(Uris(uuid, nodes)), uuid, nodes, at)
    decreases |nodes|
  {
    if nodes == [] {
      at := [];
    } else {
      var init, n := nodes[..|nodes| - 1], nodes[|nodes| - 1];
      var before := UrisAre(uuid, init);
      var own := NodeIs(uuid, n.node, n.rows);
      assert nodes == init + [n];
      if n.node.enabled {
        at := before + Spots(|init|, own);
        NextCovers(before, init, n, own);
        NextOffers(Uris(uuid, init), NodeUris(uuid, n.node, n.rows), uuid, init, n, before, own);
      } else {
        at := before;
        OffCovers(before, init, n);
        MoreNodes(DialUris(Uris(uuid, init)), uuid, init, n, before);
        assert Uris(uuid, init) + [] == Uris(uuid, init);
      }
    }
  }

  lemma Within(p: Spot, nodes: seq<Served>, n: Served)
    ensures Inside(p, nodes + [n]) <==> Inside(p, nodes) || (p.node == |nodes| && 0 <= p.row < |n.rows|)
    ensures Inside(p, nodes) ==> (nodes + [n])[p.node] == nodes[p.node]
    ensures p.node == |nodes| ==> (nodes + [n])[p.node] == n
  {
  }

  lemma NextCovers(before: seq<Spot>, nodes: seq<Served>, n: Served, own: seq<int>)
    requires Covers(before, nodes) && CoversRows(own, n.node, n.rows) && n.node.enabled
    ensures Covers(before + Spots(|nodes|, own), nodes + [n])
  {
    var at, all := before + Spots(|nodes|, own), nodes + [n];
    assert forall i | 0 <= i < |before| :: Inside(before[i], nodes);
    forall i | 0 <= i < |at| ensures Inside(at[i], all) { Within(at[i], nodes, n); }
    forall p | Inside(p, all) ensures p in at <==> OnOffer(p, all) {
      Within(p, nodes, n);
      NextHas(before, own, |nodes|, p);
    }
  }

  lemma NextHas(before: seq<Spot>, own: seq<int>, m: int, p: Spot)
    requires forall i | 0 <= i < |before| :: before[i].node < m
    ensures p in before ==> p.node < m
    ensures p in before + Spots(m, own) <==> p in before || (p.node == m && p.row in own)
  {
    var spots := Spots(m, own);
    if p.node == m && p.row in own {
      var i :| 0 <= i < |own| && own[i] == p.row;
      assert spots[i] == p;
    }
    if p in spots {
      var i :| 0 <= i < |spots| && spots[i] == p;
      assert own[i] == p.row;
    }
  }

  lemma OffCovers(before: seq<Spot>, nodes: seq<Served>, n: Served)
    requires Covers(before, nodes) && !n.node.enabled
    ensures Covers(before, nodes + [n])
  {
    var all := nodes + [n];
    forall i | 0 <= i < |before| ensures Inside(before[i], all) { Within(before[i], nodes, n); }
    forall p | Inside(p, all) ensures p in before <==> OnOffer(p, all) {
      Within(p, nodes, n);
      NextHas(before, [], |nodes|, p);
    }
  }

  lemma MoreNodes(es: seq<Endpoint>, uuid: string, nodes: seq<Served>, n: Served, at: seq<Spot>)
    requires OffersAll(es, uuid, nodes, at)
    ensures OffersAll(es, uuid, nodes + [n], at)
  {
    forall i | 0 <= i < |at| ensures OfferedAt(es[i], uuid, nodes + [n], at[i]) {
      assert OfferedAt(es[i], uuid, nodes, at[i]);
      Within(at[i], nodes, n);
    }
  }

  lemma NextOffers(uris: seq<Uri>, more: seq<Uri>, uuid: string, nodes: seq<Served>, n: Served, before: seq<Spot>,
                   own: seq<int>)
    requires OffersAll(DialUris(uris), uuid, nodes, before)
    requires CoversRows(own, n.node, n.rows) && OffersRows(DialUris(more), uuid, n.node, n.rows, own)
    ensures OffersAll(DialUris(uris + more), uuid, nodes + [n], before + Spots(|nodes|, own))
  {
    var at, all, es := before + Spots(|nodes|, own), nodes + [n], DialUris(uris + more);
    MoreNodes(DialUris(uris), uuid, nodes, n, before);
    forall i | 0 <= i < |at| ensures OfferedAt(es[i], uuid, all, at[i]) {
      if i < |before| {
        assert es[i] == DialUris(uris)[i] && at[i] == before[i];
      } else {
        var k := i - |before|;
        assert es[i] == DialUris(more)[k] && at[i] == Spot(|nodes|, own[k]) && all[|nodes|] == n;
      }
    }
  }

  // ---- which nodes ----

  datatype Choice = Choice(take: bool, what: Served)

  function Picked(all: seq<Choice>): seq<Served> {
    if all == [] then []
    else
      var last := all[|all| - 1];
      Picked(all[..|all| - 1]) + (if last.take then [last.what] else [])
  }

  function Places(all: seq<Choice>): seq<int> {
    if all == [] then []
    else Places(all[..|all| - 1]) + (if all[|all| - 1].take then [|all| - 1] else [])
  }

  lemma {:induction false} PlacesInRange(all: seq<Choice>)
    ensures forall i | 0 <= i < |Places(all)| :: 0 <= Places(all)[i] < |all|
    ensures forall i, j | 0 <= i < j < |Places(all)| :: Places(all)[i] < Places(all)[j]
    decreases |all|
  {
    if all != [] { PlacesInRange(all[..|all| - 1]); }
  }

  lemma {:induction false} PlaceIff(all: seq<Choice>, k: nat)
    requires k < |all|
    ensures k in Places(all) <==> all[k].take
    decreases |all|
  {
    var init := all[..|all| - 1];
    PlacesInRange(init);
    if k < |init| { PlaceIff(init, k); }
  }

  lemma {:induction false} PickedAt(all: seq<Choice>)
    ensures |Picked(all)| == |Places(all)|
    ensures forall i | 0 <= i < |Places(all)| ::
              0 <= Places(all)[i] < |all| && Picked(all)[i] == all[Places(all)[i]].what
    decreases |all|
  {
    if all != [] {
      PickedAt(all[..|all| - 1]);
    }
  }

  function Choices(db: Db, u: int, listing: seq<int>): seq<Choice>
    requires forall k | 0 <= k < |listing| :: listing[k] in db.nodes
  {
    seq(|listing|, k requires 0 <= k < |listing| =>
      Choice(db.nodes[listing[k]].enabled && (u, listing[k]) in db.access,
             Served(db.nodes[listing[k]], ListRows(RowsOf(db, listing[k])))))
  }

  lemma {:induction false} ServedArePicked(db: Db, u: int, listing: seq<int>)
    requires (forall n | n in listing :: n in db.nodes) && forall k | 0 <= k < |listing| :: listing[k] in db.nodes
    ensures ServedNodes(db, u, listing) == Picked(Choices(db, u, listing))
    decreases |listing|
  {
    if listing != [] {
      var init := listing[..|listing| - 1];
      assert forall n | n in init :: n in listing;
      ServedArePicked(db, u, init);
      assert Choices(db, u, listing)[..|init|] == Choices(db, u, init);
    }
  }

  /** The nodes of the listing that are switched on and open to the user are served, in its order. */
  lemma {:induction false} ServedIs(db: Db, u: int, listing: seq<int>) returns (at: seq<int>)
    requires forall n | n in listing :: n in db.nodes
    ensures forall i, j | 0 <= i < j < |at| :: at[i] < at[j]
    ensures forall i | 0 <= i < |at| :: 0 <= at[i] < |listing|
    ensures forall k | 0 <= k < |listing| ::
              k in at <==> listing[k] in db.nodes && db.nodes[listing[k]].enabled && (u, listing[k]) in db.access
    ensures |ServedNodes(db, u, listing)| == |at|
    ensures forall i | 0 <= i < |at| ::
              listing[at[i]] in db.nodes && ServedNodes(db, u, listing)[i].node == db.nodes[listing[at[i]]]
    ensures forall i | 0 <= i < |at| :: AllRows(db, listing[at[i]], ServedNodes(db, u, listing)[i].rows)
  {
    assert forall k | 0 <= k < |listing| :: listing[k] in listing;
    ServedArePicked(db, u, listing);
    var all := Choices(db, u, listing);
    at := Places(all);
    PlacesInRange(all);
    PickedAt(all);
    forall k | 0 <= k < |listing|
      ensures k in at <==> listing[k] in db.nodes && db.nodes[listing[k]].enabled && (u, listing[k]) in db.access
    {
      PlaceIff(all, k);
    }
    forall i | 0 <= i < |at|
      ensures listing[at[i]] in db.nodes && Picked(all)[i].node == db.nodes[listing[at[i]]]
              && AllRows(db, listing[at[i]], Picked(all)[i].rows)
    {
      assert Picked(all)[i] == all[at[i]].what && listing[at[i]] in listing;
      ListedRows(db, listing[at[i]]);
    }
  }

  /** The rows of the node, each once, by place and then by id. */
  ghost predicate AllRows(db: Db, n: int, rows: seq<Inbound>) {
    exists ids: seq<int> :: RowsBy(db, n, rows, ids)
  }

  ghost predicate RowsBy(db: Db, n: int, rows: seq<Inbound>, ids: seq<int>) {
    && |rows| == |ids| && (forall i :: i in ids <==> i in db.inbounds && db.inbounds[i].node == n)
    && (forall k | 0 <= k < |ids| :: ids[k] in db.inbounds && rows[k] == db.inbounds[ids[k]])
    && forall j, k | 0 <= j < k < |ids| ::
         rows[j].sortOrder < rows[k].sortOrder || (rows[j].sortOrder == rows[k].sortOrder && ids[j] < ids[k])
  }

  /** So a served node comes with all its rows, in the order of the panel. */
  lemma ListedRows(db: Db, n: int)
    ensures AllRows(db, n, ListRows(RowsOf(db, n)))
  {
    var ids := InboundOrder(RowsOf(db, n));
    assert forall k | 0 <= k < |ids| :: ids[k] in ids;
    assert RowsBy(db, n, ListRows(RowsOf(db, n)), ids);
  }
}
