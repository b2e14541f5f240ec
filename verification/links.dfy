/** The two subscription formats (GenerateSubscription in singbox/generator.go,
    GenerateClashConfig in singbox/clash.go), before text escaping: a share link
    keeps its query as a map, a Clash proxy keeps its fields. Both are read the
    way a client reads them, as endpoints. */
module Links {
  import opened Tables
  import opened Generator
  import opened ProxyNames

  datatype Uri = Uri(scheme: string, credential: string, host: string, port: int,
                     query: map<string, string>, name: string)

  datatype Proxy =
    | HysteriaProxy(name: string, server: string, port: int, password: string, sni: string, obfs: Option<string>)
    | RealityProxy(name: string, server: string, port: int, uuid: string, servername: string, fingerprint: string,
                   publicKey: string, shortId: string)
    | UpgradeProxy(name: string, server: string, port: int, uuid: string, servername: string, fingerprint: string,
                   path: string, host: string)

  datatype Served = Served(node: Node, rows: seq<Inbound>)

  // ---- one inbound ----

  function Domain(node: Node, s: Settings): string {
    if Text(s, "domain") == "" then node.domain else Text(s, "domain")
  }

  function Fingerprint(s: Settings): string {
    if Text(s, "fingerprint") == "" then "chrome" else Text(s, "fingerprint")
  }

  function RealityServer(node: Node, s: Settings): string {
    if Text(s, "server") != "" then Text(s, "server") else node.host
  }

  function UriOf(uuid: string, node: Node, row: Inbound, name: string): Option<Uri> {
    var s := row.settings;
    if row.protocol == "hysteria2" then
      var query := map["sni" := Domain(node, s), "alpn" := "h3"];
      var obfs := if ObfsPassword(s) == "" then map[]
                  else map["obfs" := "salamander", "obfs-password" := ObfsPassword(s)];
      if Domain(node, s) == "" then None
      else Some(Uri("hysteria2", uuid, Domain(node, s), row.port, query + obfs, name))
    else if row.protocol == "vless-reality" then
      if Text(s, "sni") == "" || Text(s, "public_key") == "" then None
      else Some(Uri("vless", uuid, RealityServer(node, s), row.port,
                    map["encryption" := "none", "security" := "reality", "sni" := Text(s, "sni"),
                        "pbk" := Text(s, "public_key"),
                        "sid" := Text(s, "short_id"), "fp" := Fingerprint(s), "flow" := "xtls-rprx-vision",
                        "type" := "tcp"],
                    name))
    else if row.protocol == "vless-httpupgrade" then
      if Domain(node, s) == "" then None
      else Some(Uri("vless", uuid, Domain(node, s), 443,
                    map["encryption" := "none", "security" := "tls", "sni" := Domain(node, s), "type" := "httpupgrade",
                        "host" := Domain(node, s), "path" := UpgradePath(s), "fp" := "chrome"], name))
    else None
  }

  function ProxyOf(uuid: string, node: Node, row: Inbound, name: string): Option<Proxy> {
    var s := row.settings;
    if row.protocol == "hysteria2" then
      if Domain(node, s) == "" then None
      else Some(HysteriaProxy(name, Domain(node, s), row.port, uuid, Domain(node, s),
                              if ObfsPassword(s) != "" then Some(ObfsPassword(s)) else None))
    else if row.protocol == "vless-reality" then
      if Text(s, "sni") == "" || Text(s, "public_key") == "" then None
      else Some(RealityProxy(name, RealityServer(node, s), row.port, uuid, Text(s, "sni"), Fingerprint(s),
                             Text(s, "public_key"), Text(s, "short_id")))
    else if row.protocol == "vless-httpupgrade" then
      if Domain(node, s) == "" then None
      else Some(UpgradeProxy(name, Domain(node, s), 443, uuid, Domain(node, s), "chrome", UpgradePath(s),
                             Domain(node, s)))
    else None
  }

  // ---- what a client makes of them ----

  datatype Transport =
    | Quic(obfsPassword: string)
    | RealityTcp(publicKey: string, shortId: string, fingerprint: string)
    | Upgrade(host: string, path: string, fingerprint: string)

  datatype Endpoint = Endpoint(server: string, port: int, credential: string, sni: string, transport: Transport)

  function At(query: map<string, string>, key: string): string {
    if key in query then query[key] else ""
  }

  function DialUri(u: Uri): Endpoint {
    var q := u.query;
    Endpoint(u.host, u.port, u.credential, At(q, "sni"),
             if u.scheme == "hysteria2" then Quic(if At(q, "obfs") == "salamander" then At(q, "obfs-password") else "")
             else if At(q, "security") == "reality" then RealityTcp(At(q, "pbk"), At(q, "sid"), At(q, "fp"))
             else Upgrade(At(q, "host"), At(q, "path"), At(q, "fp")))
  }

  function DialProxy(p: Proxy): Endpoint {
    match p
    case HysteriaProxy(_, server, port, password, sni, obfs) =>
      Endpoint(server, port, password, sni, Quic(Or(obfs, "")))
    case RealityProxy(_, server, port, uuid, sni, fingerprint, publicKey, shortId) =>
      Endpoint(server, port, uuid, sni, RealityTcp(publicKey, shortId, fingerprint))
    case UpgradeProxy(_, server, port, uuid, sni, fingerprint, path, host) =>
      Endpoint(server, port, uuid, sni, Upgrade(host, path, fingerprint))
  }

  lemma SameEndpoint(uuid: string, node: Node, row: Inbound, name: string, other: string)
    ensures UriOf(uuid, node, row, name).Some? <==> ProxyOf(uuid, node, row, other).Some?
    ensures UriOf(uuid, node, row, name).Some? ==>
              DialUri(UriOf(uuid, node, row, name).value) == DialProxy(ProxyOf(uuid, node, row, other).value)
  {
  }

  // ---- one node ----

  function Kind(protocol: string): string {
    if protocol == "hysteria2" then "Hy2" else if protocol == "vless-reality" then "Reality"
    else if protocol == "vless-httpupgrade" then "CDN" else ""
  }

  function Base(node: Node, row: Inbound): string {
    if Kind(row.protocol) == "" then node.name else node.name + "-" + Kind(row.protocol)
  }

  /** The row has all that a client needs. */
  predicate Emits(node: Node, row: Inbound) { UriOf("", node, row, "").Some? }

  /** Share links count the links made so far; Clash counts the enabled rows. */
  function LinkBases(node: Node, rows: seq<Inbound>): seq<string> {
    if rows == [] then []
    else
      var row := rows[|rows| - 1];
      LinkBases(node, rows[..|rows| - 1])
      + (if row.enabled && Emits(node, row) then [Base(node, row)] else [])
  }

  function ClashBases(node: Node, rows: seq<Inbound>): seq<string> {
    if rows == [] then []
    else
      var row := rows[|rows| - 1];
      ClashBases(node, rows[..|rows| - 1]) + (if row.enabled then [Base(node, row)] else [])
  }

  function Listed<T>(o: Option<T>): seq<T> { if o.Some? then [o.value] else [] }

  function NodeUris(uuid: string, node: Node, rows: seq<Inbound>): seq<Uri> {
    if rows == [] then []
    else
      var row := rows[|rows| - 1];
      NodeUris(uuid, node, rows[..|rows| - 1])
      + (if row.enabled
         then Listed(UriOf(uuid, node, row,
                           Named(Base(node, row), Occurrences(LinkBases(node, rows), Base(node, row)))))
         else [])
  }

  function NodeProxies(uuid: string, node: Node, rows: seq<Inbound>): seq<Proxy> {
    if rows == [] then []
    else
      var row := rows[|rows| - 1];
      NodeProxies(uuid, node, rows[..|rows| - 1])
      + (if row.enabled
         then Listed(ProxyOf(uuid, node, row,
                             Named(Base(node, row), Occurrences(ClashBases(node, rows), Base(node, row)))))
         else [])
  }

  // ---- a whole subscription ----

  function Uris(uuid: string, nodes: seq<Served>): seq<Uri> {
    if nodes == [] then []
    else
      var n := nodes[|nodes| - 1];
      Uris(uuid, nodes[..|nodes| - 1]) + (if n.node.enabled then NodeUris(uuid, n.node, n.rows) else [])
  }

  function Proxies(uuid: string, nodes: seq<Served>): seq<Proxy> {
    if nodes == [] then []
    else
      var n := nodes[|nodes| - 1];
      Proxies(uuid, nodes[..|nodes| - 1]) + (if n.node.enabled then NodeProxies(uuid, n.node, n.rows) else [])
  }

  method BuildUri(uuid: string, node: Node, row: Inbound, names: Tracker) returns (uri: Option<Uri>)
    requires names.Valid()
    modifies names
    ensures names.Valid() && names.asked == old(names.asked) + (if Emits(node, row) then [Base(node, row)] else [])
    ensures uri == UriOf(uuid, node, row, Named(Base(node, row), Occurrences(names.asked, Base(node, row))))
  {
    if UriOf(uuid, node, row, "").None? { return None; }
    var name := names.Next(Base(node, row));
    uri := UriOf(uuid, node, row, name);
  }

  lemma LinksStep(uuid: string, node: Node, rows: seq<Inbound>, k: nat)
    requires k < |rows|
    ensures LinkBases(node, rows[..k + 1])
            == LinkBases(node, rows[..k])
               + (if rows[k].enabled && Emits(node, rows[k]) then [Base(node, rows[k])] else [])
    ensures var base := Base(node, rows[k]);
            var name := Named(base, Occurrences(LinkBases(node, rows[..k + 1]), base));
            NodeUris(uuid, node, rows[..k + 1])
            == NodeUris(uuid, node, rows[..k])
               + (if rows[k].enabled then Listed(UriOf(uuid, node, rows[k], name)) else [])
  {
    assert rows[..k + 1][..k] == rows[..k];
  }

  method LinkNode(uuid: string, node: Node, rows: seq<Inbound>) returns (lines: seq<Uri>)
    ensures lines == NodeUris(uuid, node, rows)
  {
    lines := [];
    var names := new Tracker();
    for k := 0 to |rows|
      invariant fresh(names) && names.Valid() && names.asked == LinkBases(node, rows[..k])
      invariant lines == NodeUris(uuid, node, rows[..k])
    {
      LinksStep(uuid, node, rows, k);
      if rows[k].enabled {
        var uri := BuildUri(uuid, node, rows[k], names);
        if uri.Some? { lines := lines + [uri.value]; }
      }
    }
    assert rows[..|rows|] == rows;
  }

  method GenerateSubscription(uuid: string, nodes: seq<Served>) returns (lines: seq<Uri>)
    ensures lines == Uris(uuid, nodes)
  {
    lines := [];
    for i := 0 to |nodes|
      invariant lines == Uris(uuid, nodes[..i])
    {
      assert nodes[..i + 1][..i] == nodes[..i];
      if nodes[i].node.enabled {
        var made := LinkNode(uuid, nodes[i].node, nodes[i].rows);
        lines := lines + made;
      }
    }
    assert nodes[..|nodes|] == nodes;
  }

  method ProxyNode(uuid: string, node: Node, rows: seq<Inbound>) returns (proxies: seq<Proxy>)
    ensures proxies == NodeProxies(uuid, node, rows)
  {
    proxies := [];
    var names := new Tracker();
    for k := 0 to |rows|
      invariant fresh(names) && names.Valid() && names.asked == ClashBases(node, rows[..k])
      invariant proxies == NodeProxies(uuid, node, rows[..k])
    {
      assert rows[..k + 1][..k] == rows[..k];
      if rows[k].enabled {
        var name := names.Next(Base(node, rows[k]));
        var entry := ProxyOf(uuid, node, rows[k], name);
        if entry.Some? { proxies := proxies + [entry.value]; }
      }
    }
    assert rows[..|rows|] == rows;
  }

  method GenerateClashConfig(uuid: string, nodes: seq<Served>) returns (proxies: seq<Proxy>)
    ensures proxies == Proxies(uuid, nodes)
  {
    proxies := [];
    for i := 0 to |nodes|
      invariant proxies == Proxies(uuid, nodes[..i])
    {
      assert nodes[..i + 1][..i] == nodes[..i];
      if nodes[i].node.enabled {
        var made := ProxyNode(uuid, nodes[i].node, nodes[i].rows);
        proxies := proxies + made;
      }
    }
    assert nodes[..|nodes|] == nodes;
  }

  // ---- both formats list the same endpoints ----

  function DialUris(uris: seq<Uri>): seq<Endpoint> {
    seq(|uris|, k requires 0 <= k < |uris| => DialUri(uris[k]))
  }

  function DialProxies(proxies: seq<Proxy>): seq<Endpoint> {
    seq(|proxies|, k requires 0 <= k < |proxies| => DialProxy(proxies[k]))
  }

  lemma DialConcat(a: seq<Uri>, b: seq<Uri>, c: seq<Proxy>, d: seq<Proxy>)
    requires DialUris(a) == DialProxies(c) && DialUris(b) == DialProxies(d)
    ensures DialUris(a + b) == DialProxies(c + d)
  {
    assert DialUris(a + b) == DialUris(a) + DialUris(b) && DialProxies(c + d) == DialProxies(c) + DialProxies(d);
  }

  lemma {:induction false} SameNodeEndpoints(uuid: string, node: Node, rows: seq<Inbound>)
    ensures DialUris(NodeUris(uuid, node, rows)) == DialProxies(NodeProxies(uuid, node, rows))
    decreases |rows|
  {
    if rows != [] {
      var row := rows[|rows| - 1];
      SameNodeEndpoints(uuid, node, rows[..|rows| - 1]);
      var name := Named(Base(node, row), Occurrences(LinkBases(node, rows), Base(node, row)));
      var other := Named(Base(node, row), Occurrences(ClashBases(node, rows), Base(node, row)));
      SameEndpoint(uuid, node, row, name, other);
      DialConcat(NodeUris(uuid, node, rows[..|rows| - 1]),
                 if row.enabled then Listed(UriOf(uuid, node, row, name)) else [],
                 NodeProxies(uuid, node, rows[..|rows| - 1]),
                 if row.enabled then Listed(ProxyOf(uuid, node, row, other)) else []);
    }
  }

  /** The two formats give a client the same endpoints in the same order. */
  lemma {:induction false} SameEndpoints(uuid: string, nodes: seq<Served>)
    ensures DialUris(Uris(uuid, nodes)) == DialProxies(Proxies(uuid, nodes))
    decreases |nodes|
  {
    if nodes != [] {
      var n := nodes[|nodes| - 1];
      SameEndpoints(uuid, nodes[..|nodes| - 1]);
      SameNodeEndpoints(uuid, n.node, n.rows);
      DialConcat(Uris(uuid, nodes[..|nodes| - 1]), if n.node.enabled then NodeUris(uuid, n.node, n.rows) else [],
                 Proxies(uuid, nodes[..|nodes| - 1]), if n.node.enabled then NodeProxies(uuid, n.node, n.rows) else []);
    }
  }

  // ---- Clash names are distinct ----

  /** `name` reads back as a name of this node, with a counter already given out. */
  ghost predicate NamedOn(name: string, node: Node, rows: seq<Inbound>) {
    var o := ReadName(name);
    && o.node == node.name && o.kind in KINDS && name !in {"Proxy", "Auto", "DIRECT"}
    && 0 < o.k <= Occurrences(ClashBases(node, rows), node.name + "-" + o.kind)
  }

  lemma {:induction false} NodeNames(uuid: string, node: Node, rows: seq<Inbound>)
    ensures forall p | p in NodeProxies(uuid, node, rows) :: NamedOn(p.name, node, rows)
    ensures forall i, j | 0 <= i < j < |NodeProxies(uuid, node, rows)| ::
              NodeProxies(uuid, node, rows)[i].name != NodeProxies(uuid, node, rows)[j].name
    decreases |rows|
  {
    if rows != [] {
      var init, row := rows[..|rows| - 1], rows[|rows| - 1];
      NodeNames(uuid, node, init);
      CountsGrow(node, rows);
      if row.enabled && Kind(row.protocol) != "" { OneMoreName(uuid, node, rows); }
    }
  }

  lemma OneMoreName(uuid: string, node: Node, rows: seq<Inbound>)
    requires rows != [] && rows[|rows| - 1].enabled && Kind(rows[|rows| - 1].protocol) != ""
    requires var before := NodeProxies(uuid, node, rows[..|rows| - 1]);
             && (forall p | p in before :: NamedOn(p.name, node, rows[..|rows| - 1]))
             && (forall i, j | 0 <= i < j < |before| :: before[i].name != before[j].name)
    ensures forall p | p in NodeProxies(uuid, node, rows) :: NamedOn(p.name, node, rows)
    ensures forall i, j | 0 <= i < j < |NodeProxies(uuid, node, rows)| ::
              NodeProxies(uuid, node, rows)[i].name != NodeProxies(uuid, node, rows)[j].name
  {
    var row := rows[|rows| - 1];
    var k := Occurrences(ClashBases(node, rows), Base(node, row));
    CountsGrow(node, rows);
    LabelBack(node.name, Kind(row.protocol), k);
    LabelIsNotReserved(node.name, Kind(row.protocol), k);
    NewName(uuid, node, rows, k);
    var before := NodeProxies(uuid, node, rows[..|rows| - 1]);
    forall p | p in before ensures NamedOn(p.name, node, rows) { assert NamedOn(p.name, node, rows[..|rows| - 1]); }
    var last := LastProxy(uuid, node, rows);
  }

  /** The last row adds one proxy at most, under its own name. */
  lemma LastProxy(uuid: string, node: Node, rows: seq<Inbound>) returns (last: seq<Proxy>)
    requires rows != [] && rows[|rows| - 1].enabled
    ensures NodeProxies(uuid, node, rows) == NodeProxies(uuid, node, rows[..|rows| - 1]) + last && |last| <= 1
    ensures var base := Base(node, rows[|rows| - 1]);
            forall p | p in last :: p.name == Named(base, Occurrences(ClashBases(node, rows), base))
  {
    var row := rows[|rows| - 1];
    var base := Base(node, row);
    last := Listed(ProxyOf(uuid, node, row, Named(base, Occurrences(ClashBases(node, rows), base))));
  }

  lemma CountsGrow(node: Node, rows: seq<Inbound>)
    requires rows != []
    ensures forall b :: Occurrences(ClashBases(node, rows[..|rows| - 1]), b) <= Occurrences(ClashBases(node, rows), b)
    ensures var row := rows[|rows| - 1];
            row.enabled ==> Occurrences(ClashBases(node, rows), Base(node, row))
                            == Occurrences(ClashBases(node, rows[..|rows| - 1]), Base(node, row)) + 1
  {
    var bases := ClashBases(node, rows);
    var before := ClashBases(node, rows[..|rows| - 1]);
    if rows[|rows| - 1].enabled { assert bases[..|bases| - 1] == before; } else { assert bases == before; }
  }

  lemma NewName(uuid: string, node: Node, rows: seq<Inbound>, k: nat)
    requires rows != [] && rows[|rows| - 1].enabled && Kind(rows[|rows| - 1].protocol) != ""
    requires k == Occurrences(ClashBases(node, rows[..|rows| - 1]), Base(node, rows[|rows| - 1])) + 1
    requires ReadName(Named(Base(node, rows[|rows| - 1]), k)) == Origin(node.name, Kind(rows[|rows| - 1].protocol), k)
    requires forall p | p in NodeProxies(uuid, node, rows[..|rows| - 1]) :: NamedOn(p.name, node, rows[..|rows| - 1])
    ensures forall p | p in NodeProxies(uuid, node, rows[..|rows| - 1]) ::
              p.name != Named(Base(node, rows[|rows| - 1]), k)
  {
  }

  /** Each name comes from one of the nodes. */
  lemma {:induction false} NamesComeFromNodes(uuid: string, nodes: seq<Served>)
    ensures forall p | p in Proxies(uuid, nodes) ::
              && p.name !in {"Proxy", "Auto", "DIRECT"}
              && exists i :: 0 <= i < |nodes| && ReadName(p.name).node == nodes[i].node.name
    decreases |nodes|
  {
    if nodes != [] {
      var init, n := nodes[..|nodes| - 1], nodes[|nodes| - 1];
      NamesComeFromNodes(uuid, init);
      NodeNames(uuid, n.node, n.rows);
      forall p | p in Proxies(uuid, nodes)
        ensures p.name !in {"Proxy", "Auto", "DIRECT"}
        ensures exists i :: 0 <= i < |nodes| && ReadName(p.name).node == nodes[i].node.name
      {
        if p in Proxies(uuid, init) {
          var i :| 0 <= i < |init| && ReadName(p.name).node == init[i].node.name;
          assert nodes[i] == init[i];
        } else {
          assert NamedOn(p.name, n.node, n.rows);
          assert ReadName(p.name).node == nodes[|nodes| - 1].node.name;
        }
      }
    }
  }

  /** Over nodes with distinct names, the proxy names of a whole Clash file are pairwise distinct and
      clash with none of the group names. */
  lemma {:induction false} NamesDistinct(uuid: string, nodes: seq<Served>)
    requires forall i, j | 0 <= i < j < |nodes| :: nodes[i].node.name != nodes[j].node.name
    ensures forall p | p in Proxies(uuid, nodes) :: p.name !in {"Proxy", "Auto", "DIRECT"}
    ensures forall i, j | 0 <= i < j < |Proxies(uuid, nodes)| ::
              Proxies(uuid, nodes)[i].name != Proxies(uuid, nodes)[j].name
    decreases |nodes|
  {
    NamesComeFromNodes(uuid, nodes);
    if nodes != [] {
      var init, n := nodes[..|nodes| - 1], nodes[|nodes| - 1];
      NamesDistinct(uuid, init);
      NodeNames(uuid, n.node, n.rows);
      NamesComeFromNodes(uuid, init);
      var front, back := Proxies(uuid, init), NodeProxies(uuid, n.node, n.rows);
      forall p, q | p in front && q in back ensures p.name != q.name {
        var i :| 0 <= i < |init| && ReadName(p.name).node == init[i].node.name;
        assert init[i] == nodes[i] && NamedOn(q.name, n.node, n.rows);
      }
    }
  }
}
