/** Auto-setup (HandleAutoSetup in handler/setup.go): a loop over protocols writes
    inbound rows one by one and logs how to undo them; any failing step undoes the
    whole run. What the node, DNS and the certificate authority answer is arbitrary,
    and every database write of the run may fail. */
module Setup {
  import opened Tables
  import opened Generator
  import opened Views
  import opened PushOutcome
  import opened EditProtocol
  import opened Rollback
  import opened Stores
  import opened Panel
  import opened Ports
  import opened Identity

  datatype Logged = Logged(id: int, row: Inbound)

  datatype Request = Request(domain: string, protocols: seq<string>, ports: map<string, int>,
                             profile: string, sni: string)

  datatype Outcome =
    | Refused
    | NothingApplied
    | RolledBack
    | RestoreFailed
    | RollbackFailed
    | Done

  /** How a write of the run fares. */
  datatype Fate = Works | FailsBefore | FailsAfter

  /** What the node, DNS, the certificate authority and the database answer while one protocol is set up:
      its listening ports, whether the domain leads to the node, whether there is a valid certificate, a
      generated key pair and short id, whether the Reality target in question passes its probe, the target
      the probe names, and how the write of the row fares. */
  datatype World = World(probe: Probe, resolves: bool, certificate: bool, keypair: Option<(string, string)>,
                         shortId: string, passes: bool, probed: string, write: Fate)

  /** The answers suffice for the protocol, given its stored row. */
  ghost predicate Suffices(protocol: string, stored: Option<Logged>, domain: string, req: Request, w: World) {
    match protocol
    case "hysteria2" => domain != "" && w.resolves && w.certificate
    case "vless-reality" =>
      var s := if stored.Some? then stored.value.row.settings else map[];
      && ((Text(s, "private_key") != "" && Text(s, "public_key") != "")
          || (w.keypair.Some? && w.keypair.value.0 != "" && w.keypair.value.1 != ""))
      && if req.sni != "" then w.passes else (Text(s, "sni") != "" && w.passes) || w.probed != ""
    case "vless-httpupgrade" =>
      && domain != ""
      && (w.certificate
          || (stored.Some? && Text(stored.value.row.settings, "domain") == domain
              && Requested(req, protocol) in {0, stored.value.row.port}))
    case _ => false
  }

  predicate DomainBound(protocol: string) { protocol == "hysteria2" || protocol == "vless-httpupgrade" }

  // ---- the log ----

  function PutSettings(row: Inbound, tag: string, protocol: string, port: int, settings: Settings): Inbound {
    row.(tag := tag, protocol := protocol, port := port, settings := settings)
  }

  /** The rows `now` come from `start` by creating `created` and rewriting `updated`, which holds
      each rewritten row as it was. */
  ghost predicate Undoable(start: map<int, Inbound>, now: map<int, Inbound>, created: seq<int>, updated: seq<Logged>) {
    && (forall c | c in created :: c in now && c !in start)
    && (forall i, j | 0 <= i < j < |created| :: created[i] != created[j])
    && (forall u | u in updated :: u.id in start && u.row == start[u.id])
    && (forall i :: i in now <==> i in start || i in created)
    && (forall i | i in start && now[i] != start[i] ::
          && Logged(i, start[i]) in updated
          && now[i] == PutSettings(start[i], now[i].tag, now[i].protocol, now[i].port, now[i].settings))
  }

  lemma UndoneRemoval(start: map<int, Inbound>, now: map<int, Inbound>, created: seq<int>, updated: seq<Logged>)
    requires Undoable(start, now, created, updated) && created != []
    ensures Undoable(start, now - {created[0]}, created[1..], updated)
  {
  }

  lemma UndoneUpdate(start: map<int, Inbound>, now: map<int, Inbound>, updated: seq<Logged>)
    requires Undoable(start, now, [], updated) && updated != []
    ensures var u := updated[0];
            && u.id in now
            && PutSettings(now[u.id], u.row.tag, u.row.protocol, u.row.port, u.row.settings) == start[u.id]
            && Undoable(start, now[u.id := start[u.id]], [], updated[1..])
  {
  }

  lemma LogCreated(start: map<int, Inbound>, now: map<int, Inbound>, created: seq<int>, updated: seq<Logged>, id: int,
                   row: Inbound)
    requires Undoable(start, now, created, updated) && id !in now
    ensures Undoable(start, now[id := row], created + [id], updated)
  {
  }

  lemma LogUpdated(start: map<int, Inbound>, now: map<int, Inbound>, created: seq<int>, updated: seq<Logged>, u: Logged)
    requires Undoable(start, now, created, updated) && u.id in start && u.row == start[u.id]
    ensures Undoable(start, now, created, updated + [u])
  {
  }

  lemma AllUndone(start: map<int, Inbound>, now: map<int, Inbound>)
    requires Undoable(start, now, [], [])
    ensures now == start
  {
    assert forall i :: i in now <==> i in start;
    assert forall i | i in now :: now[i] == start[i];
  }

  /** What holds of the tables at every moment of a run, whatever failed: only rows and the domain of
      node `n` have changed, and no row has lost its identity. */
  ghost predicate OnlyNode(start: Db, now: Db, n: int) {
    && Tables.Valid(start) && NamesUnique(start) && n in start.nodes && n in now.nodes
    && now == start.(nodes := start.nodes[n := start.nodes[n].(domain := now.nodes[n].domain)],
                     inbounds := now.inbounds,
                     nextInbound := now.nextInbound)
    && start.nextInbound <= now.nextInbound
    && (forall i | i in now.inbounds ::
          i < now.nextInbound && (i in start.inbounds || (i >= start.nextInbound && now.inbounds[i].node == n)))
    && (forall i | i in start.inbounds && start.inbounds[i].node != n ::
          i in now.inbounds && now.inbounds[i] == start.inbounds[i])
    && (forall i | i in start.inbounds && start.inbounds[i].node == n :: i in now.inbounds && now.inbounds[i].node == n)
    && AllKept(start.inbounds, now.inbounds)
  }

  lemma RowRewritten(start: Db, now: Db, n: int, i: int, row: Inbound)
    requires OnlyNode(start, now, n) && i in start.inbounds && start.inbounds[i].node == n
    requires row.node == n && IdentityKept(start.inbounds[i], row)
    ensures OnlyNode(start, now.(inbounds := now.inbounds[i := row]), n)
  {
  }

  lemma LoggedRewrite(start: Db, now: Db, n: int, created: seq<int>, updated: seq<Logged>, u: Logged, port: int,
                      settings: Settings)
    returns (row: Inbound)
    requires OnlyNode(start, now, n) && Undoable(start.inbounds, now.inbounds, created, updated)
    requires u in updated && u.row.node == n && IdentityKept(u.row, u.row.(settings := settings))
    ensures row == PutSettings(u.row, u.row.protocol, u.row.protocol, port, settings)
    ensures u.id in now.inbounds && row == PutSettings(now.inbounds[u.id], row.tag, row.protocol, port, settings)
    ensures OnlyNode(start, now.(inbounds := now.inbounds[u.id := row]), n)
    ensures Undoable(start.inbounds, now.inbounds[u.id := row], created, updated)
  {
    row := PutSettings(u.row, u.row.protocol, u.row.protocol, port, settings);
    RowRewritten(start, now, n, u.id, row);
  }

  // ---- one run ----

  /** The row the run goes on with for each protocol: the last one listed. */
  function Existing(rows: map<int, Inbound>, ids: seq<int>, protocol: string): Option<Logged>
    requires forall i | i in ids :: i in rows
  {
    if ids == [] then None
    else
      var i := ids[|ids| - 1];
      if rows[i].protocol == protocol then Some(Logged(i, rows[i])) else Existing(rows, ids[..|ids| - 1], protocol)
  }

  lemma {:induction false} ExistingIsRow(rows: map<int, Inbound>, ids: seq<int>, protocol: string)
    requires forall i | i in ids :: i in rows
    ensures Existing(rows, ids, protocol).Some? ==>
              var e := Existing(rows, ids, protocol).value;
              e.id in rows && e.row == rows[e.id] && e.row.protocol == protocol
    ensures Existing(rows, ids, protocol).None? ==> forall i | i in ids :: rows[i].protocol != protocol
    decreases |ids|
  {
    if ids != [] {
      assert ids == ids[..|ids| - 1] + [ids[|ids| - 1]];
      ExistingIsRow(rows, ids[..|ids| - 1], protocol);
    }
  }

  /** That is the last row of the protocol in the order of the panel. */
  lemma {:induction false} StoredForIs(db: Db, n: int, protocol: string)
    ensures var e := StoredFor(db, n, protocol);
            && (e.None? ==>
                  forall i | i in db.inbounds && db.inbounds[i].node == n :: db.inbounds[i].protocol != protocol)
            && (e.Some? ==>
                  && e.value.id in db.inbounds && e.value.row == db.inbounds[e.value.id]
                  && e.value.row.node == n && e.value.row.protocol == protocol
                  && forall i | i in db.inbounds && db.inbounds[i].node == n && db.inbounds[i].protocol == protocol ::
                       || db.inbounds[i].sortOrder < e.value.row.sortOrder
                       || (db.inbounds[i].sortOrder == e.value.row.sortOrder && i <= e.value.id))
  {
    var rows := RowsOf(db, n);
    var ids := InboundOrder(rows);
    ExistingIsRow(rows, ids, protocol);
    ExistingIsLast(rows, ids, protocol);
    forall i | i in db.inbounds && db.inbounds[i].node == n ensures i in ids { assert i in rows; }
  }

  lemma {:induction false} ExistingIsLast(rows: map<int, Inbound>, ids: seq<int>, protocol: string)
    requires forall i | i in ids :: i in rows
    requires forall k | 0 <= k < |ids| :: ids[k] in rows
    requires forall i, j | 0 <= i < j < |ids| :: ids[i] != ids[j] && Precedes(rows, ids[i], ids[j])
    ensures Existing(rows, ids, protocol).Some? ==>
              var e := Existing(rows, ids, protocol).value;
              e.id in rows && forall i | i in ids && rows[i].protocol == protocol :: Precedes(rows, i, e.id)
    decreases |ids|
  {
    if ids != [] {
      var init, last := ids[..|ids| - 1], ids[|ids| - 1];
      assert ids == init + [last];
      if rows[last].protocol == protocol {
        forall i | i in ids ensures Precedes(rows, i, last) {
          var k :| 0 <= k < |ids| && ids[k] == i;
        }
      } else {
        ExistingIsLast(rows, init, protocol);
      }
    }
  }

  function Requested(req: Request, protocol: string): int {
    if protocol in req.ports then req.ports[protocol] else 0
  }

  /** The address clients dial: the node's own, unless the domain leads there directly. */
  predicate Reaches(server: string, host: string, domain: string) {
    server == host || (domain != "" && server == domain)
  }

  predicate NamesCertificate(s: Settings, domain: string) {
    && Text(s, "cert_path") == "/etc/sing-box/tls/" + domain + ".crt"
    && Text(s, "key_path") == "/etc/sing-box/tls/" + domain + ".key"
  }

  /** The row has what its protocol is bound to, and what the request asked for. */
  ghost predicate Meets(row: Inbound, protocol: string, host: string, domain: string, req: Request) {
    var s := row.settings;
    && row.protocol == protocol
    && (protocol in req.ports && req.ports[protocol] != 0 ==> row.port == req.ports[protocol])
    && (protocol in {"hysteria2", "vless-httpupgrade"} ==> Text(s, "domain") == domain)
    && (protocol == "vless-reality" ==>
          && Text(s, "sni") != "" && (req.sni != "" ==> Text(s, "sni") == req.sni)
          && Reaches(Text(s, "server"), host, domain))
    && (protocol == "hysteria2" ==>
          && NamesCertificate(s, domain)
          && (req.profile != "" ==> HysteriaProfile(s) == req.profile)
          && (HysteriaProfile(s) == "salamander" ==> Text(s, "obfs_password") != ""))
  }

  /** What a row that was just written has besides: complete credentials, a handshake with the target
      itself, the certificate of the domain. */
  ghost predicate Fresh(row: Inbound, domain: string) {
    var s := row.settings;
    && row.tag == row.protocol
    && (row.protocol in {"hysteria2", "vless-httpupgrade"} ==> NamesCertificate(s, domain))
    && (row.protocol == "vless-reality" ==>
          && Text(s, "private_key") != "" && Text(s, "public_key") != "" && Text(s, "short_id") != ""
          && Text(s, "fingerprint") == "chrome"
          && Text(s, "handshake_server") == Text(s, "sni")
          && "handshake_port" in s && s["handshake_port"] == Num(443.0))
    && (row.protocol == "vless-httpupgrade" ==> Text(s, "path") != "")
  }

  function HostOf(db: Db, n: int): string { if n in db.nodes then db.nodes[n].host else "" }

  function StoredFor(start: Db, n: int, protocol: string): Option<Logged> {
    Existing(RowsOf(start, n), InboundOrder(RowsOf(start, n)), protocol)
  }

  /** A client and the server can complete a Reality handshake. */
  predicate Keyed(s: Settings) {
    Text(s, "private_key") != "" && Text(s, "public_key") != "" && Text(s, "short_id") != ""
  }

  /** What a finished run leaves for a protocol: a row it has written, or one it found and left as it
      was because it meets the request already. A new row is switched on. */
  ghost predicate Serves(inbounds: map<int, Inbound>, n: int, protocol: string, domain: string, req: Request,
                         start: Db) {
    exists i :: i in inbounds && inbounds[i].node == n && Meets(inbounds[i], protocol, HostOf(start, n), domain, req)
                && (Fresh(inbounds[i], domain) || StoredFor(start, n, protocol) == Some(Logged(i, inbounds[i])))
                && (StoredFor(start, n, protocol).None? ==> inbounds[i].enabled)
  }

  ghost predicate Handshakes(inbounds: map<int, Inbound>, n: int) {
    exists i ::
      i in inbounds && inbounds[i].node == n && inbounds[i].protocol == "vless-reality" && Keyed(inbounds[i].settings)
  }

  // ---- the Reality row ----

  datatype Keys = Keys(privateKey: string, publicKey: string, shortId: string)

  /** What the node and the request decide about a Reality row. */
  datatype Plan = Plan(port: int, sni: string, keys: Keys, server: string)

  /** The node has the Reality row that the plan describes. */
  ghost predicate Follows(inbounds: map<int, Inbound>, n: int, plan: Plan) {
    exists i ::
      && i in inbounds && inbounds[i].node == n && inbounds[i].protocol == "vless-reality"
      && inbounds[i].port == plan.port
      && Text(inbounds[i].settings, "sni") == plan.sni && Text(inbounds[i].settings, "server") == plan.server
  }

  /** The guard behind "already configured": it looks at neither key nor short id. */
  predicate SkipGuard(row: Inbound, plan: Plan) {
    plan.port == row.port && plan.sni == Text(row.settings, "sni") && plan.server == Text(row.settings, "server")
  }

  /** The settings the row has after a run that reports no error. */
  function Planned(e: Option<Logged>, plan: Plan): Settings {
    if e.Some? && SkipGuard(e.value.row, plan) then e.value.row.settings
    else RealitySettings(plan.sni, plan.keys.privateKey, plan.keys.publicKey, plan.keys.shortId, plan.server)
  }

  function OldSettings(e: Option<Logged>): Settings { if e.Some? then e.value.row.settings else map[] }

  lemma PlannedFollows(inbounds: map<int, Inbound>, n: int, e: Option<Logged>, plan: Plan)
    requires HasRow(inbounds, n, "vless-reality", plan.port, Planned(e, plan)) && KeysKept(OldSettings(e), plan.keys)
    ensures Follows(inbounds, n, plan)
  {
    RealityKeepsIdentity(OldSettings(e), plan.sni, plan.keys, plan.server);
  }

  /** Exactly when the row has credentials afterwards: it was absent or had them, or the guard failed. */
  lemma KeyedIff(e: Option<Logged>, plan: Plan)
    requires KeysKept(OldSettings(e), plan.keys)
    ensures Keyed(Planned(e, plan)) <==> e.None? || Keyed(e.value.row.settings) || !SkipGuard(e.value.row, plan)
  {
    RealityKeepsIdentity(OldSettings(e), plan.sni, plan.keys, plan.server);
  }

  /** A stored row without its public key, and a run that finds the port, the target and the address
      unchanged: the generated pair is dropped. */
  lemma HalfKeyIsSkipped(id: int, node: int, port: int, sni: string, server: string, privateKey: string, keys: Keys)
    returns (e: Option<Logged>, plan: Plan)
    requires privateKey != "" && keys.privateKey != "" && keys.publicKey != "" && keys.shortId != ""
    ensures KeysKept(OldSettings(e), plan.keys) && plan.keys == keys && e.Some? && SkipGuard(e.value.row, plan)
    ensures !Keyed(Planned(e, plan)) && Text(Planned(e, plan), "public_key") == ""
  {
    var settings := map["sni" := Str(sni), "server" := Str(server), "private_key" := Str(privateKey)];
    e := Some(Logged(id, Inbound(node, "vless-reality", "vless-reality", port, settings, true, 0)));
    plan := Plan(port, sni, keys, server);
    assert Text(settings, "sni") == sni && Text(settings, "server") == server;
    assert Text(settings, "public_key") == "" && Text(settings, "short_id") == "";
  }

  /** Rows of other protocols are as they were. */
  ghost predicate Untouched(before: map<int, Inbound>, after: map<int, Inbound>, protocol: string) {
    forall i | i in before && before[i].protocol != protocol :: i in after && after[i] == before[i]
  }

  ghost predicate HasRow(inbounds: map<int, Inbound>, n: int, protocol: string, port: int, settings: Settings) {
    exists i :: i in inbounds && inbounds[i].node == n && inbounds[i].protocol == protocol && inbounds[i].port == port
                && inbounds[i].settings == settings
  }

  /** Such a row, written in place of `e`, or switched on when there was none. */
  ghost predicate Rewrote(inbounds: map<int, Inbound>, n: int, protocol: string, port: int, settings: Settings,
                         e: Option<Logged>) {
    exists i ::
      && i in inbounds && inbounds[i].node == n && inbounds[i].protocol == inbounds[i].tag == protocol
      && inbounds[i].port == port && inbounds[i].settings == settings
      && if e.Some? then i == e.value.id && inbounds[i].enabled == e.value.row.enabled else inbounds[i].enabled
  }

  /** The rows of protocols the run has not come to are as they were. */
  ghost predicate Ahead(start: map<int, Inbound>, now: map<int, Inbound>, done: seq<string>) {
    forall i | i in start && start[i].protocol !in done :: i in now && now[i] == start[i]
  }

  ghost predicate AllServed(inbounds: map<int, Inbound>, n: int, done: seq<string>, domain: string, req: Request,
                            start: Db) {
    forall p | p in done :: Serves(inbounds, n, p, domain, req, start)
  }

  /** The answers suffice for the first `k` protocols. */
  ghost predicate AllSuffice(start: Db, n: int, domain: string, req: Request, worlds: seq<World>, k: int) {
    k <= |worlds| == |req.protocols|
    && forall l | 0 <= l < k ::
         Suffices(req.protocols[l], StoredFor(start, n, req.protocols[l]), domain, req, worlds[l])
  }

  /** There was an error among the first `k` protocols if some answers did not suffice, and none if they
      all did and every write works. */
  ghost predicate Fair(start: Db, n: int, domain: string, req: Request, worlds: seq<World>, k: int, hadError: bool) {
    && (!hadError ==> AllSuffice(start, n, domain, req, worlds, k))
    && (AllSuffice(start, n, domain, req, worlds, k) && (forall l | 0 <= l < k :: worlds[l].write.Works?) ==> !hadError)
  }

  lemma FairNext(start: Db, n: int, domain: string, req: Request, worlds: seq<World>, k: nat, hadError: bool, ok: bool)
    requires Fair(start, n, domain, req, worlds, k, hadError) && k < |worlds| == |req.protocols|
    requires var good := Suffices(req.protocols[k], StoredFor(start, n, req.protocols[k]), domain, req, worlds[k]);
             (good && worlds[k].write.Works? ==> ok) && (ok ==> good)
    ensures Fair(start, n, domain, req, worlds, k + 1, hadError || !ok)
  {
  }

  lemma NextProtocol(start: Db, before: map<int, Inbound>, after: map<int, Inbound>, n: int,
                     done: seq<string>, protocol: string, domain: string, req: Request)
    requires Ahead(start.inbounds, before, done) && Untouched(before, after, protocol) && protocol !in done
    ensures Ahead(start.inbounds, after, done + [protocol])
    ensures AllServed(before, n, done, domain, req, start) && Serves(after, n, protocol, domain, req, start) ==>
              AllServed(after, n, done + [protocol], domain, req, start)
  {
  }

  /** The row a run writes. */
  function RunRow(n: int, protocol: string, port: int, settings: Settings): Inbound {
    Inbound(n, protocol, protocol, port, settings, true, 0)
  }

  ghost predicate Suits(row: Inbound, host: string, domain: string, req: Request) {
    Meets(row, row.protocol, host, domain, req) && Fresh(row, domain)
  }

  lemma SettingsBind(stored: Settings, requested: string, domain: string, password: string)
    requires password != ""
    ensures var s := HysteriaSettings(stored, requested, domain, password);
            && Text(s, "domain") == domain && NamesCertificate(s, domain)
            && (requested != "" ==> HysteriaProfile(s) == requested)
            && (HysteriaProfile(s) == "salamander" ==> Text(s, "obfs_password") != "")
  {
  }

  lemma HysteriaSuits(n: int, port: int, stored: Settings, password: string, host: string, domain: string, req: Request)
    requires password != "" && (Requested(req, "hysteria2") != 0 ==> port == Requested(req, "hysteria2"))
    ensures var settings := HysteriaSettings(stored, req.profile, domain, password);
            Suits(RunRow(n, "hysteria2", port, settings), host, domain, req)
  {
    SettingsBind(stored, req.profile, domain, password);
  }

  lemma RewrittenServes(inbounds: map<int, Inbound>, n: int, protocol: string, port: int, settings: Settings,
                        domain: string, req: Request, start: Db)
    requires Rewrote(inbounds, n, protocol, port, settings, StoredFor(start, n, protocol))
    requires Suits(RunRow(n, protocol, port, settings), HostOf(start, n), domain, req)
    ensures Serves(inbounds, n, protocol, domain, req, start)
  {
  }

  method RandomHex() returns (s: string)
    ensures s != ""
  {
    s := *;
    if s == "" { s := "0"; }
  }

  /** chooseRealitySNI: a requested target must pass the probe, a stored one is kept while it does,
      and otherwise the probe names one. */
  method ChooseRealitySni(stored: string, requested: string, w: World) returns (sni: Option<string>)
    ensures requested != "" ==> sni == if w.passes then Some(requested) else None
    ensures requested == "" && stored != "" && w.passes ==> sni == Some(stored)
    ensures requested == "" && (stored == "" || !w.passes) ==> sni == if w.probed != "" then Some(w.probed) else None
  {
    if requested != "" { return if w.passes then Some(requested) else None; }
    if stored != "" && w.passes { return Some(stored); }
    sni := if w.probed != "" then Some(w.probed) else None;
  }

  ghost predicate KeysKept(stored: Settings, keys: Keys) {
    && keys.privateKey != "" && keys.publicKey != "" && keys.shortId != ""
    && (Text(stored, "private_key") == "" || Text(stored, "public_key") == ""
        || (keys.privateKey == Text(stored, "private_key") && keys.publicKey == Text(stored, "public_key")))
    && (Text(stored, "short_id") == "" || keys.shortId == Text(stored, "short_id"))
  }

  /** The stored key pair and short id; what is missing is generated on the node. */
  method RealityKeys(stored: Settings, w: World) returns (keys: Option<Keys>)
    ensures keys.Some? ==> KeysKept(stored, keys.value)
    ensures keys.None? <==> !((Text(stored, "private_key") != "" && Text(stored, "public_key") != "")
                              || (w.keypair.Some? && w.keypair.value.0 != "" && w.keypair.value.1 != ""))
    ensures keys.Some? && (Text(stored, "private_key") == "" || Text(stored, "public_key") == "") ==>
              (keys.value.privateKey, keys.value.publicKey) == w.keypair.value
    ensures keys.Some? && Text(stored, "short_id") == "" && w.shortId != "" ==> keys.value.shortId == w.shortId
  {
    var privateKey, publicKey := Text(stored, "private_key"), Text(stored, "public_key");
    var shortId := Text(stored, "short_id");
    if privateKey == "" || publicKey == "" {
      if w.keypair.None? { return None; }
      privateKey, publicKey := w.keypair.value.0, w.keypair.value.1;
      if privateKey == "" || publicKey == "" { return None; }
    }
    if shortId == "" {
      shortId := w.shortId;
      if shortId == "" { shortId := RandomHex(); }
    }
    keys := Some(Keys(privateKey, publicKey, shortId));
  }

  lemma RealityKeepsIdentity(stored: Settings, sni: string, keys: Keys, server: string)
    requires KeysKept(stored, keys)
    ensures var settings := RealitySettings(sni, keys.privateKey, keys.publicKey, keys.shortId, server);
            && Text(settings, "sni") == sni && Keyed(settings) && Text(settings, "server") == server
            && Text(settings, "handshake_server") == sni && Text(settings, "fingerprint") == "chrome"
            && "handshake_port" in settings && settings["handshake_port"] == Num(443.0)
            && forall row: Inbound | row.protocol == "vless-reality" && row.settings == stored ::
                 IdentityKept(row, row.(settings := settings))
  {
  }

  lemma UpgradeBinds(stored: Settings, domain: string, path: string)
    requires Text(stored, "path") == "" || path == Text(stored, "path")
    ensures var settings := UpgradeSettings(domain, path);
            && Text(settings, "domain") == domain && Text(settings, "path") == path
            && NamesCertificate(settings, domain)
            && forall row: Inbound | row.protocol == "vless-httpupgrade" && row.settings == stored ::
                 IdentityKept(row, row.(settings := settings))
  {
  }

  ghost predicate ListensOn(inbounds: map<int, Inbound>, n: int, protocol: string, port: int) {
    exists i :: i in inbounds && inbounds[i].node == n && inbounds[i].protocol == protocol && inbounds[i].port == port
  }

  function PortOf(e: Option<Logged>): int { if e.Some? then e.value.row.port else 0 }

  /** The protocol's row listens on the port that was to be picked for it. */
  ghost predicate PortPicked(inbounds: map<int, Inbound>, n: int, protocol: string, probe: Probe, current: int,
                             taken: set<int>) {
    exists i :: i in inbounds && inbounds[i].node == n && inbounds[i].protocol == protocol
                && Picked(probe, current, taken, inbounds[i].port)
  }

  /** The protocol's row listens on a port the run has handed out. */
  ghost predicate Listens(inbounds: map<int, Inbound>, n: int, protocol: string, taken: set<int>) {
    exists i :: i in inbounds && inbounds[i].node == n && inbounds[i].protocol == protocol && inbounds[i].port in taken
  }

  class Run {
    const panel: Panel
    const n: int
    const node: Node
    const req: Request
    const domain: string
    var created: seq<int>
    var updated: seq<Logged>
    const tcp: Reservations
    const udp: Reservations
    ghost const start: Db

    ghost predicate Within()
      reads this, panel, panel.db
    {
      OnlyNode(start, panel.db.State(), n) && node == start.nodes[n]
    }

    /** Every write so far is in the log. */
    ghost predicate Valid()
      reads this, panel, panel.db
    {
      && Within() && Undoable(start.inbounds, panel.db.inbounds, created, updated)
      && forall u | u in updated :: u.row.node == n
    }

    constructor (panel: Panel, n: int, req: Request)
      requires panel.Good() && n in panel.db.nodes
      ensures Valid() && node == panel.db.nodes[n] && start == old(panel.db.State()) && this.panel == panel
      ensures this.n == n && this.req == req
      ensures created == [] && updated == [] && domain == if req.domain == "" then node.domain else req.domain
      ensures fresh(tcp) && fresh(udp)
    {
      this.panel, this.n, this.req := panel, n, req;
      node := panel.db.nodes[n];
      domain := if req.domain == "" then panel.db.nodes[n].domain else req.domain;
      created, updated := [], [];
      tcp := new Reservations();
      udp := new Reservations();
      start := panel.db.State();
    }

    /** INSERT, which may fail. */
    method Create(protocol: string, port: int, settings: Settings, fate: Fate) returns (ok: bool)
      requires Valid()
      modifies this`created, panel.db
      ensures Valid() && panel.db.nodes == old(panel.db.nodes)
      ensures ok ==> panel.db.inbounds == old(panel.db.inbounds)[old(panel.db.nextInbound) :=
                                             Inbound(n, protocol, protocol, port, settings, true, 0)]
      ensures !ok ==> panel.db.State() == old(panel.db.State())
      ensures ok <==> fate.Works?
    {
      ok := fate.Works?;
      if !ok { return; }
      LogCreated(start.inbounds, panel.db.inbounds, created, updated, panel.db.nextInbound,
                 Inbound(n, protocol, protocol, port, settings, true, 0));
      var id := panel.db.CreateInbound(n, protocol, protocol, port, settings);
      created := created + [id];
    }

    /** UPDATE: it may fail before or after it took effect, so it is logged first. */
    method Update(e: Logged, port: int, settings: Settings, fate: Fate) returns (ok: bool)
      requires Valid() && e.id in start.inbounds && e.row == start.inbounds[e.id] && e.row.node == n
      requires IdentityKept(e.row, e.row.(settings := settings))
      modifies this`updated, panel.db
      ensures Valid() && panel.db.nodes == old(panel.db.nodes)
      ensures forall i | i in old(panel.db.inbounds) && i != e.id ::
                i in panel.db.inbounds && panel.db.inbounds[i] == old(panel.db.inbounds)[i]
      ensures ok ==> e.id in panel.db.inbounds
                     && panel.db.inbounds[e.id] == PutSettings(e.row, e.row.protocol, e.row.protocol, port, settings)
      ensures ok <==> fate.Works?
    {
      LogUpdated(start.inbounds, panel.db.inbounds, created, updated, e);
      updated := updated + [e];
      ok := fate.Works?;
      if fate.FailsBefore? { return; }
      ghost var row := LoggedRewrite(start, panel.db.State(), n, created, updated, e, port, settings);
      var found := panel.db.UpdateInbound(e.id, e.row.protocol, e.row.protocol, port, settings);
      assert found && panel.db.inbounds == old(panel.db.inbounds)[e.id := row];
    }

    method RemoveCreated() returns (ok: bool)
      requires Valid()
      modifies panel.db
      ensures Within() && panel.db.nodes == old(panel.db.nodes)
      ensures ok ==> Undoable(start.inbounds, panel.db.inbounds, [], updated)
    {
      ok := true;
      for k := 0 to |created|
        invariant Within() && panel.db.nodes == old(panel.db.nodes)
        invariant forall c | c in created :: c !in start.inbounds
        invariant ok ==> Undoable(start.inbounds, panel.db.inbounds, created[k..], updated)
      {
        assert created[k] in created;
        if ok { UndoneRemoval(start.inbounds, panel.db.inbounds, created[k..], updated); }
        var reached, answered := *, *;
        if reached {
          var found := panel.db.DeleteInbound(created[k]);
          ok := ok && found;
        }
        ok := ok && reached && answered;
      }
    }

    method RestoreUpdated(ghost sound: bool) returns (ok: bool)
      requires Within()
      requires forall u | u in updated :: u.id in start.inbounds && u.row == start.inbounds[u.id] && u.row.node == n
      requires sound ==> Undoable(start.inbounds, panel.db.inbounds, [], updated)
      modifies panel.db
      ensures Within() && panel.db.nodes == old(panel.db.nodes)
      ensures sound && ok ==> panel.db.inbounds == start.inbounds
    {
      ok := true;
      for k := 0 to |updated|
        invariant Within() && panel.db.nodes == old(panel.db.nodes)
        invariant sound && ok ==> Undoable(start.inbounds, panel.db.inbounds, [], updated[k..])
      {
        var u := updated[k];
        assert u in updated && u.id in panel.db.inbounds;
        if sound && ok { UndoneUpdate(start.inbounds, panel.db.inbounds, updated[k..]); }
        var reached, answered := *, *;
        if reached {
          ghost var now := panel.db.State();
          RowRewritten(start, now, n, u.id,
                       PutSettings(now.inbounds[u.id], u.row.tag, u.row.protocol, u.row.port, u.row.settings));
          var found := panel.db.UpdateInbound(u.id, u.row.tag, u.row.protocol, u.row.port, u.row.settings);
          ok := ok && found;
        }
        ok := ok && reached && answered;
      }
      if sound && ok {
        assert updated[|updated|..] == [];
        AllUndone(start.inbounds, panel.db.inbounds);
      }
    }

    /** NodeStore.Update of the domain, which may fail before or after it took effect. */
    method SetDomain(to: string, fate: Fate) returns (ok: bool)
      requires Within()
      modifies panel.db
      ensures Within() && panel.db.inbounds == old(panel.db.inbounds)
      ensures ok <==> fate.Works?
      ensures ok ==> panel.db.nodes[n].domain == to
      ensures panel.db.nodes[n].domain == to || panel.db.nodes[n].domain == old(panel.db.nodes[n].domain)
    {
      ok := fate.Works?;
      if !fate.FailsBefore? {
        var found := panel.db.UpdateDomain(n, to);
        assert found;
      }
    }

    /** rollbackDatabase: delete what was created, write back what was updated, restore the domain. It
        goes on past a write that fails, and any write may fail with or without effect. */
    method RollbackDatabase() returns (ok: bool)
      requires Valid() && (panel.db.nodes[n].domain == node.domain || domain != node.domain)
      modifies panel.db
      ensures Within()
      ensures ok ==> panel.db.State() == start.(nextInbound := panel.db.nextInbound)
    {
      var removed := RemoveCreated();
      var restored := RestoreUpdated(removed);
      ok := removed && restored;
      if domain != node.domain {
        var fate: Fate := *;
        var moved := SetDomain(node.domain, fate);
        ok := ok && moved;
      }
    }

    /** A stored row of this node that a protocol goes on with. */
    ghost predicate Stored(e: Option<Logged>, protocol: string)
      reads this, panel, panel.db
    {
      && e == StoredFor(start, n, protocol)
      && (e.None? || (
            && e.value.id in start.inbounds && e.value.row == start.inbounds[e.value.id]
            && e.value.row.node == n && e.value.row.protocol == protocol
            && e.value.id in panel.db.inbounds && panel.db.inbounds[e.value.id] == e.value.row))
    }

    /** The common end of the three protocols: rewrite the row or insert one. */
    method Store(e: Option<Logged>, protocol: string, port: int, settings: Settings, fate: Fate) returns (ok: bool)
      requires Valid() && Stored(e, protocol)
      requires e.Some? ==> IdentityKept(e.value.row, e.value.row.(settings := settings))
      requires Suits(RunRow(n, protocol, port, settings), HostOf(start, n), domain, req)
      modifies this`created, this`updated, panel.db
      ensures Valid() && panel.db.nodes == old(panel.db.nodes)
      ensures Untouched(old(panel.db.inbounds), panel.db.inbounds, protocol)
      ensures ok ==> Serves(panel.db.inbounds, n, protocol, domain, req, start)
      ensures ok <==> fate.Works?
      ensures ok ==> Rewrote(panel.db.inbounds, n, protocol, port, settings, e)
      ensures ok ==> HasRow(panel.db.inbounds, n, protocol, port, settings)
    {
      ghost var before := panel.db.inbounds;
      if e.Some? {
        ok := Update(e.value, port, settings, fate);
        if ok { assert panel.db.inbounds[e.value.id].settings == settings; }
      } else {
        ok := Create(protocol, port, settings, fate);
        if ok { assert panel.db.inbounds[old(panel.db.nextInbound)].settings == settings; }
      }
      assert e.Some? && e.value.id in before ==> before[e.value.id].protocol == protocol;
      if ok { RewrittenServes(panel.db.inbounds, n, protocol, port, settings, domain, req, start); }
    }

    method SetupHysteria(e: Option<Logged>, w: World) returns (ok: bool)
      requires Valid() && Stored(e, "hysteria2")
      modifies this`created, this`updated, panel.db, udp
      ensures Valid() && panel.db.nodes == old(panel.db.nodes)
      ensures Untouched(old(panel.db.inbounds), panel.db.inbounds, "hysteria2")
      ensures ok ==> Serves(panel.db.inbounds, n, "hysteria2", domain, req, start)
      ensures ok && Requested(req, "hysteria2") == 0 ==>
                PortPicked(panel.db.inbounds, n, "hysteria2", w.probe, PortOf(e), old(udp.ports))
      ensures Judged(ok, "hysteria2", e, w, old(panel.db.inbounds), panel.db.inbounds)
    {
      if domain == "" { return false; }
      var stored := if e.Some? then e.value.row.settings else map[];
      var currentPort := if e.Some? then e.value.row.port else 0;
      var password := RandomHex();
      var settings := HysteriaSettings(stored, req.profile, domain, password);
      var port := Requested(req, "hysteria2");
      if port == 0 {
        port := udp.SelectListenPort(w.probe, currentPort);
      }
      if !w.resolves || !w.certificate { return false; }
      HysteriaSuits(n, port, stored, password, node.host, domain, req);
      if e.Some? {
        HysteriaKeepsIdentity(e.value.row, req.profile, domain, password, port);
        if port == currentPort && settings == stored {
          Unchanged(e.value);
          return true;
        }
      }
      ok := Store(e, "hysteria2", port, settings, w.write);
    }

    /** The Reality row becomes what `plan` says, and keeps what identifies it. */
    method SetupReality(e: Option<Logged>, w: World) returns (ok: bool, plan: Plan)
      requires Valid() && Stored(e, "vless-reality")
      modifies this`created, this`updated, panel.db, tcp
      ensures Valid() && panel.db.nodes == old(panel.db.nodes)
      ensures Untouched(old(panel.db.inbounds), panel.db.inbounds, "vless-reality")
      ensures ok ==> Serves(panel.db.inbounds, n, "vless-reality", domain, req, start)
      ensures ok ==> KeysKept(OldSettings(e), plan.keys)
                     && HasRow(panel.db.inbounds, n, "vless-reality", plan.port, Planned(e, plan))
      ensures old(tcp.ports) <= tcp.ports
      ensures Judged(ok, "vless-reality", e, w, old(panel.db.inbounds), panel.db.inbounds)
      ensures ok ==> IsPlanned(e, w, plan, old(tcp.ports)) && Follows(panel.db.inbounds, n, plan)
    {
      plan := *;
      var made := PlanReality(e, w);
      if made.None? { return false, plan; }
      plan := made.value;
      ok := StoreReality(e, plan, w.write);
      if ok { PlannedFollows(panel.db.inbounds, n, e, plan); }
    }

    method PlanReality(e: Option<Logged>, w: World) returns (plan: Option<Plan>)
      requires e.Some? ==> e.value.row.protocol == "vless-reality"
      modifies tcp
      ensures old(tcp.ports) <= tcp.ports
      ensures plan.Some? <==> Suffices("vless-reality", e, domain, req, w)
      ensures plan.Some? ==> IsPlanned(e, w, plan.value, old(tcp.ports)) && KeysKept(OldSettings(e), plan.value.keys)
    {
      var stored := OldSettings(e);
      var currentPort := if e.Some? then e.value.row.port else 0;
      var port := Requested(req, "vless-reality");
      if port == 0 {
        port := tcp.SelectListenPort(w.probe, currentPort);
      }
      var keys := RealityKeys(stored, w);
      if keys.None? { return None; }
      var chosen := ChooseRealitySni(Text(stored, "sni"), req.sni, w);
      if chosen.None? { return None; }
      var server := if domain != "" && w.resolves then domain else node.host;
      plan := Some(Plan(port, chosen.value, keys.value, server));
    }

    /** The port requested or else picked; the target requested, stored and passing, or probed; the
        address. */
    ghost predicate IsPlanned(e: Option<Logged>, w: World, plan: Plan, taken: set<int>)
      reads this
    {
      && (if Requested(req, "vless-reality") != 0 then plan.port == Requested(req, "vless-reality")
          else Picked(w.probe, PortOf(e), taken, plan.port))
      && plan.sni == (if req.sni != "" then req.sni
                      else if Text(OldSettings(e), "sni") != "" && w.passes then Text(OldSettings(e), "sni")
                      else w.probed)
      && plan.server == if domain != "" && w.resolves then domain else node.host
    }

    method StoreReality(e: Option<Logged>, plan: Plan, fate: Fate) returns (ok: bool)
      requires Valid() && Stored(e, "vless-reality") && Fits(e, plan) && Reaches(plan.server, node.host, domain)
      modifies this`created, this`updated, panel.db
      ensures Valid() && panel.db.nodes == old(panel.db.nodes)
      ensures Untouched(old(panel.db.inbounds), panel.db.inbounds, "vless-reality")
      ensures ok ==> Serves(panel.db.inbounds, n, "vless-reality", domain, req, start)
      ensures ok ==> HasRow(panel.db.inbounds, n, "vless-reality", plan.port, Planned(e, plan))
      ensures fate.Works? ==> ok
      ensures !fate.Works? && ok ==> panel.db.inbounds == old(panel.db.inbounds)
    {
      if e.Some? && SkipGuard(e.value.row, plan) {
        SkippedReality(e.value, plan);
        return true;
      }
      ok := WriteReality(e, plan, fate);
    }

    /** The plan is what the request asks for, and keeps the stored identity. */
    ghost predicate Fits(e: Option<Logged>, plan: Plan) {
      && KeysKept(OldSettings(e), plan.keys) && plan.sni != "" && (req.sni != "" ==> plan.sni == req.sni)
      && (Requested(req, "vless-reality") != 0 ==> plan.port == Requested(req, "vless-reality"))
    }

    method WriteReality(e: Option<Logged>, plan: Plan, fate: Fate) returns (ok: bool)
      requires Valid() && Stored(e, "vless-reality") && Fits(e, plan) && (e.None? || !SkipGuard(e.value.row, plan))
      requires Reaches(plan.server, node.host, domain)
      modifies this`created, this`updated, panel.db
      ensures Valid() && panel.db.nodes == old(panel.db.nodes)
      ensures Untouched(old(panel.db.inbounds), panel.db.inbounds, "vless-reality")
      ensures ok ==> Serves(panel.db.inbounds, n, "vless-reality", domain, req, start)
      ensures ok ==> HasRow(panel.db.inbounds, n, "vless-reality", plan.port, Planned(e, plan))
      ensures ok <==> fate.Works?
    {
      RealityKeepsIdentity(OldSettings(e), plan.sni, plan.keys, plan.server);
      var keys := plan.keys;
      var settings := RealitySettings(plan.sni, keys.privateKey, keys.publicKey, keys.shortId, plan.server);
      ok := Store(e, "vless-reality", plan.port, settings, fate);
    }

    method SetupHttpUpgrade(e: Option<Logged>, w: World) returns (ok: bool)
      requires Valid() && Stored(e, "vless-httpupgrade")
      modifies this`created, this`updated, panel.db, tcp
      ensures Valid() && panel.db.nodes == old(panel.db.nodes)
      ensures Untouched(old(panel.db.inbounds), panel.db.inbounds, "vless-httpupgrade")
      ensures ok ==> Serves(panel.db.inbounds, n, "vless-httpupgrade", domain, req, start)
      ensures old(tcp.ports) <= tcp.ports
      ensures Judged(ok, "vless-httpupgrade", e, w, old(panel.db.inbounds), panel.db.inbounds)
      ensures ok ==> ListensOn(panel.db.inbounds, n, "vless-httpupgrade",
                               if Requested(req, "vless-httpupgrade") != 0 then Requested(req, "vless-httpupgrade")
                               else if e.Some? then e.value.row.port else 443)
      ensures e.Some? && Text(e.value.row.settings, "domain") == domain
              && Requested(req, "vless-httpupgrade") in {0, e.value.row.port} && domain != "" ==>
                ok && panel.db.inbounds == old(panel.db.inbounds)
      ensures ok ==>
                || Listens(panel.db.inbounds, n, "vless-httpupgrade", tcp.ports)
                || panel.db.inbounds == old(panel.db.inbounds)
    {
      if domain == "" { return false; }
      var requested := Requested(req, "vless-httpupgrade");
      if && e.Some? && Text(e.value.row.settings, "domain") == domain
         && (requested == 0 || requested == e.value.row.port) {
        Unchanged(e.value);
        return true;
      }
      var port := if requested != 0 then requested else if e.Some? then e.value.row.port else 443;
      tcp.ports := tcp.ports + {port};
      var path := if e.Some? then Text(e.value.row.settings, "path") else "";
      if path == "" {
        path := RandomHex();
        path := "/" + path;
      }
      if !w.certificate { return false; }
      UpgradeBinds(if e.Some? then e.value.row.settings else map[], domain, path);
      ok := Store(e, "vless-httpupgrade", port, UpgradeSettings(domain, path), w.write);
    }

    lemma SkippedReality(e: Logged, plan: Plan)
      requires Valid() && Stored(Some(e), "vless-reality") && SkipGuard(e.row, plan) && Fits(Some(e), plan)
      requires Reaches(plan.server, node.host, domain)
      ensures Serves(panel.db.inbounds, n, "vless-reality", domain, req, start)
      ensures HasRow(panel.db.inbounds, n, "vless-reality", plan.port, Planned(Some(e), plan))
    {
      Unchanged(e);
      assert panel.db.inbounds[e.id].settings == e.row.settings;
    }

    /** A row that needs no write already meets the request. */
    lemma Unchanged(e: Logged)
      requires Valid() && Stored(Some(e), e.row.protocol) && Meets(e.row, e.row.protocol, HostOf(start, n), domain, req)
      ensures Serves(panel.db.inbounds, n, e.row.protocol, domain, req, start)
    {
    }

    /** The row found for a protocol that the run has not come to yet. */
    lemma StillStored(protocol: string, done: seq<string>)
      requires Valid() && protocol !in done
      requires Ahead(start.inbounds, panel.db.inbounds, done)
      ensures Stored(StoredFor(start, n, protocol), protocol)
    {
      ExistingIsRow(RowsOf(start, n), InboundOrder(RowsOf(start, n)), protocol);
    }

    method SetupProtocol(protocol: string, e: Option<Logged>, w: World) returns (ok: bool)
      requires Valid() && Stored(e, protocol) && protocol in KNOWN
      modifies this`created, this`updated, panel.db, tcp, udp
      ensures Valid() && panel.db.nodes == old(panel.db.nodes)
      ensures Untouched(old(panel.db.inbounds), panel.db.inbounds, protocol)
      ensures ok ==> Serves(panel.db.inbounds, n, protocol, domain, req, start)
      ensures Judged(ok, protocol, e, w, old(panel.db.inbounds), panel.db.inbounds)
    {
      match protocol
      case "hysteria2" => ok := SetupHysteria(e, w);
      case "vless-reality" =>
        var plan;
        ok, plan := SetupReality(e, w);
      case "vless-httpupgrade" => ok := SetupHttpUpgrade(e, w);
    }

    /** A protocol is reported as set up when the answers suffice and the write works; not when they do
        not; and when the write would not work, only if nothing had to be written. */
    ghost predicate Judged(ok: bool, protocol: string, e: Option<Logged>, w: World, before: map<int, Inbound>,
                           after: map<int, Inbound>)
      reads this
    {
      && (Suffices(protocol, e, domain, req, w) && w.write.Works? ==> ok)
      && (ok ==> Suffices(protocol, e, domain, req, w) && (w.write.Works? || after == before))
    }

    /** After the first `k` protocols. */
    ghost predicate Progress(worlds: seq<World>, k: int, hadError: bool)
      reads this, panel, panel.db
    {
      && Valid() && panel.db.nodes == start.nodes && 0 <= k <= |req.protocols|
      && Ahead(start.inbounds, panel.db.inbounds, req.protocols[..k])
      && (!hadError ==> AllServed(panel.db.inbounds, n, req.protocols[..k], domain, req, start))
      && Fair(start, n, domain, req, worlds, k, hadError)
    }

    method SetupNext(e: Option<Logged>, worlds: seq<World>, k: nat, hadError: bool) returns (stillError: bool)
      requires Progress(worlds, k, hadError) && k < |req.protocols| == |worlds|
      requires req.protocols[k] in KNOWN && req.protocols[k] !in req.protocols[..k]
      requires e == StoredFor(start, n, req.protocols[k])
      modifies this`created, this`updated, panel.db, tcp, udp
      ensures Progress(worlds, k + 1, stillError)
    {
      var protocol := req.protocols[k];
      ghost var done, before := req.protocols[..k], panel.db.inbounds;
      StillStored(protocol, done);
      var ok := SetupProtocol(protocol, e, worlds[k]);
      NextProtocol(start, before, panel.db.inbounds, n, done, protocol, domain, req);
      assert req.protocols[..k + 1] == done + [protocol];
      FairNext(start, n, domain, req, worlds, k, hadError, ok);
      stillError := hadError || !ok;
    }

    /** The loop: every protocol is tried, whatever became of the ones before it. */
    method SetupAll(worlds: seq<World>) returns (hadError: bool)
      requires Valid() && panel.db.inbounds == start.inbounds && panel.db.nodes == start.nodes
      requires forall i, j | 0 <= i < j < |req.protocols| :: req.protocols[i] != req.protocols[j]
      requires |worlds| == |req.protocols| && forall p | p in req.protocols :: p in KNOWN
      modifies this`created, this`updated, panel.db, tcp, udp
      ensures Valid() && panel.db.nodes == start.nodes
      ensures !hadError ==> AllServed(panel.db.inbounds, n, req.protocols, domain, req, start)
      ensures Fair(start, n, domain, req, worlds, |worlds|, hadError)
    {
      var rows := RowsOf(panel.db.State(), n);
      var ids := InboundOrder(rows);
      assert rows == RowsOf(start, n);
      hadError := false;
      for k := 0 to |req.protocols|
        invariant Progress(worlds, k, hadError)
      {
        NewProtocol(req.protocols, k);
        var existing := Existing(rows, ids, req.protocols[k]);
        hadError := SetupNext(existing, worlds, k, hadError);
      }
      assert req.protocols[..|req.protocols|] == req.protocols;
    }
  }

  lemma NewProtocol(protocols: seq<string>, k: nat)
    requires k < |protocols| && forall i, j | 0 <= i < j < |protocols| :: protocols[i] != protocols[j]
    ensures protocols[k] in protocols && protocols[k] !in protocols[..k]
  {
  }

  // ---- the handler ----

  lemma OnlyNodeViews(start: Db, now: Db, clock: string, n: int)
    requires OnlyNode(start, now, n)
    ensures Tables.Valid(now) && NamesUnique(now)
    ensures forall m | m != n :: SameView(start, now, clock, m)
  {
    forall m | m != n ensures SameView(start, now, clock, m) {
      assert forall i :: i in RowsOf(start, m) <==> i in RowsOf(now, m);
      assert forall i | i in RowsOf(now, m) :: RowsOf(now, m)[i] == RowsOf(start, m)[i];
      assert RowsOf(start, m) == RowsOf(now, m);
    }
  }

  lemma SameRowsView(start: Db, now: Db, clock: string, n: int)
    requires now == start.(nextInbound := now.nextInbound)
    ensures SameView(start, now, clock, n) && Generated(start, clock, n) == Generated(now, clock, n)
  {
  }

  predicate Accepted(node: Node, req: Request) {
    var domain := if req.domain == "" then node.domain else req.domain;
    && req.profile in {"", "quic", "salamander"}
    && (forall i, j | 0 <= i < j < |req.protocols| :: req.protocols[i] != req.protocols[j])
    && (forall p | p in req.protocols :: p in KNOWN && (DomainBound(p) ==> domain != ""))
    && (forall p | p in req.ports :: 0 <= req.ports[p] <= 65535)
  }

  /** A domain move must include every domain-bound protocol the node has. */
  predicate Stranded(rows: map<int, Inbound>, req: Request) {
    exists i :: i in rows && DomainBound(rows[i].protocol) && rows[i].protocol !in req.protocols
  }

  lemma ServedHandshakes(inbounds: map<int, Inbound>, n: int, protocols: seq<string>, domain: string, req: Request,
                         start: Db)
    requires AllServed(inbounds, n, protocols, domain, req, start) && "vless-reality" in protocols
    requires var e := StoredFor(start, n, "vless-reality"); e.None? || Keyed(e.value.row.settings)
    ensures Handshakes(inbounds, n)
  {
    assert Serves(inbounds, n, "vless-reality", domain, req, start);
  }

  /** The request reaches the loop over the protocols. */
  ghost predicate Admitted(db: Db, n: int, req: Request, connected: bool) {
    && n in db.nodes && db.nodes[n].proxyType == "singbox" && connected
    && req.profile in {"", "quic", "salamander"}
    && (forall i, j | 0 <= i < j < |req.protocols| :: req.protocols[i] != req.protocols[j])
    && (forall p | p in req.protocols ::
          p == "vless-reality" || (p in {"hysteria2", "vless-httpupgrade"} && DomainFor(db, n, req) != ""))
    && (forall p | p in req.ports :: 0 <= req.ports[p] <= 65535)
    && (DomainFor(db, n, req) != db.nodes[n].domain ==>
          forall i | i in db.inbounds && db.inbounds[i].node == n ::
            db.inbounds[i].protocol in {"hysteria2", "vless-httpupgrade"} ==> db.inbounds[i].protocol in req.protocols)
  }

  lemma AdmittedIf(db: Db, n: int, req: Request)
    requires n in db.nodes && db.nodes[n].proxyType == "singbox"
    ensures Admitted(db, n, req, true) <==>
              && Accepted(db.nodes[n], req)
              && (DomainFor(db, n, req) == db.nodes[n].domain || !Stranded(RowsOf(db, n), req))
  {
    if i :| i in db.inbounds && db.inbounds[i].node == n && DomainBound(db.inbounds[i].protocol)
            && db.inbounds[i].protocol !in req.protocols {
      assert i in RowsOf(db, n) && RowsOf(db, n)[i] == db.inbounds[i];
    }
  }

  function DomainFor(db: Db, n: int, req: Request): string
    requires n in db.nodes
  {
    if req.domain == "" then db.nodes[n].domain else req.domain
  }

  /** Nothing stands in the way of success but the push. */
  ghost predicate AllWell(db: Db, n: int, req: Request, worlds: seq<World>, move: Fate)
    requires n in db.nodes
  {
    && AllSuffice(db, n, DomainFor(db, n, req), req, worlds, |worlds|)
    && (forall k | 0 <= k < |worlds| :: worlds[k].write.Works?)
    && (DomainFor(db, n, req) == db.nodes[n].domain || move.Works?)
  }

  /** The pushes behind an answer: one that worked; one that failed, and the one that restores. */
  ghost predicate Pushed(o: Outcome, n: int, before: seq<Attempt>, after: seq<Attempt>) {
    match o
    case Done => after == before + [Attempt(n, true)]
    case RolledBack => after == before + [Attempt(n, false)] + [Attempt(n, true)]
    case RestoreFailed => after == before + [Attempt(n, false)] + [Attempt(n, false)]
    case RollbackFailed => after == before || after == before + [Attempt(n, false)]
    case _ => after == before
  }

  lemma {:induction false} OneAttempt(nodes: map<int, Node>, before: seq<Attempt>, after: seq<Attempt>, n: int,
                                      failed: set<int>)
    requires OneRound(nodes, before, after, CleanIds([n]), failed) && n > 0 && Pushable(nodes, n)
    ensures after == before + [Attempt(n, failed == {})]
  {
    assert CleanIds([n]) == {n};
    OneId(n);
    MadeOnce(nodes, n, failed);
    if failed != {} { OnlyOne(failed, n); }
  }

  lemma {:induction false} MadeOnce(nodes: map<int, Node>, n: int, failed: set<int>)
    requires Pushable(nodes, n)
    ensures Made(nodes, [n], failed) == [Attempt(n, n !in failed)]
  {
    var ids := [n];
    assert ids[..0] == [];
  }

  lemma OneId(n: int)
    ensures AscendingIds({n}) == [n]
  {
    SameAscending(AscendingIds({n}), [n]);
  }

  /** POST /api/nodes/{id}/auto-setup: all the rows and the push, or nothing. */
  method HandleAutoSetup(panel: Panel, n: int, req: Request, connected: bool, worlds: seq<World>, move: Fate)
    returns (o: Outcome)
    requires panel.Good() && |worlds| == |req.protocols|
    modifies panel`fleet, panel`attempts, panel.db
    ensures panel.Good() && AllKept(old(panel.db.inbounds), panel.db.inbounds)
    ensures panel.db.users == old(panel.db.users) && panel.db.access == old(panel.db.access)
    ensures o.Refused? <==> !Admitted(old(panel.db.State()), n, req, connected)
    ensures !o.Refused? && AllWell(old(panel.db.State()), n, req, worlds, move) ==>
              panel.attempts != old(panel.attempts)
    ensures !o.Refused? && !AllSuffice(old(panel.db.State()), n, DomainFor(old(panel.db.State()), n, req), req, worlds,
                                       |worlds|) ==>
              o in {NothingApplied, RollbackFailed} && panel.attempts == old(panel.attempts)
    ensures Pushed(o, n, old(panel.attempts), panel.attempts)
    ensures o.Refused? || o.NothingApplied? ==> panel.fleet == old(panel.fleet)
    ensures o.Refused? || o.NothingApplied? || o.RolledBack? || o.RestoreFailed? ==>
              panel.db.State() == old(panel.db.State()).(nextInbound := panel.db.nextInbound)
    ensures o.RolledBack? || o.Done? ==> panel.Agrees(n)
    ensures o.Done? ==> n in old(panel.db.nodes) && Accepted(old(panel.db.nodes)[n], req)
                        && panel.db.nodes == old(panel.db.nodes)[n := old(panel.db.nodes)[n].(domain :=
                                             if req.domain == "" then old(panel.db.nodes)[n].domain else req.domain)]
                        && AllServed(panel.db.inbounds, n, req.protocols, panel.db.nodes[n].domain, req,
                                     old(panel.db.State()))
    ensures o.Done? && "vless-reality" in req.protocols ==>
              var e := StoredFor(old(panel.db.State()), n, "vless-reality");
              e.None? || Keyed(e.value.row.settings) ==> Handshakes(panel.db.inbounds, n)
    ensures forall m | old(panel.Agrees(m)) :: panel.Agrees(m) || (m == n && (o.RestoreFailed? || o.RollbackFailed?))
  {
    if n !in panel.db.nodes || panel.db.nodes[n].proxyType != "singbox" { return Outcome.Refused; }
    AdmittedIf(panel.db.State(), n, req);
    if !Accepted(panel.db.nodes[n], req) || !connected { return Outcome.Refused; }
    var run := new Run(panel, n, req);
    if run.domain != run.node.domain && Stranded(RowsOf(panel.db.State(), n), req) { return Outcome.Refused; }
    var hadError := run.SetupAll(worlds);
    o := Finish(panel, run, hadError, move);
    ghost var e := StoredFor(run.start, n, "vless-reality");
    if o.Done? && "vless-reality" in req.protocols && (e.None? || Keyed(e.value.row.settings)) {
      ServedHandshakes(panel.db.inbounds, n, req.protocols, run.domain, req, run.start);
    }
  }

  method Finish(panel: Panel, run: Run, hadError: bool, move: Fate) returns (o: Outcome)
    requires run.panel == panel && run.Valid() && panel.db.nodes == run.start.nodes && Pushable(panel.db.nodes, run.n)
    modifies panel`fleet, panel`attempts, panel.db
    ensures run.Within() && panel.Good()
    ensures Pushed(o, run.n, old(panel.attempts), panel.attempts)
    ensures (hadError || (run.domain != run.node.domain && !move.Works?)) <==> panel.attempts == old(panel.attempts)
    ensures o.NothingApplied? ==> panel.fleet == old(panel.fleet) && panel.attempts == old(panel.attempts)
    ensures o.NothingApplied? || o.RolledBack? || o.RestoreFailed? ==>
              panel.db.State() == run.start.(nextInbound := panel.db.nextInbound)
    ensures o.RolledBack? || o.Done? ==> panel.Agrees(run.n)
    ensures o.Done? ==>
              !hadError && panel.db.inbounds == old(panel.db.inbounds) && panel.db.nodes[run.n].domain == run.domain
    ensures !o.Refused?
    ensures forall m | InStep(run.start, panel.now, old(panel.fleet), m) ::
              panel.Agrees(m) || (m == run.n && (o.RestoreFailed? || o.RollbackFailed?))
  {
    if hadError {
      o := Abandon(panel, run);
      return;
    }
    if run.domain != run.node.domain {
      var moved := run.SetDomain(run.domain, move);
      if !moved {
        o := Abandon(panel, run);
        return;
      }
    }
    o := Deliver(panel, run);
  }

  /** The push, and when it fails the way back. */
  method Deliver(panel: Panel, run: Run) returns (o: Outcome)
    requires run.panel == panel && run.Valid() && Pushable(panel.db.nodes, run.n)
    requires panel.db.nodes[run.n].domain == run.domain
    requires run.domain == run.node.domain ==> panel.db.nodes == run.start.nodes
    modifies panel`fleet, panel`attempts, panel.db
    ensures run.Within() && panel.Good()
    ensures Pushed(o, run.n, old(panel.attempts), panel.attempts) && panel.attempts != old(panel.attempts)
    ensures o.Done? || o.RolledBack? || o.RestoreFailed? || o.RollbackFailed?
    ensures o.RolledBack? || o.RestoreFailed? ==> panel.db.State() == run.start.(nextInbound := panel.db.nextInbound)
    ensures o.RolledBack? || o.Done? ==> panel.Agrees(run.n)
    ensures o.Done? ==> panel.db.State() == old(panel.db.State())
    ensures forall m | m != run.n && InStep(run.start, panel.now, old(panel.fleet), m) :: panel.Agrees(m)
  {
    var n := run.n;
    ghost var d0, a0 := panel.fleet, panel.attempts;
    var failed, hows := panel.SyncNodes([n]);
    OneAttempt(panel.db.nodes, a0, panel.attempts, n, failed);
    OneSync(panel.db.State(), panel.now, d0, panel.fleet, n, hows);
    OthersInStep(run.start, panel.db.State(), panel.now, d0, panel.fleet, n);
    if failed == {} { return Done; }
    o := Unwind(panel, run, d0);
  }

  method Unwind(panel: Panel, run: Run, ghost d0: Fleet) returns (o: Outcome)
    requires run.panel == panel && run.Valid() && Pushable(panel.db.nodes, run.n)
    requires panel.db.nodes[run.n].domain == run.node.domain || run.domain != run.node.domain
    requires forall m | m != run.n :: SameOn(d0, panel.fleet, m)
    modifies panel`fleet, panel`attempts, panel.db
    ensures run.Within() && panel.Good()
    ensures o.RolledBack? || o.RestoreFailed? || o.RollbackFailed?
    ensures panel.attempts == old(panel.attempts) + if o.RollbackFailed? then [] else [Attempt(run.n, o.RolledBack?)]
    ensures o.RolledBack? || o.RestoreFailed? ==> panel.db.State() == run.start.(nextInbound := panel.db.nextInbound)
    ensures o.RolledBack? ==> panel.Agrees(run.n)
    ensures forall m | m != run.n && InStep(run.start, panel.now, d0, m) :: panel.Agrees(m)
  {
    var undone := run.RollbackDatabase();
    OthersInStep(run.start, panel.db.State(), panel.now, d0, panel.fleet, run.n);
    if !undone { return RollbackFailed; }
    o := Restore(panel, run, d0);
  }

  method Restore(panel: Panel, run: Run, ghost d0: Fleet) returns (o: Outcome)
    requires run.panel == panel && run.Within() && Pushable(panel.db.nodes, run.n)
    requires forall m | m != run.n :: SameOn(d0, panel.fleet, m)
    modifies panel`fleet, panel`attempts
    ensures panel.Good() && (o.RolledBack? || o.RestoreFailed?)
    ensures panel.attempts == old(panel.attempts) + [Attempt(run.n, o.RolledBack?)]
    ensures o.RolledBack? ==> panel.Agrees(run.n)
    ensures forall m | m != run.n && InStep(run.start, panel.now, d0, m) :: panel.Agrees(m)
  {
    var n := run.n;
    ghost var d1, a1 := panel.fleet, panel.attempts;
    var again, hows := panel.SyncNodes([n]);
    OneAttempt(panel.db.nodes, a1, panel.attempts, n, again);
    OneSync(panel.db.State(), panel.now, d1, panel.fleet, n, hows);
    SameOnTwice(d0, d1, panel.fleet, n);
    OthersInStep(run.start, panel.db.State(), panel.now, d0, panel.fleet, n);
    o := if again == {} then Outcome.RolledBack else Outcome.RestoreFailed;
  }

  /** Nothing has been pushed yet: undo the writes. */
  method Abandon(panel: Panel, run: Run) returns (o: Outcome)
    requires run.panel == panel && run.Valid()
    requires panel.db.nodes[run.n].domain == run.node.domain || run.domain != run.node.domain
    modifies panel.db
    ensures run.Within() && panel.Good()
    ensures o.NothingApplied? ==> panel.db.State() == run.start.(nextInbound := panel.db.nextInbound)
    ensures o in {NothingApplied, RollbackFailed}
    ensures forall m | InStep(run.start, panel.now, panel.fleet, m) ::
              panel.Agrees(m) || (m == run.n && o.RollbackFailed?)
  {
    var undone := run.RollbackDatabase();
    OthersInStep(run.start, panel.db.State(), panel.now, panel.fleet, panel.fleet, run.n);
    if undone { SameRowsView(run.start, panel.db.State(), panel.now, run.n); }
    o := if undone then NothingApplied else RollbackFailed;
  }

  lemma OneSync(tables: Db, clock: string, d0: Fleet, d1: Fleet, n: int, failed: map<int, Failure>)
    requires Synced(tables, clock, d0, d1, CleanIds([n]), failed) && n > 0
    ensures failed.Keys == {} ==> InStep(tables, clock, d1, n)
    ensures forall m | m != n :: SameOn(d0, d1, m)
  {
    assert forall i :: i in CleanIds([n]) <==> i == n;
    PushedInStep(tables, clock, d0, d1, CleanIds([n]), failed);
  }

  lemma SameOnTwice(d0: Fleet, d1: Fleet, d2: Fleet, n: int)
    requires forall m | m != n :: SameOn(d0, d1, m) && SameOn(d1, d2, m)
    ensures forall m | m != n :: SameOn(d0, d2, m)
  {
    forall m | m != n ensures SameOn(d0, d2, m) { assert SameOn(d0, d1, m) && SameOn(d1, d2, m); }
  }

  lemma OthersInStep(start: Db, tables: Db, clock: string, d0: Fleet, d1: Fleet, n: int)
    requires OnlyNode(start, tables, n)
    requires forall m | m != n :: SameOn(d0, d1, m)
    ensures Tables.Valid(tables) && NamesUnique(tables)
    ensures forall m | m != n && InStep(start, clock, d0, m) :: InStep(tables, clock, d1, m)
  {
    OnlyNodeViews(start, tables, clock, n);
    forall m | m != n && InStep(start, clock, d0, m) ensures InStep(tables, clock, d1, m) {
      SameGenerated(start, tables, clock, m);
      assert SameOn(d0, d1, m);
    }
  }

  // ---- both requests that rewrite stored inbounds, over any run ----

  datatype Rewrite =
    | SetUp(n: int, req: Request, connected: bool, worlds: seq<World>, move: Fate)
    | Switch(i: int, sni: string)

  /** Whatever the nodes answer, a secret stored at the start is stored at the end, and so is every row. */
  method RewriteAll(panel: Panel, rewrites: seq<Rewrite>) returns (states: seq<map<int, Inbound>>)
    requires panel.Good() && forall r | r in rewrites && r.SetUp? :: |r.worlds| == |r.req.protocols|
    modifies panel`fleet, panel`attempts, panel.db
    ensures panel.Good() && |states| == |rewrites| + 1
    ensures states[0] == old(panel.db.inbounds) && states[|rewrites|] == panel.db.inbounds
    ensures forall j, k | 0 <= j <= k <= |rewrites| :: AllKept(states[j], states[k])
  {
    states := [panel.db.inbounds];
    for k := 0 to |rewrites|
      invariant panel.Good() && |states| == k + 1
      invariant states[0] == old(panel.db.inbounds) && states[k] == panel.db.inbounds
      invariant forall j | 0 <= j < k :: AllKept(states[j], states[j + 1])
    {
      assert rewrites[k] in rewrites;
      match rewrites[k] {
        case SetUp(n, req, connected, worlds, move) => var o := HandleAutoSetup(panel, n, req, connected, worlds, move);
        case Switch(i, sni) =>
          if i in panel.db.inbounds && panel.db.inbounds[i].protocol == "vless-reality" {
            var a, how := panel.RetargetReality(i, sni);
          }
      }
      states := states + [panel.db.inbounds];
    }
    forall j, k | 0 <= j <= k <= |rewrites| ensures AllKept(states[j], states[k]) {
      assert states[j..k + 1][0] == states[j] && states[j..k + 1][k - j] == states[k];
      KeptOverRuns(states[j..k + 1]);
    }
  }
}
