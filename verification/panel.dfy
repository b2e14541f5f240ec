/** The handlers, one request at a time (handler/user.go, handler/auth.go,
    handler/node.go, handler/reality.go): write, push, and on a failed push write
    back and push again. A push fails whenever it likes. */
module Panel {
  import opened Tables
  import opened Generator
  import opened PushOutcome
  import opened EditProtocol
  import opened Views
  import opened Rollback
  import opened Stores
  import opened Writes
  import ServerConfig
  import opened RealityTargets
  import opened Identity

  /** unionIDs: the positive ids of both lists. */
  method UnionIds(a: seq<int>, b: seq<int>) returns (result: seq<int>)
    ensures result == AscendingIds(CleanIds(a) + CleanIds(b))
  {
    var seen: set<int> := {};
    var groups := [a, b];
    for g := 0 to 2
      invariant seen == (if g > 0 then CleanIds(a) else {}) + (if g > 1 then CleanIds(b) else {})
    {
      var ids := groups[g];
      ghost var start := seen;
      for k := 0 to |ids|
        invariant seen == start + CleanIds(ids[..k])
      {
        assert ids[..k + 1] == ids[..k] + [ids[k]];
        if ids[k] > 0 { seen := seen + {ids[k]}; }
      }
      assert ids[..|ids|] == ids;
    }
    result := AscendingIds(seen);
  }

  /** changedIDs: the ids in exactly one of the lists. */
  method ChangedIds(before: seq<int>, after: seq<int>) returns (result: seq<int>)
    ensures result == AscendingIds(Changed(SetOf(before), SetOf(after)))
  {
    var changed: set<int> := {};
    for k := 0 to |before|
      invariant changed == SetOf(before[..k]) - SetOf(after)
    {
      assert before[..k + 1] == before[..k] + [before[k]];
      if before[k] !in SetOf(after) { changed := changed + {before[k]}; }
    }
    assert before[..|before|] == before;
    for k := 0 to |after|
      invariant changed == (SetOf(before) - SetOf(after)) + (SetOf(after[..k]) - SetOf(before))
    {
      assert after[..k + 1] == after[..k] + [after[k]];
      if after[k] !in SetOf(before) { changed := changed + {after[k]}; }
    }
    assert after[..|after|] == after;
    result := AscendingIds(changed);
  }

  datatype Answer =
    | NotFound | BadRequest | Conflict
    | Saved
    | RolledBack
    | RestoreFailed(nodes: set<int>)
    | RollbackRefused

  /** Undoing a write changes nothing a configuration is made of. */
  lemma {:induction false} RestoredView(db: Db, after: Db, now: string, job: Job, n: int)
    requires job.EditUser? ==> job.u in db.users && job.u in after.users
    requires job.AddInbound? ==> db.nextInbound <= after.nextInbound
    ensures SameView(db, Restored(db, after, job), now, n)
  {
  }

  lemma WriteKeepsNames(db: Db, job: Job, snap: Snap)
    requires NamesUnique(db) && Write(db, job, snap).Wrote?
    ensures NamesUnique(Write(db, job, snap).db)
  {
    if job.Reorder? { ReorderOnlySorts(db, job.n, job.items); }
  }

  lemma RestoredIsGood(db: Db, after: Db, job: Job)
    requires Valid(db) && NamesUnique(db)
    requires job.EditUser? ==> job.u in db.users && job.u in after.users
    requires job.AddInbound? ==> db.nextInbound <= after.nextInbound
    ensures Valid(Restored(db, after, job)) && NamesUnique(Restored(db, after, job))
  {}

  /** What the nodes serve, and what is in their configuration files. */
  datatype Fleet = Fleet(serving: map<int, Config>, files: map<int, File<Config>>)

  function ServedOn(d: Fleet, n: int): Option<Config> { if n in d.serving then Some(d.serving[n]) else None }

  function FileOn(d: Fleet, n: int): File<Config> { if n in d.files then d.files[n] else NoFile }

  /** Node `n` runs the configuration generated from `tables`. */
  ghost predicate InStep(tables: Db, now: string, d: Fleet, n: int) {
    ServedOn(d, n) == Some(Generated(tables, now, n))
  }

  ghost predicate SameOn(before: Fleet, after: Fleet, n: int) {
    ServedOn(after, n) == ServedOn(before, n) && FileOn(after, n) == FileOn(before, n)
  }

  /** A push of `config` to node `n` came to `how`. */
  ghost predicate Became(config: Config, before: Fleet, after: Fleet, n: int, how: Failure) {
    && FileOn(after, n) == FileAfter(FileOn(before, n), config, how)
    && ServedOn(after, n) == ServedAfter(FileOn(before, n), ServedOn(before, n), config, how)
  }

  /** And nothing happened to any other node. */
  ghost predicate Hit(config: Config, before: Fleet, after: Fleet, n: int, how: Failure) {
    Became(config, before, after, n, how) && forall m | m != n :: SameOn(before, after, m)
  }

  // ---- the pushes a request makes ----

  /** A push that was made, and what it reported. */
  datatype Attempt = Attempt(node: int, ok: bool)

  predicate Pushable(nodes: map<int, Node>, n: int) { n in nodes && nodes[n].proxyType == "singbox" }

  /** One round: every node that can be pushed is, in this order, and those in `failed` report failure. */
  function Made(nodes: map<int, Node>, ids: seq<int>, failed: set<int>): seq<Attempt> {
    if ids == [] then []
    else
      var n := ids[|ids| - 1];
      Made(nodes, ids[..|ids| - 1], failed) + (if Pushable(nodes, n) then [Attempt(n, n !in failed)] else [])
  }

  /** A round fails for nodes it was to push, and for all that cannot be pushed. */
  ghost predicate CanFail(nodes: map<int, Node>, ids: set<int>, failed: set<int>) {
    failed <= ids && forall n | n in ids && !Pushable(nodes, n) :: n in failed
  }

  ghost predicate OneRound(nodes: map<int, Node>, before: seq<Attempt>, after: seq<Attempt>, ids: set<int>,
                           failed: set<int>) {
    CanFail(nodes, ids, failed) && after == before + Made(nodes, AscendingIds(ids), failed)
  }

  /** The answer is true: saved if all pushes of one round worked; rolled back if one did not, and then
      all of a second round; and otherwise the nodes are named that failed again. Any other answer comes
      before the first push. */
  ghost predicate Told(a: Answer, before: seq<Attempt>, after: seq<Attempt>, nodes: map<int, Node>, ids: set<int>) {
    match a
    case Saved => OneRound(nodes, before, after, ids, {})
    case RolledBack =>
      exists failed, mid ::
        failed != {} && OneRound(nodes, before, mid, ids, failed) && OneRound(nodes, mid, after, ids, {})
    case RestoreFailed(again) =>
      && again != {}
      && exists failed, mid ::
           failed != {} && OneRound(nodes, before, mid, ids, failed) && OneRound(nodes, mid, after, ids, again)
    case _ => after == before
  }

  lemma {:induction false} MadeWithout(nodes: map<int, Node>, ids: seq<int>, failed: set<int>, n: int)
    requires n !in ids
    ensures Made(nodes, ids, failed + {n}) == Made(nodes, ids, failed)
    decreases |ids|
  {
    if ids != [] { MadeWithout(nodes, ids[..|ids| - 1], failed, n); }
  }

  lemma {:induction false} MadeStep(nodes: map<int, Node>, ids: seq<int>, k: nat, failed: set<int>, ok: bool)
    requires k < |ids| && ids[k] !in ids[..k] && ids[k] !in failed && (ok ==> Pushable(nodes, ids[k]))
    ensures var failed' := if ok then failed else failed + {ids[k]};
            Made(nodes, ids[..k + 1], failed') == Made(nodes, ids[..k], failed)
                                                  + if Pushable(nodes, ids[k]) then [Attempt(ids[k], ok)] else []
  {
    assert ids[..k + 1][..k] == ids[..k];
    MadeWithout(nodes, ids[..k], failed, ids[k]);
  }

  /** One round of pushes to `ids`; `failed` says what became of the pushes that reported failure. */
  ghost predicate Synced(tables: Db, now: string, before: Fleet, after: Fleet, ids: set<int>,
                         failed: map<int, Failure>) {
    && failed.Keys <= ids
    && (forall n | n !in ids :: SameOn(before, after, n))
    && (forall n | n in ids ::
          Became(Generated(tables, now, n), before, after, n, if n in failed then failed[n] else Landed))
  }

  lemma SyncedStep(tables: Db, now: string, d0: Fleet, d1: Fleet, ids: set<int>, failed: map<int, Failure>,
                   n: int, pushed: bool, how: Failure, d2: Fleet)
    requires Synced(tables, now, d0, d1, ids, failed) && n !in ids
    requires Hit(Generated(tables, now, n), d1, d2, n, if pushed then Landed else how)
    ensures Synced(tables, now, d0, d2, ids + {n}, if pushed then failed else failed[n := how])
  {
    var failed' := if pushed then failed else failed[n := how];
    forall m | m !in ids + {n} ensures SameOn(d0, d2, m) { assert SameOn(d0, d1, m) && SameOn(d1, d2, m); }
    forall m | m in ids + {n}
      ensures Became(Generated(tables, now, m), d0, d2, m, if m in failed' then failed'[m] else Landed)
    {
      if m == n {
        assert SameOn(d0, d1, n);
      } else {
        assert Became(Generated(tables, now, m), d0, d1, m, if m in failed then failed[m] else Landed);
        assert SameOn(d1, d2, m);
      }
    }
  }

  lemma PushedInStep(tables: Db, now: string, d0: Fleet, d1: Fleet, ids: set<int>, failed: map<int, Failure>)
    requires Synced(tables, now, d0, d1, ids, failed)
    ensures forall n | n in ids && n !in failed :: InStep(tables, now, d1, n)
  {
    forall n | n in ids && n !in failed ensures InStep(tables, now, d1, n) {
      assert Became(Generated(tables, now, n), d0, d1, n, Landed);
    }
  }

  /** Pushing to every node the write can reach keeps agreement everywhere. */
  lemma SyncedAll(before: Db, tables: Db, now: string, d0: Fleet, d1: Fleet, ids: set<int>)
    requires Synced(tables, now, d0, d1, ids, map[])
    requires forall n | n !in ids :: SameView(before, tables, now, n)
    ensures forall n | n in ids || InStep(before, now, d0, n) :: InStep(tables, now, d1, n)
  {
    PushedInStep(tables, now, d0, d1, ids, map[]);
    forall n | n !in ids && InStep(before, now, d0, n) ensures InStep(tables, now, d1, n) {
      SameGenerated(before, tables, now, n);
      assert SameOn(d0, d1, n);
    }
  }

  lemma SameGenerated(db: Db, db': Db, now: string, n: int)
    requires SameView(db, db', now, n)
    ensures Generated(db, now, n) == Generated(db', now, n)
  {}

  /** Pushing again after the tables were put back: only the nodes that fail again are left behind. */
  lemma SyncedBack(before: Db, tables: Db, after: Db, now: string, d0: Fleet, d1: Fleet,
                   d2: Fleet, ids: set<int>, failed: map<int, Failure>, again: map<int, Failure>)
    requires Synced(after, now, d0, d1, ids, failed) && Synced(tables, now, d1, d2, ids, again)
    requires forall n :: SameView(before, tables, now, n)
    ensures forall n | n in ids || InStep(before, now, d0, n) :: InStep(tables, now, d2, n) || n in again
  {
    PushedInStep(tables, now, d1, d2, ids, again);
    forall n | n !in ids && InStep(before, now, d0, n) ensures InStep(tables, now, d2, n) {
      SameGenerated(before, tables, now, n);
      assert SameOn(d0, d1, n) && SameOn(d1, d2, n);
    }
  }

  /** Pushing to a request's targets is pushing to every node its write can reach. */
  lemma TargetsReach(tables: Db, now: string, job: Job, snap: Snap, ids: seq<int>)
    requires Valid(tables) && NamesUnique(tables) && Taken(tables, job, snap) && Write(tables, job, snap).Wrote?
    requires var w := Write(tables, job, snap); CleanIds(ids) == Targets(job, snap, w.after, Access(w.db, job))
    ensures Contained(tables, Write(tables, job, snap).db, now, job, CleanIds(ids))
  {
    WriteReachesTargets(tables, now, HomeOf(tables), job, snap);
  }

  lemma {:induction false} AccessTargets(tables: Db, now: string, u: int, edit: AccessEdit, ids: seq<int>)
    requires Valid(tables) && NamesUnique(tables) && EditAccess(tables, u, edit).Some?
    requires ids == AscendingIds(Changed(AccessOf(tables, u), AccessOf(EditAccess(tables, u, edit).value, u)))
    ensures Contained(tables, EditAccess(tables, u, edit).value, now, Job.ChangeAccess(u, edit), CleanIds(ids))
    ensures CleanIds(ids) == Changed(AccessOf(tables, u), AccessOf(EditAccess(tables, u, edit).value, u))
    ensures u !in tables.users ==> CleanIds(ids) == {}
  {
    var db' := EditAccess(tables, u, edit).value;
    var job, snap := Job.ChangeAccess(u, edit), AccessSnap(AccessOf(tables, u));
    WriteReachesTargets(tables, now, HomeOf(tables), job, snap);
    NodesPositive(tables, db', u);
    CleanTargets(ids, Changed(AccessOf(tables, u), AccessOf(db', u)));
    CleanAccess(tables, u);
    CleanAccess(db', u);
  }

  /** The tables while a deletion waits for its pushes: disabled, and with no access. */
  function Disabled(tables: Db, u: int): Db
    requires u in tables.users
  {
    SetAccess(tables.(users := tables.users[u := Patched(tables.users[u], DISABLE)]), u, {})
  }

  lemma {:induction false} DisablingReaches(tables: Db, now: string, u: int, ids: seq<int>)
    requires Valid(tables) && NamesUnique(tables) && u in tables.users && ids == AscendingIds(AccessOf(tables, u))
    ensures var job, snap := Job.DeleteUser(u), UserSnap(tables.users[u], AccessOf(tables, u));
            && Write(tables, job, snap)
               == Wrote(Disabled(tables, u), UndoUser(u, tables.users[u], AccessOf(tables, u)), None)
            && Contained(tables, Disabled(tables, u), now, job, CleanIds(ids))
            && CleanIds(ids) == AccessOf(tables, u)
  {
    assert CleanIds([]) == {};
    NodesPositive(tables, tables, u);
    CleanTargets(ids, AccessOf(tables, u));
    TargetsReach(tables, now, Job.DeleteUser(u), UserSnap(tables.users[u], AccessOf(tables, u)), ids);
  }

  /** What disabling a user and then removing its row adds up to. */
  lemma {:induction false} DeletionTail(tables: Db, now: string, u: int, disabled: Db)
    requires Valid(tables) && NamesUnique(tables) && u in tables.users
    requires disabled == Disabled(tables, u)
    ensures Tables.DeleteWithRelatedData(disabled, u).Some?
    ensures Tables.DeleteWithRelatedData(disabled, u) == Tables.DeleteWithRelatedData(tables, u)
    ensures var d := Tables.DeleteWithRelatedData(disabled, u).value;
            Valid(d) && NamesUnique(d) && forall n :: SameView(disabled, d, now, n)
  {
    var d := Tables.DeleteWithRelatedData(disabled, u).value;
    assert d.users == tables.users - {u};
    assert d.access == SetAccess(tables, u, {}).access;
    assert d.access == disabled.access;
    forall n ensures SameView(disabled, d, now, n) { UserView(disabled, d, now, u, n); }
  }

  lemma {:induction false} EditReach(tables: Db, now: string, job: Job, beforeIds: seq<int>, afterIds: seq<int>)
    requires Valid(tables) && job.EditUser? && job.u in tables.users
    requires var snap := UserSnap(tables.users[job.u], AccessOf(tables, job.u));
             && Write(tables, job, snap).Wrote?
             && beforeIds == AscendingIds(AccessOf(tables, job.u))
             && afterIds == AscendingIds(AccessOf(Write(tables, job, snap).db, job.u))
    ensures var snap := UserSnap(tables.users[job.u], AccessOf(tables, job.u));
            && SetOf(beforeIds) == AccessOf(tables, job.u)
            && SetOf(afterIds) == AccessOf(Write(tables, job, snap).db, job.u)
            && (forall n | n in beforeIds || n in afterIds :: n > 0)
  {
  }

  /** A target switch of inbound `i` that has something to do. */
  predicate Switches(db: Db, i: int, sni: string) {
    i in db.inbounds && db.inbounds[i].protocol == "vless-reality" && Text(db.inbounds[i].settings, "sni") != sni
  }

  lemma {:induction false} RetargetReach(tables: Db, now: string, i: int, sni: string)
    requires Valid(tables) && NamesUnique(tables) && Switches(tables, i, sni)
    ensures var n, db := tables.inbounds[i].node, Switched(tables, i, sni);
            && Valid(db) && NamesUnique(db) && CleanIds([n]) == {n}
            && (forall m | m != n :: SameView(tables, db, now, m))
            && AllKept(tables.inbounds, db.inbounds)
  {
    var row := tables.inbounds[i];
    var job, snap := Job.Retarget(row.node, sni), InboundSnap(i, row);
    WriteReachesTargets(tables, now, HomeOf(tables), job, snap);
    WriteKeepsNames(tables, job, snap);
    RetargetKeepsIdentity(row, sni);
    assert row.node > 0;
  }

  /** Its write, and the write that takes it back. */
  lemma SwitchAndBack(tables: Db, i: int, sni: string)
    requires i in tables.inbounds
    ensures var row, db := tables.inbounds[i], Switched(tables, i, sni);
            && UpdateInbound(tables, i, row.tag, row.protocol, row.port, WithSni(row.settings, sni)) == Some(db)
            && UpdateInbound(db, i, row.tag, row.protocol, row.port, row.settings) == Some(tables)
  {
    assert Switched(tables, i, sni).inbounds[i := tables.inbounds[i]] == tables.inbounds;
  }

  /** The nodes an edit is pushed to. */
  method EditTargets(before: User, beforeIds: seq<int>, after: User, afterIds: seq<int>, wanted: Option<seq<int>>)
    returns (ids: seq<int>)
    requires forall n | n in beforeIds || n in afterIds :: n > 0
    ensures CleanIds(ids)
            == Targets(EditUser(0, DISABLE, wanted), UserSnap(before, SetOf(beforeIds)), Some(after), SetOf(afterIds))
  {
    ids := ChangedIds(beforeIds, afterIds);
    CleanTargets(ids, Changed(SetOf(beforeIds), SetOf(afterIds)));
    if wanted.Some? || UserConfigChanged(before, after) {
      ids := UnionIds(beforeIds, afterIds);
      CleanTargets(ids, SetOf(beforeIds) + SetOf(afterIds));
    }
  }

  class Panel {
    const db: Database
    const now: string
    var fleet: Fleet
    ghost var attempts: seq<Attempt>

    constructor (db: Database, now: string)
      ensures this.db == db && this.now == now && fleet == Fleet(map[], map[]) && attempts == []
    {
      this.db, this.now, fleet, attempts := db, now, Fleet(map[], map[]), [];
    }

    ghost predicate Good()
      reads this, db
    {
      Valid(db.State()) && NamesUnique(db.State())
    }

    ghost predicate Agrees(n: int)
      reads this, db
    {
      InStep(db.State(), now, fleet, n)
    }

    /** generateConfig: two user queries, the filter between them, and the inbounds. */
    method GenerateConfig(n: int) returns (config: Config)
      ensures config == Generated(db.State(), now, n) && ServerConfig.ConfigOf(config, db.State(), now, n)
    {
      ServerConfig.GeneratedIs(db.State(), now, n);
      var allowedIds := AscendingIds(UsersForNode(db.State(), now, n));
      var enabled := AscendingIds(set u | u in db.users && Listed(db.users[u], now));
      var users := KeepAllowed(enabled, db.users, allowedIds);
      assert (set i | i in allowedIds) == UsersForNode(db.State(), now, n);
      KeepingAllowedIsListing(enabled, db.State(), now, UsersForNode(db.State(), now, n));
      var rows := ListRows(RowsOf(db.State(), n));
      var inbounds := BuildInbounds(users, rows);
      var tags := Tags(inbounds);
      config := Config(if tags != [] && users != [] then Stats(tags, Names(users)) else NoStats, inbounds);
    }

    /** A push that reports failure came to anything the deploy script can come to. */
    method Push(n: int, config: Config) returns (ok: bool, ghost how: Failure)
      modifies this`fleet, this`attempts
      ensures Hit(config, old(fleet), fleet, n, if ok then Landed else how)
      ensures attempts == old(attempts) + [Attempt(n, ok)]
    {
      var reported, effect: Failure := *, *;
      ok, how := reported, effect;
      var outcome := if ok then Landed else effect;
      var file, served := FileOn(fleet, n), ServedOn(fleet, n);
      var serves := ServedAfter(file, served, config, outcome);
      fleet := Fleet(if serves.Some? then fleet.serving[n := serves.value] else fleet.serving - {n},
                     fleet.files[n := FileAfter(file, config, outcome)]);
      attempts := attempts + [Attempt(n, ok)];
    }

    method SyncNode(n: int) returns (pushed: bool, ghost how: Failure)
      modifies this`fleet, this`attempts
      ensures Hit(Generated(db.State(), now, n), old(fleet), fleet, n, if pushed then Landed else how)
      ensures pushed ==> Pushable(db.nodes, n)
      ensures attempts == old(attempts) + if Pushable(db.nodes, n) then [Attempt(n, pushed)] else []
    {
      if n !in db.nodes { return false, Kept; }
      if db.nodes[n].proxyType != "singbox" { return false, Kept; }
      var config := GenerateConfig(n);
      pushed, how := Push(n, config);
    }

    method SyncNext(ghost d0: Fleet, ghost a0: seq<Attempt>, ids: seq<int>, k: nat, failed: set<int>,
                    ghost hows: map<int, Failure>)
      returns (failed': set<int>, ghost hows': map<int, Failure>)
      requires k < |ids| && ids[k] !in SetOf(ids[..k])
      requires failed == hows.Keys && Synced(db.State(), now, d0, fleet, SetOf(ids[..k]), hows)
      requires CanFail(db.nodes, SetOf(ids[..k]), failed) && attempts == a0 + Made(db.nodes, ids[..k], failed)
      modifies this`fleet, this`attempts
      ensures failed' == hows'.Keys && Synced(db.State(), now, d0, fleet, SetOf(ids[..k + 1]), hows')
      ensures CanFail(db.nodes, SetOf(ids[..k + 1]), failed') && attempts == a0 + Made(db.nodes, ids[..k + 1], failed')
    {
      var n := ids[k];
      ghost var d1 := fleet;
      var pushed, how := SyncNode(n);
      PrefixSet(ids, k);
      SyncedStep(db.State(), now, d0, d1, SetOf(ids[..k]), hows, n, pushed, how, fleet);
      MadeStep(db.nodes, ids, k, failed, pushed);
      failed', hows' := if pushed then failed else failed + {n}, if pushed then hows else hows[n := how];
    }

    /** Every requested node is tried, in ascending order, whatever became of the ones before it. */
    method SyncNodes(ids: seq<int>) returns (failed: set<int>, ghost hows: map<int, Failure>)
      modifies this`fleet, this`attempts
      ensures failed == hows.Keys && Synced(db.State(), now, old(fleet), fleet, CleanIds(ids), hows)
      ensures OneRound(db.nodes, old(attempts), attempts, CleanIds(ids), failed)
    {
      var nodeIds := UniqueSortedIds(ids);
      failed, hows := {}, map[];
      for k := 0 to |nodeIds|
        invariant failed == hows.Keys && Synced(db.State(), now, old(fleet), fleet, SetOf(nodeIds[..k]), hows)
        invariant CanFail(db.nodes, SetOf(nodeIds[..k]), failed)
        invariant attempts == old(attempts) + Made(db.nodes, nodeIds[..k], failed)
      {
        assert nodeIds[k] !in SetOf(nodeIds[..k]);
        failed, hows := SyncNext(old(fleet), old(attempts), nodeIds, k, failed, hows);
      }
      assert nodeIds[..|nodeIds|] == nodeIds;
      SetOfAscending(CleanIds(ids));
    }

    /** The compensating write of each handler. */
    method Compensate(undo: Undo) returns (ok: bool)
      modifies db
      ensures ok == Revert(old(db.State()), undo).Some?
      ensures db.State() == Or(Revert(old(db.State()), undo), old(db.State()))
    {
      match undo
      case UndoUser(u, row, ids) => ok := db.UpdateWithAccess(u, RestorePatch(row), AscendingIds(ids));
      case UndoTraffic(u, row) => db.RestoreTraffic(u, row); ok := true;
      case UndoAccess(u, ids) => ok := db.Replace(u, AscendingIds(ids));
      case UndoAdd(i) => ok := db.DeleteInbound(i);
      case UndoRemove(i, inbound) => ok := db.RestoreInbound(i, inbound);
      case UndoReorder(n, items) => ok := db.ReorderInbounds(n, items);
      case UndoSettings(i, inbound) =>
        ok := db.UpdateInbound(i, inbound.tag, inbound.protocol, inbound.port, inbound.settings);
    }

    /** The tail every handler repeats once its write is stored: push, and when any push fails put
        the tables back and push the same nodes again. */
    method Complete(ghost before: Db, job: Job, ghost snap: Snap, undo: Undo, targets: seq<int>) returns (a: Answer)
      requires Valid(before) && NamesUnique(before) && Taken(before, job, snap) && Write(before, job, snap).Wrote?
      requires db.State() == Write(before, job, snap).db && undo == Write(before, job, snap).undo
      requires Contained(before, db.State(), now, job, CleanIds(targets))
      requires job.ChangeAccess? && job.u !in before.users ==> CleanIds(targets) == {}
      modifies this`fleet, this`attempts, db
      ensures Good()
      ensures a.Saved? || a.RolledBack? || a.RestoreFailed?
      ensures a.Saved? ==> db.State() == old(db.State())
      ensures !a.Saved? ==> db.State() == Restored(before, old(db.State()), job)
      ensures a.RestoreFailed? ==> a.nodes <= CleanIds(targets)
      ensures Told(a, old(attempts), attempts, db.nodes, CleanIds(targets)) && db.nodes == old(db.nodes)
      ensures forall n | n in CleanIds(targets) || InStep(before, now, old(fleet), n) ::
                Agrees(n) || (a.RestoreFailed? && n in a.nodes)
    {
      WriteKeepsNames(before, job, snap);
      ghost var d0 := fleet;
      var failed, hows := SyncNodes(targets);
      if failed == {} {
        assert hows == map[];
        SyncedAll(before, db.State(), now, d0, fleet, CleanIds(targets));
        return Saved;
      }
      Inhabited(failed);
      RevertUndoesWrite(before, job, snap);
      RestoredIsGood(before, db.State(), job);
      ghost var after := db.State();
      var ok := Compensate(undo);
      assert ok;
      forall n ensures SameView(before, db.State(), now, n) { RestoredView(before, after, now, job, n); }
      ghost var d1 := fleet;
      var again, hows' := SyncNodes(targets);
      SyncedBack(before, db.State(), after, now, d0, d1, fleet, CleanIds(targets), hows, hows');
      a := if again == {} then RolledBack else RestoreFailed(again);
    }

    // ---- users ----

    /** PUT /api/users/{id} */
    method UpdateUser(u: int, patch: Patch, wanted: Option<seq<int>>) returns (a: Answer)
      requires Good()
      modifies this`fleet, this`attempts, db
      ensures Good()
      ensures a.NotFound? <==> u !in old(db.users)
      ensures a.BadRequest? <==> u in old(db.users) && !EditPermitted(old(db.State()), u, patch, wanted)
      ensures a.NotFound? || a.BadRequest? ==> db.State() == old(db.State()) && fleet == old(fleet)
      ensures a.Saved? ==> UserEdited(old(db.State()), db.State(), u, patch, wanted)
      ensures !a.NotFound? ==>
                Told(a, old(attempts), attempts, old(db.nodes), EditedOn(old(db.State()), u, patch, wanted))
      ensures a.NotFound? ==> attempts == old(attempts)
      ensures a.RolledBack? || a.RestoreFailed? ==>
                u in old(db.users)
                && db.State() == old(db.State()).(users := old(db.users)[u := old(db.users)[u].(note :=
                                                  Or(patch.note, old(db.users)[u].note))])
      ensures a.Saved? && (wanted.Some? || UserConfigChanged(old(db.users)[u], db.users[u])) ==>
                forall n | n in old(AccessOf(db.State(), u)) || n in AccessOf(db.State(), u) :: Agrees(n)
      ensures a.RolledBack? ==>
                wanted.Some? || UserConfigChanged(old(db.users)[u], Patched(old(db.users)[u], patch)) ==>
                forall n | n in old(AccessOf(db.State(), u)) || n in AccessOf(db.State(), u) :: Agrees(n)
      ensures forall n | old(Agrees(n)) :: Agrees(n) || (a.RestoreFailed? && n in a.nodes)
      ensures !a.RollbackRefused? && !a.Conflict?
    {
      if u !in db.users { return NotFound; }
      ghost var tables := db.State();
      var before := db.users[u];
      var beforeIds := db.ListNodeIds(u);
      var ok;
      if wanted.Some? {
        ok := db.UpdateWithAccess(u, patch, wanted.value);
      } else {
        ok := db.UpdateUser(u, patch);
      }
      UserEditIs(tables, u, patch, wanted, db.State());
      if !ok { return BadRequest; }
      a := FinishEdit(tables, u, patch, wanted, before, beforeIds);
    }

    /** The rest of an edit once it is stored. */
    method FinishEdit(ghost tables: Db, u: int, patch: Patch, wanted: Option<seq<int>>, before: User,
                      beforeIds: seq<int>)
      returns (a: Answer)
      requires Valid(tables) && NamesUnique(tables) && u in tables.users && before == tables.users[u]
      requires Edited(tables, u, patch, wanted) == Some(db.State()) && beforeIds == AscendingIds(AccessOf(tables, u))
      modifies this`fleet, this`attempts, db
      ensures Good() && (a.Saved? || a.RolledBack? || a.RestoreFailed?)
      ensures Told(a, old(attempts), attempts, tables.nodes, EditedOn(tables, u, patch, wanted))
      ensures db.State() == if a.Saved? then old(db.State())
                            else tables.(users := tables.users[u := before.(note := Or(patch.note, before.note))])
      ensures forall n | n in EditedOn(tables, u, patch, wanted) || InStep(tables, now, old(fleet), n) ::
                Agrees(n) || (a.RestoreFailed? && n in a.nodes)
    {
      var job := EditUser(u, patch, wanted);
      ghost var snap := UserSnap(before, AccessOf(tables, u));
      var user := db.users[u];
      var afterIds := db.ListNodeIds(u);
      EditReach(tables, now, job, beforeIds, afterIds);
      var targetIds := EditTargets(before, beforeIds, user, afterIds, wanted);
      TargetsReach(tables, now, job, snap, targetIds);
      EditedOnIs(tables, u, patch, wanted);
      a := Complete(tables, job, snap, UndoUser(u, before, SetOf(beforeIds)), targetIds);
    }

    /** DELETE /api/users/{id}: disable and withdraw first, remove the row only once no node serves it. */
    method DeleteUser(u: int) returns (a: Answer)
      requires Good()
      modifies this`fleet, this`attempts, db
      ensures Good()
      ensures a.NotFound? <==> u !in old(db.users)
      ensures a.NotFound? ==> db.State() == old(db.State()) && fleet == old(fleet)
      ensures a.Saved? ==> UserRemoved(old(db.State()), db.State(), u)
      ensures Told(a, old(attempts), attempts, old(db.nodes), old(AccessOf(db.State(), u)))
      ensures a.Saved? || a.RolledBack? ==> forall n | n in old(AccessOf(db.State(), u)) :: Agrees(n)
      ensures a.RolledBack? || a.RestoreFailed? ==> db.State() == old(db.State())
      ensures forall n | old(Agrees(n)) :: Agrees(n) || (a.RestoreFailed? && n in a.nodes)
      ensures a.NotFound? || a.Saved? || a.RolledBack? || a.RestoreFailed?
    {
      if u !in db.users { return NotFound; }
      ghost var tables := db.State();
      a := Withdraw(u);
      if a.Saved? {
        RemoveRow(tables, u);
        UserRemovalIs(tables, u, db.State());
      }
    }

    /** The first part of a deletion: the user is disabled and loses its nodes, and is pushed so. */
    method Withdraw(u: int) returns (a: Answer)
      requires Good() && u in db.users
      modifies this`fleet, this`attempts, db
      ensures Good() && (a.Saved? || a.RolledBack? || a.RestoreFailed?)
      ensures db.State() == if a.Saved? then Disabled(old(db.State()), u) else old(db.State())
      ensures Told(a, old(attempts), attempts, old(db.nodes), old(AccessOf(db.State(), u)))
      ensures forall n | n in old(AccessOf(db.State(), u)) || old(Agrees(n)) ::
                Agrees(n) || (a.RestoreFailed? && n in a.nodes)
    {
      ghost var tables := db.State();
      var before := db.users[u];
      var nodeIds := db.ListNodeIds(u);
      var job := Job.DeleteUser(u);
      ghost var snap := UserSnap(before, AccessOf(tables, u));
      SetOfAscending(AccessOf(tables, u));
      DisablingReaches(tables, now, u, nodeIds);
      var ok := db.UpdateWithAccess(u, DISABLE, []);
      a := Complete(tables, job, snap, UndoUser(u, before, SetOf(nodeIds)), nodeIds);
    }

    /** The last step of a deletion: no node's configuration depends on the row any more. */
    method RemoveRow(ghost tables: Db, u: int)
      requires Valid(tables) && NamesUnique(tables) && u in tables.users && db.State() == Disabled(tables, u)
      modifies db
      ensures Good() && Some(db.State()) == Tables.DeleteWithRelatedData(tables, u)
      ensures forall n | old(Agrees(n)) :: Agrees(n)
    {
      DeletionTail(tables, now, u, db.State());
      var ok := db.DeleteWithRelatedData(u);
      forall n | old(Agrees(n)) ensures Agrees(n) { SameGenerated(old(db.State()), db.State(), now, n); }
    }

    /** POST /api/users/{id}/reset-traffic */
    method ResetTraffic(u: int) returns (a: Answer)
      requires Good()
      modifies this`fleet, this`attempts, db
      ensures Good()
      ensures a.NotFound? <==> u !in old(db.users)
      ensures a.NotFound? ==> db.State() == old(db.State()) && fleet == old(fleet)
      ensures a.Saved? ==> CountersCleared(old(db.State()), db.State(), u)
      ensures Told(a, old(attempts), attempts, old(db.nodes), old(AccessOf(db.State(), u)))
      ensures a.Saved? || a.RolledBack? ==> forall n | n in old(AccessOf(db.State(), u)) :: Agrees(n)
      ensures a.RolledBack? || a.RestoreFailed? ==> db.State() == old(db.State())
      ensures forall n | old(Agrees(n)) :: Agrees(n) || (a.RestoreFailed? && n in a.nodes)
      ensures a.NotFound? || a.Saved? || a.RolledBack? || a.RestoreFailed?
    {
      if u !in db.users { return NotFound; }
      ghost var tables := db.State();
      var before := db.users[u];
      var nodeIds := db.ListNodeIds(u);
      var job := ResetUserTraffic(u);
      ghost var snap := UserSnap(before, AccessOf(tables, u));
      db.ResetTraffic(u);
      ResetIs(tables, u, db.State());
      WriteReachesTargets(tables, now, HomeOf(tables), job, snap);
      NodesPositive(tables, db.State(), u);
      assert SetOf(nodeIds) == AccessOf(tables, u);
      CleanTargets(nodeIds, AccessOf(tables, u));
      a := Complete(tables, job, snap, UndoTraffic(u, before), nodeIds);
    }

    // ---- access ----

    /** The database half of grantAccess, revokeAccess and replaceAccess. */
    method ApplyAccess(u: int, edit: AccessEdit) returns (ok: bool)
      requires Good()
      modifies db`access
      ensures ok <==> AccessPermitted(old(db.State()), u, edit) && !(edit.Revoke? && edit.n <= 0)
      ensures ok ==> Some(db.State()) == EditAccess(old(db.State()), u, edit)
      ensures !ok ==> db.State() == old(db.State())
    {
      AccessEditIs(db.State(), u, edit, db.State());
      match edit
      case Grant(n) =>
        if n <= 0 { return false; }
        ok := db.Grant(u, n);
      case GrantAll => ok := db.GrantAll(u);
      case Revoke(n) =>
        if n <= 0 { return false; }
        db.Revoke(u, n);
        ok := true;
      case RevokeAll =>
        db.RevokeAll(u);
        ok := true;
      case Replace(ids) => ok := db.Replace(u, ids);
    }

    /** completeAccessChange: push to the nodes whose assignment changed, or put the assignment back. */
    method CompleteAccessChange(ghost tables: Db, u: int, edit: AccessEdit, before: seq<int>, after: seq<int>)
      returns (a: Answer)
      requires Valid(tables) && NamesUnique(tables) && EditAccess(tables, u, edit) == Some(db.State())
      requires before == AscendingIds(AccessOf(tables, u)) && after == AscendingIds(AccessOf(db.State(), u))
      modifies this`fleet, this`attempts, db
      ensures Good()
      ensures a.Saved? || a.RolledBack? || a.RestoreFailed?
      ensures Told(a, old(attempts), attempts, tables.nodes, Moved(tables, u, edit))
      ensures db.State() == if a.Saved? then old(db.State()) else tables
      ensures forall n | n in Changed(AccessOf(tables, u), old(AccessOf(db.State(), u)))
                         || InStep(tables, now, old(fleet), n) ::
                Agrees(n) || (a.RestoreFailed? && n in a.nodes)
    {
      var job := Job.ChangeAccess(u, edit);
      ghost var snap := AccessSnap(AccessOf(tables, u));
      SetOfAscending(AccessOf(tables, u));
      SetOfAscending(AccessOf(db.State(), u));
      var targets := ChangedIds(before, after);
      AccessTargets(tables, now, u, edit, targets);
      MovedIs(tables, u, edit);
      a := Complete(tables, job, snap, UndoAccess(u, SetOf(before)), targets);
    }

    /** POST, PUT and DELETE /api/users/{id}/access */
    method ChangeAccess(u: int, edit: AccessEdit) returns (a: Answer)
      requires Good()
      modifies this`fleet, this`attempts, db
      ensures Good()
      ensures a.BadRequest? <==> !AccessPermitted(old(db.State()), u, edit) || (edit.Revoke? && edit.n <= 0)
      ensures a.BadRequest? ==> db.State() == old(db.State()) && fleet == old(fleet)
      ensures a.Saved? ==> AccessEdited(old(db.State()), db.State(), u, edit)
      ensures Told(a, old(attempts), attempts, old(db.nodes), Moved(old(db.State()), u, edit))
      ensures a.Saved? ==> forall n | n in Changed(old(AccessOf(db.State(), u)), AccessOf(db.State(), u)) :: Agrees(n)
      ensures a.RolledBack? || a.RestoreFailed? ==> db.State() == old(db.State())
      ensures forall n | old(Agrees(n)) :: Agrees(n) || (a.RestoreFailed? && n in a.nodes)
      ensures a.BadRequest? || a.Saved? || a.RolledBack? || a.RestoreFailed?
    {
      ghost var tables := db.State();
      var before := db.ListNodeIds(u);
      var ok := ApplyAccess(u, edit);
      if !ok { return BadRequest; }
      AccessEditIs(tables, u, edit, db.State());
      var after := db.ListNodeIds(u);
      a := CompleteAccessChange(tables, u, edit, before, after);
    }

    // ---- inbounds ----

    /** POST /api/nodes/{id}/inbounds, for a request that passed validation. */
    method AddInbound(n: int, tag: string, protocol: string, port: int, settings: Settings) returns (a: Answer)
      requires Good() && protocol in KNOWN
      modifies this`fleet, this`attempts, db
      ensures Good()
      ensures a.NotFound? <==> n !in old(db.nodes)
      ensures a.BadRequest? <==> n in old(db.nodes) && old(db.nodes)[n].proxyType != "singbox"
      ensures a.NotFound? || a.BadRequest? ==> db.State() == old(db.State()) && fleet == old(fleet)
      ensures a.Saved? ==> InboundAdded(old(db.State()), db.State(), n, tag, protocol, port, settings)
      ensures Told(a, old(attempts), attempts, old(db.nodes), {n})
      ensures a.Saved? || a.RolledBack? ==> Agrees(n)
      ensures a.RolledBack? || a.RestoreFailed? ==> db.State() == old(db.State()).(nextInbound := db.nextInbound)
      ensures forall m | old(Agrees(m)) :: Agrees(m) || (a.RestoreFailed? && m in a.nodes)
      ensures a.NotFound? || a.BadRequest? || a.Saved? || a.RolledBack? || a.RestoreFailed?
    {
      if n !in db.nodes { return NotFound; }
      if db.nodes[n].proxyType != "singbox" { return BadRequest; }
      ghost var tables := db.State();
      var job := Job.AddInbound(n, tag, protocol, port, settings);
      var id := db.CreateInbound(n, tag, protocol, port, settings);
      AdditionIs(tables, n, tag, protocol, port, settings, db.State());
      WriteReachesTargets(tables, now, HomeOf(tables), job, NoSnap);
      assert n > 0 && CleanIds([n]) == {n};
      a := Complete(tables, job, NoSnap, UndoAdd(id), [n]);
    }

    /** DELETE /api/inbounds/{id} */
    method RemoveInbound(i: int) returns (a: Answer)
      requires Good()
      modifies this`fleet, this`attempts, db
      ensures Good()
      ensures a.NotFound? <==> i !in old(db.inbounds)
      ensures a.BadRequest? <==> i in old(db.inbounds) && old(db.nodes)[old(db.inbounds)[i].node].proxyType != "singbox"
      ensures a.NotFound? || a.BadRequest? ==> db.State() == old(db.State()) && fleet == old(fleet)
      ensures a.Saved? ==> InboundRemoved(old(db.State()), db.State(), i)
      ensures !a.NotFound? ==> Told(a, old(attempts), attempts, old(db.nodes), {old(db.inbounds)[i].node})
      ensures a.NotFound? ==> attempts == old(attempts)
      ensures a.Saved? || a.RolledBack? ==> i in old(db.inbounds) && Agrees(old(db.inbounds)[i].node)
      ensures a.RolledBack? || a.RestoreFailed? ==> db.State() == old(db.State())
      ensures forall m | old(Agrees(m)) :: Agrees(m) || (a.RestoreFailed? && m in a.nodes)
      ensures a.NotFound? || a.BadRequest? || a.Saved? || a.RolledBack? || a.RestoreFailed?
    {
      if i !in db.inbounds { return NotFound; }
      var row := db.inbounds[i];
      if db.nodes[row.node].proxyType != "singbox" { return BadRequest; }
      ghost var tables := db.State();
      var job := Job.RemoveInbound(i);
      var ok := db.DeleteInbound(i);
      RemovalIs(tables, i, db.State());
      WriteReachesTargets(tables, now, HomeOf(tables), job, InboundSnap(i, row));
      assert row.node > 0 && CleanIds([row.node]) == {row.node};
      a := Complete(tables, job, InboundSnap(i, row), UndoRemove(i, row), [row.node]);
    }

    /** PUT /api/nodes/{id}/inbounds/reorder */
    method ReorderInbounds(n: int, items: seq<ReorderItem>) returns (a: Answer)
      requires Good()
      modifies this`fleet, this`attempts, db
      ensures Good()
      ensures a.NotFound? <==> n !in old(db.nodes)
      ensures a.BadRequest? <==> n in old(db.nodes) && !(old(db.nodes)[n].proxyType == "singbox"
                                                         && ReorderPermitted(old(db.State()), n, items))
      ensures a.NotFound? || a.BadRequest? ==> db.State() == old(db.State()) && fleet == old(fleet)
      ensures a.Saved? ==> Reordered(old(db.State()), db.State(), items)
      ensures Told(a, old(attempts), attempts, old(db.nodes), {n})
      ensures a.Saved? || a.RolledBack? ==> Agrees(n)
      ensures a.RolledBack? || a.RestoreFailed? ==> db.State() == old(db.State())
      ensures forall m | old(Agrees(m)) :: Agrees(m) || (a.RestoreFailed? && m in a.nodes)
      ensures a.NotFound? || a.BadRequest? || a.Saved? || a.RolledBack? || a.RestoreFailed?
    {
      if n !in db.nodes { return NotFound; }
      if db.nodes[n].proxyType != "singbox" { return BadRequest; }
      ghost var tables := db.State();
      var rows := RowsOf(db.State(), n);
      var before := InboundOrder(rows);
      var rollback := seq(|before|, k requires 0 <= k < |before| => ReorderItem(before[k], rows[before[k]].sortOrder));
      var job := Reorder(n, items);
      ghost var snap := OrderSnap(rollback);
      var ok := db.ReorderInbounds(n, items);
      ReorderingIs(tables, n, items);
      if !ok { return BadRequest; }
      WriteReachesTargets(tables, now, HomeOf(tables), job, snap);
      assert n > 0 && CleanIds([n]) == {n};
      a := Complete(tables, job, snap, UndoReorder(n, rollback), [n]);
    }

    /** The part of HandleRealityTarget after the probe: store, push, and on failure put the row back
        without pushing again. Run alone, the node is then in agreement exactly when it was and its service
        was left alone, or the push landed on an inbound that is not enabled, or the node fell back to a
        file that holds what the tables make. */
    method RetargetReality(i: int, sni: string) returns (a: Answer, ghost how: Failure)
      requires Good() && i in db.inbounds && db.inbounds[i].protocol == "vless-reality"
      modifies this`fleet, this`attempts, db
      ensures Good() && AllKept(old(db.inbounds), db.inbounds)
      ensures a.BadRequest? <==> Text(old(db.inbounds)[i].settings, "sni") == sni
      ensures a.BadRequest? ==> db.State() == old(db.State()) && fleet == old(fleet)
      ensures a.Saved? ==> Agrees(old(db.inbounds)[i].node) && TargetSwitched(old(db.State()), db.State(), i, sni)
      ensures a.RolledBack? ==> db.State() == old(db.State())
      ensures var n := old(db.inbounds)[i].node;
              match a
              case Saved => OneRound(old(db.nodes), old(attempts), attempts, {n}, {})
              case RolledBack => OneRound(old(db.nodes), old(attempts), attempts, {n}, {n})
              case _ => attempts == old(attempts)
      ensures a.RolledBack? ==>
                var n := db.inbounds[i].node;
                && Became(Generated(Switched(db.State(), i, sni), now, n), old(fleet), fleet, n, how)
                && (Agrees(n) <==>
                      || (how in {Kept, Staged, Spoiled} && old(Agrees(db.inbounds[i].node)))
                      || (how == Landed && !db.inbounds[i].enabled)
                      || (how == FellBack && FileOn(old(fleet), n) == Holds(Generated(db.State(), now, n))))
      ensures forall m | old(Agrees(m)) :: Agrees(m) || (a.RolledBack? && m == db.inbounds[i].node)
      ensures a.BadRequest? || a.Saved? || a.RolledBack?
    {
      var row := db.inbounds[i];
      how := Kept;
      if Text(row.settings, "sni") == sni { return BadRequest, how; }
      ghost var tables := db.State();
      RetargetReach(tables, now, i, sni);
      SwitchAndBack(tables, i, sni);
      SwitchIs(tables, i, sni, Switched(tables, i, sni));
      var ok := db.UpdateInbound(i, row.tag, row.protocol, row.port, WithSni(row.settings, sni));
      var failed, hows := SyncNodes([row.node]);
      if failed == {} {
        assert hows == map[];
        SyncedAll(tables, db.State(), now, old(fleet), fleet, {row.node});
        return Saved, how;
      }
      OnlyOne(failed, row.node);
      how := hows[row.node];
      FailedSwitch(tables, now, old(fleet), fleet, i, sni, hows);
      ok := db.UpdateInbound(i, row.tag, row.protocol, row.port, row.settings);
      a := RolledBack;
    }

    // ---- nodes ----

    /** DELETE /api/nodes/{id}: refused while anything is attached, and until the node was told to
        serve nothing. */
    method DeleteNode(n: int) returns (a: Answer)
      requires Good()
      modifies this`fleet, this`attempts, db
      ensures Good()
      ensures a.NotFound? <==> n !in old(db.nodes)
      ensures a.Conflict? <==>
                n in old(db.nodes) && (|| old(db.nodes)[n].proxyType != "singbox"
                                       || (exists i :: i in old(db.inbounds) && old(db.inbounds)[i].node == n)
                                       || exists u :: (u, n) in old(db.access))
      ensures match a
              case Saved => OneRound(old(db.nodes), old(attempts), attempts, {n}, {})
              case BadRequest => OneRound(old(db.nodes), old(attempts), attempts, {n}, {n})
              case _ => attempts == old(attempts)
      ensures a.Saved? ==> n in old(db.nodes) && db.nodes == old(db.nodes) - {n}
      ensures a.Saved? ==> db.State() == old(db.State()).(nodes := db.nodes)
      ensures n in old(db.nodes) && n !in db.nodes ==>
                n in fleet.serving && fleet.serving[n].inbounds == [] && FileOn(fleet, n) == Holds(fleet.serving[n])
      ensures !a.Saved? ==> db.State() == old(db.State())
      ensures forall m | old(Agrees(m)) :: Agrees(m) || (a.BadRequest? && m == n && DownOrBack(old(fleet), fleet, n))
      ensures a.NotFound? || a.Conflict? || a.BadRequest? || a.Saved?
    {
      if n !in db.nodes { return NotFound; }
      if db.nodes[n].proxyType != "singbox" { return Conflict; }
      ghost var tables := db.State();
      var attached := set p | p in db.access && p.1 == n;
      Attached(tables, n, attached);
      if RowsOf(db.State(), n) != map[] || attached != {} { return Conflict; }
      var failed, hows := SyncNodes([n]);
      assert n > 0 && CleanIds([n]) == {n};
      PushedAgain(tables, now, old(fleet), fleet, n, hows);
      if failed != {} {
        OnlyOne(failed, n);
        return BadRequest;
      }
      assert n !in hows && Became(Generated(tables, now, n), old(fleet), fleet, n, Landed);
      NoRowsNoInbounds(tables, now, n);
      db.DeleteNode(n);
      OnlyRowGone(tables, db.State(), n, attached);
      forall m | old(Agrees(m)) ensures Agrees(m) {
        assert InStep(tables, now, fleet, m);
        NodeTableUnread(tables, db.State(), now, m);
      }
      return Saved;
    }
  }

  /** Deleting a node with nothing attached deletes its row only. */
  lemma OnlyRowGone(tables: Db, after: Db, n: int, access: set<(int, int)>)
    requires access == (set p | p in tables.access && p.1 == n) == {} && RowsOf(tables, n) == map[]
    requires after.users == tables.users && after.nextInbound == tables.nextInbound
    requires forall p :: p in after.access <==> p in tables.access && p.1 != n
    requires after.inbounds.Keys <= tables.inbounds.Keys
    requires forall i | i in tables.inbounds ::
               && (i in after.inbounds <==> tables.inbounds[i].node != n)
               && (i in after.inbounds ==> after.inbounds[i] == tables.inbounds[i])
    ensures after == tables.(nodes := after.nodes)
  {
    assert forall p | p in tables.access :: p !in access;
    assert forall i | i in tables.inbounds && tables.inbounds[i].node == n :: i in RowsOf(tables, n);
    assert after.access == tables.access;
    assert forall i :: i in tables.inbounds <==> i in after.inbounds;
    assert forall i | i in tables.inbounds :: after.inbounds[i] == tables.inbounds[i];
    assert after.inbounds == tables.inbounds;
  }

  lemma OnlyOne(failed: set<int>, n: int)
    requires failed != {} && failed <= {n}
    ensures failed == {n}
  {
    Inhabited(failed);
    var m :| m in failed;
    assert m == n;
  }

  lemma Attached(db: Db, n: int, access: set<(int, int)>)
    requires access == set p | p in db.access && p.1 == n
    ensures RowsOf(db, n) != map[] <==> exists i :: i in db.inbounds && db.inbounds[i].node == n
    ensures access != {} <==> exists u :: (u, n) in db.access
  {
    if i :| i in db.inbounds && db.inbounds[i].node == n { assert i in RowsOf(db, n); }
    if RowsOf(db, n) != map[] {
      Inhabited(RowsOf(db, n).Keys);
      var i :| i in RowsOf(db, n).Keys;
      assert i in db.inbounds;
    }
    if u :| (u, n) in db.access { assert (u, n) in access; }
    if access != {} {
      var p :| p in access;
      var u := p.0;
      assert (u, n) in db.access;
    }
  }

  /** The node serves nothing, or what its file held before. */
  ghost predicate DownOrBack(before: Fleet, after: Fleet, n: int) {
    ServedOn(after, n) == None || (FileOn(before, n).Holds? && ServedOn(after, n) == Some(FileOn(before, n).content))
  }

  /** A push of what a node should serve anyway leaves it in agreement, stops it, or starts it on its
      old file. */
  lemma PushedAgain(tables: Db, now: string, d0: Fleet, d1: Fleet, n: int, hows: map<int, Failure>)
    requires Synced(tables, now, d0, d1, {n}, hows)
    ensures forall m | InStep(tables, now, d0, m) ::
              InStep(tables, now, d1, m) || (m == n && n in hows && DownOrBack(d0, d1, n))
  {
    forall m | InStep(tables, now, d0, m)
      ensures InStep(tables, now, d1, m) || (m == n && n in hows && DownOrBack(d0, d1, n))
    {
      if m != n {
        assert SameOn(d0, d1, m);
      } else {
        assert Became(Generated(tables, now, n), d0, d1, n, if n in hows then hows[n] else Landed);
      }
    }
  }

  /** A configuration does not depend on the node table. */
  lemma NodeTableUnread(db: Db, db': Db, now: string, n: int)
    requires db' == db.(nodes := db'.nodes)
    ensures Generated(db, now, n) == Generated(db', now, n)
  {
  }

  ghost function HomeOf(db: Db): map<int, Inbound> { db.inbounds }

  /** The configuration with the new target is another one exactly when the inbound is enabled. */
  lemma {:induction false} SwitchedDisagrees(db: Db, now: string, i: int, sni: string)
    requires Valid(db) && Switches(db, i, sni)
    ensures var row := db.inbounds[i];
            Generated(Switched(db, i, sni), now, row.node) != Generated(db, now, row.node) <==> row.enabled
  {
    var n := db.inbounds[i].node;
    var db' := Switched(db, i, sni);
    SniOnly(db.inbounds[i].settings, sni);
    RowSwapped(db, i, db'.inbounds[i], now, n);
    OneRowOff(db, n, i, sni);
    RendersAlikeIff(Roster(db, now, n), RowsOf(db', n), RowsOf(db, n));
  }

  lemma {:induction false} FailedSwitch(db: Db, now: string, d0: Fleet, d1: Fleet, i: int, sni: string,
                                        hows: map<int, Failure>)
    requires Valid(db) && Switches(db, i, sni)
    requires Synced(Switched(db, i, sni), now, d0, d1, {db.inbounds[i].node}, hows) && db.inbounds[i].node in hows
    ensures var n := db.inbounds[i].node; var how := hows[n];
            && Became(Generated(Switched(db, i, sni), now, n), d0, d1, n, how)
            && (InStep(db, now, d1, n) <==>
                  || (how in {Kept, Staged, Spoiled} && InStep(db, now, d0, n))
                  || (how == Landed && !db.inbounds[i].enabled)
                  || (how == FellBack && FileOn(d0, n) == Holds(Generated(db, now, n))))
    ensures forall m | m != db.inbounds[i].node && InStep(db, now, d0, m) :: InStep(db, now, d1, m)
  {
    var n := db.inbounds[i].node;
    SwitchedDisagrees(db, now, i, sni);
    assert Became(Generated(Switched(db, i, sni), now, n), d0, d1, n, hows[n]);
    forall m | m != n && InStep(db, now, d0, m) ensures InStep(db, now, d1, m) { assert SameOn(d0, d1, m); }
  }

  lemma NodesPositive(db: Db, db': Db, u: int)
    requires Valid(db) && Valid(db')
    ensures forall n | n in AccessOf(db, u) || n in AccessOf(db', u) :: n > 0
  {
  }

  lemma CleanTargets(ids: seq<int>, targets: set<int>)
    requires (forall n | n in targets :: n > 0) && (forall n :: n in ids && n > 0 <==> n in targets)
    ensures CleanIds(ids) == targets
  {
    assert forall n :: n in CleanIds(ids) <==> n in targets;
  }
}
