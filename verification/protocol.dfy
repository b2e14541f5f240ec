/** The edit, push, roll back protocol (handler/user.go, handler/auth.go,
    handler/node.go, handler/reality.go, handler/config.go) as a machine over its
    steps. Any number of requests is in flight; each database read, each database
    write and each push is one step, and a push may fail whenever it likes. The
    push lock of a node is held by the request whose `sync` is at that node. */
module EditProtocol {
  import opened Tables
  import opened Generator
  import opened PushOutcome

  // ---- requests ----

  datatype Job =
    | EditUser(u: int, patch: Patch, ids: Option<seq<int>>)
    | DeleteUser(u: int)
    | ResetUserTraffic(u: int)
    | ChangeAccess(u: int, edit: AccessEdit)
    | AddInbound(n: int, tag: string, protocol: string, port: int, settings: Settings)
    | RemoveInbound(i: int)
    | Reorder(n: int, items: seq<ReorderItem>)
    | Retarget(n: int, sni: string)

  function UserOf(job: Job): Option<int> {
    match job
    case EditUser(u, _, _) => Some(u)
    case DeleteUser(u) => Some(u)
    case ResetUserTraffic(u) => Some(u)
    case ChangeAccess(u, _) => Some(u)
    case _ => None
  }

  /** What a handler reads before it writes. */
  datatype Snap =
    | UserSnap(row: User, ids: set<int>)
    | AccessSnap(ids: set<int>)
    | InboundSnap(i: int, inbound: Inbound)
    | OrderSnap(items: seq<ReorderItem>)
    | NoSnap

  /** What it needs in order to put the tables back. */
  datatype Undo =
    | UndoUser(u: int, row: User, ids: set<int>)
    | UndoTraffic(u: int, row: User)
    | UndoAccess(u: int, ids: set<int>)
    | UndoAdd(i: int)
    | UndoRemove(i: int, inbound: Inbound)
    | UndoReorder(n: int, items: seq<ReorderItem>)
    | UndoSettings(i: int, inbound: Inbound)

  datatype WriteResult = Refused | Wrote(db: Db, undo: Undo, after: Option<User>)

  const DISABLE := Patch(None, Some(false), None, None, None, None)

  /** The settings a Reality switch rewrites. */
  const TARGET_KEYS := {"sni", "handshake_server"}

  function WithSni(s: Settings, sni: string): Settings {
    s["sni" := Str(sni)]["handshake_server" := Str(sni)]
  }

  /** The request's first write, made with the snapshot it took. */
  function Write(db: Db, job: Job, snap: Snap): WriteResult {
    match (job, snap)
    case (EditUser(u, patch, ids), UserSnap(row, before)) =>
      var w := if ids.Some? then UpdateWithAccess(db, u, patch, ids.value) else UpdateUser(db, u, patch);
      if w.None? then Refused else Wrote(w.value, UndoUser(u, row, before), Some(w.value.users[u]))
    case (DeleteUser(u), UserSnap(row, before)) =>
      var w := UpdateWithAccess(db, u, DISABLE, []);
      if w.None? then Refused else Wrote(w.value, UndoUser(u, row, before), None)
    case (ResetUserTraffic(u), UserSnap(row, _)) =>
      Wrote(ResetTraffic(db, u), UndoTraffic(u, row), None)
    case (ChangeAccess(u, edit), AccessSnap(before)) =>
      var w := EditAccess(db, u, edit);
      if w.None? then Refused else Wrote(w.value, UndoAccess(u, before), None)
    case (AddInbound(n, tag, protocol, port, settings), NoSnap) =>
      Wrote(CreateInbound(db, n, tag, protocol, port, settings), UndoAdd(db.nextInbound), None)
    case (RemoveInbound(_), InboundSnap(i, inbound)) =>
      var w := DeleteInbound(db, i);
      if w.None? then Refused else Wrote(w.value, UndoRemove(i, inbound), None)
    case (Reorder(n, items), OrderSnap(before)) =>
      var w := ReorderInbounds(db, n, items);
      if w.None? then Refused else Wrote(w.value, UndoReorder(n, before), None)
    case (Retarget(n, sni), InboundSnap(i, row)) =>
      var w := UpdateInbound(db, i, row.tag, row.protocol, row.port, WithSni(row.settings, sni));
      if Text(row.settings, "sni") == sni || w.None? then Refused else Wrote(w.value, UndoSettings(i, row), None)
    case (_, _) => Refused
  }

  /** The compensating write; None when the database refuses it. */
  function Revert(db: Db, undo: Undo): Option<Db> {
    match undo
    case UndoUser(u, row, ids) => RestoreUser(db, u, row, ids)
    case UndoTraffic(u, row) => Some(RestoreTraffic(db, u, row))
    case UndoAccess(u, ids) => Tables.EditAccess(db, u, Replace(AscendingIds(ids)))
    case UndoAdd(i) => DeleteInbound(db, i)
    case UndoRemove(i, inbound) => RestoreInbound(db, i, inbound)
    case UndoReorder(n, items) => ReorderInbounds(db, n, items)
    case UndoSettings(i, inbound) => UpdateInbound(db, i, inbound.tag, inbound.protocol, inbound.port, inbound.settings)
  }

  predicate UserConfigChanged(before: User, after: User) {
    before.name != after.name || before.enabled != after.enabled || before.limit != after.limit
    || before.expireAt != after.expireAt
  }

  function Changed(before: set<int>, after: set<int>): set<int> {
    (before - after) + (after - before)
  }

  /** The nodes a request pushes to; `ids` is what it reads back of the user's access. */
  function Targets(job: Job, snap: Snap, after: Option<User>, ids: set<int>): set<int> {
    match (job, snap)
    case (EditUser(u, _, wanted), UserSnap(row, before)) =>
      if wanted.Some? || (after.Some? && UserConfigChanged(row, after.value)) then before + ids
      else Changed(before, ids)
    case (DeleteUser(_), UserSnap(_, before)) => before
    case (ResetUserTraffic(_), UserSnap(_, before)) => before
    case (ChangeAccess(_, _), AccessSnap(before)) => Changed(before, ids)
    case (AddInbound(n, _, _, _, _), _) => {n}
    case (RemoveInbound(_), InboundSnap(_, inbound)) => {inbound.node}
    case (Reorder(n, _), _) => {n}
    case (Retarget(n, _), _) => {n}
    case (_, _) => {}
  }

  /** How far the sync of one node has come: the three reads of generateConfig. */
  datatype Sync =
    | Idle
    | Locked(n: int)
    | GotAllowed(n: int, allowed: set<int>)
    | GotUsers(n: int, roster: map<int, Credential>)
    | GotRows(n: int, roster: map<int, Credential>, rows: map<int, Inbound>)

  datatype Req =
    | Starting(job: Job)
    | GotUser(job: Job, row: User)
    | Ready(job: Job, snap: Snap)
    | Written(job: Job, snap: Snap, undo: Undo, after: Option<User>)
    | Pushing(job: Job, undo: Undo, targets: set<int>, todo: set<int>, failed: bool, restoring: bool, sync: Sync)

  // ---- states ----

  /** The first four fields are the program's; the others keep track.
      `served`: the rows each node's configuration was made from.
      `files`: the configuration file of each node, which a failed push can leave different from what
      the node serves.
      `reported`: nodes named in a failed-restore answer (or out of agreement at the start) and not
      pushed since.
      `reverted`: nodes on which a Reality switch was reverted after the rows they serve were read.
      `early`: nodes whose rows have not been read since the last such revert.
      `stopped`: nodes whose service the failed push of a switch left down, and not pushed since.
      `home`: the row every inbound id was handed out for. */
  datatype State = State(now: string, db: Db, deployed: map<int, Config>, reqs: map<int, Req>,
                         served: map<int, map<int, Inbound>>, files: map<int, File<Copy>>, reported: set<int>,
                         reverted: set<int>, early: set<int>, stopped: set<int>, home: map<int, Inbound>)

  /** A configuration, and the rows it was made from. */
  datatype Copy = Copy(config: Config, rows: map<int, Inbound>)

  function FileOf(s: State, n: int): File<Copy> { if n in s.files then s.files[n] else NoFile }

  function ServedBy(s: State, n: int): Option<Copy> {
    if n in s.deployed && n in s.served then Some(Copy(s.deployed[n], s.served[n])) else None
  }

  datatype Step =
    | Begin(r: int, job: Job)
    | ReadUser(r: int)
    | ReadAccess(r: int)
    | ReadInbound(r: int, snap: Snap)
    | DoWrite(r: int)
    | ReadBack(r: int)
    | Lock(r: int, n: int)
    | Skip(r: int)
    | QueryAllowed(r: int)
    | QueryUsers(r: int)
    | QueryRows(r: int)
    | PushOk(r: int)
    | PushFail(r: int, how: Failure)
    | RollBack(r: int)
    | Finish(r: int)

  function Put(s: State, r: int, q: Req): State { s.(reqs := s.reqs[r := q]) }

  function End(s: State, r: int): State { s.(reqs := s.reqs - {r}) }

  predicate SyncingOn(q: Req, n: int) {
    q.Pushing? && q.sync != Idle && q.sync.n == n
  }

  function Access(db: Db, job: Job): set<int> {
    if UserOf(job).Some? then AccessOf(db, UserOf(job).value) else {}
  }

  function TargetsNow(db: Db, q: Req): set<int>
    requires q.Written?
  {
    Targets(q.job, q.snap, q.after, Access(db, q.job))
  }

  predicate Idling(q: Req) { q.Pushing? && q.todo == {} && q.sync == Idle }

  predicate IsSingbox(db: Db, n: int) { n in db.nodes && db.nodes[n].proxyType == "singbox" }

  /** The snapshot an inbound request may take; otherwise it answers an error and ends. */
  predicate Snapshot(db: Db, job: Job, snap: Snap) {
    match (job, snap)
    case (AddInbound(n, _, protocol, _, _), NoSnap) => IsSingbox(db, n) && protocol in KNOWN
    case (RemoveInbound(i), InboundSnap(j, row)) =>
      i == j && i in db.inbounds && db.inbounds[i] == row && IsSingbox(db, row.node)
    case (Reorder(n, _), OrderSnap(items)) =>
      && IsSingbox(db, n)
      && var ids := InboundOrder(RowsOf(db, n));
         items == seq(|ids|, k requires 0 <= k < |ids| => ReorderItem(ids[k], RowsOf(db, n)[ids[k]].sortOrder))
    case (Retarget(n, _), InboundSnap(i, row)) =>
      && i in db.inbounds && db.inbounds[i] == row && row.node == n && row.protocol == "vless-reality"
    case (_, _) => false
  }

  function NewRow(job: Job): Inbound
    requires job.AddInbound?
  {
    Inbound(job.n, job.tag, job.protocol, job.port, job.settings, true, 0)
  }

  function Homes(s: State, job: Job): map<int, Inbound> {
    if job.AddInbound? then s.home[s.db.nextInbound := NewRow(job)] else s.home
  }

  /** A failed push: the first round remembers it, the restoring round reports it. */
  function Failed(s: State, r: int, q: Req): State
    requires q.Pushing? && q.sync != Idle
  {
    var s1 := Put(s, r, q.(failed := true, sync := Idle));
    if q.restoring then s1.(reported := s.reported + {q.sync.n}) else s1
  }

  function Candidate(sync: Sync): Copy
    requires sync.GotRows?
  {
    Copy(Render(sync.roster, sync.rows), sync.rows)
  }

  /** The node takes over the configuration made from what the sync has read. */
  function Land(s: State, sync: Sync): State
    requires sync.GotRows?
  {
    var n, c := sync.n, Candidate(sync);
    s.(deployed := s.deployed[n := c.config], served := s.served[n := c.rows], files := s.files[n := Holds(c)],
       reverted := if n in s.early then s.reverted else s.reverted - {n}, stopped := s.stopped - {n})
  }

  /** The service of node `n` is started on a file it has. */
  function Start(s: State, n: int, c: Copy): State {
    s.(deployed := s.deployed[n := c.config], served := s.served[n := c.rows], stopped := s.stopped - {n})
  }

  function Stop(s: State, q: Req): State
    requires q.Pushing? && q.sync != Idle
  {
    s.(deployed := s.deployed - {q.sync.n}, stopped := if q.job.Retarget? then s.stopped + {q.sync.n} else s.stopped)
  }

  function Effect(s: State, q: Req, how: Failure): State
    requires q.Pushing? && q.sync.GotRows?
  {
    var n, file := q.sync.n, FileOf(s, q.sync.n);
    var s1 := s.(files := s.files[n := FileAfter(file, Candidate(q.sync), how)]);
    match how
    case Landed => Land(s, q.sync)
    case FellBack => if file.Holds? then Start(s1, n, file.content) else Stop(s1, q)
    case Down(_) => Stop(s1, q)
    case _ => s1
  }

  /** The machine's failed pushes do what failed pushes do. */
  lemma EffectIsOutcome(s: State, q: Req, how: Failure)
    requires q.Pushing? && q.sync.GotRows?
    ensures var n, c, s' := q.sync.n, Candidate(q.sync), Effect(s, q, how);
            && FileOf(s', n) == FileAfter(FileOf(s, n), c, how)
            && ServedBy(s', n) == ServedAfter(FileOf(s, n), ServedBy(s, n), c, how)
  {
  }

  ghost predicate Next(s: State, step: Step, s': State) {
    if step.Begin? then
      && step.r !in s.reqs
      && (forall r | r in s.reqs :: UserOf(step.job).Some? ==> UserOf(s.reqs[r].job) != UserOf(step.job))
      && s' == Put(s, step.r, Starting(step.job))
    else
      && step.r in s.reqs
      && var r, q := step.r, s.reqs[step.r];
         match step
         case ReadUser(_) =>
           && q.Starting? && (q.job.EditUser? || q.job.DeleteUser? || q.job.ResetUserTraffic?)
           && s' == if q.job.u in s.db.users then Put(s, r, GotUser(q.job, s.db.users[q.job.u])) else End(s, r)
         case ReadAccess(_) =>
           || (q.GotUser? && UserOf(q.job).Some?
               && s' == Put(s, r, Ready(q.job, UserSnap(q.row, AccessOf(s.db, UserOf(q.job).value)))))
           || (q.Starting? && q.job.ChangeAccess?
               && s' == Put(s, r, Ready(q.job, AccessSnap(AccessOf(s.db, q.job.u)))))
         case ReadInbound(_, snap) =>
           && q.Starting? && UserOf(q.job).None?
           && s' == if Snapshot(s.db, q.job, snap) then Put(s, r, Ready(q.job, snap)) else End(s, r)
         case DoWrite(_) =>
           && q.Ready?
           && s' == (match Write(s.db, q.job, q.snap)
                     case Refused => End(s, r)
                     case Wrote(db, undo, after) =>
                       Put(s.(db := db, home := Homes(s, q.job)),
                           r, Written(q.job, q.snap, undo, after)))
         case ReadBack(_) =>
           && q.Written?
           && s' == Put(s, r, Pushing(q.job, q.undo, TargetsNow(s.db, q), TargetsNow(s.db, q), false, false, Idle))
         case Lock(_, n) =>
           && q.Pushing? && q.sync == Idle && n in q.todo
           && (forall p | p in s.reqs :: !SyncingOn(s.reqs[p], n))
           && s' == Put(s, r, q.(todo := q.todo - {n}, sync := Locked(n)))
         case Skip(_) =>
           && q.Pushing? && q.sync.Locked? && !IsSingbox(s.db, q.sync.n) && s' == Failed(s, r, q)
         case QueryAllowed(_) =>
           && q.Pushing? && q.sync.Locked? && IsSingbox(s.db, q.sync.n)
           && s' == Put(s, r, q.(sync := GotAllowed(q.sync.n, UsersForNode(s.db, s.now, q.sync.n))))
         case QueryUsers(_) =>
           && q.Pushing? && q.sync.GotAllowed?
           && s' == Put(s, r, q.(sync := GotUsers(q.sync.n, EnabledAmong(s.db, s.now, q.sync.allowed))))
         case QueryRows(_) =>
           && q.Pushing? && q.sync.GotUsers?
           && s' == Put(s, r, q.(sync := GotRows(q.sync.n, q.sync.roster, RowsOf(s.db, q.sync.n))))
                    .(early := s.early - {q.sync.n})
         case PushOk(_) =>
           && q.Pushing? && q.sync.GotRows?
           && s' == Put(Land(s, q.sync), r, q.(sync := Idle)).(reported := s.reported - {q.sync.n})
         case PushFail(_, how) =>
           && q.Pushing? && q.sync.GotRows? && s' == Failed(Effect(s, q, how), r, q)
         case RollBack(_) =>
           && Idling(q) && q.failed && !q.restoring
           && s' == (match Revert(s.db, q.undo)
                     case None => End(s, r).(reported := s.reported + q.targets)
                     case Some(db) =>
                       if q.job.Retarget? then
                         End(s, r).(db := db, reverted := s.reverted + q.targets, early := s.early + q.targets)
                       else Put(s.(db := db), r, q.(restoring := true, failed := false, todo := q.targets)))
         case Finish(_) =>
           && Idling(q) && (q.restoring || !q.failed)
           && if q.job.DeleteUser? && !q.restoring then
                var d := DeleteWithRelatedData(s.db, q.job.u);
                d.Some? && s' == End(s, r).(db := d.value)
              else s' == End(s, r)
         case Begin(_, _) => false
  }

  ghost predicate Agrees(s: State, n: int) {
    n in s.deployed && s.deployed[n] == Generated(s.db, s.now, n)
  }

  /** An inbound row up to what a Reality switch rewrites. */
  function Bare(row: Inbound): Inbound {
    if row.protocol == "vless-reality" then row.(settings := row.settings - TARGET_KEYS) else row
  }

  /** Two rows that one inbound has had: they differ in its place and its Reality target at most. */
  predicate Kin(a: Inbound, b: Inbound) {
    Bare(a.(sortOrder := 0)) == Bare(b.(sortOrder := 0))
  }

  ghost predicate HomeOk(db: Db, home: map<int, Inbound>) {
    && (forall i | i in db.inbounds :: i in home && Kin(db.inbounds[i], home[i]))
    && (forall i | i in home :: i < db.nextInbound)
  }

  /** The node agrees, and its file holds what it serves. */
  ghost predicate InPlace(s: State, n: int) {
    && Agrees(s, n) && n in s.served && s.served[n] == RowsOf(s.db, n)
    && FileOf(s, n) == Holds(Copy(s.deployed[n], s.served[n]))
  }

  /** Nothing in flight; every node that is out of agreement is in `reported`. */
  ghost predicate Init(s: State) {
    && Valid(s.db) && s.reqs == map[] && HomeOk(s.db, s.home)
    && (forall n | n in s.db.nodes :: n in s.reported || InPlace(s, n))
    && s.deployed.Keys + s.files.Keys <= s.db.nodes.Keys + s.reported
    && s.reverted == {} && s.early == {} && s.stopped == {}
  }

  ghost predicate IsRun(run: seq<State>, steps: seq<Step>) {
    && |run| == |steps| + 1
    && Init(run[0])
    && forall k | 0 <= k < |steps| :: Next(run[k], steps[k], run[k + 1])
  }
}
