/** Why a Reality switch is set apart (handler/reality.go): its revert writes the
    settings back and pushes nothing. A push that landed in between, its own or
    another request's, leaves the new target deployed over the old settings; so does
    one that left it in the file for a later failed push to fall back to. */
module RealitySwitch {
  import opened Tables
  import opened Generator
  import opened EditProtocol
  import opened Views
  import opened RealityTargets
  import opened PushOutcome

  ghost predicate Reached(from: State, s: State) {
    exists run, steps :: IsRun(run, steps) && run[0] == from && run[|run| - 1] == s
  }

  lemma Then(from: State, s: State, step: Step, s': State)
    requires Reached(from, s) && Next(s, step, s')
    ensures Reached(from, s')
  {
    var run, steps :| IsRun(run, steps) && run[0] == from && run[|run| - 1] == s;
    assert IsRun(run + [s'], steps + [step]);
  }

  /** A target switch of inbound `i` on node `n` that has something to do. */
  predicate Switchable(db: Db, n: int, i: int, sni: string) {
    && IsSingbox(db, n) && i in db.inbounds && db.inbounds[i].node == n && db.inbounds[i].protocol == "vless-reality"
    && Text(db.inbounds[i].settings, "sni") != sni
  }

  function Order(db: Db, n: int): seq<ReorderItem> {
    var ids := InboundOrder(RowsOf(db, n));
    seq(|ids|, k requires 0 <= k < |ids| => ReorderItem(ids[k], RowsOf(db, n)[ids[k]].sortOrder))
  }

  function PushOf(job: Job, undo: Undo, n: int): Req {
    Pushing(job, undo, {n}, {n}, false, false, Idle)
  }

  lemma ReadsBack(from: State, s: State, r: int, n: int, q: Req)
    requires Reached(from, Put(s, r, q)) && q.Written? && TargetsNow(s.db, q) == {n}
    ensures Reached(from, Put(s, r, PushOf(q.job, q.undo, n)))
  {
    var s1, s2 := Put(s, r, q), Put(s, r, PushOf(q.job, q.undo, n));
    assert s2 == Put(s1, r, s2.reqs[r]);
    Then(from, s1, ReadBack(r), s2);
  }

  lemma {:induction false} SwitchReads(from: State, s: State, r: int, n: int, i: int, sni: string)
    requires Reached(from, s) && s.reqs == map[] && Switchable(s.db, n, i, sni)
    ensures Reached(from, Put(s, r, Ready(Retarget(n, sni), InboundSnap(i, s.db.inbounds[i]))))
  {
    var job, snap := Retarget(n, sni), InboundSnap(i, s.db.inbounds[i]);
    var s1, s2 := Put(s, r, Starting(job)), Put(s, r, Ready(job, snap));
    assert s2 == Put(s1, r, s2.reqs[r]);
    Then(from, s, Begin(r, job), s1);
    Then(from, s1, ReadInbound(r, snap), s2);
  }

  lemma {:induction false} SwitchWrites(from: State, s: State, r: int, n: int, i: int, sni: string)
    requires Reached(from, s) && s.reqs == map[] && Switchable(s.db, n, i, sni)
    ensures Reached(from, Put(s.(db := Switched(s.db, i, sni)), r,
                              PushOf(Retarget(n, sni), UndoSettings(i, s.db.inbounds[i]), n)))
  {
    var job, snap, undo := Retarget(n, sni), InboundSnap(i, s.db.inbounds[i]), UndoSettings(i, s.db.inbounds[i]);
    SwitchReads(from, s, r, n, i, sni);
    Writes(from, s, r, job, snap, Wrote(Switched(s.db, i, sni), undo, None));
    ReadsBack(from, s.(db := Switched(s.db, i, sni)), r, n, Written(job, snap, undo, None));
  }

  lemma Writes(from: State, s: State, r: int, job: Job, snap: Snap, w: WriteResult)
    requires Reached(from, Put(s, r, Ready(job, snap))) && !job.AddInbound?
    requires w.Wrote? && Write(s.db, job, snap) == w
    ensures Reached(from, Put(s.(db := w.db), r, Written(job, snap, w.undo, w.after)))
  {
    var s1, s2 := Put(s, r, Ready(job, snap)), Put(s.(db := w.db), r, Written(job, snap, w.undo, w.after));
    assert s2.reqs == s1.reqs[r := s2.reqs[r]];
    Then(from, s1, DoWrite(r), s2);
  }

  lemma OrderIsSnapshot(db: Db, n: int)
    requires IsSingbox(db, n)
    ensures Snapshot(db, EditProtocol.Reorder(n, []), OrderSnap(Order(db, n)))
  {
  }

  lemma {:induction false} ReorderReads(from: State, s: State, r: int, n: int)
    requires Reached(from, s) && r !in s.reqs && IsSingbox(s.db, n)
    ensures Reached(from, Put(s, r, Ready(EditProtocol.Reorder(n, []), OrderSnap(Order(s.db, n)))))
  {
    var job := EditProtocol.Reorder(n, []);
    Then(from, s, Begin(r, job), Put(s, r, Starting(job)));
    OrderIsSnapshot(s.db, n);
    ReadsSnapshot(from, s, r, job, OrderSnap(Order(s.db, n)));
  }

  lemma ReadsSnapshot(from: State, s: State, r: int, job: Job, snap: Snap)
    requires Reached(from, Put(s, r, Starting(job))) && UserOf(job).None? && Snapshot(s.db, job, snap)
    ensures Reached(from, Put(s, r, Ready(job, snap)))
  {
    var s1, s2 := Put(s, r, Starting(job)), Put(s, r, Ready(job, snap));
    assert s2 == Put(s1, r, s2.reqs[r]);
    Then(from, s1, ReadInbound(r, snap), s2);
  }

  lemma {:induction false} ReorderWrites(from: State, s: State, r: int, n: int)
    requires Reached(from, s) && r !in s.reqs && IsSingbox(s.db, n)
    ensures Reached(from, Put(s, r, PushOf(EditProtocol.Reorder(n, []), UndoReorder(n, Order(s.db, n)), n)))
  {
    var job, items := EditProtocol.Reorder(n, []), Order(s.db, n);
    ReorderReads(from, s, r, n);
    Writes(from, s, r, job, OrderSnap(items), Wrote(s.db, UndoReorder(n, items), None));
    ReadsBack(from, s, r, n, Written(job, OrderSnap(items), UndoReorder(n, items), None));
  }

  function ReadIt(s: State, r: int, n: int): State
    requires r in s.reqs && s.reqs[r].Pushing?
  {
    Put(s, r, s.reqs[r].(todo := {}, sync := GotRows(n, Roster(s.db, s.now, n), RowsOf(s.db, n))))
    .(early := s.early - {n})
  }

  /** One sync of the node, up to its push. */
  lemma {:induction false} ReadsNode(from: State, s: State, r: int, n: int)
    requires Reached(from, s) && r in s.reqs && IsSingbox(s.db, n) && s.reqs[r].Pushing? && s.reqs[r].todo == {n}
    requires forall p | p in s.reqs :: s.reqs[p].Pushing? && s.reqs[p].sync == Idle
    ensures Reached(from, ReadIt(s, r, n))
  {
    ReadsAllowed(from, s, r, n);
    ReadsUsers(from, s, r, n);
    var s3 := Put(s, r, s.reqs[r].(todo := {}, sync := GotUsers(n, Roster(s.db, s.now, n))));
    assert ReadIt(s, r, n).reqs == s3.reqs[r := ReadIt(s, r, n).reqs[r]];
    Then(from, s3, QueryRows(r), ReadIt(s, r, n));
  }

  lemma ReadsUsers(from: State, s: State, r: int, n: int)
    requires r in s.reqs && s.reqs[r].Pushing?
    requires Reached(from, Put(s, r, s.reqs[r].(todo := {}, sync := GotAllowed(n, UsersForNode(s.db, s.now, n)))))
    ensures Reached(from, Put(s, r, s.reqs[r].(todo := {}, sync := GotUsers(n, Roster(s.db, s.now, n)))))
  {
    var q := s.reqs[r].(todo := {});
    var s2 := Put(s, r, q.(sync := GotAllowed(n, UsersForNode(s.db, s.now, n))));
    var s3 := Put(s, r, q.(sync := GotUsers(n, Roster(s.db, s.now, n))));
    assert s3 == Put(s2, r, s3.reqs[r]);
    Then(from, s2, QueryUsers(r), s3);
  }

  lemma {:induction false} ReadsAllowed(from: State, s: State, r: int, n: int)
    requires Reached(from, s) && r in s.reqs && IsSingbox(s.db, n)
    requires s.reqs[r].Pushing? && s.reqs[r].todo == {n}
    requires forall p | p in s.reqs :: s.reqs[p].Pushing? && s.reqs[p].sync == Idle
    ensures Reached(from, Put(s, r, s.reqs[r].(todo := {}, sync := GotAllowed(n, UsersForNode(s.db, s.now, n)))))
  {
    var q := s.reqs[r].(todo := {});
    var s1, s2 := Put(s, r, q.(sync := Locked(n))), Put(s, r, q.(sync := GotAllowed(n, UsersForNode(s.db, s.now, n))));
    assert s2 == Put(s1, r, s2.reqs[r]) && {n} - {n} == {};
    Then(from, s, Lock(r, n), s1);
    Then(from, s1, QueryAllowed(r), s2);
  }

  function Made(s: State, n: int): Copy { Copy(Generated(s.db, s.now, n), RowsOf(s.db, n)) }

  /** The node serves what the present tables make. */
  function Pushed(s: State, n: int): State {
    s.(deployed := s.deployed[n := Made(s, n).config], served := s.served[n := Made(s, n).rows],
       files := s.files[n := Holds(Made(s, n))],
       reverted := s.reverted - {n}, early := s.early - {n}, stopped := s.stopped - {n})
  }

  lemma {:induction false} ReorderPushes(from: State, s: State, r: int, n: int)
    requires Reached(from, s) && r !in s.reqs && IsSingbox(s.db, n)
    requires forall p | p in s.reqs :: s.reqs[p].Pushing? && s.reqs[p].sync == Idle
    ensures Reached(from, Pushed(s, n).(reported := s.reported - {n}))
  {
    var q := PushOf(EditProtocol.Reorder(n, []), UndoReorder(n, Order(s.db, n)), n);
    ReorderWrites(from, s, r, n);
    var s0 := Put(s, r, q);
    ReadsNode(from, s0, r, n);
    var q1 := q.(todo := {}, sync := GotRows(n, Roster(s.db, s.now, n), RowsOf(s.db, n)));
    assert s0.reqs[r := q1] == s.reqs[r := q1];
    PushLands(from, s, r, n, q1);
  }

  lemma {:induction false} PushLands(from: State, s: State, r: int, n: int, q: Req)
    requires r !in s.reqs && Reached(from, Put(s, r, q).(early := s.early - {n}))
    requires q.Pushing? && !q.job.DeleteUser? && !q.failed && q.todo == {}
    requires q.sync == GotRows(n, Roster(s.db, s.now, n), RowsOf(s.db, n))
    ensures Reached(from, Pushed(s, n).(reported := s.reported - {n}))
  {
    var s1 := Put(s, r, q).(early := s.early - {n});
    var s2 := Pushed(s, n).(reported := s.reported - {n});
    LandsPushed(s, r, n, q);
    Then(from, s1, PushOk(r), Put(s2, r, q.(sync := Idle)));
    Finishes(from, s2, r, q.(sync := Idle));
  }

  lemma LandsPushed(s: State, r: int, n: int, q: Req)
    requires q.Pushing? && q.sync == GotRows(n, Roster(s.db, s.now, n), RowsOf(s.db, n))
    ensures Put(Land(Put(s, r, q).(early := s.early - {n}), q.sync), r, q.(sync := Idle)).(reported := s.reported - {n})
            == Put(Pushed(s, n).(reported := s.reported - {n}), r, q.(sync := Idle))
  {
    assert s.reqs[r := q][r := q.(sync := Idle)] == s.reqs[r := q.(sync := Idle)];
  }

  lemma Finishes(from: State, s: State, r: int, q: Req)
    requires r !in s.reqs && Reached(from, Put(s, r, q)) && Idling(q) && !q.job.DeleteUser? && !q.failed
    ensures Reached(from, s)
  {
    assert Put(s, r, q).reqs - {r} == s.reqs;
    Then(from, Put(s, r, q), Finish(r), s);
  }

  /** A switch in flight: its settings are written and its push is to come. */
  ghost predicate InFlight(s: State, r: int, n: int, i: int, was: Inbound) {
    && IsSingbox(s.db, n) && i in s.db.inbounds && s.db.inbounds[i] == was.(settings := s.db.inbounds[i].settings)
    && exists sni :: s.reqs == map[r := PushOf(Retarget(n, sni), UndoSettings(i, was), n)]
  }

  function TakenBack(s: State, n: int, i: int, was: Inbound): State {
    s.(db := s.db.(inbounds := s.db.inbounds[i := was]), reverted := s.reverted + {n},
       early := s.early + {n}, reqs := map[])
  }

  function FailedPush(n: int, i: int, was: Inbound, sni: string): Req {
    Pushing(Retarget(n, sni), UndoSettings(i, was), {n}, {}, true, false, Idle)
  }

  /** Its push fails, one way or another, and the settings are written back. */
  lemma {:induction false} SwitchFails(from: State, s: State, r: int, n: int, i: int, was: Inbound, how: Failure)
    requires Reached(from, s) && InFlight(s, r, n, i, was)
    ensures Reached(from, TakenBack(Effect(ReadIt(s, r, n), ReadIt(s, r, n).reqs[r], how), n, i, was))
  {
    var sni :| s.reqs == map[r := PushOf(Retarget(n, sni), UndoSettings(i, was), n)];
    ReadsNode(from, s, r, n);
    var s1 := ReadIt(s, r, n);
    assert s1.reqs == map[r := s1.reqs[r]];
    PushGoesWrong(from, s1, r, how, FailedPush(n, i, was, sni));
    EffectKeeps(s1, s1.reqs[r], how);
    TakesBackAfter(from, Effect(s1, s1.reqs[r], how), r, n, i, was, sni);
  }

  lemma TakesBackAfter(from: State, s: State, r: int, n: int, i: int, was: Inbound, sni: string)
    requires Reached(from, Put(s, r, FailedPush(n, i, was, sni))) && s.reqs.Keys == {r}
    requires i in s.db.inbounds && s.db.inbounds[i] == was.(settings := s.db.inbounds[i].settings)
    ensures Reached(from, TakenBack(s, n, i, was))
  {
    var q := FailedPush(n, i, was, sni);
    assert s.reqs[r := q] == map[r := q];
    TakesBack(from, Put(s, r, q), r, n, i, was, sni);
  }

  lemma EffectKeeps(s: State, q: Req, how: Failure)
    requires q.Pushing? && q.sync.GotRows?
    ensures var a := Effect(s, q, how); a.db == s.db && a.reqs == s.reqs && a.now == s.now
  {
  }

  lemma PushGoesWrong(from: State, s: State, r: int, how: Failure, q: Req)
    requires Reached(from, s) && r in s.reqs && s.reqs[r].Pushing? && !s.reqs[r].restoring && s.reqs[r].sync.GotRows?
    requires q == s.reqs[r].(sync := Idle, failed := true)
    ensures Reached(from, Put(Effect(s, s.reqs[r], how), r, q))
  {
    EffectKeeps(s, s.reqs[r], how);
    Then(from, s, PushFail(r, how), Put(Effect(s, s.reqs[r], how), r, q));
  }

  lemma {:induction false} TakesBack(from: State, s: State, r: int, n: int, i: int, was: Inbound, sni: string)
    requires Reached(from, s) && i in s.db.inbounds && s.db.inbounds[i] == was.(settings := s.db.inbounds[i].settings)
    requires s.reqs == map[r := FailedPush(n, i, was, sni)]
    ensures Reached(from, TakenBack(s, n, i, was))
  {
    assert s.reqs - {r} == map[];
    Then(from, s, RollBack(r), TakenBack(s, n, i, was));
  }

  /** A switch whose settings are written, on an otherwise idle panel. */
  function Written1(s: State, n: int, i: int, sni: string): State
    requires i in s.db.inbounds
  {
    Put(s.(db := Switched(s.db, i, sni)), 0, PushOf(Retarget(n, sni), UndoSettings(i, s.db.inbounds[i]), n))
  }

  /** A switch from its begin to its revert, with nothing in between. */
  function Alone(s: State, n: int, i: int, sni: string, how: Failure): State
    requires i in s.db.inbounds
  {
    var s1 := ReadIt(Written1(s, n, i, sni), 0, n);
    TakenBack(Effect(s1, s1.reqs[0], how), n, i, s.db.inbounds[i])
  }

  lemma {:induction false} LoneFailure(from: State, s: State, n: int, i: int, sni: string, how: Failure)
    requires Reached(from, s) && s.reqs == map[] && Switchable(s.db, n, i, sni)
    ensures Reached(from, Alone(s, n, i, sni, how))
  {
    SwitchWrites(from, s, 0, n, i, sni);
    SwitchFails(from, Written1(s, n, i, sni), 0, n, i, s.db.inbounds[i], how);
  }

  /** What every lone failed switch leaves as it was, and what it marks. */
  lemma AloneKeeps(s: State, n: int, i: int, sni: string, how: Failure)
    requires s.reqs == map[] && Switchable(s.db, n, i, sni)
    ensures var a := Alone(s, n, i, sni, how);
            && a.db == s.db && a.now == s.now && a.reqs == map[] && a.home == s.home && a.reported == s.reported
            && a.early == s.early + {n} && a.reverted == s.reverted + {n}
  {
    var s1 := ReadIt(Written1(s, n, i, sni), 0, n);
    EffectKeeps(s1, s1.reqs[0], how);
    EffectMarks(s1, s1.reqs[0], how);
    TakenBackKeeps(s, Effect(s1, s1.reqs[0], how), n, i, sni);
    assert s.early - {n} + {n} == s.early + {n};
  }

  lemma TakenBackKeeps(s: State, s1: State, n: int, i: int, sni: string)
    requires i in s.db.inbounds && s1.db == Switched(s.db, i, sni)
    ensures var a := TakenBack(s1, n, i, s.db.inbounds[i]);
            && a.db == s.db && a.now == s1.now && a.reqs == map[] && a.home == s1.home && a.reported == s1.reported
            && a.early == s1.early + {n} && a.reverted == s1.reverted + {n}
  {
    assert s1.db.inbounds[i := s.db.inbounds[i]] == s.db.inbounds;
  }

  lemma EffectMarks(s: State, q: Req, how: Failure)
    requires q.Pushing? && q.sync.GotRows?
    ensures var a := Effect(s, q, how);
            a.early == s.early && a.home == s.home && a.reported == s.reported
            && a.reverted + {q.sync.n} == s.reverted + {q.sync.n}
  {
  }

  /** Where a failed switch can end: nothing is in flight, the tables are the old ones, and the node
      serves, and has in its file, what a switch to `sni` makes. */
  function Ended(s: State, n: int, i: int, sni: string): State
    requires i in s.db.inbounds
  {
    var c := Made(s.(db := Switched(s.db, i, sni)), n);
    s.(deployed := s.deployed[n := c.config], served := s.served[n := c.rows], files := s.files[n := Holds(c)],
       reverted := s.reverted + {n}, early := s.early + {n}, stopped := s.stopped - {n})
  }

  /** When another request pushed the node in between, even a push of its own that does nothing. */
  lemma {:induction false} RevertLeavesSwitch(from: State, s: State, n: int, i: int, sni: string)
    requires Reached(from, s) && s.reqs == map[] && Switchable(s.db, n, i, sni)
    ensures Reached(from, Ended(s, n, i, sni).(reported := s.reported - {n}))
  {
    var was := s.db.inbounds[i];
    SwitchWrites(from, s, 0, n, i, sni);
    var s1 := Put(s.(db := Switched(s.db, i, sni)), 0, PushOf(Retarget(n, sni), UndoSettings(i, was), n));
    ReorderPushes(from, s1, 1, n);
    var s2 := Pushed(s1, n).(reported := s1.reported - {n});
    assert s2.reqs == map[0 := PushOf(Retarget(n, sni), UndoSettings(i, was), n)];
    SwitchFails(from, s2, 0, n, i, was, Kept);
    SameEnd(s, s2, n, i, sni);
  }

  lemma SameEnd(s: State, s2: State, n: int, i: int, sni: string)
    requires i in s.db.inbounds && s.reqs == map[] && 0 in s2.reqs && s2.reqs[0].Pushing?
    requires s2 == Pushed(s.(db := Switched(s.db, i, sni)), n).(reported := s2.reported, reqs := s2.reqs)
    ensures TakenBack(Effect(ReadIt(s2, 0, n), ReadIt(s2, 0, n).reqs[0], Kept), n, i, s.db.inbounds[i])
            == Ended(s, n, i, sni).(reported := s2.reported)
  {
    assert s2.db.inbounds[i := s.db.inbounds[i]] == s.db.inbounds;
    assert s2.files[n := FileOf(s2, n)] == s2.files;
    assert s2.early - {n} + {n} == s.early + {n} && s.reverted - {n} + {n} == s.reverted + {n};
  }

  /** With one request alone, when its push landed and only the answer was lost. */
  lemma {:induction false} LostAnswerLeavesSwitch(from: State, s: State, n: int, i: int, sni: string)
    requires Reached(from, s) && s.reqs == map[] && Switchable(s.db, n, i, sni)
    ensures Reached(from, Ended(s, n, i, sni))
  {
    LoneFailure(from, s, n, i, sni, Landed);
    AloneKeeps(s, n, i, sni, Landed);
    assert Alone(s, n, i, sni, Landed) == Ended(s, n, i, sni);
  }

  /** With two failed switches, one after the other: the first left its configuration in the file
      without a restart, and the second fell back to that file. */
  lemma {:induction false} FallBackLeavesSwitch(from: State, s: State, n: int, i: int, sni: string, second: string)
    requires Reached(from, s) && s.reqs == map[] && Switchable(s.db, n, i, sni) && Switchable(s.db, n, i, second)
    ensures Reached(from, Ended(s, n, i, sni))
  {
    LoneFailure(from, s, n, i, sni, Staged);
    StagedLeaves(s, n, i, sni);
    var s1 := Alone(s, n, i, sni, Staged);
    LoneFailure(from, s1, n, i, second, FellBack);
    FellBackLeaves(s1, n, i, second, Made(s.(db := Switched(s.db, i, sni)), n));
    assert s.early + {n} + {n} == s.early + {n} && s.reverted + {n} + {n} == s.reverted + {n};
  }

  lemma StagedLeaves(s: State, n: int, i: int, sni: string)
    requires s.reqs == map[] && Switchable(s.db, n, i, sni)
    ensures Alone(s, n, i, sni, Staged) == s.(files := s.files[n := Holds(Made(s.(db := Switched(s.db, i, sni)), n))],
                                             early := s.early + {n}, reverted := s.reverted + {n})
  {
    AloneKeeps(s, n, i, sni, Staged);
  }

  lemma FellBackLeaves(s: State, n: int, i: int, sni: string, c: Copy)
    requires s.reqs == map[] && Switchable(s.db, n, i, sni) && n in s.files && s.files[n] == Holds(c)
    ensures Alone(s, n, i, sni, FellBack)
            == Start(s, n, c).(early := s.early + {n}, reverted := s.reverted + {n})
  {
    AloneKeeps(s, n, i, sni, FellBack);
    assert s.files[n := Holds(c)] == s.files;
  }

  /** There the node disagrees if and only if the inbound is enabled. */
  lemma {:induction false} EndedDisagreesIff(s: State, n: int, i: int, sni: string)
    requires Switchable(s.db, n, i, sni)
    ensures !Agrees(Ended(s, n, i, sni), n) <==> s.db.inbounds[i].enabled
  {
    SniOnly(s.db.inbounds[i].settings, sni);
    RowSwapped(s.db, i, Switched(s.db, i, sni).inbounds[i], s.now, n);
    OneRowOff(s.db, n, i, sni);
    var a, b := RowsOf(Switched(s.db, i, sni), n), RowsOf(s.db, n);
    RendersAlikeIff(Roster(s.db, s.now, n), a, b);
    assert Ended(s, n, i, sni).deployed[n] == Render(Roster(s.db, s.now, n), a);
  }

  // ---- a node on which it shows ----

  function OneInbound(sni: string): Db {
    Db(map[], map[1 := Node("edge", "198.51.100.1", "", "singbox", true, 0)], {},
       map[1 := Inbound(1, "reality", "vless-reality", 443, map["sni" := Str(sni)], true, 0)], 2)
  }

  /** Nothing in flight, and every node pushed. */
  function AllPushed(db: Db, now: string): State {
    State(now, db, map n | n in db.nodes :: Generated(db, now, n), map[], map n | n in db.nodes :: RowsOf(db, n),
          map n | n in db.nodes :: Holds(Copy(Generated(db, now, n), RowsOf(db, n))), {}, {}, {}, {}, db.inbounds)
  }

  lemma PushedIsInit(db: Db, now: string)
    requires Valid(db)
    ensures Init(AllPushed(db, now))
  {
    var s := AllPushed(db, now);
    forall n | n in db.nodes ensures InPlace(s, n) { assert s.deployed[n] == Generated(db, now, n); }
    assert HomeOk(db, s.home);
  }

  lemma StartsPushed(db: Db, now: string)
    requires Valid(db)
    ensures Reached(AllPushed(db, now), AllPushed(db, now))
  {
    PushedIsInit(db, now);
    assert IsRun([AllPushed(db, now)], []);
  }

  lemma OneInboundSwitches(was: string, sni: string)
    requires was != sni
    ensures var db := OneInbound(was); Valid(db) && Switchable(db, 1, 1, sni) && db.inbounds[1].enabled
  {
  }

  /** A run of the code with a single request at whose end nothing is in flight and no answer reported
      a failed restore, yet the node serves a Reality target the tables do not hold. */
  lemma {:induction false} RevertCanDisagree(was: string, sni: string) returns (run: seq<State>, steps: seq<Step>)
    requires was != sni
    ensures IsRun(run, steps) && run[0] == AllPushed(OneInbound(was), "")
    ensures var s := run[|run| - 1]; s.reqs == map[] && s.db == OneInbound(was) && s.reported == {} && !Agrees(s, 1)
  {
    OneInboundSwitches(was, sni);
    run, steps := SwitchOn(OneInbound(was), 1, 1, sni);
  }

  lemma {:induction false} SwitchOn(db: Db, n: int, i: int, sni: string) returns (run: seq<State>, steps: seq<Step>)
    requires Valid(db) && Switchable(db, n, i, sni) && db.inbounds[i].enabled
    ensures IsRun(run, steps) && run[0] == AllPushed(db, "")
    ensures var s := run[|run| - 1]; s.reqs == map[] && s.db == db && s.reported == {} && !Agrees(s, n)
  {
    StartsPushed(db, "");
    run, steps := LoneSwitch(AllPushed(db, ""), n, i, sni);
  }

  /** The same from any state the program can be in with nothing in flight. */
  lemma {:induction false} LoneSwitch(s: State, n: int, i: int, sni: string) returns (run: seq<State>, steps: seq<Step>)
    requires Reached(s, s) && s.reqs == map[] && Switchable(s.db, n, i, sni) && s.db.inbounds[i].enabled
    ensures IsRun(run, steps) && run[0] == s
    ensures var s' := run[|run| - 1];
            s'.reqs == map[] && s'.db == s.db && s'.reported == s.reported && !Agrees(s', n)
  {
    LostAnswerLeavesSwitch(s, s, n, i, sni);
    EndedDisagreesIff(s, n, i, sni);
    run, steps :| IsRun(run, steps) && run[0] == s && run[|run| - 1] == Ended(s, n, i, sni);
  }
}
