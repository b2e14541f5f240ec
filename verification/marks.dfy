/** What the marks of the protocol mean (handler/user.go:127-139, handler/auth.go:387-402,
    handler/node.go:247-302, handler/reality.go:207-219): a node is marked only by an
    answer that names it, or by a failed Reality switch, and a push that lands clears
    it. */
module Marks {
  import opened Tables
  import opened EditProtocol
  import opened PushOutcome

  /** The request of the step is pushing node `n`. */
  ghost predicate At(s: State, r: int, n: int) {
    r in s.reqs && s.reqs[r].Pushing? && s.reqs[r].sync != Idle && s.reqs[r].sync.n == n
  }

  /** The answer of this request will name `n`: its restoring push fails, or its compensating write is
      refused. */
  ghost predicate Reports(s: State, step: Step, n: int) {
    || ((step.PushFail? || step.Skip?) && At(s, step.r, n) && s.reqs[step.r].restoring)
    || (step.RollBack? && step.r in s.reqs && s.reqs[step.r].Pushing? && n in s.reqs[step.r].targets
        && Revert(s.db, s.reqs[step.r].undo).None?)
  }

  ghost predicate Confirms(s: State, step: Step, n: int) { step.PushOk? && At(s, step.r, n) }

  /** The node takes over a configuration. */
  ghost predicate Lands(s: State, step: Step, n: int) {
    (step.PushOk? || (step.PushFail? && step.how.Landed?)) && At(s, step.r, n)
  }

  ghost predicate ReadsRows(s: State, step: Step, n: int) { step.QueryRows? && At(s, step.r, n) }

  /** A failed Reality switch on `n` takes its settings back. */
  ghost predicate Reverts(s: State, step: Step, n: int) {
    && step.RollBack? && step.r in s.reqs && s.reqs[step.r].Pushing? && s.reqs[step.r].job.Retarget?
    && n in s.reqs[step.r].targets
  }

  /** A switch's failed push leaves the service of `n` down. */
  ghost predicate Downs(s: State, step: Step, n: int) {
    && step.PushFail? && At(s, step.r, n) && s.reqs[step.r].job.Retarget?
    && (step.how.Down? || (step.how.FellBack? && !FileOf(s, n).Holds?))
  }

  ghost predicate Starts(s: State, step: Step, n: int) {
    Lands(s, step, n) || (step.PushFail? && At(s, step.r, n) && step.how.FellBack? && FileOf(s, n).Holds?)
  }

  /** What one step does to the marks of a node: it takes no new one but for the reasons above. */
  ghost predicate Marked(s: State, step: Step, s': State, n: int) {
    && (n in s'.reported ==> Reports(s, step, n) || (n in s.reported && !Confirms(s, step, n)))
    && (n in s'.reverted ==> Reverts(s, step, n) || (n in s.reverted && (Lands(s, step, n) ==> n in s.early)))
    && (n in s'.early ==> Reverts(s, step, n) || (n in s.early && !ReadsRows(s, step, n)))
    && (n in s'.stopped ==> Downs(s, step, n) || (n in s.stopped && !Starts(s, step, n)))
  }

  lemma StepMarks(s: State, step: Step, s': State, n: int)
    requires Next(s, step, s')
    ensures Marked(s, step, s', n)
  {
    match step
    case PushOk(r) => OkMarks(s, r, s', n);
    case PushFail(r, how) => FailMarks(s, r, how, s', n);
    case Skip(r) => SkipMarks(s, r, s', n);
    case QueryRows(r) => RowsMarks(s, r, s', n);
    case RollBack(r) => BackMarks(s, r, s', n);
    case _ => OtherMarks(s, step, s');
  }

  lemma OkMarks(s: State, r: int, s': State, n: int)
    requires Next(s, PushOk(r), s')
    ensures Marked(s, PushOk(r), s', n)
  {
  }

  lemma FailMarks(s: State, r: int, how: Failure, s': State, n: int)
    requires Next(s, PushFail(r, how), s')
    ensures Marked(s, PushFail(r, how), s', n)
  {
    match how
    case Landed => LandedMarks(s, r, s', n);
    case FellBack => FellBackMarks(s, r, s', n);
    case Down(left) => DownMarks(s, r, left, s', n);
    case _ => KeptMarks(s, r, how, s', n);
  }

  lemma LandedMarks(s: State, r: int, s': State, n: int)
    requires Next(s, PushFail(r, Landed), s')
    ensures Marked(s, PushFail(r, Landed), s', n)
  {
  }

  lemma FellBackMarks(s: State, r: int, s': State, n: int)
    requires Next(s, PushFail(r, FellBack), s')
    ensures Marked(s, PushFail(r, FellBack), s', n)
  {
  }

  lemma DownMarks(s: State, r: int, left: Left, s': State, n: int)
    requires Next(s, PushFail(r, Down(left)), s')
    ensures Marked(s, PushFail(r, Down(left)), s', n)
  {
  }

  lemma KeptMarks(s: State, r: int, how: Failure, s': State, n: int)
    requires Next(s, PushFail(r, how), s') && how in {Kept, Staged, Spoiled}
    ensures Marked(s, PushFail(r, how), s', n)
  {
  }

  lemma SkipMarks(s: State, r: int, s': State, n: int)
    requires Next(s, Skip(r), s')
    ensures Marked(s, Skip(r), s', n)
  {
  }

  lemma RowsMarks(s: State, r: int, s': State, n: int)
    requires Next(s, QueryRows(r), s')
    ensures Marked(s, QueryRows(r), s', n)
  {
  }

  lemma BackMarks(s: State, r: int, s': State, n: int)
    requires Next(s, RollBack(r), s')
    ensures Marked(s, RollBack(r), s', n)
  {
  }

  lemma OtherMarks(s: State, step: Step, s': State)
    requires Next(s, step, s')
    requires !step.PushOk? && !step.PushFail? && !step.Skip? && !step.QueryRows? && !step.RollBack?
    ensures SameMarks(s, s')
  {
    match step
    case DoWrite(r) => WriteMarks(s, r, s');
    case Finish(r) => FinishMarks(s, r, s');
    case ReadInbound(r, snap) => InboundMarks(s, r, snap, s');
    case ReadUser(r) => ReadMarks(s, step, s');
    case ReadAccess(r) => ReadMarks(s, step, s');
    case ReadBack(r) => ReadMarks(s, step, s');
    case _ =>
  }

  lemma ReadMarks(s: State, step: Step, s': State)
    requires Next(s, step, s') && (step.ReadUser? || step.ReadAccess? || step.ReadBack?)
    ensures SameMarks(s, s')
  {
  }

  ghost predicate SameMarks(s: State, s': State) {
    s'.reported == s.reported && s'.reverted == s.reverted && s'.early == s.early && s'.stopped == s.stopped
  }

  lemma WriteMarks(s: State, r: int, s': State)
    requires Next(s, DoWrite(r), s')
    ensures SameMarks(s, s')
  {
  }

  lemma FinishMarks(s: State, r: int, s': State)
    requires Next(s, Finish(r), s')
    ensures SameMarks(s, s')
  {
  }

  lemma InboundMarks(s: State, r: int, snap: Snap, s': State)
    requires Next(s, ReadInbound(r, snap), s')
    ensures SameMarks(s, s')
  {
  }

  ghost predicate ReportedAt(run: seq<State>, steps: seq<Step>, j: int, k: int, n: int) {
    && 0 <= j < k <= |steps| < |run| && Reports(run[j], steps[j], n)
    && forall i | j < i < k :: !Confirms(run[i], steps[i], n)
  }

  /** A node is marked as reported because an answer names it, and no push has been confirmed since; or
      it was out of agreement from the start, and none ever was. */
  lemma {:induction false} ReportedMeans(run: seq<State>, steps: seq<Step>, k: nat, n: int)
    requires IsRun(run, steps) && k <= |steps| && n in run[k].reported
    ensures || (n in run[0].reported && forall i | 0 <= i < k :: !Confirms(run[i], steps[i], n))
            || exists j :: ReportedAt(run, steps, j, k, n)
  {
    if k > 0 {
      var s, step := run[k - 1], steps[k - 1];
      assert Next(s, step, run[k]);
      if Reports(s, step, n) {
        assert ReportedAt(run, steps, k - 1, k, n);
      } else {
        StepMarks(s, step, run[k], n);
        var before := k - 1;
        ReportedMeans(run, steps, before, n);
        if j :| ReportedAt(run, steps, j, before, n) { assert ReportedAt(run, steps, j, k, n); }
      }
    }
  }

  ghost predicate RevertedAt(run: seq<State>, steps: seq<Step>, j: int, k: int, n: int) {
    0 <= j < k <= |steps| < |run| && Reverts(run[j], steps[j], n)
    && forall i | j < i < k && Lands(run[i], steps[i], n) :: n in run[i].early
  }

  /** A node is marked as reverted because a switch on it was taken back, and every configuration it has
      taken over since was made from rows read before that. */
  lemma {:induction false} RevertedMeans(run: seq<State>, steps: seq<Step>, k: nat, n: int)
    requires IsRun(run, steps) && k <= |steps| && n in run[k].reverted
    ensures exists j :: RevertedAt(run, steps, j, k, n)
  {
    var s, step := run[k - 1], steps[k - 1];
    assert k > 0 && Next(s, step, run[k]);
    if Reverts(s, step, n) {
      assert RevertedAt(run, steps, k - 1, k, n);
    } else {
      StepMarks(s, step, run[k], n);
      RevertedMeans(run, steps, k - 1, n);
      var j :| RevertedAt(run, steps, j, k - 1, n);
      assert RevertedAt(run, steps, j, k, n);
    }
  }

  ghost predicate EarlyAt(run: seq<State>, steps: seq<Step>, j: int, k: int, n: int) {
    && 0 <= j < k <= |steps| < |run| && Reverts(run[j], steps[j], n)
    && forall i | j < i < k :: !ReadsRows(run[i], steps[i], n)
  }

  /** And `early` says just that: the rows of the node were not read since a switch was taken back. */
  lemma {:induction false} EarlyMeans(run: seq<State>, steps: seq<Step>, k: nat, n: int)
    requires IsRun(run, steps) && k <= |steps| && n in run[k].early
    ensures exists j :: EarlyAt(run, steps, j, k, n)
  {
    var s, step := run[k - 1], steps[k - 1];
    assert k > 0 && Next(s, step, run[k]);
    if Reverts(s, step, n) {
      assert EarlyAt(run, steps, k - 1, k, n);
    } else {
      StepMarks(s, step, run[k], n);
      EarlyMeans(run, steps, k - 1, n);
      var j :| EarlyAt(run, steps, j, k - 1, n);
      assert EarlyAt(run, steps, j, k, n);
    }
  }

  ghost predicate StoppedAt(run: seq<State>, steps: seq<Step>, j: int, k: int, n: int) {
    0 <= j < k <= |steps| < |run| && Downs(run[j], steps[j], n) && forall i | j < i < k :: !Starts(run[i], steps[i], n)
  }

  /** A node is marked as stopped because the failed push of a switch left its service down, and nothing
      has started it since. */
  lemma {:induction false} StoppedMeans(run: seq<State>, steps: seq<Step>, k: nat, n: int)
    requires IsRun(run, steps) && k <= |steps| && n in run[k].stopped
    ensures exists j :: StoppedAt(run, steps, j, k, n)
  {
    var s, step := run[k - 1], steps[k - 1];
    assert k > 0 && Next(s, step, run[k]);
    if Downs(s, step, n) {
      assert StoppedAt(run, steps, k - 1, k, n);
    } else {
      StepMarks(s, step, run[k], n);
      StoppedMeans(run, steps, k - 1, n);
      var j :| StoppedAt(run, steps, j, k - 1, n);
      assert StoppedAt(run, steps, j, k, n);
    }
  }

}
