/** Where the answers of the connection pool come from (get and drop in
    handler/sshpool.go:51-101), in any interleaving: a pooled client is handed out
    only by a call that found it alive, a dead or outdated one is dropped first, and
    a live one is not dialled again. */
module SshAnswers {
  import opened Tables
  import opened SshPool

  // ---- the three sources of an answer ----

  /** The call found `c` pooled for its target when it looked, and then found it alive. */
  ghost predicate FoundAlive(run: seq<State>, steps: seq<Step>, j: int, t: int, want: Origin, c: int) {
    && 0 <= j < |steps| < |run| && steps[j] == Probe(t, true)
    && t in run[j].threads && run[j].threads[t] == Probing(want, Entry(c, want.target))
    && ReadAt(run, steps, j, t, want, Entry(c, want.target))
  }

  ghost predicate ReadAt(run: seq<State>, steps: seq<Step>, j: int, t: int, want: Origin, entry: Entry)
    requires 0 <= j <= |steps| < |run|
  {
    exists i :: 0 <= i < j && steps[i] == Look(t) && want.node in run[i].entries && run[i].entries[want.node] == entry
  }

  ghost predicate Dialled(run: seq<State>, steps: seq<Step>, j: int, t: int, c: int) {
    0 <= j < |steps| && steps[j] == Dial(t, Some(c))
  }

  /** When it came to store its own client, another one was pooled for its target. */
  ghost predicate FoundStored(run: seq<State>, steps: seq<Step>, j: int, t: int, want: Origin, c: int) {
    && 0 <= j < |steps| < |run| && steps[j] == Store(t)
    && want.node in run[j].entries && run[j].entries[want.node] == Entry(c, want.target)
  }

  ghost predicate From(run: seq<State>, steps: seq<Step>, j: int, t: int, want: Origin, c: int) {
    FoundAlive(run, steps, j, t, want, c) || Dialled(run, steps, j, t, c) || FoundStored(run, steps, j, t, want, c)
  }

  /** Between `i` and `k` the thread got hold of `c` in one of these ways. */
  ghost predicate Sourced(run: seq<State>, steps: seq<Step>, i: int, k: int, t: int, want: Origin, c: int) {
    exists j :: i <= j < k && From(run, steps, j, t, want, c)
  }

  // ---- one thread at a time ----

  /** Only the thread that steps moves. */
  lemma OthersStay(s: State, step: Step, s': State, t: int)
    requires Next(s, step, s') && step.t != t
    ensures t in s'.threads <==> t in s.threads
    ensures t in s.threads ==> s'.threads[t] == s.threads[t]
  {
  }

  lemma {:induction false} StaysAt(run: seq<State>, steps: seq<Step>, i: nat, j: nat, t: int)
    requires IsRun(run, steps) && i <= j <= |steps| && t in run[i].threads
    requires forall l | i <= l < j :: steps[l].t != t
    ensures t in run[j].threads && run[j].threads[t] == run[i].threads[t]
    decreases j
  {
    if i < j {
      StaysAt(run, steps, i, j - 1, t);
      OthersStay(run[j - 1], steps[j - 1], run[j], t);
    }
  }

  // ---- every answer has a source ----

  /** What the stage of a call says of the steps it has made. */
  ghost predicate Explained(run: seq<State>, steps: seq<Step>, i: int, k: int, t: int)
    requires 0 <= k <= |steps| < |run|
  {
    t in run[k].threads ==>
      match run[k].threads[t]
      case Probing(want, entry) => ReadAt(run, steps, k, t, want, entry)
      case Storing(want, c) => exists j :: i <= j < k && Dialled(run, steps, j, t, c)
      case Duplicate(want, own, c) => exists j :: i <= j < k && FoundStored(run, steps, j, t, want, c)
      case Got(want, c) => Sourced(run, steps, i, k, t, want, c)
      case _ => true
  }

  lemma {:induction false} StepExplains(run: seq<State>, steps: seq<Step>, i: int, k: nat, t: int)
    requires IsRun(run, steps) && i <= k < |steps| && Explained(run, steps, i, k, t)
    ensures Explained(run, steps, i, k + 1, t)
  {
    var s, step, s' := run[k], steps[k], run[k + 1];
    assert Next(s, step, s');
    if step.t != t {
      OthersStay(s, step, s', t);
      if t in s.threads { LaterToo(run, steps, i, k, t, s.threads[t]); }
    } else if t in s.threads {
      OwnStepExplains(run, steps, i, k, t);
    }
  }

  lemma LaterToo(run: seq<State>, steps: seq<Step>, i: int, k: nat, t: int, th: Thread)
    requires k < |steps| < |run| && Explained(run, steps, i, k, t) && t in run[k].threads && run[k].threads[t] == th
    ensures match th
            case Probing(want, entry) => ReadAt(run, steps, k + 1, t, want, entry)
            case Storing(want, c) => exists j :: i <= j < k + 1 && Dialled(run, steps, j, t, c)
            case Duplicate(want, own, c) => exists j :: i <= j < k + 1 && FoundStored(run, steps, j, t, want, c)
            case Got(want, c) => Sourced(run, steps, i, k + 1, t, want, c)
            case _ => true
  {
  }

  lemma OwnStepExplains(run: seq<State>, steps: seq<Step>, i: int, k: nat, t: int)
    requires IsRun(run, steps) && i <= k < |steps| && Explained(run, steps, i, k, t)
    requires steps[k].t == t && t in run[k].threads
    ensures Explained(run, steps, i, k + 1, t)
  {
    var s, step, s' := run[k], steps[k], run[k + 1];
    assert Next(s, step, s');
    match step
    case Look(_) =>
    case Probe(_, alive) =>
      if s'.threads[t].Got? {
        var want, c := s.threads[t].want, s.threads[t].entry.client;
        assert s.threads[t].entry == Entry(c, want.target);
        assert From(run, steps, k, t, want, c);
      }
    case Dial(_, dialled) =>
      if dialled.Some? { assert Dialled(run, steps, k, t, dialled.value); }
    case Store(_) =>
      var want, own := s.threads[t].want, s.threads[t].client;
      if s'.threads[t].Duplicate? {
        assert FoundStored(run, steps, k, t, want, s'.threads[t].existing);
      } else {
        var j :| i <= j < k && Dialled(run, steps, j, t, own);
        assert From(run, steps, j, t, want, own);
      }
    case CloseOne(_, c) =>
      if s.threads[t].Duplicate? {
        var want, existing := s.threads[t].want, s.threads[t].existing;
        var j :| i <= j < k && FoundStored(run, steps, j, t, want, existing);
        assert From(run, steps, j, t, want, existing);
      }
    case _ =>
  }

  lemma {:induction false} AllExplained(run: seq<State>, steps: seq<Step>, k: nat, t: int)
    requires IsRun(run, steps) && k <= |steps|
    ensures Explained(run, steps, 0, k, t)
  {
    if k > 0 {
      AllExplained(run, steps, k - 1, t);
      StepExplains(run, steps, 0, k - 1, t);
    }
  }

  /** In every run, an answer is a client the call read from the pool and then found alive, one it
      dialled itself, or one it found stored for its target after dialling. */
  lemma {:induction false} AnswersAreSourced(run: seq<State>, steps: seq<Step>, k: nat, t: int)
    requires IsRun(run, steps) && k <= |steps| && t in run[k].threads && run[k].threads[t].Got?
    ensures Sourced(run, steps, 0, k, t, run[k].threads[t].want, run[k].threads[t].client)
  {
    AllExplained(run, steps, k, t);
  }

  // ---- dead and outdated clients ----

  /** The call probes a client that is dead, or that was dialled for another target. */
  ghost predicate BadProbe(run: seq<State>, steps: seq<Step>, i: int, t: int, want: Origin) {
    && 0 <= i < |steps| < |run| && steps[i].Probe? && steps[i].t == t
    && t in run[i].threads && run[i].threads[t].Probing? && run[i].threads[t].want == want
    && (!steps[i].alive || run[i].threads[t].entry.target != want.target)
  }

  /** The next thing the call does is to take out of the pool what it then holds for the node, and to
      close it. */
  lemma {:induction false} BadProbeDiscards(run: seq<State>, steps: seq<Step>, i: nat, j: nat, t: int, want: Origin)
    requires IsRun(run, steps) && BadProbe(run, steps, i, t, want) && i < j < |steps| && steps[j].t == t
    requires forall l | i < l < j :: steps[l].t != t
    ensures steps[j] == Remove(t) && want.node !in run[j + 1].entries && t in run[j + 1].threads
    ensures run[j + 1].threads[t]
            == Closing(if want.node in run[j].entries then {run[j].entries[want.node].client} else {}, Some(want))
    ensures forall n | n != want.node :: (n in run[j + 1].entries <==> n in run[j].entries)
                                         && (n in run[j].entries ==> run[j + 1].entries[n] == run[j].entries[n])
  {
    assert Next(run[i], steps[i], run[i + 1]);
    StaysAt(run, steps, i + 1, j, t);
    assert Next(run[j], steps[j], run[j + 1]);
  }

  /** A call that is past a bad probe: nothing it answers with comes from the pool as it was then. */
  ghost predicate PastProbe(th: Thread) {
    th.Discarding? || th.Closing? || th.Storing? || th.Duplicate? || th.Got? || th.Finished?
  }

  lemma {:induction false} StaysPast(run: seq<State>, steps: seq<Step>, i: nat, k: nat, t: int, want: Origin)
    requires IsRun(run, steps) && BadProbe(run, steps, i, t, want) && i < k <= |steps|
    ensures t in run[k].threads && PastProbe(run[k].threads[t]) && Explained(run, steps, i + 1, k, t)
    decreases k
  {
    assert Next(run[k - 1], steps[k - 1], run[k]);
    if k > i + 1 {
      StaysPast(run, steps, i, k - 1, t, want);
      StepExplains(run, steps, i + 1, k - 1, t);
    }
  }

  /** After that it answers only with a client it dialled since, or found stored for its target since. */
  lemma {:induction false} BadProbeRedials(run: seq<State>, steps: seq<Step>, i: nat, k: nat, t: int, want: Origin)
    requires IsRun(run, steps) && BadProbe(run, steps, i, t, want) && i < k <= |steps|
    requires t in run[k].threads && run[k].threads[t].Got?
    ensures var g := run[k].threads[t];
            exists j ::
              i < j < k && (Dialled(run, steps, j, t, g.client) || FoundStored(run, steps, j, t, g.want, g.client))
  {
    StaysPast(run, steps, i, k, t, want);
    var g := run[k].threads[t];
    var j :| i + 1 <= j < k && From(run, steps, j, t, g.want, g.client);
    StaysPast(run, steps, i, j, t, want);
  }

  // ---- live clients ----

  /** A call that finds a client pooled for its target and alive answers with it at once: there is
      nothing between its look and its answer but the probe. */
  lemma {:induction false} LiveClientIsReused(run: seq<State>, steps: seq<Step>, i: nat, j: nat, t: int)
    requires IsRun(run, steps) && i < j < |steps| && steps[i] == Look(t) && steps[j].t == t
    requires forall l | i < l < j :: steps[l].t != t
    requires t in run[i].threads && run[i].threads[t].Looking?
    requires var want := run[i].threads[t].want;
             want.node in run[i].entries && run[i].entries[want.node].target == want.target
    ensures var want := run[i].threads[t].want;
            && steps[j].Probe? && t in run[j + 1].threads
            && (steps[j].alive <==> run[j + 1].threads[t] == Got(want, run[i].entries[want.node].client))
            && (!steps[j].alive <==> run[j + 1].threads[t] == Discarding(want))
  {
    assert Next(run[i], steps[i], run[i + 1]);
    StaysAt(run, steps, i + 1, j, t);
    assert Next(run[j], steps[j], run[j + 1]);
  }

  // ---- drop and Close ----

  /** A drop leaves nothing pooled for its node, and closes what was. */
  lemma {:induction false} DropRemoves(run: seq<State>, steps: seq<Step>, i: nat, j: nat, t: int)
    requires IsRun(run, steps) && i < j < |steps| && steps[i].t == steps[j].t == t
    requires (steps[i].Drop? || steps[i].ClosePool?)
    requires forall l | i < l < j :: steps[l].t != t
    ensures t in run[j + 1].threads && run[j + 1].threads[t].Closing? && run[j + 1].threads[t].redial == None
    ensures forall n :: n in run[j + 1].entries <==> n in run[j].entries && steps[i].Drop? && n != steps[i].node
    ensures forall n | n in run[j + 1].entries :: run[j + 1].entries[n] == run[j].entries[n]
    ensures run[j + 1].threads[t].clients
            == set n | n in run[j].entries && n !in run[j + 1].entries :: run[j].entries[n].client
  {
    assert Next(run[i], steps[i], run[i + 1]);
    StaysAt(run, steps, i + 1, j, t);
    assert Next(run[j], steps[j], run[j + 1]);
  }
}
