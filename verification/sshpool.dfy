/** The SSH connection pool (handler/sshpool.go) as a machine over its steps. The
    pool's lock covers one map access at a time: `get` probes, drops, dials and
    closes without it, so any number of calls interleave between those steps. */
module SshPool {
  import opened Tables

  /** A client, with the connection parameters it was dialled with. */
  datatype Entry = Entry(client: int, target: string)

  /** What a client was dialled for. */
  datatype Origin = Origin(node: int, target: string)

  /** Where a call stands. `Got` is get's answer. */
  datatype Thread =
    | Looking(want: Origin)
    | Probing(want: Origin, entry: Entry)
    | Discarding(want: Origin)
    | Dialling(want: Origin)
    | Storing(want: Origin, client: int)
    | Duplicate(want: Origin, own: int, existing: int)
    | Got(want: Origin, client: int)
    | Dropping(node: int)
    | ClosingPool
    | Closing(clients: set<int>, redial: Option<Origin>)
    | Finished

  /** `closes` counts the Close calls on each client. */
  datatype State = State(entries: map<int, Entry>, threads: map<int, Thread>,
                         origins: map<int, Origin>, closes: map<int, nat>)

  datatype Step =
    | Get(t: int, want: Origin)
    | Drop(t: int, node: int)
    | ClosePool(t: int)
    | Look(t: int)
    | Probe(t: int, alive: bool)
    | Remove(t: int)
    | CloseOne(t: int, client: int)
    | Dial(t: int, dialled: Option<int>)
    | Store(t: int)

  function Put(s: State, t: int, th: Thread): State { s.(threads := s.threads[t := th]) }

  function CloseClient(s: State, c: int): State
    requires c in s.closes
  {
    s.(closes := s.closes[c := s.closes[c] + 1])
  }

  function Clients(entries: map<int, Entry>): set<int> {
    set n | n in entries :: entries[n].client
  }

  /** The clients a call must still close or store. */
  function HeldBy(th: Thread): set<int> {
    match th
    case Storing(_, c) => {c}
    case Duplicate(_, own, _) => {own}
    case Closing(clients, _) => clients
    case _ => {}
  }

  ghost predicate Next(s: State, step: Step, s': State) {
    match step
    case Get(t, want) => t !in s.threads && s' == Put(s, t, Looking(want))
    case Drop(t, n) => t !in s.threads && s' == Put(s, t, Dropping(n))
    case ClosePool(t) => t !in s.threads && s' == Put(s, t, ClosingPool)
    case Look(t) =>
      && t in s.threads && s.threads[t].Looking?
      && var want := s.threads[t].want;
         s' == Put(s, t, if want.node in s.entries then Probing(want, s.entries[want.node]) else Dialling(want))
    case Probe(t, alive) =>
      && t in s.threads && s.threads[t].Probing?
      && var th := s.threads[t];
         s' == Put(s, t,
                   if th.entry.target == th.want.target && alive then Got(th.want, th.entry.client)
                   else Discarding(th.want))
    case Remove(t) =>
      && t in s.threads
      && var th := s.threads[t];
         && (th.Discarding? || th.Dropping? || th.ClosingPool?)
         && if th.ClosingPool? then s' == Put(s.(entries := map[]), t, Closing(Clients(s.entries), None))
            else
              var n := if th.Discarding? then th.want.node else th.node;
              var redial := if th.Discarding? then Some(th.want) else None;
              s' == Put(s.(entries := s.entries - {n}), t,
                        Closing(if n in s.entries then {s.entries[n].client} else {}, redial))
    case CloseOne(t, c) =>
      && t in s.threads && c in s.closes
      && (match s.threads[t]
          case Closing(clients, redial) =>
            c in clients && s' == Put(CloseClient(s, c), t, Closing(clients - {c}, redial))
          case Duplicate(want, own, existing) => c == own && s' == Put(CloseClient(s, c), t, Got(want, existing))
          case _ => false)
    case Dial(t, client) =>
      && t in s.threads
      && var th := s.threads[t];
         && (th.Dialling? || (th.Closing? && th.clients == {} && th.redial.Some?))
         && var want := if th.Dialling? then th.want else th.redial.value;
            if client.None? then s' == Put(s, t, Finished)
            else
              && client.value !in s.origins
              && s' == Put(s, t, Storing(want, client.value)).(origins := s.origins[client.value := want],
                                                               closes := s.closes[client.value := 0])
    case Store(t) =>
      && t in s.threads && s.threads[t].Storing?
      && var want, own := s.threads[t].want, s.threads[t].client;
         if want.node in s.entries && s.entries[want.node].target == want.target
         then s' == Put(s, t, Duplicate(want, own, s.entries[want.node].client))
         else s' == Put(s.(entries := s.entries[want.node := Entry(own, want.target)]), t, Got(want, own))
  }

  ghost predicate IsRun(run: seq<State>, steps: seq<Step>) {
    && |run| == |steps| + 1
    && run[0] == State(map[], map[], map[], map[])
    && forall k | 0 <= k < |steps| :: Next(run[k], steps[k], run[k + 1])
  }

  // ---- where a client is ----

  predicate Pooled(s: State, c: int) { exists n :: n in s.entries && s.entries[n].client == c }

  predicate Held(s: State, c: int) { exists t :: t in s.threads && c in HeldBy(s.threads[t]) }

  predicate Closed(s: State, c: int) { c in s.closes && s.closes[c] == 1 }

  /** Nothing refers to the client any more, and nobody closed it. */
  predicate Lost(s: State, c: int) {
    c in s.origins && !Pooled(s, c) && !Held(s, c) && c in s.closes && s.closes[c] == 0
  }

  // ---- the invariant, for any mix of targets ----

  ghost predicate ThreadOk(s: State, th: Thread) {
    match th
    case Probing(want, entry) => entry.client in s.origins && s.origins[entry.client] == Origin(want.node, entry.target)
    case Storing(want, c) => c in s.origins && s.origins[c] == want
    case Duplicate(want, own, existing) => own in s.origins && existing in s.origins && s.origins[existing] == want
    case Got(want, c) => c in s.origins && s.origins[c] == want
    case Closing(clients, _) => clients <= s.origins.Keys
    case _ => true
  }

  /** Each reference carries the parameters its client was dialled with. */
  ghost predicate Typed(s: State) {
    && s.closes.Keys == s.origins.Keys
    && (forall n | n in s.entries ::
          s.entries[n].client in s.origins && s.origins[s.entries[n].client] == Origin(n, s.entries[n].target))
    && (forall t | t in s.threads :: ThreadOk(s, s.threads[t]))
  }

  /** A client that is pooled or held is open, and is so in one place only. */
  ghost predicate Placed(s: State) {
    && (forall c | Pooled(s, c) :: c in s.closes && s.closes[c] == 0)
    && (forall t, c | t in s.threads && c in HeldBy(s.threads[t]) :: c in s.closes && s.closes[c] == 0 && !Pooled(s, c))
    && (forall t, u, c | t in s.threads && u in s.threads && t != u && c in HeldBy(s.threads[t]) ::
          c !in HeldBy(s.threads[u]))
    && (forall c | c in s.closes :: s.closes[c] <= 1)
  }

  ghost predicate Inv(s: State) { Typed(s) && Placed(s) }

  lemma {:induction false} StepKeepsInv(s: State, step: Step, s': State)
    requires Inv(s) && Next(s, step, s')
    ensures Inv(s')
  {
    StepTyped(s, step, s');
    match step
    case Remove(t) => RemovePlaced(s, t, s');
    case Store(t) => StorePlaced(s, t, s');
    case CloseOne(t, c) => ClosePlaced(s, t, c, s');
    case Dial(t, client) => DialPlaced(s, t, client, s');
    case _ => OtherPlaced(s, step, s');
  }

  lemma StepTyped(s: State, step: Step, s': State)
    requires Typed(s) && Next(s, step, s')
    ensures Typed(s')
  {
    forall t | t in s'.threads ensures ThreadOk(s', s'.threads[t]) {
      if t != step.t { assert ThreadOk(s, s.threads[t]); } else if t in s.threads { assert ThreadOk(s, s.threads[t]); }
    }
  }

  lemma OtherPlaced(s: State, step: Step, s': State)
    requires Placed(s) && Next(s, step, s')
    requires step.Get? || step.Drop? || step.ClosePool? || step.Look? || step.Probe?
    ensures Placed(s')
  {
  }

  lemma RemovePlaced(s: State, t: int, s': State)
    requires Inv(s) && Next(s, Remove(t), s')
    ensures Placed(s')
  {
    forall c | Pooled(s', c) ensures Pooled(s, c) && c !in HeldBy(s'.threads[t]) {
      var n :| n in s'.entries && s'.entries[n].client == c;
      assert s.entries[n].client == c;
    }
    forall c | c in HeldBy(s'.threads[t]) ensures Pooled(s, c) {}
  }

  lemma StorePlaced(s: State, t: int, s': State)
    requires Inv(s) && Next(s, Store(t), s')
    ensures Placed(s')
  {
    var own := s.threads[t].client;
    assert own in HeldBy(s.threads[t]);
    forall c | Pooled(s', c) ensures Pooled(s, c) || (c == own && own !in HeldBy(s'.threads[t])) {
      var n :| n in s'.entries && s'.entries[n].client == c;
      if n != s.threads[t].want.node { assert s.entries[n].client == c; }
    }
  }

  lemma ClosePlaced(s: State, t: int, c: int, s': State)
    requires Inv(s) && Next(s, CloseOne(t, c), s')
    ensures Placed(s')
  {
  }

  lemma DialPlaced(s: State, t: int, client: Option<int>, s': State)
    requires Inv(s) && Next(s, Dial(t, client), s')
    ensures Placed(s')
  {
  }

  lemma {:induction false} RunKeepsInv(run: seq<State>, steps: seq<Step>, k: nat)
    requires IsRun(run, steps) && k < |run|
    ensures Inv(run[k])
  {
    if k > 0 {
      RunKeepsInv(run, steps, k - 1);
      StepKeepsInv(run[k - 1], steps[k - 1], run[k]);
    }
  }

  /** Whatever the mix of calls and targets, get answers with a client that was dialled for the node
      and target it was asked for. */
  lemma {:induction false} GetReturnsItsTarget(run: seq<State>, steps: seq<Step>, k: nat, t: int)
    requires IsRun(run, steps) && k < |run| && t in run[k].threads && run[k].threads[t].Got?
    ensures run[k].threads[t].client in run[k].origins
    ensures run[k].origins[run[k].threads[t].client] == run[k].threads[t].want
  {
    RunKeepsInv(run, steps, k);
    assert ThreadOk(run[k], run[k].threads[t]);
  }

  /** No client is closed twice, and none is closed while it is pooled. */
  lemma {:induction false} NeverClosedTwice(run: seq<State>, steps: seq<Step>, k: nat, c: int)
    requires IsRun(run, steps) && k < |run| && c in run[k].origins
    ensures c in run[k].closes && run[k].closes[c] <= 1
    ensures Pooled(run[k], c) || Held(run[k], c) ==> run[k].closes[c] == 0 && !(Pooled(run[k], c) && Held(run[k], c))
  {
    RunKeepsInv(run, steps, k);
  }

  // ---- the one leak ----

  /** A store that replaces an entry dialled for another target. */
  ghost predicate Overwrites(s: State, step: Step, c: int) {
    && step.Store? && step.t in s.threads && s.threads[step.t].Storing?
    && var want := s.threads[step.t].want;
       want.node in s.entries && s.entries[want.node].target != want.target && c == s.entries[want.node].client
  }

  /** A step loses a client exactly when it overwrites one. */
  lemma {:induction false} LostIff(s: State, step: Step, s': State, c: int)
    requires Inv(s) && Next(s, step, s')
    ensures Lost(s', c) <==> Lost(s, c) || Overwrites(s, step, c)
  {
    match step
    case Remove(t) => RemoveLoses(s, t, s', c);
    case Store(t) => StoreLoses(s, t, s', c);
    case CloseOne(t, d) => CloseLoses(s, t, d, s', c);
    case Dial(t, client) => DialLoses(s, t, client, s', c);
    case _ =>
      assert Pooled(s', c) <==> Pooled(s, c);
      HeldMoves(s, s', step.t, c);
  }

  /** Only thread `t` has moved. */
  lemma HeldMoves(s: State, s': State, t: int, c: int)
    requires s'.threads.Keys == s.threads.Keys + {t}
    requires forall u | u in s.threads && u != t :: s'.threads[u] == s.threads[u]
    requires (t in s.threads && c in HeldBy(s.threads[t])) <==> c in HeldBy(s'.threads[t])
    ensures Held(s', c) <==> Held(s, c)
  {
  }

  lemma RemoveLoses(s: State, t: int, s': State, c: int)
    requires Inv(s) && Next(s, Remove(t), s')
    ensures Lost(s', c) <==> Lost(s, c)
  {
    forall u | u in s.threads && c in HeldBy(s.threads[u]) ensures c in HeldBy(s'.threads[u]) {}
    if Pooled(s, c) {
      var n :| n in s.entries && s.entries[n].client == c;
      assert n in s'.entries || c in HeldBy(s'.threads[t]);
      if n in s'.entries { assert s'.entries[n].client == c; }
    }
    if Pooled(s', c) {
      var n :| n in s'.entries && s'.entries[n].client == c;
      assert s.entries[n].client == c;
    }
    if c in HeldBy(s'.threads[t]) { assert Pooled(s, c); }
  }

  lemma StoreLoses(s: State, t: int, s': State, c: int)
    requires Inv(s) && Next(s, Store(t), s')
    ensures Lost(s', c) <==> Lost(s, c) || Overwrites(s, Store(t), c)
  {
    var want, own := s.threads[t].want, s.threads[t].client;
    assert own in HeldBy(s.threads[t]);
    forall u | u in s.threads && u != t ensures s'.threads[u] == s.threads[u] {}
    if s'.threads[t].Got? {
      assert s'.entries[want.node].client == own;
      if Pooled(s, c) {
        var n :| n in s.entries && s.entries[n].client == c;
        if n != want.node { assert s'.entries[n].client == c; }
      }
      if Pooled(s', c) && c != own {
        var n :| n in s'.entries && s'.entries[n].client == c;
        assert s.entries[n].client == c;
      }
      if Held(s, c) && c != own {
        var u :| u in s.threads && c in HeldBy(s.threads[u]);
        assert c in HeldBy(s'.threads[u]);
      }
    } else {
      HeldMoves(s, s', t, c);
      assert Pooled(s', c) <==> Pooled(s, c);
    }
  }

  lemma CloseLoses(s: State, t: int, d: int, s': State, c: int)
    requires Inv(s) && Next(s, CloseOne(t, d), s')
    ensures Lost(s', c) <==> Lost(s, c)
  {
    assert Pooled(s', c) <==> Pooled(s, c);
    assert d in HeldBy(s.threads[t]);
    if c != d { HeldMoves(s, s', t, c); }
  }

  lemma DialLoses(s: State, t: int, client: Option<int>, s': State, c: int)
    requires Inv(s) && Next(s, Dial(t, client), s')
    ensures Lost(s', c) <==> Lost(s, c)
  {
    assert Pooled(s', c) <==> Pooled(s, c);
    if client == Some(c) {
      assert c in HeldBy(s'.threads[t]);
    } else {
      HeldMoves(s, s', t, c);
    }
  }

  // ---- one target per node ----

  /** Every call for a node names the same connection parameters. */
  ghost predicate Uniform(steps: seq<Step>, targets: map<int, string>) {
    forall k | 0 <= k < |steps| && steps[k].Get? ::
      steps[k].want.node in targets && steps[k].want.target == targets[steps[k].want.node]
  }

  function Wants(th: Thread): Option<Origin> {
    if th.Dropping? || th.ClosingPool? || th.Finished? then None
    else if th.Closing? then th.redial
    else Some(th.want)
  }

  ghost predicate OnTarget(s: State, targets: map<int, string>) {
    && (forall n | n in s.entries :: n in targets && s.entries[n].target == targets[n])
    && (forall t | t in s.threads && Wants(s.threads[t]).Some? ::
          var want := Wants(s.threads[t]).value; want.node in targets && want.target == targets[want.node])
  }

  lemma {:induction false} StaysOnTarget(run: seq<State>, steps: seq<Step>, targets: map<int, string>, k: nat)
    requires IsRun(run, steps) && Uniform(steps, targets) && k < |run|
    ensures OnTarget(run[k], targets)
  {
    if k > 0 {
      StaysOnTarget(run, steps, targets, k - 1);
      OneStepOnTarget(run[k - 1], steps[k - 1], run[k], targets);
    }
  }

  lemma OneStepOnTarget(s: State, step: Step, s': State, targets: map<int, string>)
    requires OnTarget(s, targets) && Next(s, step, s')
    requires step.Get? ==> step.want.node in targets && step.want.target == targets[step.want.node]
    ensures OnTarget(s', targets)
  {
  }

  /** With one target per node, every dialled client is in exactly one place: pooled, in the hands of a
      call that will store or close it, or closed, once. */
  lemma {:induction false} ExactlyOnePlace(run: seq<State>, steps: seq<Step>, targets: map<int, string>, k: nat, c: int)
    requires IsRun(run, steps) && Uniform(steps, targets) && k < |run| && c in run[k].origins
    ensures var s := run[k];
            && (Pooled(s, c) || Held(s, c) || Closed(s, c))
            && !(Pooled(s, c) && Held(s, c)) && !(Pooled(s, c) && Closed(s, c)) && !(Held(s, c) && Closed(s, c))
    ensures forall n, m | n in run[k].entries && m in run[k].entries
                          && run[k].entries[n].client == run[k].entries[m].client ::
              n == m
  {
    RunKeepsInv(run, steps, k);
    NothingLost(run, steps, targets, k, c);
  }

  lemma {:induction false} NothingLost(run: seq<State>, steps: seq<Step>, targets: map<int, string>, k: nat, c: int)
    requires IsRun(run, steps) && Uniform(steps, targets) && k < |run|
    ensures !Lost(run[k], c)
  {
    if k > 0 {
      RunKeepsInv(run, steps, k - 1);
      StaysOnTarget(run, steps, targets, k - 1);
      NothingLost(run, steps, targets, k - 1, c);
      LostIff(run[k - 1], steps[k - 1], run[k], c);
      NothingOverwritten(run[k - 1], steps[k - 1], targets, c);
    }
  }

  lemma NothingOverwritten(s: State, step: Step, targets: map<int, string>, c: int)
    requires OnTarget(s, targets)
    ensures !Overwrites(s, step, c)
  {
  }

  // ---- the leak is reachable ----

  ghost predicate Reached(s: State) {
    exists run, steps :: IsRun(run, steps) && run[|run| - 1] == s
  }

  lemma Then(s: State, step: Step, s': State)
    requires Reached(s) && Next(s, step, s')
    ensures Reached(s')
  {
    var run, steps :| IsRun(run, steps) && run[|run| - 1] == s;
    assert IsRun(run + [s'], steps + [step]);
  }

  /** A call that finds no entry goes on to dial. */
  lemma Asks(s: State, t: int, want: Origin)
    requires Reached(s) && t !in s.threads && want.node !in s.entries
    ensures Reached(Put(s, t, Dialling(want)))
  {
    var s1 := Put(s, t, Looking(want));
    assert Put(s1, t, Dialling(want)) == Put(s, t, Dialling(want));
    Then(s, Get(t, want), s1);
    Then(s1, Look(t), Put(s, t, Dialling(want)));
  }

  function Pooling(s: State, t: int, want: Origin, c: int): State {
    State(s.entries[want.node := Entry(c, want.target)], s.threads[t := Got(want, c)],
          s.origins[c := want], s.closes[c := 0])
  }

  lemma DialsAndStores(s: State, t: int, want: Origin, c: int)
    requires Reached(s) && t in s.threads && s.threads[t] == Dialling(want) && c !in s.origins
    requires want.node in s.entries ==> s.entries[want.node].target != want.target
    ensures Reached(Pooling(s, t, want, c))
  {
    var s1 := State(s.entries, s.threads[t := Storing(want, c)], s.origins[c := want], s.closes[c := 0]);
    Then(s, Dial(t, Some(c)), s1);
    assert s1.threads[t := Got(want, c)] == s.threads[t := Got(want, c)];
    Then(s1, Store(t), Pooling(s, t, want, c));
  }

  /** Two calls that dial the same node at once, before and after an edit of its address: the second to
      store drops the first one's client, and nobody will ever close it. */
  lemma {:induction false} LeakIsReachable(node: int, before: string, after: string)
    returns (run: seq<State>, steps: seq<Step>, c: int)
    requires before != after
    ensures IsRun(run, steps) && Lost(run[|run| - 1], c)
  {
    var a, b := Origin(node, before), Origin(node, after);
    var s0 := State(map[], map[], map[], map[]);
    assert IsRun([s0], []);
    Asks(s0, 0, a);
    var s1 := Put(s0, 0, Dialling(a));
    Asks(s1, 1, b);
    var s2 := Put(s1, 1, Dialling(b));
    DialsAndStores(s2, 0, a, 10);
    var s3 := Pooling(s2, 0, a, 10);
    DialsAndStores(s3, 1, b, 11);
    var s4 := Pooling(s3, 1, b, 11);
    run, steps :| IsRun(run, steps) && run[|run| - 1] == s4;
    c := 10;
  }
}
