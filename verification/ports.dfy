/** Listening ports (handler/setup.go, selectListenPort and pickListenPort). */
module Ports {

  /** In order of preference. */
  const CONVENTIONAL := [443, 8443, 2053, 2083, 2087, 2096]

  /** What the node's socket probe returns for one L4 network. */
  datatype Probe = NoAnswer | Listening(ports: set<int>)

  predicate Free(occupied: set<int>, current: int, reserved: set<int>, port: int) {
    (port !in occupied || port == current) && port !in reserved
  }

  predicate Random(port: int) { 20000 <= port < 50000 }

  /** `port` is the first conventional port that neither another listener nor this run holds. */
  predicate FirstFree(occupied: set<int>, current: int, reserved: set<int>, port: int) {
    exists k :: 0 <= k < |CONVENTIONAL| && port == CONVENTIONAL[k] && Free(occupied, current, reserved, CONVENTIONAL[k])
                && forall j | 0 <= j < k :: !Free(occupied, current, reserved, CONVENTIONAL[j])
  }

  predicate NoneFree(occupied: set<int>, current: int, reserved: set<int>) {
    forall k | 0 <= k < |CONVENTIONAL| :: !Free(occupied, current, reserved, CONVENTIONAL[k])
  }

  predicate Kept(current: int, reserved: set<int>, port: int) {
    current != 0 && current !in reserved && port == current
  }

  /** A port drawn at random, because nothing better was left. */
  predicate Fallback(probe: Probe, current: int, reserved: set<int>, port: int) {
    && (probe.NoAnswer? || NoneFree(probe.ports, current, reserved))
    && (current == 0 || current in reserved) && Random(port)
  }

  predicate Picked(probe: Probe, current: int, reserved: set<int>, port: int) {
    || (probe.Listening? && FirstFree(probe.ports, current, reserved, port))
    || ((probe.NoAnswer? || NoneFree(probe.ports, current, reserved)) && Kept(current, reserved, port))
    || Fallback(probe, current, reserved, port)
  }

  method RandomPort() returns (port: int)
    ensures Random(port)
  {
    var r: int :| 0 <= r < 30000;
    port := r + 20000;
  }

  method PickListenPort(probe: Probe, current: int, reserved: set<int>) returns (port: int)
    ensures Picked(probe, current, reserved, port)
  {
    if probe.NoAnswer? {
      if current != 0 && current !in reserved { return current; }
      port := RandomPort();
      return;
    }
    var occupied := probe.ports - {current};
    for k := 0 to |CONVENTIONAL|
      invariant forall j | 0 <= j < k :: !Free(probe.ports, current, reserved, CONVENTIONAL[j])
    {
      if CONVENTIONAL[k] !in occupied && CONVENTIONAL[k] !in reserved { return CONVENTIONAL[k]; }
    }
    if current != 0 && current !in reserved { return current; }
    port := RandomPort();
  }

  /** The ports one run has handed out on one network. */
  class Reservations {
    var ports: set<int>

    constructor ()
      ensures ports == {}
    {
      ports := {};
    }

    method SelectListenPort(probe: Probe, current: int) returns (port: int)
      modifies this
      ensures Picked(probe, current, old(ports), port) && ports == old(ports) + {port}
    {
      port := PickListenPort(probe, current, ports);
      ports := ports + {port};
    }
  }

  function Rank(port: int): nat {
    if port == 443 then 0 else if port == 8443 then 1 else if port == 2053 then 2 else if port == 2083 then 3
    else if port == 2087 then 4 else if port == 2096 then 5 else 6
  }

  /** A node that answers is never moved below a conventional port it already owns. */
  lemma NeverWorse(probe: Probe, current: int, reserved: set<int>, port: int)
    requires probe.Listening? && Picked(probe, current, reserved, port)
    requires current in CONVENTIONAL && current !in reserved
    ensures Rank(port) <= Rank(current)
  {
  }

  datatype Call = Call(probe: Probe, current: int, port: int)

  function Taken(start: set<int>, calls: seq<Call>): set<int> {
    start + set k | 0 <= k < |calls| :: calls[k].port
  }

  /** Calls that share one set of reservations. */
  ghost predicate Shared(start: set<int>, calls: seq<Call>) {
    forall k | 0 <= k < |calls| :: Picked(calls[k].probe, calls[k].current, Taken(start, calls[..k]), calls[k].port)
  }

  /** No port is handed out twice in a run, unless the second one was drawn at random. */
  lemma NoRepeats(start: set<int>, calls: seq<Call>, i: nat, j: nat)
    requires Shared(start, calls) && i < j < |calls|
    requires !Fallback(calls[j].probe, calls[j].current, Taken(start, calls[..j]), calls[j].port)
    ensures calls[i].port != calls[j].port && calls[j].port !in start
  {
  }

  /** Running again once the node listens on the chosen port chooses it again. A random port that
      collides with a reservation is the one exception. */
  lemma RerunIsStable(occupied: set<int>, current: int, reserved: set<int>, port: int, again: int)
    requires Picked(Listening(occupied), current, reserved, port)
    requires Picked(Listening(occupied - {current} + {port}), port, reserved, again)
    ensures again == port || (port in reserved && Fallback(Listening(occupied), current, reserved, port))
  {
  }
}
