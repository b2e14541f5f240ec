/** What of an inbound's settings a Reality switch changes in a configuration. */
module RealityTargets {
  import opened Tables
  import opened Generator
  import opened EditProtocol
  import opened Views

  /** The server name and the handshake server a Reality inbound is built with. */
  function TargetOf(s: Settings): (string, string) {
    (Text(s, "sni"), if Text(s, "handshake_server") == "" then Text(s, "sni") else Text(s, "handshake_server"))
  }

  /** The inbound is served, and with another target. */
  predicate Retargeted(a: Inbound, b: Inbound) {
    b.enabled && b.protocol == "vless-reality" && TargetOf(a.settings) != TargetOf(b.settings)
  }

  // ---- one inbound ----

  lemma TextKept(a: Settings, b: Settings, key: string)
    requires a - TARGET_KEYS == b - TARGET_KEYS && key !in TARGET_KEYS
    ensures (key in a <==> key in b) && (key in a ==> a[key] == b[key])
  {
    assert key in a - TARGET_KEYS <==> key in a;
    assert key in b - TARGET_KEYS <==> key in b;
    if key in a { assert (a - TARGET_KEYS)[key] == a[key] && (b - TARGET_KEYS)[key] == b[key]; }
  }

  lemma BareBuild(users: seq<Credential>, a: Inbound, b: Inbound, tag: string)
    requires Bare(a) == Bare(b) && b.protocol in KNOWN
    ensures a.protocol == b.protocol && a.enabled == b.enabled && a.tag == b.tag && a.port == b.port
    ensures BuildInbound(users, a, tag) == BuildInbound(users, b, tag)
            <==> (b.protocol == "vless-reality" ==> TargetOf(a.settings) == TargetOf(b.settings))
  {
    if b.protocol == "vless-reality" {
      TextKept(a.settings, b.settings, "private_key");
      TextKept(a.settings, b.settings, "short_id");
      TextKept(a.settings, b.settings, "handshake_port");
    }
  }

  // ---- a list of rows ----

  ghost predicate Alike(a: seq<Inbound>, b: seq<Inbound>) {
    |a| == |b| && forall k | 0 <= k < |a| :: Bare(a[k]) == Bare(b[k])
  }

  lemma SameTag(a: Inbound, b: Inbound, used: set<string>)
    requires Bare(a) == Bare(b)
    ensures UniqueTag(a, used) == UniqueTag(b, used) && a.enabled == b.enabled && a.protocol == b.protocol
  {
  }

  lemma {:induction false} BuildAlike(users: seq<Credential>, a: seq<Inbound>, b: seq<Inbound>)
    requires Alike(a, b)
    ensures Build(users, a).1 == Build(users, b).1 && |Build(users, a).0| == |Build(users, b).0|
    ensures Tags(Build(users, a).0) == Tags(Build(users, b).0)
    ensures Build(users, a).0 == Build(users, b).0 <==> OnTarget(a, b)
    decreases |b|
  {
    if b != [] {
      var x, y := a[|a| - 1], b[|b| - 1];
      var ia, ib := a[..|a| - 1], b[..|b| - 1];
      BuildAlike(users, ia, ib);
      assert Bare(x) == Bare(y);
      SameTag(x, y, Build(users, ib).1);
      if y.enabled && y.protocol in KNOWN {
        BareBuild(users, x, y, UniqueTag(y, Build(users, ib).1));
        LastBuilt(users, a);
        LastBuilt(users, b);
        SnocEqual(Build(users, ia).0, BuildInbound(users, x, UniqueTag(x, Build(users, ia).1)),
                  Build(users, ib).0, BuildInbound(users, y, UniqueTag(y, Build(users, ib).1)));
      }
      SplitLast(a, b);
    }
  }

  lemma LastBuilt(users: seq<Credential>, a: seq<Inbound>)
    requires a != [] && a[|a| - 1].enabled && a[|a| - 1].protocol in KNOWN
    ensures var row, before := a[|a| - 1], Build(users, a[..|a| - 1]);
            var made := BuildInbound(users, row, UniqueTag(row, before.1));
            && Build(users, a).0 == before.0 + [made] && made.tag == UniqueTag(row, before.1)
            && Tags(before.0 + [made]) == Tags(before.0) + (if made.tag != "" then [made.tag] else [])
  {
    var row, before := a[|a| - 1], Build(users, a[..|a| - 1]);
    var all := before.0 + [BuildInbound(users, row, UniqueTag(row, before.1))];
    assert all[..|all| - 1] == before.0;
  }

  lemma SnocEqual<T>(a: seq<T>, x: T, b: seq<T>, y: T)
    ensures a + [x] == b + [y] <==> a == b && x == y
  {
    if a + [x] == b + [y] {
      assert (a + [x])[|a|] == x && (a + [x])[..|a|] == a && (b + [y])[..|b|] == b;
    }
  }

  /** No row is served with another target. */
  predicate OnTarget(a: seq<Inbound>, b: seq<Inbound>)
    requires |a| == |b|
  {
    forall k | 0 <= k < |b| :: !Retargeted(a[k], b[k])
  }

  lemma SplitLast(a: seq<Inbound>, b: seq<Inbound>)
    requires |a| == |b| > 0
    ensures OnTarget(a, b) <==> OnTarget(a[..|a| - 1], b[..|b| - 1]) && !Retargeted(a[|a| - 1], b[|b| - 1])
  {
    var ia, ib := a[..|a| - 1], b[..|b| - 1];
    if OnTarget(ia, ib) && !Retargeted(a[|a| - 1], b[|b| - 1]) {
      forall k | 0 <= k < |b| ensures !Retargeted(a[k], b[k]) {
        if k < |b| - 1 { assert ia[k] == a[k] && ib[k] == b[k]; }
      }
    }
  }

  // ---- the rows of a node ----

  lemma SeenRows(a: map<int, Inbound>, b: map<int, Inbound>, i: int)
    requires Seen(a, false) == Seen(b, false)
    ensures i in a <==> i in b
    ensures i in a ==> Bare(a[i]) == Bare(b[i]) && a[i].sortOrder == b[i].sortOrder && a[i].protocol == b[i].protocol
  {
    assert i in Seen(a, false) <==> i in Seen(b, false);
    if i in a { assert Seen(a, false)[i] == Seen(b, false)[i]; }
  }

  lemma {:induction false} SameOrder(a: map<int, Inbound>, b: map<int, Inbound>, s: set<int>)
    requires s <= a.Keys && s <= b.Keys && forall i | i in s :: a[i].sortOrder == b[i].sortOrder
    ensures Ordered(a, s) == Ordered(b, s)
    decreases s
  {
    SameIds(a, b, Ordered(a, s), Ordered(b, s));
  }

  lemma {:induction false} SameIds(a: map<int, Inbound>, b: map<int, Inbound>, x: seq<int>, y: seq<int>)
    requires forall i :: i in x <==> i in y
    requires forall i | i in x :: i in a && i in b && a[i].sortOrder == b[i].sortOrder
    requires forall i, j | 0 <= i < j < |x| :: x[i] in a && x[j] in a && x[i] != x[j] && Precedes(a, x[i], x[j])
    requires forall i, j | 0 <= i < j < |y| :: y[i] in b && y[j] in b && y[i] != y[j] && Precedes(b, y[i], y[j])
    ensures x == y
    decreases |x|
  {
    if x == [] {
      assert forall k | 0 <= k < |y| :: y[k] in y;
    } else {
      var i := x[0];
      assert i in x;
      assert i in y;
      var j := y[0];
      assert j in y;
      assert j in x;
      FirstIsFirst(a, b, x, y);
      assert x == [x[0]] + x[1..] && y == [y[0]] + y[1..];
      forall i ensures i in x[1..] <==> i in y[1..] {
        assert i in x[1..] <==> i in x && i != x[0];
        assert i in y[1..] <==> i in y && i != y[0];
      }
      SameIds(a, b, x[1..], y[1..]);
    }
  }

  lemma FirstIsFirst(a: map<int, Inbound>, b: map<int, Inbound>, x: seq<int>, y: seq<int>)
    requires x != [] && y != [] && x[0] in y && y[0] in x
    requires forall i | i in x :: i in a && i in b && a[i].sortOrder == b[i].sortOrder
    requires forall i, j | 0 <= i < j < |x| :: x[i] in a && x[j] in a && Precedes(a, x[i], x[j])
    requires forall i, j | 0 <= i < j < |y| :: y[i] in b && y[j] in b && Precedes(b, y[i], y[j])
    ensures x[0] == y[0]
  {
    var i :| 0 <= i < |x| && x[i] == y[0];
    var j :| 0 <= j < |y| && y[j] == x[0];
    assert x[0] in x && x[i] in x;
    if i > 0 && j > 0 { assert Precedes(a, x[0], x[i]) && Precedes(b, y[0], y[j]); }
  }

  lemma {:induction false} SameListing(a: map<int, Inbound>, b: map<int, Inbound>)
    requires Seen(a, false) == Seen(b, false)
    ensures a.Keys == b.Keys && InboundOrder(a) == InboundOrder(b)
    ensures forall i | i in b :: i in a && Bare(a[i]) == Bare(b[i])
  {
    forall i ensures (i in a <==> i in b) && (i in a ==> Bare(a[i]) == Bare(b[i]) && a[i].sortOrder == b[i].sortOrder) {
      SeenRows(a, b, i);
    }
    assert a.Keys == b.Keys by { assert forall i :: i in a.Keys <==> i in b.Keys; }
    SameOrder(a, b, b.Keys);
  }

  lemma {:induction false} ListedAlike(a: map<int, Inbound>, b: map<int, Inbound>)
    requires Seen(a, false) == Seen(b, false)
    ensures Alike(ListRows(a), ListRows(b))
    ensures OnTarget(ListRows(a), ListRows(b)) <==> forall i | i in b && i in a :: !Retargeted(a[i], b[i])
  {
    SameListing(a, b);
    var ids := InboundOrder(b);
    forall k | 0 <= k < |ids| ensures ids[k] in b && ListRows(a)[k] == a[ids[k]] && ListRows(b)[k] == b[ids[k]] {
      assert ids[k] in ids;
    }
    if OnTarget(ListRows(a), ListRows(b)) {
      forall i | i in b && i in a ensures !Retargeted(a[i], b[i]) {
        assert i in ids;
        var k :| 0 <= k < |ids| && ids[k] == i;
        assert !Retargeted(ListRows(a)[k], ListRows(b)[k]);
      }
    }
  }

  /** Two sets of rows that are the same up to Reality targets make the same configuration exactly when
      no enabled Reality inbound has another target. */
  lemma {:induction false} RendersAlikeIff(roster: map<int, Credential>, a: map<int, Inbound>, b: map<int, Inbound>)
    requires Seen(a, false) == Seen(b, false)
    ensures Render(roster, a) == Render(roster, b) <==> forall i | i in b && i in a :: !Retargeted(a[i], b[i])
  {
    ListedAlike(a, b);
    BuildAlike(Listing(roster), ListRows(a), ListRows(b));
    assert Render(roster, a).inbounds == Build(Listing(roster), ListRows(a)).0;
    assert Render(roster, b).inbounds == Build(Listing(roster), ListRows(b)).0;
  }

  // ---- one switch ----

  function Switched(db: Db, i: int, sni: string): Db
    requires i in db.inbounds
  {
    db.(inbounds := db.inbounds[i := db.inbounds[i].(settings := WithSni(db.inbounds[i].settings, sni))])
  }

  /** A switch moves the target of its own inbound, which shows when that is enabled, and of no other. */
  lemma OneRowOff(db: Db, n: int, i: int, sni: string)
    requires i in db.inbounds && db.inbounds[i].node == n && db.inbounds[i].protocol == "vless-reality"
    requires Text(db.inbounds[i].settings, "sni") != sni
    ensures var a, b := RowsOf(Switched(db, i, sni), n), RowsOf(db, n);
            && i in a && i in b && (Retargeted(a[i], b[i]) <==> db.inbounds[i].enabled)
            && forall j | j in b && j in a && j != i :: !Retargeted(a[j], b[j])
  {
    assert Text(Switched(db, i, sni).inbounds[i].settings, "sni") == sni;
  }
}
