/** Proxy names (singbox/generator.go's protocolNameTracker): a base name, then
    the base with "-2", "-3", ... A node name, a protocol and a counter can be
    read back from any name made of them. */
module ProxyNames {
  import opened Tables
  import opened Generator

  function Named(base: string, k: nat): string {
    if k == 1 then base else base + "-" + Decimal(k)
  }

  function Occurrences(bases: seq<string>, base: string): nat {
    if bases == [] then 0
    else Occurrences(bases[..|bases| - 1], base) + (if bases[|bases| - 1] == base then 1 else 0)
  }

  class Tracker {
    var counts: map<string, nat>
    ghost var asked: seq<string>

    ghost predicate Valid()
      reads this
    {
      forall b :: Occurrences(asked, b) == if b in counts then counts[b] else 0
    }

    constructor ()
      ensures Valid() && asked == []
    {
      counts := map[];
      asked := [];
    }

    method Next(base: string) returns (name: string)
      requires Valid()
      modifies this
      ensures Valid() && asked == old(asked) + [base]
      ensures name == Named(base, Occurrences(asked, base))
    {
      var k := (if base in counts then counts[base] else 0) + 1;
      counts := counts[base := k];
      asked := asked + [base];
      assert asked[..|asked| - 1] == old(asked);
      name := if k == 1 then base else base + "-" + Decimal(k);
    }
  }

  // ---- decimal numerals ----

  predicate IsDigit(c: char) { '0' <= c <= '9' }

  function Value(s: string): nat
    requires forall c | c in s :: IsDigit(c)
  {
    if s == "" then 0
    else
      var c := s[|s| - 1];
      assert IsDigit(c) && forall d | d in s[..|s| - 1] :: d in s;
      10 * Value(s[..|s| - 1]) + (c as int - '0' as int)
  }

  lemma {:induction false} DecimalBack(n: nat)
    ensures forall c | c in Decimal(n) :: IsDigit(c)
    ensures Value(Decimal(n)) == n
    decreases n
  {
    var d := DecimalDigit(n % 10);
    assert IsDigit(d) && d as int - '0' as int == n % 10;
    if n < 10 {
      assert Decimal(n) == [d] && [d][..0] == "";
    } else {
      DecimalBack(n / 10);
      assert Decimal(n)[..|Decimal(n)| - 1] == Decimal(n / 10);
    }
  }

  // ---- reading a name back ----

  /** The text up to the last '-', and the text after it. */
  function LastDash(s: string): (string, string) {
    if s == "" then ("", "")
    else if s[|s| - 1] == '-' then (s[..|s| - 1], "")
    else
      var (front, back) := LastDash(s[..|s| - 1]);
      (front, back + [s[|s| - 1]])
  }

  lemma {:induction false} LastDashBack(front: string, back: string)
    requires '-' !in back
    ensures LastDash(front + "-" + back) == (front, back)
    decreases |back|
  {
    var s := front + "-" + back;
    if back == "" {
      assert s[..|s| - 1] == front;
    } else {
      var init := back[..|back| - 1];
      assert back == init + [back[|back| - 1]] && s[..|s| - 1] == front + "-" + init;
      LastDashBack(front, init);
    }
  }

  const KINDS := {"Hy2", "Reality", "CDN"}

  function Label(node: string, kind: string, k: nat): string {
    Named(node + "-" + kind, k)
  }

  datatype Origin = Origin(node: string, kind: string, k: nat)

  /** The node, the protocol and the counter a name was made from. */
  function ReadName(name: string): Origin {
    var (front, back) := LastDash(name);
    if back in KINDS then Origin(front, back, 1)
    else if forall c | c in back :: IsDigit(c) then
      var (node, kind) := LastDash(front);
      Origin(node, kind, Value(back))
    else Origin(name, "", 0)
  }

  lemma {:induction false} LabelBack(node: string, kind: string, k: nat)
    requires kind in KINDS && k > 0
    ensures ReadName(Label(node, kind, k)) == Origin(node, kind, k)
  {
    KindsAreWords(kind);
    LastDashBack(node, kind);
    if k != 1 {
      DecimalBack(k);
      var back := Decimal(k);
      assert '-' !in back;
      LastDashBack(node + "-" + kind, back);
      assert back !in KINDS by {
        assert IsDigit(back[0]) by { assert back[0] in back; }
      }
    }
  }

  lemma KindsAreWords(kind: string)
    requires kind in KINDS
    ensures '-' !in kind && kind != "" && !IsDigit(kind[0])
  {
  }

  /** A label carries a dash, which none of the fixed group names does. */
  lemma LabelIsNotReserved(node: string, kind: string, k: nat)
    ensures Label(node, kind, k) !in {"Proxy", "Auto", "DIRECT"}
  {
    var s := Label(node, kind, k);
    assert s[|node|] == '-';
    assert '-' in s;
  }
}
