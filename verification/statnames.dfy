/** Attributing stats to users (handler/v2raystats.go:58-91). */
module StatNames {
  import opened Tables

  const SEPARATOR := ">>>"

  /** The separator stands at `i`. */
  predicate At(s: string, i: int) {
    0 <= i && i + 3 <= |s| && s[i] == '>' && s[i + 1] == '>' && s[i + 2] == '>'
  }

  /** The first separator, or -1. */
  function Find(s: string): (i: int)
    ensures -1 <= i
    ensures i >= 0 ==> At(s, i) && forall j | j < i :: !At(s, j)
    ensures i < 0 ==> forall j :: !At(s, j)
  {
    FindFrom(s, 0)
  }

  function FindFrom(s: string, k: nat): (i: int)
    requires forall j | j < k :: !At(s, j)
    ensures -1 <= i
    ensures i >= 0 ==> At(s, i) && forall j | j < i :: !At(s, j)
    ensures i < 0 ==> forall j :: !At(s, j)
    decreases |s| - k
  {
    if k + 3 > |s| then -1 else if At(s, k) then k else FindFrom(s, k + 1)
  }

  /** strings.Split: cut at every separator, leftmost first. */
  function Split(s: string): (parts: seq<string>)
    ensures parts != []
    decreases |s|
  {
    var i := Find(s);
    if i < 0 then [s] else [s[..i]] + Split(s[i + 3..])
  }

  function ParseUserStatName(name: string): Option<(string, string)> {
    if |name| < 7 || name[..7] != "user>>>" then None
    else
      var parts := Split(name);
      if |parts| != 4 || parts[2] != "traffic" then None else Some((parts[1], parts[3]))
  }

  function Build(user: string, kind: string): string {
    "user" + (SEPARATOR + (user + (SEPARATOR + ("traffic" + (SEPARATOR + kind)))))
  }

  /** A text that contains no separator and does not end inside one. */
  predicate Clean(s: string) {
    Find(s) < 0 && (s == "" || s[|s| - 1] != '>')
  }

  lemma {:induction false} CutAfterClean(s: string, t: string)
    requires Clean(s)
    ensures Split(s + (SEPARATOR + t)) == [s] + Split(t)
  {
    var whole := s + (SEPARATOR + t);
    assert At(whole, |s|);
    forall j | 0 <= j < |s| ensures !At(whole, j) {
      assert !At(s, j);
      assert whole[|s| - 1] == s[|s| - 1];
      if j + 3 <= |s| { assert whole[j] == s[j] && whole[j + 1] == s[j + 1] && whole[j + 2] == s[j + 2]; }
    }
    assert Find(whole) == |s|;
    assert whole[..|s|] == s && whole[|s| + 3..] == t;
  }

  lemma {:induction false} CutInside(s: string, t: string)
    requires !Clean(s)
    ensures var whole := s + (SEPARATOR + t); 0 <= Find(whole) < |s| && Split(whole)[0] == whole[..Find(whole)]
  {
    var whole := s + (SEPARATOR + t);
    var j := if Find(s) >= 0 then Find(s) else |s| - 1;
    assert At(whole, j) by {
      if Find(s) >= 0 {
        assert whole[j] == s[j] && whole[j + 1] == s[j + 1] && whole[j + 2] == s[j + 2];
      } else {
        assert whole[j] == s[j] && whole[|s|] == '>' && whole[|s| + 1] == '>';
      }
    }
  }

  function Tail(kind: string): string { "traffic" + (SEPARATOR + kind) }

  lemma {:induction false} SplitBuilt(user: string, kind: string)
    requires Find(kind) < 0
    ensures Split(Build(user, kind)) == ["user"] + Split(user + (SEPARATOR + Tail(kind)))
    ensures Split(Tail(kind)) == ["traffic", kind]
    ensures Build(user, kind)[..7] == "user>>>" && |Build(user, kind)| >= 7
  {
    assert Clean("user") && Clean("traffic");
    CutAfterClean("user", user + (SEPARATOR + Tail(kind)));
    CutAfterClean("traffic", kind);
    assert Split(kind) == [kind];
  }

  /** Parsing a built name gives the user and the kind back exactly when the user's name contains no
      separator and does not end in '>'. */
  lemma {:induction false} ParseBuilt(user: string, kind: string)
    requires Find(kind) < 0
    ensures ParseUserStatName(Build(user, kind)) == Some((user, kind)) <==> Clean(user)
  {
    var rest := user + (SEPARATOR + Tail(kind));
    SplitBuilt(user, kind);
    if Clean(user) {
      CutAfterClean(user, Tail(kind));
      FourParts("user", user, "traffic", kind);
    } else {
      CutInside(user, Tail(kind));
      FirstShort(user, rest, Find(rest));
    }
  }

  lemma FourParts(a: string, b: string, c: string, d: string)
    ensures [a] + ([b] + [c, d]) == [a, b, c, d]
  {}

  lemma FirstShort(user: string, rest: string, i: int)
    requires 0 <= i < |user| <= |rest|
    ensures rest[..i] != user
  {
  }

  /** The parts with separators between them. */
  function Joined(parts: seq<string>): string
    requires parts != []
  {
    if |parts| == 1 then parts[0] else parts[0] + (SEPARATOR + Joined(parts[1..]))
  }

  lemma {:induction false} SplitJoins(s: string)
    ensures Joined(Split(s)) == s
    decreases |s|
  {
    var i := Find(s);
    if i >= 0 {
      SplitJoins(s[i + 3..]);
      JoinedMore(s[..i], Split(s[i + 3..]));
      CutAt(s, i);
    }
  }

  lemma JoinedMore(first: string, rest: seq<string>)
    requires rest != []
    ensures Joined([first] + rest) == first + (SEPARATOR + Joined(rest))
  {
    assert ([first] + rest)[1..] == rest;
  }

  lemma CutAt(s: string, i: int)
    requires At(s, i)
    ensures s == s[..i] + (SEPARATOR + s[i + 3..])
  {
  }

  lemma {:induction false} PartsAreWhole(s: string)
    ensures forall k | 0 <= k < |Split(s)| :: Find(Split(s)[k]) < 0
    decreases |s|
  {
    var i := Find(s);
    if i >= 0 {
      PartsAreWhole(s[i + 3..]);
      NoneBefore(s, i);
    }
  }

  lemma NoneBefore(s: string, i: int)
    requires 0 <= i <= |s| && forall j | j < i :: !At(s, j)
    ensures Find(s[..i]) < 0
  {
    forall j ensures !At(s[..i], j) { assert j < i ==> !At(s, j); }
  }

  /** A name that is read as a user's is the name of that user and kind, and neither part contains a
      separator: no other statistic is ever taken for a user's. */
  lemma {:induction false} ParsedIsBuilt(name: string)
    requires ParseUserStatName(name).Some?
    ensures var (user, kind) := ParseUserStatName(name).value;
            name == "user" + (">>>" + (user + (">>>traffic>>>" + kind))) && Find(user) < 0 && Find(kind) < 0
  {
    SplitJoins(name);
    PartsAreWhole(name);
    UserFirst(name);
    var parts := Split(name);
    assert parts == ["user", parts[1], "traffic", parts[3]];
    JoinedFour("user", parts[1], "traffic", parts[3]);
    assert SEPARATOR + ("traffic" + (SEPARATOR + parts[3])) == ">>>traffic>>>" + parts[3];
  }

  lemma JoinedFour(a: string, b: string, c: string, d: string)
    ensures Joined([a, b, c, d]) == a + (SEPARATOR + (b + (SEPARATOR + (c + (SEPARATOR + d)))))
  {
    var parts := [a, b, c, d];
    assert parts[1..] == [b, c, d] && [b, c, d][1..] == [c, d] && [c, d][1..] == [d];
    assert Joined([d]) == d;
    assert Joined([c, d]) == c + (SEPARATOR + d);
    assert Joined([b, c, d]) == b + (SEPARATOR + Joined([c, d]));
  }

  lemma UserFirst(name: string)
    requires |name| >= 7 && name[..7] == "user>>>"
    ensures Split(name)[0] == "user"
  {
    assert At(name, 4) by { assert name[4] == name[..7][4] && name[5] == name[..7][5] && name[6] == name[..7][6]; }
    forall j | 0 <= j < 4 ensures !At(name, j) { assert name[j] == name[..7][j]; }
    assert Find(name) == 4;
    assert name[..4] == name[..7][..4] == "user";
  }

  // ---- the summing loop ----

  datatype NamedStat = NamedStat(name: string, value: int)

  datatype Traffic = Traffic(up: int, down: int)

  datatype Direction = Up | Down

  function Bytes(t: Traffic, d: Direction): int { if d.Up? then t.up else t.down }

  predicate Of(s: NamedStat, user: string, kind: string) {
    ParseUserStatName(s.name) == Some((user, kind))
  }

  /** What `stats` report of one kind for one user. */
  function Total(stats: seq<NamedStat>, user: string, kind: string): int {
    if stats == [] then 0
    else
      var s := stats[|stats| - 1];
      Total(stats[..|stats| - 1], user, kind) + (if Of(s, user, kind) then s.value else 0)
  }

  predicate Named(s: NamedStat, user: string) {
    ParseUserStatName(s.name).Some? && ParseUserStatName(s.name).value.0 == user
  }

  function WithStat(m: map<string, Traffic>, s: NamedStat): map<string, Traffic> {
    match ParseUserStatName(s.name)
    case None => m
    case Some((user, kind)) =>
      var t := if user in m then m[user] else Traffic(0, 0);
      m[user := if kind == "uplink" then t.(up := t.up + s.value)
                else if kind == "downlink" then t.(down := t.down + s.value) else t]
  }

  function Summed(stats: seq<NamedStat>): map<string, Traffic> {
    if stats == [] then map[] else WithStat(Summed(stats[..|stats| - 1]), stats[|stats| - 1])
  }

  /** queryUserStats' loop. */
  method SumStats(stats: seq<NamedStat>) returns (result: map<string, Traffic>)
    ensures result == Summed(stats)
  {
    result := map[];
    for k := 0 to |stats|
      invariant result == Summed(stats[..k])
    {
      assert stats[..k + 1][..k] == stats[..k];
      var parsed := ParseUserStatName(stats[k].name);
      if parsed.Some? {
        var (user, kind) := parsed.value;
        var t := if user in result then result[user] else Traffic(0, 0);
        if kind == "uplink" {
          t := t.(up := t.up + stats[k].value);
        } else if kind == "downlink" {
          t := t.(down := t.down + stats[k].value);
        }
        result := result[user := t];
      }
    }
    assert stats[..|stats|] == stats;
  }

  /** Every byte reported for a user ends up in that user's entry, once, and no other entry exists. */
  lemma {:induction false} SumsAreTotals(stats: seq<NamedStat>, user: string)
    ensures user in Summed(stats) <==> exists k :: 0 <= k < |stats| && Named(stats[k], user)
    ensures (if user in Summed(stats) then Summed(stats)[user] else Traffic(0, 0))
            == Traffic(Total(stats, user, "uplink"), Total(stats, user, "downlink"))
    decreases |stats|
  {
    if stats != [] {
      var init, last := stats[..|stats| - 1], stats[|stats| - 1];
      SumsAreTotals(init, user);
      if k :| 0 <= k < |init| && Named(init[k], user) { assert Named(stats[k], user); }
      if Named(last, user) { assert Named(stats[|stats| - 1], user); }
    }
  }
}
