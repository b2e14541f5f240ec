/** What the server configuration of a node says, read off the tables
    (handler/config.go:136-161, singbox/generator.go:25-186): which inbounds it has,
    in which order, under which tags, what is in each of them, and whose traffic is
    counted. */
module ServerConfig {
  import opened Tables
  import opened Generator

  // ---- tags ----

  /** Each row takes its own tag, or its protocol when it has none; when an earlier row has taken that,
      it takes it with its port. */
  ghost predicate Tagged(rows: seq<Inbound>, tags: seq<string>) {
    && |tags| == |rows|
    && forall k | 0 <= k < |rows| ::
         var base := if rows[k].tag != "" then rows[k].tag else rows[k].protocol;
         tags[k] == if base in tags[..k] then base + "-" + Signed(rows[k].port) else base
  }

  // ---- one inbound ----

  ghost predicate TruncatesTo(r: real, p: int) {
    if r >= 0.0 then p as real <= r < p as real + 1.0 else p as real - 1.0 < r <= p as real
  }

  /** The inbound serves the row: its port, its tag, all the users, and its settings or their defaults. */
  ghost predicate Describes(ib: ServerInbound, row: Inbound, tag: string, users: seq<Credential>) {
    var s := row.settings;
    && ib.tag == tag && ib.port == row.port && ib.users == users
    && match row.protocol
       case "hysteria2" =>
         && ib.Hysteria2?
         && ib.tls.serverName == Text(s, "domain")
         && ib.tls.certPath == Text(s, "cert_path") && ib.tls.keyPath == Text(s, "key_path")
         && ib.obfsPassword == if Text(s, "profile") in {"", "salamander"} then Text(s, "obfs_password") else ""
       case "vless-reality" =>
         && ib.Reality?
         && ib.serverName == Text(s, "sni")
         && ib.privateKey == Text(s, "private_key") && ib.shortId == Text(s, "short_id")
         && ib.handshakeServer == (if Text(s, "handshake_server") != "" then Text(s, "handshake_server")
                                   else Text(s, "sni"))
         && (if "handshake_port" in s && s["handshake_port"].Num?
             then TruncatesTo(s["handshake_port"].r, ib.handshakePort)
             else ib.handshakePort == 443)
       case "vless-httpupgrade" =>
         && ib.HttpUpgrade?
         && ib.host == Text(s, "domain")
         && ib.path == (if Text(s, "path") != "" then Text(s, "path") else "/upgrade")
         && (ib.tls2.Some? <==> Text(s, "cert_path") != "" && Text(s, "key_path") != "")
         && (ib.tls2.Some? ==>
               && ib.tls2.value.serverName == Text(s, "domain")
               && ib.tls2.value.certPath == Text(s, "cert_path") && ib.tls2.value.keyPath == Text(s, "key_path"))
       case _ => false
  }

  lemma BuiltDescribes(users: seq<Credential>, row: Inbound, tag: string)
    requires row.protocol in KNOWN
    ensures Describes(BuildInbound(users, row, tag), row, tag, users)
  {
    var s := row.settings;
    if row.protocol == "vless-reality" && "handshake_port" in s && s["handshake_port"].Num? {
      TruncatedTruncates(s["handshake_port"].r);
    }
  }

  lemma TruncatedTruncates(r: real)
    ensures TruncatesTo(r, Truncated(r))
  {
  }

  // ---- all of them ----

  /** The positions of the rows the program knows how to serve. */
  ghost predicate Served(pos: seq<int>, rows: seq<Inbound>) {
    && (forall i, j | 0 <= i < j < |pos| :: pos[i] < pos[j])
    && (forall i | 0 <= i < |pos| :: 0 <= pos[i] < |rows|)
    && forall k | 0 <= k < |rows| ::
         k in pos <==> rows[k].protocol in {"hysteria2", "vless-reality", "vless-httpupgrade"}
  }

  ghost predicate DescribeAll(inbounds: seq<ServerInbound>, rows: seq<Inbound>, tags: seq<string>, pos: seq<int>,
                              users: seq<Credential>)
    requires |tags| == |rows| && Served(pos, rows)
  {
    && |inbounds| == |pos|
    && forall j | 0 <= j < |pos| :: Describes(inbounds[j], rows[pos[j]], tags[pos[j]], users)
  }

  lemma {:induction false} BuildIs(users: seq<Credential>, rows: seq<Inbound>)
    returns (tags: seq<string>, pos: seq<int>)
    requires forall k | 0 <= k < |rows| :: rows[k].enabled
    ensures Tagged(rows, tags) && Served(pos, rows) && DescribeAll(Build(users, rows).0, rows, tags, pos, users)
    ensures Build(users, rows).1 == set t | t in tags
    decreases |rows|
  {
    if rows == [] {
      tags, pos := [], [];
    } else {
      tags, pos := BuildIs(users, rows[..|rows| - 1]);
      tags, pos := BuildOneMore(users, rows, tags, pos);
    }
  }

  lemma BuildOneMore(users: seq<Credential>, all: seq<Inbound>, tags: seq<string>, pos: seq<int>)
    returns (tags': seq<string>, pos': seq<int>)
    requires all != [] && all[|all| - 1].enabled
    requires var rows := all[..|all| - 1];
             && Tagged(rows, tags) && Served(pos, rows) && DescribeAll(Build(users, rows).0, rows, tags, pos, users)
             && Build(users, rows).1 == set t | t in tags
    ensures Tagged(all, tags') && Served(pos', all) && DescribeAll(Build(users, all).0, all, tags', pos', users)
    ensures Build(users, all).1 == set t | t in tags'
  {
    var rows, row := all[..|all| - 1], all[|all| - 1];
    assert all == rows + [row];
    var (built, used) := Build(users, rows);
    var tag := UniqueTag(row, used);
    tags' := tags + [tag];
    pos' := if row.protocol in KNOWN then pos + [|rows|] else pos;
    TagAdded(rows, row, tags, tag, used);
    if row.protocol in KNOWN {
      BuiltDescribes(users, row, tag);
      OneMoreServed(built, BuildInbound(users, row, tag), rows, row, tags, tag, pos, users);
    } else {
      NoneMoreServed(built, rows, row, tags, tag, pos, users);
    }
  }

  lemma TagAdded(rows: seq<Inbound>, row: Inbound, tags: seq<string>, tag: string, used: set<string>)
    requires Tagged(rows, tags) && used == (set t | t in tags) && tag == UniqueTag(row, used)
    ensures Tagged(rows + [row], tags + [tag])
    ensures used + {tag} == set t | t in tags + [tag]
  {
    var all, taken := rows + [row], tags + [tag];
    forall k | 0 <= k < |all|
      ensures var base := if all[k].tag != "" then all[k].tag else all[k].protocol;
              taken[k] == if base in taken[..k] then base + "-" + Signed(all[k].port) else base
    {
      assert taken[..k] == tags[..k];
      if k == |rows| { assert tags[..k] == tags; }
    }
  }

  lemma OneMoreServed(inbounds: seq<ServerInbound>, ib: ServerInbound, rows: seq<Inbound>, row: Inbound,
                      tags: seq<string>, tag: string, pos: seq<int>, users: seq<Credential>)
    requires |tags| == |rows| && Served(pos, rows) && DescribeAll(inbounds, rows, tags, pos, users)
    requires row.protocol in KNOWN && Describes(ib, row, tag, users)
    ensures var all, taken, at := rows + [row], tags + [tag], pos + [|rows|];
            Served(at, all) && DescribeAll(inbounds + [ib], all, taken, at, users)
  {
    var all, taken, at, built := rows + [row], tags + [tag], pos + [|rows|], inbounds + [ib];
    assert all[|rows|] == row && taken[|rows|] == tag;
    forall k | 0 <= k < |all| ensures k in at <==> all[k].protocol in KNOWN {
      assert k in at <==> k in pos || k == |rows|;
      if k in pos { assert exists i :: 0 <= i < |pos| && pos[i] == k; }
      if k < |rows| { assert all[k] == rows[k]; }
    }
    forall j | 0 <= j < |at| ensures 0 <= at[j] < |all| && Describes(built[j], all[at[j]], taken[at[j]], users) {
      if j < |pos| {
        assert at[j] == pos[j] && all[pos[j]] == rows[pos[j]] && taken[pos[j]] == tags[pos[j]];
        assert Describes(inbounds[j], rows[pos[j]], tags[pos[j]], users);
      }
    }
  }

  lemma NoneMoreServed(inbounds: seq<ServerInbound>, rows: seq<Inbound>, row: Inbound, tags: seq<string>, tag: string,
                       pos: seq<int>, users: seq<Credential>)
    requires |tags| == |rows| && Served(pos, rows) && DescribeAll(inbounds, rows, tags, pos, users)
    requires row.protocol !in KNOWN
    ensures Served(pos, rows + [row]) && DescribeAll(inbounds, rows + [row], tags + [tag], pos, users)
  {
    var all, taken := rows + [row], tags + [tag];
    forall j | 0 <= j < |pos| ensures Describes(inbounds[j], all[pos[j]], taken[pos[j]], users) {
      assert all[pos[j]] == rows[pos[j]] && taken[pos[j]] == tags[pos[j]];
      assert Describes(inbounds[j], rows[pos[j]], tags[pos[j]], users);
    }
  }

  // ---- disabled rows ----

  function At(rows: map<int, Inbound>, ids: seq<int>): seq<Inbound>
    requires forall k | 0 <= k < |ids| :: ids[k] in rows
  {
    seq(|ids|, k requires 0 <= k < |ids| => rows[ids[k]])
  }

  ghost predicate Sorted(rows: map<int, Inbound>, ids: seq<int>) {
    && (forall k | 0 <= k < |ids| :: ids[k] in rows)
    && forall k, l | 0 <= k < l < |ids| :: ids[k] != ids[l] && Precedes(rows, ids[k], ids[l])
  }

  lemma {:induction false} DisabledLeaveNoTrace(users: seq<Credential>, rows: map<int, Inbound>, ids: seq<int>)
    returns (on: seq<int>)
    requires Sorted(rows, ids)
    ensures Sorted(rows, on) && forall i :: i in on <==> i in ids && i in rows && rows[i].enabled
    ensures Build(users, At(rows, ids)) == Build(users, At(rows, on))
    decreases |ids|
  {
    if ids == [] {
      on := [];
    } else {
      var init, i := ids[..|ids| - 1], ids[|ids| - 1];
      on := DisabledLeaveNoTrace(users, rows, init);
      on := LastRow(users, rows, ids, init, i, on);
    }
  }

  lemma LastRow(users: seq<Credential>, rows: map<int, Inbound>, ids: seq<int>, init: seq<int>, i: int, on: seq<int>)
    returns (on': seq<int>)
    requires ids == init + [i] && Sorted(rows, ids) && Sorted(rows, init) && Sorted(rows, on)
    requires forall j :: j in on <==> j in init && j in rows && rows[j].enabled
    requires Build(users, At(rows, init)) == Build(users, At(rows, on))
    ensures Sorted(rows, on') && forall j :: j in on' <==> j in ids && j in rows && rows[j].enabled
    ensures Build(users, At(rows, ids)) == Build(users, At(rows, on'))
  {
    assert ids[|init|] == i && i in rows;
    OneMoreRow(users, At(rows, init), At(rows, on), rows[i]);
    assert At(rows, ids) == At(rows, init) + [rows[i]];
    on' := on;
    if rows[i].enabled {
      LastInOrder(rows, init, on, i);
      assert At(rows, on + [i]) == At(rows, on) + [rows[i]];
      on' := on + [i];
    }
  }

  lemma OneMoreRow(users: seq<Credential>, a: seq<Inbound>, b: seq<Inbound>, row: Inbound)
    requires Build(users, a) == Build(users, b)
    ensures Build(users, a + [row]) == if row.enabled then Build(users, b + [row]) else Build(users, b)
  {
    assert (a + [row])[..|a|] == a && (b + [row])[..|b|] == b;
  }

  lemma LastInOrder(rows: map<int, Inbound>, ids: seq<int>, on: seq<int>, i: int)
    requires Sorted(rows, ids + [i]) && Sorted(rows, on) && forall j | j in on :: j in ids
    ensures Sorted(rows, on + [i])
  {
    var all := ids + [i];
    assert all[|ids|] == i;
    forall k | 0 <= k < |on| ensures on[k] != i && Precedes(rows, on[k], i) {
      assert on[k] in ids;
      var l :| 0 <= l < |ids| && ids[l] == on[k];
      assert all[l] == on[k];
    }
  }

  // ---- the whole configuration ----

  /** The rows of node `n` that are switched on, in the order of the panel. */
  ghost predicate RowsInOrder(db: Db, n: int, ids: seq<int>) {
    && (forall k | 0 <= k < |ids| :: ids[k] in db.inbounds)
    && (forall i :: i in ids <==> i in db.inbounds && db.inbounds[i].node == n && db.inbounds[i].enabled)
    && forall j, k | 0 <= j < k < |ids| ::
         var a, b := db.inbounds[ids[j]], db.inbounds[ids[k]];
         a.sortOrder < b.sortOrder || (a.sortOrder == b.sortOrder && ids[j] < ids[k])
  }

  /** The users the node serves, by id: those with access to it that are enabled, not expired, and have
      traffic left. */
  ghost predicate UsersInOrder(db: Db, now: string, n: int, ids: seq<int>) {
    && (forall u :: u in ids <==>
          && u in db.users && (u, n) in db.access && db.users[u].enabled
          && (db.users[u].expireAt == "" || Before(now, db.users[u].expireAt))
          && (db.users[u].limit == 0 || db.users[u].used < db.users[u].limit))
    && forall j, k | 0 <= j < k < |ids| :: ids[j] < ids[k]
  }

  ghost predicate Credentials(db: Db, ids: seq<int>, users: seq<Credential>)
  {
    && |users| == |ids|
    && forall k | 0 <= k < |ids| ::
         ids[k] in db.users && users[k].name == db.users[ids[k]].name && users[k].uuid == db.users[ids[k]].uuid
  }

  /** Traffic is counted exactly when there is something to count, for each inbound and each user. */
  ghost predicate Counts(c: Config, users: seq<Credential>) {
    if c.inbounds == [] || users == [] then c.stats == NoStats
    else
      && c.stats.Stats? && |c.stats.tags| == |c.inbounds| && |c.stats.names| == |users|
      && (forall j | 0 <= j < |c.inbounds| :: c.stats.tags[j] == c.inbounds[j].tag)
      && forall k | 0 <= k < |users| :: c.stats.names[k] == users[k].name
  }

  lemma {:induction false} TagsAreAll(inbounds: seq<ServerInbound>)
    requires forall j | 0 <= j < |inbounds| :: inbounds[j].tag != ""
    ensures |Tags(inbounds)| == |inbounds| && forall j | 0 <= j < |inbounds| :: Tags(inbounds)[j] == inbounds[j].tag
    decreases |inbounds|
  {
    if inbounds != [] { TagsAreAll(inbounds[..|inbounds| - 1]); }
  }

  lemma {:induction false} KnownAreTagged(inbounds: seq<ServerInbound>, rows: seq<Inbound>, tags: seq<string>,
                                          pos: seq<int>, users: seq<Credential>)
    requires Tagged(rows, tags) && Served(pos, rows) && DescribeAll(inbounds, rows, tags, pos, users)
    ensures forall j | 0 <= j < |inbounds| :: inbounds[j].tag != ""
  {
    forall j | 0 <= j < |inbounds| ensures inbounds[j].tag != "" {
      var k := pos[j];
      assert k in pos && Describes(inbounds[j], rows[k], tags[k], users);
    }
  }

  lemma RosterIs(db: Db, now: string, n: int) returns (ids: seq<int>)
    ensures UsersInOrder(db, now, n, ids) && Credentials(db, ids, Listing(Roster(db, now, n)))
  {
    ids := AscendingIds(Roster(db, now, n).Keys);
    forall u ensures u in Roster(db, now, n) <==>
                       && u in db.users && (u, n) in db.access && db.users[u].enabled
                       && (db.users[u].expireAt == "" || Before(now, db.users[u].expireAt))
                       && (db.users[u].limit == 0 || db.users[u].used < db.users[u].limit)
    {
      assert u in UsersForNode(db, now, n) <==> (u, n) in db.access && u in db.users && Eligible(db.users[u], now);
    }
  }

  /** `c` serves the users with these ids, listed as `listed`, through the inbounds of these rows, of which
      those at `pos` are of a known protocol, under these tags. */
  ghost predicate Serves(c: Config, db: Db, now: string, n: int, users: seq<int>, listed: seq<Credential>,
                         rows: seq<int>, tags: seq<string>, pos: seq<int>) {
    && UsersInOrder(db, now, n, users) && Credentials(db, users, listed)
    && RowsInOrder(db, n, rows) && Tagged(At(db.inbounds, rows), tags) && Served(pos, At(db.inbounds, rows))
    && DescribeAll(c.inbounds, At(db.inbounds, rows), tags, pos, listed)
    && Counts(c, listed)
  }

  ghost predicate ConfigOf(c: Config, db: Db, now: string, n: int) {
    exists users, listed, rows, tags, pos :: Serves(c, db, now, n, users, listed, rows, tags, pos)
  }

  /** The configuration generated for node `n`. */
  lemma {:induction false} GeneratedIs(db: Db, now: string, n: int)
    ensures ConfigOf(Generated(db, now, n), db, now, n)
  {
    var users, listed, rows, tags, pos := GeneratedServes(db, now, n);
  }

  lemma {:induction false} GeneratedServes(db: Db, now: string, n: int)
    returns (users: seq<int>, listed: seq<Credential>, rows: seq<int>, tags: seq<string>, pos: seq<int>)
    ensures Serves(Generated(db, now, n), db, now, n, users, listed, rows, tags, pos)
  {
    listed := Listing(Roster(db, now, n));
    users := RosterIs(db, now, n);
    rows := RowsAre(db, n, listed);
    tags, pos := BuildIs(listed, At(db.inbounds, rows));
    assert Generated(db, now, n) == GenerateConfig(listed, ListRows(RowsOf(db, n)));
    CountsAll(listed, ListRows(RowsOf(db, n)), At(db.inbounds, rows), tags, pos);
  }

  lemma CountsAll(users: seq<Credential>, rows: seq<Inbound>, on: seq<Inbound>, tags: seq<string>, pos: seq<int>)
    requires Build(users, rows) == Build(users, on) && Tagged(on, tags) && Served(pos, on)
    requires DescribeAll(Build(users, on).0, on, tags, pos, users)
    ensures GenerateConfig(users, rows).inbounds == Build(users, on).0 && Counts(GenerateConfig(users, rows), users)
  {
    KnownAreTagged(Build(users, on).0, on, tags, pos, users);
    TagsAreAll(Build(users, on).0);
  }

  lemma RowsAre(db: Db, n: int, users: seq<Credential>) returns (rows: seq<int>)
    ensures RowsInOrder(db, n, rows) && Build(users, ListRows(RowsOf(db, n))) == Build(users, At(db.inbounds, rows))
    ensures forall k | 0 <= k < |rows| :: At(db.inbounds, rows)[k].enabled
  {
    var mine := RowsOf(db, n);
    rows := DisabledLeaveNoTrace(users, mine, InboundOrder(mine));
    OrderIs(db, n, rows);
    assert At(mine, rows) == At(db.inbounds, rows);
    assert At(mine, InboundOrder(mine)) == ListRows(mine);
  }

  lemma OrderIs(db: Db, n: int, ids: seq<int>)
    requires forall i :: i in ids <==> i in RowsOf(db, n) && RowsOf(db, n)[i].enabled
    requires forall k | 0 <= k < |ids| :: ids[k] in RowsOf(db, n)
    requires forall i, j | 0 <= i < j < |ids| :: ids[i] != ids[j] && Precedes(RowsOf(db, n), ids[i], ids[j])
    ensures RowsInOrder(db, n, ids)
  {
  }
}
