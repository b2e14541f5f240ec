/** The stores (model/user.go, model/access.go, model/node.go): every method runs
    its statements one after the other inside a transaction, and is proved to do
    what the table function of the same name says, or nothing when it is refused. */
module Stores {
  import opened Tables
  import opened Generator

  /** uniqueSortedIDs and uniqueNodeIDs: positive ids, each once, ascending. */
  method UniqueSortedIds(ids: seq<int>) returns (result: seq<int>)
    ensures result == AscendingIds(CleanIds(ids))
  {
    var seen: set<int> := {};
    for k := 0 to |ids|
      invariant seen == CleanIds(ids[..k])
    {
      assert ids[..k + 1] == ids[..k] + [ids[k]];
      if ids[k] > 0 && ids[k] !in seen {
        seen := seen + {ids[k]};
      }
    }
    assert ids[..|ids|] == ids;
    result := AscendingIds(seen);
  }

  class Database {
    var users: map<int, User>
    var nodes: map<int, Node>
    var access: set<(int, int)>
    var inbounds: map<int, Inbound>
    var nextInbound: int

    function State(): Db
      reads this
    {
      Db(users, nodes, access, inbounds, nextInbound)
    }

    /** applyUserUpdate: the row takes each field that was sent; the name must stay unique. */
    method ApplyUserUpdate(u: int, p: Patch) returns (ok: bool)
      requires u in users
      modifies this`users
      ensures ok == !NameTaken(old(State()), u, p)
      ensures ok ==> users == old(users)[u := Patched(old(users[u]), p)]
    {
      var row := users[u];
      if p.name.Some? {
        if exists w :: w in users && w != u && users[w].name == p.name.value {
          return false;
        }
        row := row.(name := p.name.value);
      }
      if p.enabled.Some? { row := row.(enabled := p.enabled.value); }
      if p.limit.Some? { row := row.(limit := p.limit.value); }
      if p.resetDay.Some? { row := row.(resetDay := p.resetDay.value); }
      if p.expireAt.Some? { row := row.(expireAt := p.expireAt.value); }
      if p.note.Some? { row := row.(note := p.note.value); }
      users := users[u := row];
      return true;
    }

    method UpdateUser(u: int, p: Patch) returns (ok: bool)
      modifies this
      ensures ok == Tables.UpdateUser(old(State()), u, p).Some?
      ensures State() == Or(Tables.UpdateUser(old(State()), u, p), old(State()))
    {
      if u !in users { return false; }
      var begin := users;
      ok := ApplyUserUpdate(u, p);
      if !ok { users := begin; }
    }

    /** Replaces `u`'s rows of user_access inside a transaction. */
    method ReplaceRows(u: int, ids: seq<int>)
      modifies this`access
      ensures State() == SetAccess(old(State()), u, SetOf(ids))
    {
      ghost var before := State();
      access := set p | p in access && p.0 != u;
      for k := 0 to |ids|
        invariant State() == SetAccess(before, u, SetOf(ids[..k]))
      {
        access := access + {(u, ids[k])};
        assert ids[..k + 1] == ids[..k] + [ids[k]];
        assert access == SetAccess(before, u, SetOf(ids[..k + 1])).access;
      }
      assert ids[..|ids|] == ids;
    }

    method AllNodesExist(ids: seq<int>) returns (ok: bool)
      ensures ok <==> forall i | i in ids :: i in nodes
    {
      for k := 0 to |ids|
        invariant forall i | i in ids[..k] :: i in nodes
      {
        if ids[k] !in nodes {
          var i := ids[k];
          assert i in ids && i !in nodes;
          return false;
        }
        assert ids[..k + 1] == ids[..k] + [ids[k]];
      }
      assert ids[..|ids|] == ids;
      return true;
    }

    method UpdateWithAccess(u: int, p: Patch, ids: seq<int>) returns (ok: bool)
      modifies this
      ensures ok == Tables.UpdateWithAccess(old(State()), u, p, ids).Some?
      ensures State() == Or(Tables.UpdateWithAccess(old(State()), u, p, ids), old(State()))
    {
      if u !in users { return false; }
      var nodeIds := UniqueSortedIds(ids);
      assert forall i :: i in nodeIds <==> i in CleanIds(ids);
      ok := AllNodesExist(nodeIds);
      if !ok { return; }
      var begin := users;
      ok := ApplyUserUpdate(u, p);
      if !ok {
        users := begin;
        return;
      }
      ReplaceRows(u, nodeIds);
      assert SetOf(nodeIds) == CleanIds(ids);
    }

    method DeleteWithRelatedData(u: int) returns (ok: bool)
      modifies this
      ensures ok == Tables.DeleteWithRelatedData(old(State()), u).Some?
      ensures State() == Or(Tables.DeleteWithRelatedData(old(State()), u), old(State()))
    {
      var begin := access;
      access := set p | p in access && p.0 != u;
      if u !in users {
        access := begin;
        return false;
      }
      users := users - {u};
      assert access == SetAccess(old(State()), u, {}).access;
      return true;
    }

    method ResetTraffic(u: int)
      modifies this`users
      ensures State() == Tables.ResetTraffic(old(State()), u)
    {
      if u in users { users := users[u := users[u].(used := 0, up := 0, down := 0)]; }
    }

    method RestoreTraffic(u: int, before: User)
      modifies this`users
      ensures State() == Tables.RestoreTraffic(old(State()), u, before)
    {
      if u in users {
        users := users[u := users[u].(used := before.used, up := before.up, down := before.down,
                                      lastReset := before.lastReset)];
      }
    }

    method ListNodeIds(u: int) returns (ids: seq<int>)
      ensures ids == AscendingIds(AccessOf(State(), u))
    {
      ids := AscendingIds(AccessOf(State(), u));
    }

    method Grant(u: int, n: int) returns (ok: bool)
      modifies this`access
      ensures ok == EditAccess(old(State()), u, Tables.Grant(n)).Some?
      ensures State() == Or(EditAccess(old(State()), u, Tables.Grant(n)), old(State()))
    {
      if u !in users || n !in nodes { return false; }
      access := access + {(u, n)};
      assert access == SetAccess(old(State()), u, AccessOf(old(State()), u) + {n}).access by {
        assert forall p: (int, int) | p.0 == u :: p == (u, p.1);
      }
      return true;
    }

    method GrantAll(u: int) returns (ok: bool)
      modifies this`access
      ensures ok == EditAccess(old(State()), u, Tables.GrantAll).Some?
      ensures State() == Or(EditAccess(old(State()), u, Tables.GrantAll), old(State()))
    {
      if u !in users { return false; }
      access := access + (set n | n in nodes :: (u, n));
      assert access == SetAccess(old(State()), u, AccessOf(old(State()), u) + nodes.Keys).access by {
        assert forall p: (int, int) | p.0 == u :: p == (u, p.1);
      }
      return true;
    }

    method Revoke(u: int, n: int)
      modifies this`access
      ensures Some(State()) == EditAccess(old(State()), u, Tables.Revoke(n))
    {
      access := access - {(u, n)};
      assert access == SetAccess(old(State()), u, AccessOf(old(State()), u) - {n}).access by {
        assert forall p: (int, int) | p.0 == u :: p == (u, p.1);
      }
    }

    method RevokeAll(u: int)
      modifies this`access
      ensures Some(State()) == EditAccess(old(State()), u, Tables.RevokeAll)
    {
      access := set p | p in access && p.0 != u;
      assert access == SetAccess(old(State()), u, {}).access;
    }

    method Replace(u: int, ids: seq<int>) returns (ok: bool)
      modifies this`access
      ensures ok == EditAccess(old(State()), u, Tables.Replace(ids)).Some?
      ensures State() == Or(EditAccess(old(State()), u, Tables.Replace(ids)), old(State()))
    {
      if u !in users { return false; }
      var nodeIds := UniqueSortedIds(ids);
      assert forall i :: i in nodeIds <==> i in CleanIds(ids);
      ok := AllNodesExist(nodeIds);
      if ok {
        ReplaceRows(u, nodeIds);
        assert SetOf(nodeIds) == CleanIds(ids);
      }
    }

    method CreateInbound(n: int, tag: string, protocol: string, port: int, settings: Settings) returns (id: int)
      modifies this
      ensures State() == Tables.CreateInbound(old(State()), n, tag, protocol, port, settings) && id == old(nextInbound)
    {
      id := nextInbound;
      inbounds := inbounds[id := Inbound(n, tag, protocol, port, settings, true, 0)];
      nextInbound := nextInbound + 1;
    }

    method UpdateInbound(i: int, tag: string, protocol: string, port: int, settings: Settings) returns (ok: bool)
      modifies this`inbounds
      ensures ok == Tables.UpdateInbound(old(State()), i, tag, protocol, port, settings).Some?
      ensures State() == Or(Tables.UpdateInbound(old(State()), i, tag, protocol, port, settings), old(State()))
    {
      if i !in inbounds { return false; }
      inbounds := inbounds[i := inbounds[i].(tag := tag, protocol := protocol, port := port, settings := settings)];
      return true;
    }

    method DeleteInbound(i: int) returns (ok: bool)
      modifies this`inbounds
      ensures ok == Tables.DeleteInbound(old(State()), i).Some?
      ensures State() == Or(Tables.DeleteInbound(old(State()), i), old(State()))
    {
      ok := i in inbounds;
      if ok { inbounds := inbounds - {i}; }
    }

    method RestoreInbound(i: int, row: Inbound) returns (ok: bool)
      modifies this`inbounds
      ensures ok == Tables.RestoreInbound(old(State()), i, row).Some?
      ensures State() == Or(Tables.RestoreInbound(old(State()), i, row), old(State()))
    {
      ok := i !in inbounds;
      if ok { inbounds := inbounds[i := row]; }
    }

    /** One UPDATE per item; a missing row rolls the transaction back. */
    method ReorderInbounds(n: int, items: seq<ReorderItem>) returns (ok: bool)
      modifies this`inbounds
      ensures ok == Tables.ReorderInbounds(old(State()), n, items).Some?
      ensures State() == Or(Tables.ReorderInbounds(old(State()), n, items), old(State()))
    {
      var begin := inbounds;
      for k := 0 to |items|
        invariant Tables.ReorderInbounds(State(), n, items[k..]) == Tables.ReorderInbounds(old(State()), n, items)
        invariant State() == old(State()).(inbounds := inbounds)
      {
        var it := items[k];
        assert items[k..][0] == it && items[k..][1..] == items[k + 1..];
        if it.id !in inbounds || inbounds[it.id].node != n {
          inbounds := begin;
          return false;
        }
        inbounds := inbounds[it.id := inbounds[it.id].(sortOrder := it.sortOrder)];
      }
      return true;
    }

    /** NodeStore.Update, sent only a domain. */
    method UpdateDomain(n: int, domain: string) returns (ok: bool)
      modifies this`nodes
      ensures ok == (n in old(nodes))
      ensures nodes == if ok then old(nodes)[n := old(nodes[n]).(domain := domain)] else old(nodes)
    {
      ok := n in nodes;
      if ok { nodes := nodes[n := nodes[n].(domain := domain)]; }
    }

    /** NodeStore.Delete: the node's inbounds, access rows and row. */
    method DeleteNode(n: int)
      modifies this
      ensures nodes == old(nodes) - {n}
      ensures users == old(users) && nextInbound == old(nextInbound)
      ensures forall p :: p in access <==> p in old(access) && p.1 != n
      ensures inbounds.Keys <= old(inbounds).Keys
      ensures forall i | i in old(inbounds) ::
                (i in inbounds <==> old(inbounds)[i].node != n) && (i in inbounds ==> inbounds[i] == old(inbounds)[i])
    {
      inbounds := map i | i in inbounds && inbounds[i].node != n :: inbounds[i];
      access := set p | p in access && p.1 != n;
      nodes := nodes - {n};
    }
  }
}
