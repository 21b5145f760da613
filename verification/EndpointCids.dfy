/** The table of local connection IDs is the inverse of what the live connections hold. */
module EndpointCids {
  import opened Common
  import opened EndpointModel

  type Connections = map<Handle, Meta>
  type CidTable = map<ConnectionId, Owner>

  /** Connection `ch` holds `id` on `path` under `sequence`. */
  ghost predicate Holds(conns: Connections, ch: Handle, path: PathId, sequence: nat, id: ConnectionId) {
    && ch in conns && path in conns[ch].paths
    && sequence in conns[ch].paths[path].cids && conns[ch].paths[path].cids[sequence] == id
  }

  /** Whatever is held is in the table under its holder, was issued, and is held once. */
  ghost predicate Listed(conns: Connections, cids: CidTable, orphans: set<ConnectionId>) {
    && (forall ch, path, q: nat, id :: Holds(conns, ch, path, q, id) ==>
          id in cids && cids[id] == Owner(ch, path) && id !in orphans && q < conns[ch].paths[path].issued)
    && (forall ch, path, q, q', id :: Holds(conns, ch, path, q, id) && Holds(conns, ch, path, q', id) ==> q == q')
  }

  /** Whatever is in the table is held by its owner, or orphaned. */
  ghost predicate Owned(conns: Connections, cids: CidTable, orphans: set<ConnectionId>) {
    && (forall id <- cids :: id in orphans || exists q :: Holds(conns, cids[id].ch, cids[id].path, q, id))
    && orphans <= cids.Keys
    && [] !in cids
  }

  ghost predicate CidInv(s: Endpoint) {
    Listed(s.connections, s.cids, s.orphans) && Owned(s.connections, s.cids, s.orphans)
  }

  // ---------------------------------------------------------------------------------------------
  // Each operation keeps it
  // ---------------------------------------------------------------------------------------------

  lemma IssueKeepsCidInv(s: Endpoint, ch: Handle, path: PathId, id: ConnectionId)
    requires CidInv(s) && ch in s.connections && id !in s.cids && id != []
    ensures CidInv(IssueOne(s, ch, path, id))
  {
    var s' := IssueOne(s, ch, path, id);
    var n := PathOf(s.connections[ch], path).issued;
    forall c, p, q: nat, i
      ensures Holds(s'.connections, c, p, q, i) <==>
              Holds(s.connections, c, p, q, i) || (c == ch && p == path && q == n && i == id)
    {
    }
    hide Holds;
    forall i <- s'.cids
      ensures i in s'.orphans || exists q :: Holds(s'.connections, s'.cids[i].ch, s'.cids[i].path, q, i)
    {
      if i == id {
        assert Holds(s'.connections, ch, path, n, id);
      } else if i !in s.orphans {
        var q :| Holds(s.connections, s.cids[i].ch, s.cids[i].path, q, i);
        assert Holds(s'.connections, s.cids[i].ch, s.cids[i].path, q, i);
      }
    }
  }

  lemma RetireKeepsCidInv(s: Endpoint, ch: Handle, path: PathId, sequence: nat)
    requires CidInv(s) && HoldsSequence(s, ch, path, sequence)
    ensures CidInv(RetireOne(s, ch, path, sequence))
  {
    var s' := RetireOne(s, ch, path, sequence);
    var id := s.connections[ch].paths[path].cids[sequence];
    assert Holds(s.connections, ch, path, sequence, id);
    forall c, p, q: nat, i
      ensures Holds(s'.connections, c, p, q, i) <==>
              Holds(s.connections, c, p, q, i) && !(c == ch && p == path && q == sequence)
    {
    }
    assert forall c, p, q :: Holds(s.connections, c, p, q, id) ==> Owner(c, p) == Owner(ch, path) && q == sequence;
    assert s'.connections[ch].paths[path].issued == s.connections[ch].paths[path].issued;
    hide Holds;
    forall i <- s'.cids
      ensures i in s'.orphans || exists q :: Holds(s'.connections, s'.cids[i].ch, s'.cids[i].path, q, i)
    {
      if i !in s.orphans {
        var q :| Holds(s.connections, s.cids[i].ch, s.cids[i].path, q, i);
        assert Holds(s'.connections, s.cids[i].ch, s.cids[i].path, q, i);
      }
    }
  }

  lemma AddedHolds(s: Endpoint, ch: Handle, initCid: ConnectionId, side: Side, ids: seq<ConnectionId>)
    requires ch !in s.connections && 1 <= |ids| <= 2
    ensures var s' := AddConnection(s, ch, initCid, side, ids);
            && (forall c, p, q: nat, i ::
                  Holds(s'.connections, c, p, q, i) <==>
                  Holds(s.connections, c, p, q, i) || (c == ch && p == PATH_ZERO && q < |ids| && i == ids[q]))
            && (forall c, p, q: nat, i :: Holds(s.connections, c, p, q, i) ==> c != ch)
            && s'.connections[ch].paths[PATH_ZERO].issued == |ids|
  {
  }

  lemma AddKeepsCidInv(s: Endpoint, ch: Handle, initCid: ConnectionId, side: Side, ids: seq<ConnectionId>)
    requires CidInv(s) && ch !in s.connections && 1 <= |ids| <= 2 && FreshIds(s, ids)
    ensures CidInv(AddConnection(s, ch, initCid, side, ids))
  {
    hide Holds, FirstCids;
    var s' := AddConnection(s, ch, initCid, side, ids);
    AddedHolds(s, ch, initCid, side, ids);
    forall i <- s'.cids
      ensures i in s'.orphans || exists q :: Holds(s'.connections, s'.cids[i].ch, s'.cids[i].path, q, i)
    {
      if i in ids {
        var q :| 0 <= q < |ids| && ids[q] == i;
        assert Holds(s'.connections, ch, PATH_ZERO, q, i);
      } else if i !in s.orphans {
        var q :| Holds(s.connections, s.cids[i].ch, s.cids[i].path, q, i);
        assert Holds(s'.connections, s.cids[i].ch, s.cids[i].path, q, i);
      }
    }
  }

  lemma DrainKeepsCidInv(s: Endpoint, ch: Handle)
    requires CidInv(s)
    ensures CidInv(Drain(s, ch))
  {
    if ch in s.connections {
      var s' := Drain(s, ch);
      forall c, p, q: nat, i
        ensures Holds(s'.connections, c, p, q, i) <==> Holds(s.connections, c, p, q, i) && c != ch
      {
      }
      forall i
        ensures i in CidsOf(s.connections[ch]) <==> exists p, q :: Holds(s.connections, ch, p, q, i)
      {
        if i in CidsOf(s.connections[ch]) {
          var p, q :| p in s.connections[ch].paths && q in s.connections[ch].paths[p].cids
                      && s.connections[ch].paths[p].cids[q] == i;
          assert Holds(s.connections, ch, p, q, i);
        }
      }
      hide Holds, CidsOf;
      forall i <- s'.cids
        ensures i in s'.orphans || exists q :: Holds(s'.connections, s'.cids[i].ch, s'.cids[i].path, q, i)
      {
        if i !in s.orphans {
          var q :| Holds(s.connections, s.cids[i].ch, s.cids[i].path, q, i);
          assert Holds(s'.connections, s.cids[i].ch, s.cids[i].path, q, i);
        }
      }
    }
  }

  lemma OrphanKeepsCidInv(s: Endpoint, ch: Handle, id: ConnectionId)
    requires CidInv(s) && id !in s.cids && id != []
    ensures CidInv(s.(cids := s.cids[id := Owner(ch, PATH_ZERO)], orphans := s.orphans + {id}))
  {
    hide Holds;
  }

  /** Operations that leave the paths, the table and the orphans alone. */
  lemma SamePathsKeepCidInv(s: Endpoint, s': Endpoint)
    requires CidInv(s) && s'.cids == s.cids && s'.orphans == s.orphans
    requires s'.connections.Keys == s.connections.Keys
    requires forall ch <- s.connections :: s'.connections[ch].paths == s.connections[ch].paths
    ensures CidInv(s')
  {
    forall c, p, q: nat, i
      ensures Holds(s'.connections, c, p, q, i) <==> Holds(s.connections, c, p, q, i)
    {
    }
    hide Holds;
  }
}
