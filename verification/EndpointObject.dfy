/** The endpoint as the object that owns the slab and the tables and updates them in place. */
module EndpointObjects {
  import opened Common
  import opened EndpointModel
  import opened EndpointCids
  import opened EndpointIncoming
  import opened EndpointResets
  import opened EndpointNumbers
  import opened EndpointOutcomes
  import opened EndpointRuns

  datatype IssuedCid = IssuedCid(path: PathId, sequence: nat, id: ConnectionId)

  // ---------------------------------------------------------------------------------------------
  // What the ID generator returns
  // ---------------------------------------------------------------------------------------------

  /** The generator's results for one new ID: some that are taken, then one that is not. */
  ghost predicate Draw(taken: set<ConnectionId>, draw: seq<ConnectionId>) {
    && draw != [] && draw[|draw| - 1] !in taken && draw[|draw| - 1] != []
    && forall k :: 0 <= k < |draw| - 1 ==> draw[k] in taken
  }

  function Last(draw: seq<ConnectionId>): ConnectionId {
    if draw == [] then [] else draw[|draw| - 1]
  }

  ghost predicate Draws(taken: set<ConnectionId>, draws: seq<seq<ConnectionId>>)
    decreases draws
  {
    draws != [] ==> Draw(taken, draws[0]) && Draws(taken + {Last(draws[0])}, draws[1..])
  }

  function Lasts(draws: seq<seq<ConnectionId>>): (ids: seq<ConnectionId>)
    ensures |ids| == |draws|
  {
    if draws == [] then [] else [Last(draws[0])] + Lasts(draws[1..])
  }

  lemma {:induction false} DrawsAreFresh(taken: set<ConnectionId>, draws: seq<seq<ConnectionId>>)
    requires Draws(taken, draws)
    ensures forall i :: 0 <= i < |draws| ==> Lasts(draws)[i] !in taken && Lasts(draws)[i] != []
    ensures forall i, j :: 0 <= i < j < |draws| ==> Lasts(draws)[i] != Lasts(draws)[j]
    decreases draws
  {
    if draws == [] {
    } else {
      DrawsAreFresh(taken + {Last(draws[0])}, draws[1..]);
    }
  }

  ghost function Members(ids: seq<ConnectionId>): set<ConnectionId> {
    set id | id in ids
  }

  lemma {:induction false} DrawsAt(taken: set<ConnectionId>, draws: seq<seq<ConnectionId>>, k: nat)
    requires Draws(taken, draws) && k <= |draws|
    ensures Draws(taken + Members(Lasts(draws)[..k]), draws[k..])
    ensures k < |draws| ==> Lasts(draws)[k] == Last(draws[k])
    decreases draws
  {
    if k == 0 {
      assert taken + Members([]) == taken;
    } else {
      DrawsAt(taken + {Last(draws[0])}, draws[1..], k - 1);
      assert draws[1..][k - 1..] == draws[k..];
      assert Lasts(draws)[..k] == [Last(draws[0])] + Lasts(draws[1..])[..k - 1];
      assert taken + {Last(draws[0])} + Members(Lasts(draws[1..])[..k - 1]) == taken + Members(Lasts(draws)[..k]);
    }
  }

  lemma {:induction false} IssueAllAppend(s: Endpoint, ch: Handle, path: PathId, ids: seq<ConnectionId>,
                                          id: ConnectionId)
    requires ch in s.connections && ch in IssueAll(s, ch, path, ids).connections
    ensures IssueAll(s, ch, path, ids + [id]) == IssueOne(IssueAll(s, ch, path, ids), ch, path, id)
    decreases ids
  {
    if ids == [] {
      assert (ids + [id])[1..] == [];
    } else {
      var s1 := IssueOne(s, ch, path, ids[0]);
      IssueAllFrame(s1, ch, path, ids[1..]);
      IssueAllAppend(s1, ch, path, ids[1..], id);
      assert (ids + [id])[1..] == ids[1..] + [id];
    }
  }

  lemma {:induction false} IssueAllCids(s: Endpoint, ch: Handle, path: PathId, ids: seq<ConnectionId>)
    requires ch in s.connections
    ensures IssueAll(s, ch, path, ids).cids.Keys == s.cids.Keys + Members(ids)
    decreases ids
  {
    if ids == [] {
    } else {
      IssueAllCids(IssueOne(s, ch, path, ids[0]), ch, path, ids[1..]);
      assert ids == [ids[0]] + ids[1..];
    }
  }

  /** After `k` IDs were issued, the next draw still ends in one that is free, and issuing it is the next step. */
  lemma NextDraw(s: Endpoint, ch: Handle, path: PathId, draws: seq<seq<ConnectionId>>, k: nat)
    requires ch in s.connections && Draws(s.cids.Keys, draws) && k < |draws|
    ensures var ids := Lasts(draws);
            var s1 := IssueAll(s, ch, path, ids[..k]);
            && ch in s1.connections && Draw(s1.cids.Keys, draws[k]) && ids[k] == Last(draws[k])
            && IssueAll(s, ch, path, ids[..k + 1]) == IssueOne(s1, ch, path, Last(draws[k]))
            && NextSequence(s1, ch, path) == NextSequence(s, ch, path) + k
  {
    hide Members, Lasts, IssueAll, IssueOne, NextSequence;
    var ids := Lasts(draws);
    DrawsAt(s.cids.Keys, draws, k);
    IssueAllCids(s, ch, path, ids[..k]);
    IssueAllFrame(s, ch, path, ids[..k]);
    IssueAllNumbers(s, ch, path, ids[..k], ch, path);
    assert ids[..k + 1] == ids[..k] + [ids[k]];
    IssueAllAppend(s, ch, path, ids[..k], ids[k]);
  }

  lemma DrawsKeepInv(s: Endpoint, c: Config, ch: Handle, path: PathId, draws: seq<seq<ConnectionId>>)
    requires Inv(s, c) && ch in s.connections && Draws(s.cids.Keys, draws)
    ensures Inv(IssueAll(s, ch, path, Lasts(draws)), c)
    ensures IssueAll(s, ch, path, Lasts(draws)[..0]) == s && Lasts(draws)[..|draws|] == Lasts(draws)
  {
    DrawsAreFresh(s.cids.Keys, draws);
    IssueAllKeepsInv(s, c, ch, path, Lasts(draws));
  }

  lemma DrawIsFresh(s: Endpoint, draw: seq<ConnectionId>)
    requires Draw(s.cids.Keys, draw)
    ensures FreshIds(s, [Last(draw)])
  {
  }

  lemma DrawsGiveFreshIds(s: Endpoint, draws: seq<seq<ConnectionId>>)
    requires Draws(s.cids.Keys, draws)
    ensures FreshIds(s, Lasts(draws))
  {
    DrawsAreFresh(s.cids.Keys, draws);
  }

  lemma NoAddressIsEmpty(s: Endpoint, c: Config)
    requires Inv(s, c)
    ensures NoneEmpty(s.resets)
  {
  }

  /** What a drain asserts and relies on. */
  lemma DrainIsReady(s: Endpoint, c: Config, ch: Handle)
    requires Inv(s, c)
    ensures NoneEmpty(s.resets)
    ensures ch in s.connections && s.connections[ch].side.Server? ==> s.connections[ch].initCid in s.initial
  {
  }

  /** The reset table has an entry for `key`. */
  ghost predicate Taken(s: Endpoint, key: ResetKey) {
    exists ch :: Points(s.resets, key, ch)
  }

  /** Once the path's previous token is removed, `key` is in the table iff it was, under another holder or path. */
  lemma ReplacedOrTaken(s: Endpoint, c: Config, ch: Handle, path: PathId, key: ResetKey)
    requires Inv(s, c) && ch in s.connections
    ensures var m := s.connections[ch];
            var t := if path in m.resets then RemoveToken(s.resets, m.resets[path]) else s.resets;
            key.remote in t && key.token in t[key.remote] <==> Taken(s, key) && !HoldsKey(s.connections, ch, path, key)
  {
    var m := s.connections[ch];
    NoAddressIsEmpty(s, c);
    hide Inv;
    var t := s.resets;
    if path in m.resets {
      RemovePoints(s.resets, m.resets[path]);
      t := RemoveToken(s.resets, m.resets[path]);
    }
    if key.remote in t && key.token in t[key.remote] {
      assert Points(t, key, t[key.remote][key.token]);
    }
  }

  lemma CountsAreSums(s: Endpoint, c: Config, idx: nat, len: nat)
    requires Inv(s, c) && idx in s.buffers
    ensures var kept := s.buffers[idx].datagrams + [len];
            && SumLens(kept) == s.buffers[idx].totalBytes + len
            && SumBytes(s.buffers[idx := Buffer(kept, SumLens(kept))]) == s.totalBytes + len
  {
    hide SumLens, SumBytes;
    var kept := s.buffers[idx].datagrams + [len];
    SumLensAppend(s.buffers[idx].datagrams, len);
    SumBytesUpdate(s.buffers, idx, Buffer(kept, SumLens(kept)));
  }

  lemma FirstPacketTells(s: Endpoint, c: Config, d: Datagram, v: Verdicts, idx: nat, now: nat)
    requires c.cidLen > 0 && d.kind.Initial? && Lookup(s, d).None? && idx !in s.buffers
    ensures var (s', r) := HandleDatagram(s, c, d, v, idx, now);
            if r.NewIncoming? then
              && c.server.Some? && |s'.buffers| == |s.buffers| + 1 <= c.server.value.maxIncoming
              && forall later: Datagram :: later.dstCid == d.dstCid && Early(later) ==>
                   Lookup(s', later) == Some(ToIncoming(idx))
            else s' == s.(lastReset := s'.lastReset)
  {
    hide CidsExhausted, SendsReset;
    assert s.buffers[idx := EMPTY_BUFFER].Keys == s.buffers.Keys + {idx};
  }

  lemma AlreadyReserved(cids: map<ConnectionId, Owner>, ch: Handle, ids: seq<ConnectionId>)
    requires forall id <- ids :: id in cids && cids[id] == Owner(ch, PATH_ZERO)
    ensures cids + (map c | c in ids :: Owner(ch, PATH_ZERO)) == cids
  {
  }

  lemma UnbufferedFrame(s: Endpoint, idx: nat)
    ensures Unbuffered(s, idx).initial == s.initial && Unbuffered(s, idx).cids == s.cids
  {
  }

  /** Entering IDs that are in the table already changes nothing. */
  lemma ReservedThenAdded(s: Endpoint, ch: Handle, initCid: ConnectionId, side: Side, ids: seq<ConnectionId>)
    requires 1 <= |ids| <= 2
    ensures var reserved := s.(cids := s.cids + map c | c in ids :: Owner(ch, PATH_ZERO));
            EndpointModel.AddConnection(reserved, ch, initCid, side, ids)
            == EndpointModel.AddConnection(s, ch, initCid, side, ids)
  {
  }

  // ---------------------------------------------------------------------------------------------
  // The object
  // ---------------------------------------------------------------------------------------------

  class EndpointObject {
    const config: Config
    var connections: map<Handle, Meta>
    var cids: map<ConnectionId, Owner>
    var initial: map<ConnectionId, RouteTo>
    var resets: ResetTable
    var buffers: map<nat, Buffer>
    var totalBytes: nat
    var lastReset: Option<nat>

    ghost var outstanding: map<nat, ConnectionId>
    ghost var orphans: set<ConnectionId>

    ghost function View(): Endpoint
      reads this
    {
      Endpoint(connections, cids, initial, resets, buffers, totalBytes, lastReset, outstanding, orphans)
    }

    ghost predicate Valid()
      reads this
    {
      config.cidLen > 0 && Inv(View(), config)
    }

    constructor (config: Config)
      requires config.cidLen > 0
      ensures this.config == config && Valid() && View() == NEW_ENDPOINT
    {
      this.config := config;
      connections, cids, initial, resets, buffers := map[], map[], map[], map[], map[];
      totalBytes, lastReset, outstanding, orphans := 0, None, map[], {};
    }

    /** `new_cid`: asks the generator until it returns an ID that is not in the table. */
    method NewCid(ch: Handle, path: PathId, draw: seq<ConnectionId>) returns (id: ConnectionId)
      requires Draw(cids.Keys, draw)
      modifies `cids
      ensures id == Last(draw) && cids == old(cids)[id := Owner(ch, path)]
    {
      var k := 0;
      while draw[k] in cids
        invariant k < |draw|
        decreases |draw| - k
      {
        k := k + 1;
      }
      id := draw[k];
      cids := cids[id := Owner(ch, path)];
    }

    /** The body of the loop that issues IDs. */
    method IssueNext(path: PathId, ch: Handle, draw: seq<ConnectionId>) returns (issued: IssuedCid)
      requires ch in connections && Draw(cids.Keys, draw)
      modifies `cids, `connections
      ensures View() == IssueOne(old(View()), ch, path, Last(draw))
      ensures issued == IssuedCid(path, NextSequence(old(View()), ch, path), Last(draw))
    {
      hide Draw;
      var id := NewCid(ch, path, draw);
      var meta := connections[ch];
      var pathCids := PathOf(meta, path);
      connections := connections[ch := meta.(paths := meta.paths[path :=
        PathCids(pathCids.issued + 1, pathCids.cids[pathCids.issued := id])])];
      issued := IssuedCid(path, pathCids.issued, id);
    }

    method SendNewIdentifiers(path: PathId, ch: Handle, draws: seq<seq<ConnectionId>>) returns (issued: seq<IssuedCid>)
      requires Valid() && ch in connections && Draws(cids.Keys, draws)
      modifies `cids, `connections
      ensures Valid() && View() == IssueAll(old(View()), ch, path, Lasts(draws))
      ensures |issued| == |draws|
      ensures forall k :: 0 <= k < |draws| ==>
                issued[k] == IssuedCid(path, NextSequence(old(View()), ch, path) + k, Lasts(draws)[k])
    {
      hide Inv, Draws, Lasts, IssueAll, IssueOne, Draw, NextSequence;
      ghost var s := View();
      ghost var ids := Lasts(draws);
      DrawsKeepInv(s, config, ch, path, draws);
      issued := [];
      var k := 0;
      while k < |draws|
        invariant k <= |draws| && |issued| == k
        invariant View() == IssueAll(s, ch, path, ids[..k])
        invariant forall i :: 0 <= i < k ==> issued[i] == IssuedCid(path, NextSequence(s, ch, path) + i, ids[i])
      {
        NextDraw(s, ch, path, draws, k);
        var next := IssueNext(path, ch, draws[k]);
        issued := issued + [next];
        k := k + 1;
      }
    }

    method NewResetToken(ch: Handle, path: PathId, key: ResetKey) returns (duplicate: bool)
      requires Valid() && ch in connections
      modifies this
      ensures Valid() && View() == SetResetToken(old(View()), ch, path, key)
      ensures duplicate <==> Taken(old(View()), key) && !HoldsKey(old(connections), ch, path, key)
    {
      SetTokenKeepsInv(View(), config, ch, path, key);
      ReplacedOrTaken(View(), config, ch, path, key);
      hide Inv;
      var meta := connections[ch];
      connections := connections[ch := meta.(resets := meta.resets[path := key])];
      if path in meta.resets {
        resets := RemoveToken(resets, meta.resets[path]);
      }
      duplicate := key.remote in resets && key.token in resets[key.remote];
      resets := InsertToken(resets, key, ch);
    }

    method DropResetToken(ch: Handle, path: PathId)
      requires Valid() && ch in connections
      modifies this
      ensures Valid() && View() == RetireResetToken(old(View()), ch, path)
    {
      RetireTokenKeepsInv(View(), config, ch, path);
      hide Inv, RemoveToken;
      var meta := connections[ch];
      if path in meta.resets {
        connections := connections[ch := meta.(resets := meta.resets - {path})];
        resets := RemoveToken(resets, meta.resets[path]);
      }
    }

    /** `draws` holds one draw if the connection may have more IDs, and none otherwise. */
    method RetireConnectionId(path: PathId, sequence: nat, ch: Handle, draws: seq<seq<ConnectionId>>)
      returns (issued: seq<IssuedCid>)
      requires Valid() && ch in connections
      requires HoldsSequence(View(), ch, path, sequence) ==>
                 Draws(cids.Keys - {connections[ch].paths[path].cids[sequence]}, draws)
      modifies this
      ensures Valid()
      ensures View() == if HoldsSequence(old(View()), ch, path, sequence)
                        then IssueAll(RetireOne(old(View()), ch, path, sequence), ch, path, Lasts(draws))
                        else old(View())
      ensures if HoldsSequence(old(View()), ch, path, sequence)
              then |issued| == |draws| && forall k :: 0 <= k < |draws| ==>
                     issued[k] == IssuedCid(path, NextSequence(old(View()), ch, path) + k, Lasts(draws)[k])
              else issued == []
    {
      hide Inv, Draws, Lasts, IssueAll;
      var meta := connections[ch];
      if path !in meta.paths || sequence !in meta.paths[path].cids {
        return [];
      }
      RetireKeepsInv(View(), config, ch, path, sequence);
      var pathCids := meta.paths[path];
      var id := pathCids.cids[sequence];
      var left := pathCids.(cids := pathCids.cids - {sequence});
      connections := connections[ch := meta.(paths := meta.paths[path := left])];
      cids := cids - {id};
      issued := SendNewIdentifiers(path, ch, draws);
    }

    /** The inner loop of `ConnectionIndex::remove` over the IDs of a connection, for one path. */
    method ForgetPath(ids: map<nat, ConnectionId>)
      modifies `cids
      ensures cids == old(cids) - (set q | q in ids :: ids[q])
    {
      ghost var before := cids;
      var rest := ids.Keys;
      ghost var gone: set<ConnectionId> := {};
      while rest != {}
        invariant rest <= ids.Keys && cids == before - gone
        invariant gone == (set q | q in ids && q !in rest :: ids[q])
        decreases |rest|
      {
        var q :| q in rest;
        cids := cids - {ids[q]};
        gone := gone + {ids[q]};
        rest := rest - {q};
      }
    }

    /** Its outer loop over the paths. */
    method ForgetCids(meta: Meta)
      modifies `cids
      ensures cids == old(cids) - CidsOf(meta)
    {
      ghost var before := cids;
      var paths := meta.paths.Keys;
      ghost var gone: set<ConnectionId> := {};
      while paths != {}
        invariant paths <= meta.paths.Keys && cids == before - gone
        invariant gone ==
            (set p, q | p in meta.paths && p !in paths && q in meta.paths[p].cids :: meta.paths[p].cids[q])
        decreases |paths|
      {
        var path :| path in paths;
        ghost var held := set q | q in meta.paths[path].cids :: meta.paths[path].cids[q];
        ForgetPath(meta.paths[path].cids);
        assert before - gone - held == before - (gone + held);
        gone := gone + held;
        paths := paths - {path};
      }
      assert gone == CidsOf(meta);
    }

    /** Its loop over the reset tokens of a connection. */
    method ForgetTokens(meta: Meta)
      requires NoneEmpty(resets)
      modifies `resets
      ensures resets == Purged(old(resets), KeysOf(meta))
    {
      hide Purged, RemoveToken;
      ghost var before := resets;
      PurgePoints(before, {});
      SamePointsSameTable(before, Purged(before, {}));
      var paths := meta.resets.Keys;
      ghost var gone: set<ResetKey> := {};
      while paths != {}
        invariant paths <= meta.resets.Keys && NoneEmpty(resets)
        invariant gone == (set p | p in meta.resets && p !in paths :: meta.resets[p])
        invariant resets == Purged(before, gone)
        decreases |paths|
      {
        var path :| path in paths;
        var key := meta.resets[path];
        RemovePoints(resets, key);
        PurgePoints(before, gone);
        PurgePoints(before, gone + {key});
        SamePointsSameTable(RemoveToken(resets, key), Purged(before, gone + {key}));
        resets := RemoveToken(resets, key);
        gone := gone + {key};
        paths := paths - {path};
      }
      assert gone == KeysOf(meta);
    }

    method Drained(ch: Handle) returns (known: bool)
      requires Valid()
      modifies this
      ensures Valid() && View() == Drain(old(View()), ch)
      ensures known <==> ch in old(connections)
    {
      hide Inv, CidsOf, KeysOf, Purged, NoneEmpty;
      DrainKeepsInv(View(), config, ch);
      DrainIsReady(View(), config, ch);
      known := ch in connections;
      if known {
        var meta := connections[ch];
        connections := connections - {ch};
        if meta.side.Server? {
          RemoveInitial(meta.initCid);
        }
        ForgetCids(meta);
        ForgetTokens(meta);
      }
    }

    /** `add_connection`, for IDs that `NewCid` has just reserved for `ch`. */
    method AddConnection(ch: Handle, initCid: ConnectionId, side: Side, ids: seq<ConnectionId>)
      requires 1 <= |ids| <= 2 && forall id <- ids :: id in cids && cids[id] == Owner(ch, PATH_ZERO)
      modifies `connections, `cids
      ensures View() == EndpointModel.AddConnection(old(View()), ch, initCid, side, ids)
    {
      AlreadyReserved(cids, ch, ids);
      var pathCids := NO_CIDS;
      pathCids := PathCids(pathCids.issued + 1, pathCids.cids[pathCids.issued := ids[0]]);
      if |ids| == 2 {
        pathCids := PathCids(pathCids.issued + 1, pathCids.cids[pathCids.issued := ids[1]]);
      }
      connections := connections[ch := Meta(initCid, map[PATH_ZERO := pathCids], side, map[])];
      assert cids[ids[0] := Owner(ch, PATH_ZERO)] == cids;
      cids := cids[ids[0] := Owner(ch, PATH_ZERO)];
    }

    method Connect(valid: bool, ch: Handle, initCid: ConnectionId, draw: seq<ConnectionId>, sessionOk: bool)
      returns (r: ConnectOutcome)
      requires Valid() && ch !in connections && Draw(cids.Keys, draw)
      modifies this
      ensures Valid()
      ensures (View(), r) == EndpointModel.Connect(old(View()), config, valid, ch, initCid, Last(draw), sessionOk)
      ensures r == Connected <==> !CidsExhausted(config, |old(cids)|) && valid && sessionOk
      ensures r == Connected ==> Reached(View(), ch, [Last(draw)])
    {
      hide Inv, CidsExhausted, Draw, FreshIds, EndpointModel.Connect, Reached;
      DrawIsFresh(View(), draw);
      ConnectTells(View(), config, valid, ch, initCid, Last(draw), sessionOk);
      r := TryConnect(valid, ch, initCid, draw, sessionOk);
    }

    /** Its statements. */
    method TryConnect(valid: bool, ch: Handle, initCid: ConnectionId, draw: seq<ConnectionId>, sessionOk: bool)
      returns (r: ConnectOutcome)
      requires Valid() && ch !in connections && Draw(cids.Keys, draw)
      modifies this
      ensures Valid()
      ensures (View(), r) == EndpointModel.Connect(old(View()), config, valid, ch, initCid, Last(draw), sessionOk)
    {
      hide Inv, CidsExhausted, Draw, FreshIds, EndpointModel.AddConnection;
      ghost var s := View();
      DrawIsFresh(s, draw);
      OrphanKeepsInv(s, config, ch, Last(draw));
      AddClientKeepsInv(s, config, ch, initCid, Last(draw));
      if CidsExhausted(config, |cids|) || !valid {
        return ConnectRefused;
      }
      var id := NewCid(ch, PATH_ZERO, draw);
      if !sessionOk {
        orphans := orphans + {id};
        return SessionFailed;
      }
      assert cids == s.cids + map c | c in [id] :: Owner(ch, PATH_ZERO);
      ReservedThenAdded(s, ch, initCid, Client, [id]);
      AddConnection(ch, initCid, Client, [id]);
      r := Connected;
    }

    /** `remove_initial`; its assertion is the precondition. */
    method RemoveInitial(dst: ConnectionId)
      requires dst in initial
      modifies `initial
      ensures initial == old(initial) - {dst}
    {
      initial := initial - {dst};
    }

    /** Takes the buffer of an undecided connection out of the slab and its bytes off the total. */
    method TakeBuffer(idx: nat) returns (buffer: Buffer)
      requires Valid() && idx in outstanding
      modifies `buffers, `totalBytes, `outstanding
      ensures View() == Unbuffered(old(View()), idx)
      ensures idx in old(buffers) && buffer == old(buffers)[idx]
      ensures outstanding.Keys == old(outstanding).Keys - {idx} && old(outstanding)[idx] in initial
    {
      InvNeverFails(View(), config, Forgetting(idx));
      hide Inv;
      buffer := buffers[idx];
      buffers := buffers - {idx};
      totalBytes := totalBytes - buffer.totalBytes;
      outstanding := outstanding - {idx};
    }

    /** `clean_up_incoming`: for `refuse`, `ignore` and `retry`; `dst` is the initial ID of the `Incoming`. */
    method CleanUpIncoming(idx: nat, dst: ConnectionId)
      requires Valid() && idx in outstanding && outstanding[idx] == dst
      modifies this
      ensures Valid() && View() == EndpointModel.CleanUpIncoming(old(View()), idx)
    {
      ForgetKeepsInv(View(), config, idx);
      hide Inv;
      var buffer := TakeBuffer(idx);
      RemoveInitial(dst);
    }

    /** `retry`: not permitted for an `Incoming` that already answers one. */
    method Retry(idx: nat, dst: ConnectionId, mayRetry: bool) returns (ok: bool)
      requires Valid() && idx in outstanding && outstanding[idx] == dst
      modifies this
      ensures ok == mayRetry && Valid()
      ensures View() == if ok then EndpointModel.CleanUpIncoming(old(View()), idx) else old(View())
    {
      if mayRetry {
        CleanUpIncoming(idx, dst);
      }
      ok := mayRetry;
    }

    /** The connection's own ID and, if there is a second draw, that of the preferred address. */
    method NewCids(ch: Handle, draws: seq<seq<ConnectionId>>) returns (ids: seq<ConnectionId>)
      requires 1 <= |draws| <= 2 && Draws(cids.Keys, draws)
      modifies `cids
      ensures ids == Lasts(draws)
      ensures cids == old(cids) + map c | c in ids :: Owner(ch, PATH_ZERO)
    {
      ghost var before := cids;
      var id := NewCid(ch, PATH_ZERO, draws[0]);
      ids := [id];
      if |draws| == 2 {
        assert cids.Keys == before.Keys + {Last(draws[0])};
        assert Draws(cids.Keys, draws[1..]) && draws[1..][0] == draws[1];
        var preferred := NewCid(ch, PATH_ZERO, draws[1]);
        ids := [id, preferred];
        assert draws[1..][1..] == [] && Lasts(draws[1..]) == [preferred];
      }
      assert draws[1..] == [] || |draws| == 2;
    }

    method Accept(idx: nat, dst: ConnectionId, a: Answers, ch: Handle, draws: seq<seq<ConnectionId>>)
      returns (r: AcceptOutcome, replayed: seq<nat>)
      requires Valid() && idx in outstanding && outstanding[idx] == dst && ch !in connections
      requires 1 <= |draws| <= 2 && Draws(cids.Keys, draws)
      modifies this
      ensures Valid()
      ensures (View(), r) == EndpointModel.Accept(old(View()), config, idx, a, ch, Lasts(draws))
      ensures r == Accepted <==>
                !a.stale && !CidsExhausted(config, |old(cids)|) && a.decrypts && a.handshakeOk
      ensures r == Accepted ==> Reached(View(), ch, Lasts(draws))
      ensures idx in old(buffers) && replayed == if r == Accepted then old(buffers)[idx].datagrams else []
    {
      hide Inv, CidsExhausted, FreshIds, Draws, Lasts, EndpointModel.Accept, Reached;
      ghost var s := View();
      DrawsGiveFreshIds(s, draws);
      AcceptOutcomeIff(s, config, idx, a, ch, Lasts(draws));
      if EndpointModel.Accept(s, config, idx, a, ch, Lasts(draws)).1 == Accepted {
        AcceptedIsReached(s, config, idx, a, ch, Lasts(draws));
      }
      r, replayed := TryAccept(idx, dst, a, ch, draws);
    }

    /** Its statements. */
    method TryAccept(idx: nat, dst: ConnectionId, a: Answers, ch: Handle, draws: seq<seq<ConnectionId>>)
      returns (r: AcceptOutcome, replayed: seq<nat>)
      requires Valid() && idx in outstanding && outstanding[idx] == dst && ch !in connections
      requires 1 <= |draws| <= 2 && Draws(cids.Keys, draws)
      modifies this
      ensures Valid()
      ensures (View(), r) == EndpointModel.Accept(old(View()), config, idx, a, ch, Lasts(draws))
      ensures idx in old(buffers) && replayed == if r == Accepted then old(buffers)[idx].datagrams else []
    {
      hide Inv, CidsExhausted, FreshIds, Draws, Lasts, Drain, Unbuffered, EndpointModel.AddConnection;
      ghost var s := View();
      DrawsGiveFreshIds(s, draws);
      UnbufferedFrame(s, idx);
      ForgetKeepsInv(s, config, idx);
      PromoteKeepsInv(s, config, idx, ch, Lasts(draws));
      replayed := [];
      var buffer := TakeBuffer(idx);
      if a.stale {
        RemoveInitial(dst);
        r := TimedOut;
        return;
      }
      if CidsExhausted(config, |cids|) {
        RemoveInitial(dst);
        r := Exhausted;
        return;
      }
      if !a.decrypts {
        RemoveInitial(dst);
        r := Unauthenticated;
        return;
      }
      Promote(idx, dst, ch, draws, s);
      if a.handshakeOk {
        return Accepted, buffer.datagrams;
      }
      var known := Drained(ch);
      r := HandshakeFailed;
    }

    /** Allocates the IDs, adds the connection and enters it under its initial ID. */
    method Promote(idx: nat, dst: ConnectionId, ch: Handle, draws: seq<seq<ConnectionId>>, ghost s: Endpoint)
      requires idx in s.outstanding && s.outstanding[idx] == dst && View() == Unbuffered(s, idx)
      requires 1 <= |draws| <= 2 && Draws(cids.Keys, draws)
      modifies this
      ensures View() == Joined(s, idx, ch, Lasts(draws))
    {
      hide Draws, Lasts, EndpointModel.AddConnection, Unbuffered;
      ghost var s1 := View();
      var ids := NewCids(ch, draws);
      ReservedThenAdded(s1, ch, dst, Server, ids);
      AddConnection(ch, dst, Server, ids);
      initial := initial[dst := ToConnection(Owner(ch, PATH_ZERO))];
    }

    /** `random` stands for the random padding length. */
    method StatelessReset(now: nat, len: nat, random: nat) returns (size: Option<nat>)
      modifies `lastReset
      ensures View() == TryReset(old(View()), config, now, len)
      ensures size.Some? <==> SendsReset(old(View()), config, now, len)
      ensures size.Some? ==> ResetSize(len, size.value)
    {
      if lastReset.Some? && lastReset.value + config.minResetInterval > now {
        return None;
      }
      if len < RESET_TOKEN_SIZE || len - RESET_TOKEN_SIZE <= MIN_PADDING {
        return None;
      }
      var most := len - RESET_TOKEN_SIZE - 1;
      lastReset := Some(now);
      var padding := if most <= IDEAL_PADDING then most else IDEAL_PADDING + random % (most - IDEAL_PADDING);
      size := Some(padding + RESET_TOKEN_SIZE);
    }

    /** Keeps the datagram iff, counted over the datagrams themselves, both limits still hold with it. */
    method BufferIncoming(idx: nat, len: nat)
      requires Valid() && idx in buffers && config.server.Some?
      modifies `buffers, `totalBytes
      ensures Valid() && View() == BufferDatagram(old(View()), config.server.value, idx, len)
      ensures var kept := old(buffers)[idx].datagrams + [len];
              var fits := && SumLens(kept) <= config.server.value.bufferSize
                          && SumBytes(old(buffers)[idx := Buffer(kept, SumLens(kept))])
                               <= config.server.value.bufferSizeTotal;
              buffers == if fits then old(buffers)[idx := Buffer(kept, SumLens(kept))] else old(buffers)
    {
      hide Inv, SumLens, SumBytes;
      BufferKeepsInv(View(), config, idx, len);
      CountsAreSums(View(), config, idx, len);
      var buffer := buffers[idx];
      var limits := config.server.value;
      if buffer.totalBytes + len <= limits.bufferSize && totalBytes + len <= limits.bufferSizeTotal {
        buffers := buffers[idx := Buffer(buffer.datagrams + [len], buffer.totalBytes + len)];
        totalBytes := totalBytes + len;
      }
    }

    /** `ConnectionIndex::get`: what the tables answer is what the connections hold. */
    method Get(d: Datagram) returns (r: Option<RouteTo>)
      requires Valid()
      ensures r == Lookup(View(), d) && RoutesRight(View(), d, r)
    {
      InvRoutesRight(View(), config, d);
      hide Inv, RoutesRight;
      if d.dstCid != [] && d.dstCid in cids {
        return Some(ToConnection(cids[d.dstCid]));
      }
      if (d.kind.Initial? || d.kind.ZeroRtt?) && d.dstCid in initial {
        return Some(initial[d.dstCid]);
      }
      if d.tail.None? {
        return None;
      }
      if d.remote in resets && d.tail.value in resets[d.remote] {
        return Some(ToConnection(Owner(resets[d.remote][d.tail.value], PATH_ZERO)));
      }
      r := None;
    }

    /** `idx`: the next free key of the buffer slab. */
    method Handle(d: Datagram, v: Verdicts, idx: nat, now: nat, random: nat) returns (r: DatagramOutcome)
      requires Valid() && idx !in buffers
      modifies this
      ensures Valid() && !r.Dangling?
      ensures (View(), r) == HandleDatagram(old(View()), config, d, v, idx, now)
    {
      DatagramKeepsInv(View(), config, d, v, idx, now);
      InvNeverFails(View(), config, Arriving(d, v, idx, now));
      hide Inv, Lookup, CidsExhausted, SendsReset;
      var route := Get(d);
      if route.Some? {
        match route.value
        case ToIncoming(i) =>
          BufferIncoming(i, d.len);
          return Buffered(i);
        case ToConnection(owner) =>
          return Routed(owner);
      }
      if d.kind.Initial? {
        r := HandleFirstPacket(d, v, idx, now, random);
        return;
      }
      if !d.kind.Short? || !v.cidValid || d.dstCid == [] {
        return Ignored;
      }
      var size := StatelessReset(now, d.len, random);
      r := Reset(size.Some?);
    }

    /** A new connection is one more undecided one, within the limit, and later early packets find its buffer. */
    method HandleFirstPacket(d: Datagram, v: Verdicts, idx: nat, now: nat, random: nat) returns (r: DatagramOutcome)
      requires Valid() && d.kind.Initial? && Lookup(View(), d).None? && idx !in buffers
      modifies this
      ensures Valid() && (View(), r) == HandleDatagram(old(View()), config, d, v, idx, now)
      ensures r.NewIncoming? ==>
                && config.server.Some? && |buffers| == |old(buffers)| + 1 <= config.server.value.maxIncoming
                && forall later: Datagram :: later.dstCid == d.dstCid && Early(later) ==>
                     Lookup(View(), later) == Some(ToIncoming(idx))
      ensures !r.NewIncoming? ==> View() == old(View()).(lastReset := lastReset)
    {
      hide Inv, CidsExhausted, SendsReset, Lookup, TryReset, Early;
      DatagramKeepsInv(View(), config, d, v, idx, now);
      FirstPacketTells(View(), config, d, v, idx, now);
      if config.server.None? {
        var size := StatelessReset(now, d.len, random);
        return Reset(size.Some?);
      }
      if d.len < MIN_INITIAL_SIZE || !v.keysOk {
        return Ignored;
      }
      if CidsExhausted(config, |cids|) || |buffers| >= config.server.value.maxIncoming {
        return Closed;
      }
      if |d.dstCid| < 8 && (!d.hasToken || |d.dstCid| != config.cidLen) {
        return Closed;
      }
      if !v.decodes {
        return Ignored;
      }
      if !v.tokenOk {
        return Closed;
      }
      buffers := buffers[idx := EMPTY_BUFFER];
      initial := initial[d.dstCid := ToIncoming(idx)];
      outstanding := outstanding[idx := d.dstCid];
      r := NewIncoming(idx);
    }
  }
}
