/** The table of initial destination IDs, the undecided connections that it names, and their buffers. */
module EndpointIncoming {
  import opened Common
  import opened EndpointModel

  // ---------------------------------------------------------------------------------------------
  // The table of initial destination IDs is a bijection
  // ---------------------------------------------------------------------------------------------

  /** Every undecided connection and every live server-side connection is under its initial ID. */
  ghost predicate Entered(s: Endpoint) {
    && s.outstanding.Keys == s.buffers.Keys
    && (forall idx <- s.outstanding ::
          s.outstanding[idx] in s.initial && s.initial[s.outstanding[idx]] == ToIncoming(idx))
    && (forall ch <- s.connections :: s.connections[ch].side.Server? ==>
          s.connections[ch].initCid in s.initial
          && s.initial[s.connections[ch].initCid] == ToConnection(Owner(ch, PATH_ZERO)))
  }

  /** The entry under `id` names exactly that undecided or live connection. */
  ghost predicate Names(s: Endpoint, id: ConnectionId, r: RouteTo) {
    match r
    case ToIncoming(idx) => idx in s.outstanding && s.outstanding[idx] == id
    case ToConnection(o) =>
      && o.path == PATH_ZERO && o.ch in s.connections
      && s.connections[o.ch].side.Server? && s.connections[o.ch].initCid == id
  }

  ghost predicate InitialInv(s: Endpoint) {
    && Entered(s)
    && (forall id <- s.initial :: Names(s, id, s.initial[id]))
    && [] !in s.initial
  }

  /** In particular the entry that a drain removes is there: the assertion in `remove_initial` holds. */
  lemma DrainKeepsInitialInv(s: Endpoint, ch: Handle)
    requires InitialInv(s)
    ensures InitialInv(Drain(s, ch))
    ensures ch in s.connections && s.connections[ch].side.Server? ==> s.connections[ch].initCid in s.initial
  {
    hide CidsOf, KeysOf, Purged;
  }

  /** A new client-side connection, or any change that leaves the sides and initial IDs alone. */
  lemma ClientsKeepInitialInv(s: Endpoint, s': Endpoint)
    requires InitialInv(s)
    requires s'.initial == s.initial && s'.outstanding == s.outstanding && s'.buffers.Keys == s.buffers.Keys
    requires s.connections.Keys <= s'.connections.Keys
    requires forall ch <- s'.connections ::
        if ch in s.connections
        then && s'.connections[ch].side == s.connections[ch].side
             && s'.connections[ch].initCid == s.connections[ch].initCid
        else s'.connections[ch].side.Client?
    ensures InitialInv(s')
  {
  }

  lemma NewIncomingKeepsInitialInv(s: Endpoint, idx: nat, id: ConnectionId, s': Endpoint)
    requires InitialInv(s) && idx !in s.buffers && id !in s.initial && id != []
    requires s'.buffers.Keys == s.buffers.Keys + {idx} && s'.initial == s.initial[id := ToIncoming(idx)]
    requires s'.outstanding == s.outstanding[idx := id] && s'.connections == s.connections
    ensures InitialInv(s')
  {
    forall i <- s'.initial ensures Names(s', i, s'.initial[i]) {
      if i != id { assert Names(s, i, s.initial[i]); }
    }
    hide Names;
  }

  lemma ForgetKeepsInitialInv(s: Endpoint, idx: nat)
    requires InitialInv(s) && idx in s.outstanding
    ensures InitialInv(CleanUpIncoming(s, idx))
  {
  }

  lemma PromoteKeepsInitialInv(s: Endpoint, idx: nat, ch: Handle, s': Endpoint)
    requires InitialInv(s) && idx in s.outstanding && ch !in s.connections
    requires s'.buffers.Keys == s.buffers.Keys - {idx} && s'.outstanding == s.outstanding - {idx}
    requires s'.initial == s.initial[s.outstanding[idx] := ToConnection(Owner(ch, PATH_ZERO))]
    requires s'.connections.Keys == s.connections.Keys + {ch}
    requires forall k <- s.connections :: s'.connections[k] == s.connections[k]
    requires s'.connections[ch].side.Server? && s'.connections[ch].initCid == s.outstanding[idx]
    ensures InitialInv(s')
  {
    var dst := s.outstanding[idx];
    forall i <- s'.initial ensures Names(s', i, s'.initial[i]) {
      if i != dst { assert Names(s, i, s.initial[i]); }
    }
    hide Names;
  }

  lemma CidsOfAdded(m: Meta, ids: seq<ConnectionId>)
    requires 1 <= |ids| <= 2 && m.paths == map[PATH_ZERO := FirstCids(ids)]
    ensures CidsOf(m) == set x | x in ids
  {
    var cids := m.paths[PATH_ZERO].cids;
    assert forall q: nat :: q in cids <==> q < |ids|;
    assert forall q: nat :: q < |ids| ==> cids[q] == ids[q];
    forall x | x in ids
      ensures x in CidsOf(m)
    {
      var q :| 0 <= q < |ids| && ids[q] == x;
      assert q in m.paths[PATH_ZERO].cids && m.paths[PATH_ZERO].cids[q] == x;
    }
  }

  lemma PurgeNothing(t: ResetTable)
    requires forall r <- t :: t[r] != map[]
    ensures Purged(t, {}) == t
  {
    var t' := Purged(t, {});
    forall r <- t
      ensures r in t' && t'[r] == t[r]
    {
      var k :| k in t[r].Keys;
      assert k in t[r] && ResetKey(r, k) !in {};
      assert r in t';
    }
  }

  lemma ReserveThenRelease(s: Endpoint, ch: Handle, ids: seq<ConnectionId>)
    requires FreshIds(s, ids)
    ensures (s.cids + map c | c in ids :: Owner(ch, PATH_ZERO)) - (set x | x in ids) == s.cids
  {
    forall x | x in ids ensures x !in s.cids {
      var i :| 0 <= i < |ids| && ids[i] == x;
    }
  }

  /** A connection that is added and drained at once leaves only its initial ID behind to forget. */
  lemma AddThenDrain(s: Endpoint, ch: Handle, dst: ConnectionId, ids: seq<ConnectionId>)
    requires ch !in s.connections && 1 <= |ids| <= 2 && FreshIds(s, ids)
    requires forall r <- s.resets :: s.resets[r] != map[]
    ensures var added := AddConnection(s, ch, dst, Server, ids);
            Drain(added.(initial := added.initial[dst := ToConnection(Owner(ch, PATH_ZERO))]), ch)
            == s.(initial := s.initial - {dst})
  {
    var added := AddConnection(s, ch, dst, Server, ids);
    CidsOfAdded(added.connections[ch], ids);
    PurgeNothing(s.resets);
    assert KeysOf(added.connections[ch]) == {};
    hide CidsOf, KeysOf, Purged, FirstCids;
    assert added.cids - (set x | x in ids) == s.cids by { ReserveThenRelease(s, ch, ids); }
    hide FreshIds;
    assert added.connections - {ch} == s.connections;
    assert s.initial[dst := ToConnection(Owner(ch, PATH_ZERO))] - {dst} == s.initial - {dst};
  }

  /** The state in which an accept adds the connection, before the handshake. */
  function Joined(s: Endpoint, idx: nat, ch: Handle, ids: seq<ConnectionId>): Endpoint
    requires idx in s.outstanding && 1 <= |ids| <= 2
  {
    var dst := s.outstanding[idx];
    var added := AddConnection(Unbuffered(s, idx), ch, dst, Server, ids);
    added.(initial := added.initial[dst := ToConnection(Owner(ch, PATH_ZERO))])
  }

  /** The three states that an accept can end in. */
  lemma AcceptTells(s: Endpoint, c: Config, idx: nat, a: Answers, ch: Handle, ids: seq<ConnectionId>)
    requires idx in s.outstanding && 1 <= |ids| <= 2
    ensures var (s', r) := Accept(s, c, idx, a, ch, ids);
            match r
            case Accepted => s' == Joined(s, idx, ch, ids)
            case HandshakeFailed => s' == Drain(Joined(s, idx, ch, ids), ch)
            case _ => s' == CleanUpIncoming(s, idx)
  {
    hide CidsExhausted, Drain, AddConnection, Unbuffered;
  }

  /** However an `accept` fails, it leaves every table as a refusal would. */
  lemma FailedAcceptLeavesNoTrace(s: Endpoint, c: Config, idx: nat, a: Answers, ch: Handle, ids: seq<ConnectionId>)
    requires idx in s.outstanding && ch !in s.connections && 1 <= |ids| <= 2 && FreshIds(s, ids)
    requires forall r <- s.resets :: s.resets[r] != map[]
    ensures Accept(s, c, idx, a, ch, ids).1 != Accepted ==> Accept(s, c, idx, a, ch, ids).0 == CleanUpIncoming(s, idx)
  {
    hide Accept, AddConnection, Drain;
    AcceptTells(s, c, idx, a, ch, ids);
    AddThenDrain(Unbuffered(s, idx), ch, s.outstanding[idx], ids);
  }

  // ---------------------------------------------------------------------------------------------
  // Byte accounting
  // ---------------------------------------------------------------------------------------------

  function SumLens(lens: seq<nat>): nat {
    if lens == [] then 0 else SumLens(lens[..|lens| - 1]) + lens[|lens| - 1]
  }

  ghost function SumBytes(buffers: map<nat, Buffer>): nat
    decreases |buffers|
  {
    if buffers == map[] then 0
    else
      var idx :| idx in buffers;
      assert |buffers - {idx}| < |buffers| by { assert (buffers - {idx}).Keys == buffers.Keys - {idx}; }
      buffers[idx].totalBytes + SumBytes(buffers - {idx})
  }

  /** The sum does not depend on the order of summation. */
  lemma {:induction false} SumBytesRemove(buffers: map<nat, Buffer>, idx: nat)
    requires idx in buffers
    ensures SumBytes(buffers) == buffers[idx].totalBytes + SumBytes(buffers - {idx})
    decreases |buffers|
  {
    var k :| k in buffers && SumBytes(buffers) == buffers[k].totalBytes + SumBytes(buffers - {k});
    if k != idx {
      assert (buffers - {k}).Keys == buffers.Keys - {k} && (buffers - {idx}).Keys == buffers.Keys - {idx};
      SumBytesRemove(buffers - {k}, idx);
      SumBytesRemove(buffers - {idx}, k);
      assert buffers - {k} - {idx} == buffers - {idx} - {k};
    }
  }

  lemma SumBytesUpdate(buffers: map<nat, Buffer>, idx: nat, b: Buffer)
    ensures SumBytes(buffers[idx := b]) ==
            SumBytes(buffers) + b.totalBytes - (if idx in buffers then buffers[idx].totalBytes else 0)
  {
    var buffers' := buffers[idx := b];
    SumBytesRemove(buffers', idx);
    if idx in buffers {
      SumBytesRemove(buffers, idx);
      assert buffers' - {idx} == buffers - {idx};
    } else {
      assert buffers' - {idx} == buffers;
    }
  }

  /** The total is the sum of the buffers, each buffer's is that of its datagrams, and both limits hold. */
  ghost predicate BytesInv(s: Endpoint, c: Config) {
    && s.totalBytes == SumBytes(s.buffers)
    && (forall idx <- s.buffers :: s.buffers[idx].totalBytes == SumLens(s.buffers[idx].datagrams))
    && match c.server
       case None => s.buffers == map[]
       case Some(sc) =>
         s.totalBytes <= sc.bufferSizeTotal && forall idx <- s.buffers :: s.buffers[idx].totalBytes <= sc.bufferSize
  }

  lemma SumLensAppend(lens: seq<nat>, len: nat)
    ensures SumLens(lens + [len]) == SumLens(lens) + len
  {
    assert (lens + [len])[..|lens|] == lens;
  }

  lemma BufferKeepsBytesInv(s: Endpoint, c: Config, idx: nat, len: nat)
    requires BytesInv(s, c) && c.server.Some? && idx in s.buffers
    ensures BytesInv(BufferDatagram(s, c.server.value, idx, len), c)
  {
    hide SumBytes, SumLens;
    var b := s.buffers[idx];
    SumLensAppend(b.datagrams, len);
    SumBytesUpdate(s.buffers, idx, Buffer(b.datagrams + [len], b.totalBytes + len));
  }

  lemma NewBufferKeepsBytesInv(s: Endpoint, c: Config, idx: nat, s': Endpoint)
    requires BytesInv(s, c) && c.server.Some? && idx !in s.buffers
    requires s'.buffers == s.buffers[idx := EMPTY_BUFFER] && s'.totalBytes == s.totalBytes
    ensures BytesInv(s', c)
  {
    hide SumBytes;
    SumBytesUpdate(s.buffers, idx, EMPTY_BUFFER);
  }

  /** What a removal subtracts is in the total, so the subtraction cannot underflow. */
  lemma UnbufferKeepsBytesInv(s: Endpoint, c: Config, idx: nat)
    requires BytesInv(s, c)
    ensures BytesAt(s, idx) <= s.totalBytes
    ensures BytesInv(Unbuffered(s, idx), c)
  {
    hide SumBytes, SumLens;
    if idx in s.buffers {
      SumBytesRemove(s.buffers, idx);
    } else {
      assert s.buffers - {idx} == s.buffers;
    }
  }

  lemma SameBuffersKeepBytesInv(s: Endpoint, s': Endpoint, c: Config)
    requires BytesInv(s, c) && s'.buffers == s.buffers && s'.totalBytes == s.totalBytes
    ensures BytesInv(s', c)
  {
  }
}
