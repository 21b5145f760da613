/** Which outcome each call of the endpoint has, and what it means for the caller. */
module EndpointOutcomes {
  import opened Common
  import opened EndpointModel
  import opened EndpointCids
  import opened EndpointIncoming
  import opened EndpointResets
  import opened EndpointRuns

  // ---------------------------------------------------------------------------------------------
  // Accepting and connecting
  // ---------------------------------------------------------------------------------------------

  /** The first check that fails names the outcome. */
  lemma AcceptOutcomeIff(s: Endpoint, c: Config, idx: nat, a: Answers, ch: Handle, ids: seq<ConnectionId>)
    requires idx in s.outstanding && 1 <= |ids| <= 2
    ensures var r := Accept(s, c, idx, a, ch, ids).1;
            var full := CidsExhausted(c, |s.cids|);
            && (r == TimedOut <==> a.stale)
            && (r == Exhausted <==> !a.stale && full)
            && (r == Unauthenticated <==> !a.stale && !full && !a.decrypts)
            && (r == HandshakeFailed <==> !a.stale && !full && a.decrypts && !a.handshakeOk)
            && (r == Accepted <==> !a.stale && !full && a.decrypts && a.handshakeOk)
  {
    hide CidsExhausted, Drain, AddConnection, Unbuffered;
  }

  /** `ch` is a live connection with the given IDs under the numbers from 0, which get it their datagrams. */
  ghost predicate Reached(s: Endpoint, ch: Handle, ids: seq<ConnectionId>) {
    && ch in s.connections
    && (forall k: nat :: k < |ids| ==> Holds(s.connections, ch, PATH_ZERO, k, ids[k]))
    && (forall d: Datagram :: d.dstCid in ids ==> Lookup(s, d) == Some(ToConnection(Owner(ch, PATH_ZERO))))
  }

  lemma HoldersAreReached(s: Endpoint, c: Config, ch: Handle, ids: seq<ConnectionId>)
    requires Inv(s, c) && ch in s.connections
    requires forall k: nat :: k < |ids| ==> Holds(s.connections, ch, PATH_ZERO, k, ids[k])
    ensures Reached(s, ch, ids)
  {
    hide Inv, Holds, Claims, Lookup;
    forall d: Datagram | d.dstCid in ids
      ensures Lookup(s, d) == Some(ToConnection(Owner(ch, PATH_ZERO)))
    {
      var k: nat :| k < |ids| && ids[k] == d.dstCid;
      assert Holds(s.connections, ch, PATH_ZERO, k, d.dstCid);
      InvRoutesRight(s, c, d);
    }
  }

  lemma JoinedHolds(s: Endpoint, idx: nat, ch: Handle, ids: seq<ConnectionId>)
    requires idx in s.outstanding && ch !in s.connections && 1 <= |ids| <= 2
    ensures var s' := Joined(s, idx, ch, ids);
            && BegunWith(s', ch, s.outstanding[idx]) && idx !in s'.outstanding && idx !in s'.buffers
            && (forall k: nat :: k < |ids| ==> Holds(s'.connections, ch, PATH_ZERO, k, ids[k]))
  {
    AddedHolds(Unbuffered(s, idx), ch, s.outstanding[idx], Server, ids);
    hide FirstCids;
  }

  /**
   An accepted connection is live, is found by its IDs, and also by early packets to the ID of its first
   packet, as long as nobody holds that one; the other connections are as before.
   */
  lemma AcceptedIsReached(s: Endpoint, c: Config, idx: nat, a: Answers, ch: Handle, ids: seq<ConnectionId>)
    requires Inv(s, c) && Possible(s, Accepting(idx, a, ch, ids)) && Accept(s, c, idx, a, ch, ids).1 == Accepted
    ensures var s' := Accept(s, c, idx, a, ch, ids).0;
            var dst := s.outstanding[idx];
            && Reached(s', ch, ids) && idx !in s'.outstanding && idx !in s'.buffers
            && (forall d: Datagram :: d.dstCid == dst && Early(d) && Unheld(s', dst) ==>
                  Lookup(s', d) == Some(ToConnection(Owner(ch, PATH_ZERO))))
            && (forall k <- s.connections :: k in s'.connections && s'.connections[k] == s.connections[k])
  {
    var s' := Accept(s, c, idx, a, ch, ids).0;
    AcceptTells(s, c, idx, a, ch, ids);
    AcceptFrame(s, c, idx, a, ch, ids);
    JoinedHolds(s, idx, ch, ids);
    PromoteKeepsInv(s, c, idx, ch, ids);
    hide Inv, Accept, Joined, Claims, Lookup, Holds, FreshIds, Unheld, BegunWith, Early;
    HoldersAreReached(s', c, ch, ids);
    forall d: Datagram | d.dstCid == s.outstanding[idx] && Early(d) && Unheld(s', d.dstCid)
      ensures Lookup(s', d) == Some(ToConnection(Owner(ch, PATH_ZERO)))
    {
      InvRoutesRight(s', c, d);
    }
  }

  /** A call of `connect` is refused, fails or succeeds; a connection is live and found by its ID. */
  lemma ConnectTells(s: Endpoint, c: Config, valid: bool, ch: Handle, initCid: ConnectionId, id: ConnectionId,
                     sessionOk: bool)
    requires Inv(s, c) && c.cidLen > 0 && Possible(s, Connecting(valid, ch, initCid, id, sessionOk))
    ensures var (s', r) := Connect(s, c, valid, ch, initCid, id, sessionOk);
            var full := CidsExhausted(c, |s.cids|);
            && (r == ConnectRefused <==> full || !valid) && (r == ConnectRefused ==> s' == s)
            && (r == SessionFailed <==> !full && valid && !sessionOk)
            && (r == SessionFailed ==> s'.connections == s.connections && s'.orphans == s.orphans + {id})
            && (r == Connected <==> !full && valid && sessionOk)
            && (r == Connected ==>
                  && Reached(s', ch, [id]) && s'.connections[ch].side == Client
                  && s'.connections[ch].initCid == initCid && s'.orphans == s.orphans)
            && (forall k <- s.connections :: k in s'.connections && s'.connections[k] == s.connections[k])
  {
    hide Inv, CidsExhausted, Holds, Reached, FreshIds, FirstCids;
    AddedIsReached(s, c, ch, initCid, id);
  }

  lemma AddedIsReached(s: Endpoint, c: Config, ch: Handle, initCid: ConnectionId, id: ConnectionId)
    requires Inv(s, c) && ch !in s.connections && FreshIds(s, [id])
    ensures Reached(AddConnection(s, ch, initCid, Client, [id]), ch, [id])
  {
    var s' := AddConnection(s, ch, initCid, Client, [id]);
    AddedHolds(s, ch, initCid, Client, [id]);
    AddClientKeepsInv(s, c, ch, initCid, id);
    assert forall k: nat :: k < 1 ==> Holds(s'.connections, ch, PATH_ZERO, k, [id][k]);
    assert ch in s'.connections;
    hide Inv, Holds, AddConnection, FreshIds;
    HoldersAreReached(s', c, ch, [id]);
  }

  // ---------------------------------------------------------------------------------------------
  // Datagrams
  // ---------------------------------------------------------------------------------------------

  /** A datagram for no known connection that is answered with a reset, if one may be sent. */
  predicate Answerable(c: Config, d: Datagram, v: Verdicts) {
    (d.kind.Initial? && c.server.None?) || (d.kind.Short? && v.cidValid && d.dstCid != [])
  }

  /** A first packet to a server, of legal size and with keys. */
  predicate Attempt(c: Config, d: Datagram, v: Verdicts) {
    d.kind.Initial? && c.server.Some? && d.len >= 1200 && v.keysOk
  }

  /** There is room for one more connection, and the packet's destination ID is long enough or from a token. */
  predicate Admissible(s: Endpoint, c: Config, d: Datagram) {
    && c.server.Some? && !CidsExhausted(c, |s.cids|) && |s.buffers| < c.server.value.maxIncoming
    && (|d.dstCid| < 8 ==> d.hasToken && |d.dstCid| == c.cidLen)
  }

  /** Exactly when a datagram has which outcome, and what it changes. */
  lemma HandleTells(s: Endpoint, c: Config, d: Datagram, v: Verdicts, idx: nat, now: nat)
    ensures var (s', r) := HandleDatagram(s, c, d, v, idx, now);
            var unknown := Lookup(s, d).None?;
            var attempt := unknown && Attempt(c, d, v);
            && (forall o :: r == Routed(o) <==> Lookup(s, d) == Some(ToConnection(o)))
            && (forall i :: r == Buffered(i) <==>
                  (Lookup(s, d) == Some(ToIncoming(i)) && i in s.buffers && c.server.Some?))
            && (forall i :: r == NewIncoming(i) <==>
                  (i == idx && attempt && Admissible(s, c, d) && v.decodes && v.tokenOk))
            && (r == Closed <==> attempt && (!Admissible(s, c, d) || (v.decodes && !v.tokenOk)))
            && (r.Reset? <==> unknown && Answerable(c, d, v))
            && (r.Reset? ==> (r.sent <==> d.len > 21 && ResetAllowed(s, c, now)))
            && (r.NewIncoming? ==> idx in s'.outstanding && s'.outstanding[idx] == d.dstCid)
            && (!r.NewIncoming? && !r.Buffered? && !(r.Reset? && r.sent) ==> s' == s)
  {
    hide Lookup, CidsExhausted, BufferDatagram, ResetAllowed;
  }

  /** Sizes of a reset: one byte less than its cause, or at least 41 bytes, like a short packet with any ID. */
  lemma ResetSizeTells(len: nat, size: nat)
    ensures ResetSize(len, size) ==> 21 <= size < len && (len <= 42 ==> size == len - 1) && (len > 42 ==> size >= 41)
    ensures len > 21 ==> exists n :: ResetSize(len, n)
  {
    if len > 21 {
      assert ResetSize(len, if len <= 42 then len - 1 else 41);
    }
  }

  // ---------------------------------------------------------------------------------------------
  // When a reset is sent
  // ---------------------------------------------------------------------------------------------

  /** The clock of the last reset is that of an event of the run, and there is one only if there was such an event. */
  lemma {:induction false} LastResetIsOfRun(c: Config, ss: seq<Endpoint>, es: seq<Event>, k: nat)
    requires IsRun(c, ss, es) && k < |ss| && ss[k].lastReset.Some?
    ensures exists i :: 0 <= i < k && Resets(ss[i], c, es[i]) && es[i].now == ss[k].lastReset.value
  {
    hide Possible, Apply, Resets;
    assert k > 0;
    assert Possible(ss[k - 1], es[k - 1]) && ss[k] == Apply(ss[k - 1], c, es[k - 1]);
    ApplyClock(ss[k - 1], c, es[k - 1]);
    if !Resets(ss[k - 1], c, es[k - 1]) {
      LastResetIsOfRun(c, ss, es, k - 1);
    }
  }

  /** Whatever the history, `now` is late enough iff it is for every reset sent so far. */
  lemma AllowedIffSpaced(c: Config, ss: seq<Endpoint>, es: seq<Event>, k: nat, now: nat)
    requires IsRun(c, ss, es) && k < |ss|
    ensures ResetAllowed(ss[k], c, now) <==>
            forall i :: 0 <= i < k && Resets(ss[i], c, es[i]) ==> es[i].now + c.minResetInterval <= now
  {
    hide Possible, Apply, Resets;
    if ss[k].lastReset.Some? { LastResetIsOfRun(c, ss, es, k); }
    forall i | 0 <= i < k && Resets(ss[i], c, es[i])
      ensures es[i].Arriving? && ss[k].lastReset.Some? && es[i].now <= ss[k].lastReset.value
    {
      ResetIsOnTheClock(c, ss, es, i, k);
    }
  }

  lemma ResetIsOnTheClock(c: Config, ss: seq<Endpoint>, es: seq<Event>, i: nat, k: nat)
    requires IsRun(c, ss, es) && i < k < |ss| && Resets(ss[i], c, es[i])
    ensures es[i].Arriving? && ss[k].lastReset.Some? && es[i].now <= ss[k].lastReset.value
  {
    hide Possible, Apply, HandleDatagram;
    assert Possible(ss[i], es[i]) && ss[i + 1] == Apply(ss[i], c, es[i]);
    ApplyClock(ss[i], c, es[i]);
    LastResetNeverFalls(c, ss, es, i + 1, k);
  }

  /**
   In every run, a datagram is answered with a reset exactly when nobody is found for it, it is of a kind
   that is answered, it is larger than the smallest reset, and every earlier reset is long enough ago.
   */
  lemma ResetSentIff(c: Config, ss: seq<Endpoint>, es: seq<Event>, k: nat)
    requires IsRun(c, ss, es) && k < |es| && es[k].Arriving?
    ensures Resets(ss[k], c, es[k]) <==>
            && Lookup(ss[k], es[k].d).None? && Answerable(c, es[k].d, es[k].v) && es[k].d.len > 21
            && forall i :: 0 <= i < k && Resets(ss[i], c, es[i]) ==> es[i].now + c.minResetInterval <= es[k].now
  {
    hide Lookup, Answerable, HandleDatagram, ResetAllowed, Apply, Possible;
    AllowedIffSpaced(c, ss, es, k, es[k].now);
    HandleTells(ss[k], c, es[k].d, es[k].v, es[k].idx, es[k].now);
  }
}
