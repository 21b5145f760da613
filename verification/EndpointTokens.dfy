/** The table of reset tokens over whole runs: exactly when a holder drops out of it. */
module EndpointTokens {
  import opened Common
  import opened EndpointModel
  import opened EndpointCids
  import opened EndpointIncoming
  import opened EndpointResets
  import opened EndpointRuns
  import opened EndpointSpace

  /** What the endpoint could check first: the event takes, replaces or releases a token that somebody else holds. */
  ghost predicate Loses(s: Endpoint, e: Event) {
    match e
    case NewResetToken(ch, path, key) => ch in s.connections && Clashes(s, ch, path, key)
    case DropResetToken(ch, path) =>
      && ch in s.connections && path in s.connections[ch].resets
      && HeldElsewhere(s, ch, path, s.connections[ch].resets[path])
    case Drained(ch) =>
      && ch in s.connections
      && exists c, p, k :: HoldsKey(s.connections, c, p, k) && c != ch && k in KeysOf(s.connections[ch])
    case _ => false
  }

  /** The same table, and no new holders. */
  ghost predicate SameTokens(s: Endpoint, s': Endpoint) {
    && s'.resets == s.resets
    && forall ch, path, k :: HoldsKey(s'.connections, ch, path, k) <==> HoldsKey(s.connections, ch, path, k)
  }

  lemma {:induction false} IssueAllSameTokens(s: Endpoint, ch: Handle, path: PathId, ids: seq<ConnectionId>)
    requires ch in s.connections
    ensures SameTokens(s, IssueAll(s, ch, path, ids))
    decreases ids
  {
    if ids == [] {
    } else {
      IssueAllSameTokens(IssueOne(s, ch, path, ids[0]), ch, path, ids[1..]);
    }
  }

  lemma AddSameTokens(s: Endpoint, ch: Handle, initCid: ConnectionId, side: Side, ids: seq<ConnectionId>)
    requires ch !in s.connections && 1 <= |ids| <= 2
    ensures SameTokens(s, AddConnection(s, ch, initCid, side, ids))
  {
    hide FirstCids;
  }

  lemma AcceptSameTokens(s: Endpoint, c: Config, idx: nat, a: Answers, ch: Handle, ids: seq<ConnectionId>)
    requires ResetInv(s) && idx in s.outstanding && ch !in s.connections && 1 <= |ids| <= 2 && FreshIds(s, ids)
    ensures SameTokens(s, Accept(s, c, idx, a, ch, ids).0)
  {
    hide FreshIds, Accept, AddConnection;
    AcceptTells(s, c, idx, a, ch, ids);
    FailedAcceptLeavesNoTrace(s, c, idx, a, ch, ids);
    AddSameTokens(Unbuffered(s, idx), ch, s.outstanding[idx], Server, ids);
    hide Drain;
  }

  /** Events that are not about tokens leave them alone. */
  lemma ApplySameTokens(s: Endpoint, c: Config, e: Event)
    requires ResetInv(s) && Possible(s, e) && !e.NewResetToken? && !e.DropResetToken? && !e.Drained?
    ensures SameTokens(s, Apply(s, c, e))
  {
    hide ResetInv, CidsExhausted, HandleDatagram, Accept, IssueAll, AddConnection, FreshIds;
    match e
    case Connecting(_, ch, initCid, id, _) => AddSameTokens(s, ch, initCid, Client, [id]);
    case Arriving(d, v, idx, now) => DatagramFrame(s, c, d, v, idx, now);
    case Accepting(idx, a, ch, ids) => AcceptSameTokens(s, c, idx, a, ch, ids);
    case Forgetting(_) =>
    case NeedIdentifiers(ch, path, ids) => IssueAllSameTokens(s, ch, path, ids);
    case RetireConnectionId(ch, path, sequence, replacement) =>
      if HoldsSequence(s, ch, path, sequence) {
        IssueAllSameTokens(RetireOne(s, ch, path, sequence), ch, path, replacement);
      }
  }

  lemma ApplyStaysCompleteIff(s: Endpoint, c: Config, e: Event)
    requires ResetInv(s) && Complete(s) && Possible(s, e)
    ensures Complete(Apply(s, c, e)) <==> !Loses(s, e)
  {
    match e
    case NewResetToken(ch, path, key) =>
      hide ResetInv, Complete, Clashes, SetResetToken;
      SetStaysCompleteIff(s, ch, path, key);
    case DropResetToken(ch, path) =>
      hide ResetInv, Complete, HeldElsewhere, RemoveToken;
      if path in s.connections[ch].resets { RetireStaysCompleteIff(s, ch, path); }
    case Drained(ch) =>
      hide ResetInv, Complete, KeysOf, CidsOf, Purged;
      if ch in s.connections { DrainStaysCompleteIff(s, ch); }
    case _ =>
      hide ResetInv, Apply, Possible, Points, HoldsKey;
      ApplySameTokens(s, c, e);
  }

  ghost predicate CompleteUpTo(ss: seq<Endpoint>, n: nat) {
    n < |ss| && forall i :: 0 <= i <= n ==> Complete(ss[i])
  }

  ghost predicate LosesNothing(ss: seq<Endpoint>, es: seq<Event>, n: nat) {
    n < |ss| && n <= |es| && forall i :: 0 <= i < n ==> !Loses(ss[i], es[i])
  }

  /** Every token held has been found under its holder all along iff no event so far met somebody else's token. */
  lemma {:induction false} CompleteIffNothingLost(c: Config, ss: seq<Endpoint>, es: seq<Event>, n: nat)
    requires IsRun(c, ss, es) && n < |ss|
    ensures CompleteUpTo(ss, n) <==> LosesNothing(ss, es, n)
  {
    hide Complete, Loses, Apply, Possible, Inv;
    if n == 0 {
      NewEndpointIsComplete();
    } else {
      CompleteIffNothingLost(c, ss, es, n - 1);
      assert Possible(ss[n - 1], es[n - 1]) && ss[n] == Apply(ss[n - 1], c, es[n - 1]);
      TablesAndBytesAgree(c, ss, es, n - 1);
      assert CompleteUpTo(ss, n) <==> CompleteUpTo(ss, n - 1) && Complete(ss[n]);
      assert LosesNothing(ss, es, n) <==> LosesNothing(ss, es, n - 1) && !Loses(ss[n - 1], es[n - 1]);
      if CompleteUpTo(ss, n - 1) {
        ApplyStaysCompleteIff(ss[n - 1], c, es[n - 1]);
      }
    }
  }

  /**
   A stateless reset is recognised: as long as nothing was lost, a datagram that nobody claims and that ends
   in the token of a live connection, from the address that it is expected from, goes to that connection.
   */
  lemma ResetIsRecognised(c: Config, ss: seq<Endpoint>, es: seq<Event>, n: nat, d: Datagram, ch: Handle, path: PathId,
                          v: Verdicts, idx: nat, now: nat)
    requires IsRun(c, ss, es) && n < |ss| && LosesNothing(ss, es, n)
    requires Unclaimed(ss[n], d) && d.tail.Some?
    requires HoldsKey(ss[n].connections, ch, path, ResetKey(d.remote, d.tail.value))
    ensures HandleDatagram(ss[n], c, d, v, idx, now) == (ss[n], Routed(Owner(ch, PATH_ZERO)))
  {
    CompleteIffNothingLost(c, ss, es, n);
    assert Complete(ss[n]);
    hide IsRun, Complete, Unclaimed, Lookup, Claims;
    LookupIsExact(c, ss, es, n, d);
  }

  lemma NewEndpointIsComplete()
    ensures Complete(NEW_ENDPOINT)
  {
  }

  // ---------------------------------------------------------------------------------------------
  // It happens
  // ---------------------------------------------------------------------------------------------

  lemma NeverExhaustedByOne(c: Config, inUse: nat)
    requires c.cidLen > 0 && inUse <= 1
    ensures !CidsExhausted(c, inUse)
  {
    SpaceIsLarge(c.cidLen);
    hide Space;
  }

  lemma {:induction false} SpaceIsLarge(n: nat)
    requires n > 0
    ensures Space(n) >= 256
  {
    if n == 1 {
      assert Space(0) == 1;
    } else {
      SpaceIsLarge(n - 1);
    }
  }

  lemma OpenedApplies(s: Endpoint, c: Config, ch: Handle, initCid: ConnectionId, id: ConnectionId)
    requires c.cidLen > 0 && |s.cids| <= 1 && ch !in s.connections && id !in s.cids && id != []
    ensures var e := Connecting(true, ch, initCid, id, true);
            Possible(s, e) && Apply(s, c, e) == AddConnection(s, ch, initCid, Client, [id])
  {
    NeverExhaustedByOne(c, |s.cids|);
    hide CidsExhausted, AddConnection;
  }

  /** Whatever the state and the token, the connection that takes it last is the one that the table names. */
  lemma LastTakerWins(s: Endpoint, a: Handle, b: Handle, key: ResetKey)
    requires a in s.connections && b in s.connections && a != b
    ensures !Complete(SetResetToken(SetResetToken(s, a, PATH_ZERO, key), b, PATH_ZERO, key))
  {
    var s1 := SetResetToken(s, a, PATH_ZERO, key);
    var s2 := SetResetToken(s1, b, PATH_ZERO, key);
    SetHolds(s, a, PATH_ZERO, key);
    SetHolds(s1, b, PATH_ZERO, key);
    assert HoldsKey(s2.connections, a, PATH_ZERO, key);
    assert s2.resets[key.remote][key.token] == b by { hide RemoveToken, HoldsKey; }
    assert !Points(s2.resets, key, a);
  }

  lemma TwoOpened(c: Config, initCid: ConnectionId, id0: ConnectionId, id1: ConnectionId)
    returns (s1: Endpoint, s2: Endpoint)
    requires c.cidLen > 0 && id0 != [] && id1 != [] && id0 != id1
    ensures var e0, e1 := Connecting(true, 0, initCid, id0, true), Connecting(true, 1, initCid, id1, true);
            && Possible(NEW_ENDPOINT, e0) && s1 == Apply(NEW_ENDPOINT, c, e0)
            && Possible(s1, e1) && s2 == Apply(s1, c, e1)
            && 0 in s2.connections && 1 in s2.connections
  {
    hide Apply, Possible;
    OpenedApplies(NEW_ENDPOINT, c, 0, initCid, id0);
    s1 := AddConnection(NEW_ENDPOINT, 0, initCid, Client, [id0]);
    assert s1.cids.Keys == {id0} && s1.connections.Keys == {0};
    assert |s1.cids| == |s1.cids.Keys|;
    OpenedApplies(s1, c, 1, initCid, id1);
    s2 := AddConnection(s1, 1, initCid, Client, [id1]);
  }

  lemma Takes(s: Endpoint, c: Config, ch: Handle, key: ResetKey)
    requires ch in s.connections
    ensures var e := NewResetToken(ch, PATH_ZERO, key);
            && Possible(s, e) && Apply(s, c, e) == SetResetToken(s, ch, PATH_ZERO, key)
            && Apply(s, c, e).connections.Keys == s.connections.Keys
  {
    hide InsertToken, RemoveToken;
  }

  /**
   Two connections that take the same token for the same address: the first one drops out of the table,
   whatever the configuration, the IDs that the generator returns, and the token.
   */
  lemma TokenDropsOut(c: Config, initCid: ConnectionId, id0: ConnectionId, id1: ConnectionId, key: ResetKey)
    requires c.cidLen > 0 && |id0| == |id1| == c.cidLen && id0 != id1
    ensures exists ss, es :: IsRun(c, ss, es) && Announced(c, es) && |ss| == 5 && !Complete(ss[4])
  {
    hide Apply, Possible, SetResetToken, Complete;
    var s1, s2 := TwoOpened(c, initCid, id0, id1);
    LastTakerWins(s2, 0, 1, key);
    Takes(s2, c, 0, key);
    var s3 := SetResetToken(s2, 0, PATH_ZERO, key);
    assert 1 in s3.connections.Keys;
    Takes(s3, c, 1, key);
    var ss := [NEW_ENDPOINT, s1, s2, s3, SetResetToken(s3, 1, PATH_ZERO, key)];
    var es := [Connecting(true, 0, initCid, id0, true), Connecting(true, 1, initCid, id1, true),
               NewResetToken(0, PATH_ZERO, key), NewResetToken(1, PATH_ZERO, key)];
    assert IsRun(c, ss, es) && Announced(c, es);
  }
}
