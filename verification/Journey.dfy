/** The way of one envelope through a network of honest relays. */
module Journeys {
  import opened Common
  import opened Envelopes
  import opened Routing

  /** Where an envelope ended: at its recipient, or refused on the way. */
  datatype Journey = Arrived(envelope: Envelope, visited: seq<NodeId>) | Lost(visited: seq<NodeId>)

  /** Follows an envelope handed to node `at`, hop by hop; `visited` lists the nodes that forwarded it. */
  function Follow(e: Envelope, at: NodeId): Journey
    decreases e.ttl
  {
    match Decide(at, e)
    case Local => Arrived(e, [])
    case Refuse(_) => Lost([])
    case Hop(e', next) =>
      match Follow(e', next)
      case Arrived(f, visited) => Arrived(f, [at] + visited)
      case Lost(visited) => Lost([at] + visited)
  }

  /** Each hop is one call of `route`: what the engine forwards is what the journey follows. */
  lemma FollowsRoute(r: Router, e: Envelope, ctx: Context)
    ensures match Route(r, e, ctx).1
            case Forward(e', next, _) =>
              Decide(r.localId, e) == Hop(e', next) && SigningBytes(e') == SigningBytes(e) && e'.ttl + 1 == e.ttl
            case Reject(TooDeep) => Decide(r.localId, e) == Refuse(TooDeep)
            case Reject(TtlExhausted) => Decide(r.localId, e) == Refuse(TtlExhausted)
            case _ => Decide(r.localId, e) == Local
  {
  }

  // ---------------------------------------------------------------------------------------------
  // Relay chains
  // ---------------------------------------------------------------------------------------------

  /** The first place at which the chain ends, names the recipient, or names a relay again. */
  function Turn(via: seq<NodeId>, to: NodeId, i: nat): (m: nat)
    requires i <= |via|
    ensures i <= m <= |via|
    ensures forall k :: i <= k < m ==> via[k] != to && via[k] !in via[..k]
    ensures m < |via| ==> via[m] == to || via[m] in via[..m]
    decreases |via| - i
  {
    if i == |via| || via[i] == to || via[i] in via[..i] then i else Turn(via, to, i + 1)
  }

  /** The number of relays that forward the envelope if nothing stops it. */
  function Relays(e: Envelope): nat {
    Turn(e.via, e.to, 0)
  }

  /** The chain comes back to a relay before it reaches the recipient. */
  predicate Loops(e: Envelope) {
    var m := Relays(e);
    m < |e.via| && e.via[m] != e.to
  }

  function NodeAt(e: Envelope, i: nat): NodeId
    requires i <= |e.via|
  {
    if i < |e.via| then e.via[i] else e.to
  }

  lemma PositionOfDistinct(via: seq<NodeId>, i: nat)
    requires i < |via| && via[i] !in via[..i]
    ensures Position(via, via[i]) == i
  {
  }

  /** A relay on the straight part of the chain passes the envelope to the next one. */
  lemma ChainHop(e: Envelope, i: nat)
    requires |e.via| <= MAX_RELAY_DEPTH && i < Relays(e)
    ensures Decide(e.via[i], e) ==
            if e.ttl == 0 then Refuse(TtlExhausted) else Hop(e.(ttl := e.ttl - 1), NodeAt(e, i + 1))
  {
    PositionOfDistinct(e.via, i);
  }

  lemma {:induction false} FollowArrives(e: Envelope, i: nat)
    requires |e.via| <= MAX_RELAY_DEPTH && !Loops(e) && i <= Relays(e) <= e.ttl + i
    ensures Follow(e, NodeAt(e, i)) == Arrived(e.(ttl := e.ttl - (Relays(e) - i)), e.via[i..Relays(e)])
    decreases Relays(e) - i
  {
    hide Turn, NextHop;
    var m := Relays(e);
    if i < m {
      ChainHop(e, i);
      hide Decide;
      FollowArrives(e.(ttl := e.ttl - 1), i + 1);
      assert e.via[i..m] == [e.via[i]] + e.via[i + 1..m];
    } else {
      assert e.via[i..m] == [];
    }
  }

  lemma {:induction false} FollowRunsOut(e: Envelope, i: nat)
    requires |e.via| <= MAX_RELAY_DEPTH && e.ttl + i < Relays(e)
    ensures Follow(e, NodeAt(e, i)).Lost? && |Follow(e, NodeAt(e, i)).visited| == e.ttl
    decreases e.ttl
  {
    ChainHop(e, i);
    hide Turn, Decide;
    if e.ttl == 0 {
    } else {
      FollowRunsOut(e.(ttl := e.ttl - 1), i + 1);
    }
  }

  /** Once among the relays of a loop, the envelope stays there until its TTL is used up. */
  lemma {:induction false} FollowLoop(e: Envelope, i: nat)
    requires |e.via| <= MAX_RELAY_DEPTH && Loops(e) && i < Relays(e)
    ensures Follow(e, e.via[i]).Lost? && |Follow(e, e.via[i]).visited| == e.ttl
    decreases e.ttl
  {
    ChainHop(e, i);
    hide Turn, Decide;
    if e.ttl == 0 {
    } else {
      var m := Relays(e);
      var e' := e.(ttl := e.ttl - 1);
      if i + 1 < m {
        FollowLoop(e', i + 1);
      } else {
        var j :| 0 <= j < m && e.via[j] == e.via[m];
        FollowLoop(e', j);
      }
    }
  }

  /**
   Exactly when an envelope handed to its first hop reaches the recipient, whatever its relay chain:
   the chain is not too deep, does not loop before the recipient, and the TTL covers its relays. It
   then visits those relays in order, and arrives changed in nothing but its TTL.
   */
  lemma ReachesIff(e: Envelope)
    ensures var j := Follow(e, FirstHop(e));
            && (j.Arrived? <==> |e.via| <= MAX_RELAY_DEPTH && !Loops(e) && Relays(e) <= e.ttl)
            && (j.Arrived? ==>
                  && j.envelope == e.(ttl := e.ttl - Relays(e))
                  && SigningBytes(j.envelope) == SigningBytes(e)
                  && j.visited == e.via[..Relays(e)])
  {
    if |e.via| <= MAX_RELAY_DEPTH {
      if Loops(e) {
        assert Relays(e) > 0;
        FollowLoop(e, 0);
      } else if Relays(e) <= e.ttl {
        FollowArrives(e, 0);
      } else {
        FollowRunsOut(e, 0);
      }
    }
  }

  // ---------------------------------------------------------------------------------------------
  // Chains of distinct relays, and the way back
  // ---------------------------------------------------------------------------------------------

  ghost predicate Distinct(via: seq<NodeId>) {
    forall i, j :: 0 <= i < j < |via| ==> via[i] != via[j]
  }

  lemma DistinctNeverLoops(e: Envelope)
    requires Distinct(e.via)
    ensures !Loops(e)
    ensures e.to !in e.via ==> Relays(e) == |e.via|
  {
  }

  /** Through distinct relays other than the recipient: it arrives iff the TTL is at least their number. */
  lemma DistinctRelaysReachIff(e: Envelope)
    requires |e.via| <= MAX_RELAY_DEPTH && Distinct(e.via) && e.to !in e.via
    ensures Follow(e, FirstHop(e)).Arrived? <==> |e.via| <= e.ttl
    ensures |e.via| <= e.ttl ==>
              Follow(e, FirstHop(e)) == Arrived(e.(ttl := e.ttl - |e.via|), e.via)
  {
    DistinctNeverLoops(e);
    ReachesIff(e);
    assert e.via[..|e.via|] == e.via;
  }

  /** The default TTL equals the maximum depth, so a delivery ACK gets back iff the reversed chain does not loop. */
  lemma DeliveryAckReturnsIff(node: NodeId, e: Envelope, ctx: Context)
    requires |e.via| <= MAX_RELAY_DEPTH
    ensures var ack := DeliveryAck(node, e, ctx);
            var j := Follow(ack, FirstHop(ack));
            && (j.Arrived? <==> !Loops(ack))
            && (j.Arrived? ==> SigningBytes(j.envelope) == SigningBytes(ack) && j.visited == ack.via[..Relays(ack)])
  {
    ReachesIff(DeliveryAck(node, e, ctx));
  }

  /** So over distinct relays it always gets back. */
  lemma DeliveryAckReturns(node: NodeId, e: Envelope, ctx: Context)
    requires |e.via| <= MAX_RELAY_DEPTH && Distinct(e.via)
    ensures var ack := DeliveryAck(node, e, ctx);
            var j := Follow(ack, FirstHop(ack));
            && j.Arrived? && SigningBytes(j.envelope) == SigningBytes(ack)
            && (e.from !in e.via ==> j.visited == Reversed(e.via) && j.envelope.ttl == DEFAULT_TTL - |e.via|)
  {
    var ack := DeliveryAck(node, e, ctx);
    forall i, j | 0 <= i < j < |ack.via|
      ensures ack.via[i] != ack.via[j]
    {
      assert ack.via[i] == e.via[|e.via| - 1 - i] && ack.via[j] == e.via[|e.via| - 1 - j];
    }
    DistinctNeverLoops(ack);
    ReachesIff(ack);
    if e.from !in e.via {
      assert forall i :: 0 <= i < |ack.via| ==> ack.via[i] == e.via[|e.via| - 1 - i];
      assert e.from !in ack.via;
      assert ack.via[..|ack.via|] == ack.via;
    }
  }

  /** A relay ACK goes straight to its recipient, one call away. */
  lemma RelayAckIsDirect(node: NodeId, e: Envelope, ctx: Context)
    ensures var ack := RelayAck(node, e, ctx);
            Follow(ack, ack.to) == Arrived(ack, []) && FirstHop(ack) == ack.to == e.from
  {
  }

  /** Without distinctness the way back can fail: this chain delivers, and its reverse loops. */
  lemma AckCanLoop(ctx: Context)
    ensures exists e: Envelope ::
              && Follow(e, FirstHop(e)).Arrived?
              && var ack := DeliveryAck(e.to, e, ctx); Follow(ack, FirstHop(ack)).Lost?
  {
    hide Follow;
    var e := Envelope("m", "s", "r", ["a", "r", "a"], Content(0), Plain([]), 0, [], 4, false);
    var ack := DeliveryAck("r", e, ctx);
    assert e.via[1] == e.to;
    ReachesIff(e);
    ReachesIff(ack);
    assert ack.via == ["a", "r", "a"];
    assert ack.via[2] in ack.via[..2] by { assert ack.via[..2][0] == "a"; }
  }

  /** End to end: sealed, signed, relayed over distinct relays and opened again. */
  lemma SealedDelivery(c: Crypto, e: Envelope, sender: Secret, recipient: Secret)
    requires Lawful(c) && e.payload.Plain? && !e.encrypted
    requires e.from == c.publicKey(sender) && e.to == c.publicKey(recipient)
    requires |e.via| <= MAX_RELAY_DEPTH && Distinct(e.via) && e.to !in e.via && |e.via| <= e.ttl
    ensures var sent := EncryptAndSign(c, e, sender, e.to);
            var j := Follow(sent, FirstHop(sent));
            && j.Arrived? && j.visited == e.via
            && VerifySignature(c, j.envelope)
            && DecryptPayload(c, j.envelope, recipient)
               == Some(e.(ttl := e.ttl - |e.via|, signature := sent.signature))
  {
    var sent := EncryptAndSign(c, e, sender, e.to);
    DistinctRelaysReachIff(sent);
    SealedEnvelopeSurvivesRelays(c, e, sender, recipient, |e.via|);
  }
}
