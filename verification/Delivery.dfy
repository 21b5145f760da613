/** What becomes of one message when nothing is lost: exactly when it is delivered, and its sender told. */
module Deliveries {
  import opened Common
  import opened Envelopes
  import opened Routing
  import opened RouterRuns
  import opened Journeys
  import opened Amplification

  /** A node's router returned an action. */
  datatype Heard = Heard(node: NodeId, action: Action)

  function Hears(n: Net, m: Move): seq<Heard> {
    if Calls(n, m) then
      var p := n.flying[m.i];
      [Heard(p.hop, Route(n.routers[p.hop], p.envelope, m.ctx).1)]
    else []
  }

  /** Everything that routers return in a run, in order. */
  function Heards(n: Net, ms: seq<Move>): seq<Heard>
    decreases ms
  {
    if ms == [] then [] else Hears(n, ms[0]) + Heards(Apply(n, ms[0]), ms[1..])
  }

  predicate SameMessage(e: Envelope, f: Envelope) {
    e.(ttl := 0) == f.(ttl := 0)
  }

  /** The recipient's router delivered the message. */
  predicate TellsDelivered(h: Heard, e: Envelope) {
    h.node == e.to && h.action.Deliver? && SameMessage(h.action.envelope, e)
  }

  /** The sender's router reported its delivery ACK. */
  predicate TellsAcked(h: Heard, e: Envelope) {
    h.node == e.from && h.action == Acked(e.id, RecipientReceived, e.to)
  }

  ghost predicate Delivered(hs: seq<Heard>, e: Envelope) {
    exists h <- hs :: TellsDelivered(h, e)
  }

  ghost predicate Acknowledged(hs: seq<Heard>, e: Envelope) {
    exists h <- hs :: TellsAcked(h, e)
  }

  lemma HeardFirst(hs: seq<Heard>, rest: seq<Heard>, e: Envelope)
    ensures Delivered(hs + rest, e) <==> Delivered(hs, e) || Delivered(rest, e)
    ensures Acknowledged(hs + rest, e) <==> Acknowledged(hs, e) || Acknowledged(rest, e)
  {
    hide TellsDelivered, TellsAcked;
    assert forall h :: h in hs + rest <==> h in hs || h in rest;
  }

  // ---------------------------------------------------------------------------------------------
  // Relay ACKs
  // ---------------------------------------------------------------------------------------------

  /** A relay ACK on its way: straight to its recipient. */
  predicate IsRelayAck(p: Packet) {
    && p.envelope.msgType.Ack? && p.envelope.payload.AckBody? && p.envelope.payload.ackType.RelayForwarded?
    && p.envelope.via == [] && p.hop == p.envelope.to
  }

  /** It causes no more packets, and is no delivery and no delivery ACK. */
  lemma RelayAckTells(r: Router, p: Packet, ctx: Context, e: Envelope)
    requires IsRelayAck(p) && r.localId == p.hop
    ensures var a := Route(r, p.envelope, ctx).1;
            Emissions(a) == [] && !TellsDelivered(Heard(p.hop, a), e) && !TellsAcked(Heard(p.hop, a), e)
  {
    hide RecordAck, AckKey;
  }

  /** What the caches must not hold for the message and its ACK to get through. */
  predicate Open(routers: map<NodeId, Router>, e: Envelope) {
    && (e.to in routers ==> Unseen(routers[e.to], e))
    && AckOpen(routers, e)
  }

  predicate AckOpen(routers: map<NodeId, Router>, e: Envelope) {
    e.from in routers ==> AckKey(e.id, e.to, OfAck(RecipientReceived)) !in routers[e.from].acks
  }

  lemma KindsDiffer(a: MessageId, x: NodeId, b: MessageId, y: NodeId)
    ensures AckKey(a, x, OfAck(RelayForwarded)) != AckKey(b, y, OfAck(RecipientReceived))
  {
    var j, k := OfAck(RelayForwarded), OfAck(RecipientReceived);
    KindTextInjective(j, k);
    KindTextInjective(k, j);
    if AckKey(a, x, j) == AckKey(b, y, k) {
      SplitAtLastColon(a + ":" + x, KindText(j), b + ":" + y, KindText(k));
      assert false;
    }
  }

  lemma RelayAckKeepsOpen(routers: map<NodeId, Router>, p: Packet, ctx: Context, e: Envelope)
    requires IsRelayAck(p) && p.hop in routers && routers[p.hop].localId == p.hop
    ensures var routers' := routers[p.hop := Route(routers[p.hop], p.envelope, ctx).0];
            && (Open(routers, e) ==> Open(routers', e))
            && (AckOpen(routers, e) ==> AckOpen(routers', e))
  {
    var r := routers[p.hop];
    KindsDiffer(p.envelope.payload.original, p.envelope.from, e.id, e.to);
    if Unseen(r, e) { RouteKeepsUnseen(r, p.envelope, ctx, e); }
    hide AckKey, Unseen;
  }

  lemma CleaningKeepsOpen(routers: map<NodeId, Router>, node: NodeId, now: nat, e: Envelope)
    requires node in routers
    ensures var routers' := routers[node := CleanUp(routers[node], now)];
            && (Open(routers, e) ==> Open(routers', e))
            && (AckOpen(routers, e) ==> AckOpen(routers', e))
  {
    hide AckKey, MessageKey;
  }

  // ---------------------------------------------------------------------------------------------
  // Only relay ACKs are in flight
  // ---------------------------------------------------------------------------------------------

  ghost predicate Quiet(n: Net) {
    WellFormed(n) && forall p <- n.flying :: IsRelayAck(p)
  }

  lemma QuietStep(n: Net, m: Move, e: Envelope)
    requires Quiet(n)
    ensures Quiet(Apply(n, m)) && !Delivered(Hears(n, m), e) && !Acknowledged(Hears(n, m), e)
  {
    hide TotalWeight;
    if Calls(n, m) {
      var p := n.flying[m.i];
      RelayAckTells(n.routers[p.hop], p, m.ctx, e);
      RouteKeepsLocalId(n.routers[p.hop], p.envelope, m.ctx);
      hide Route;
      assert Emissions(Route(n.routers[p.hop], p.envelope, m.ctx).1) == [];
    }
  }

  lemma {:induction false} QuietStaysQuiet(n: Net, ms: seq<Move>, e: Envelope)
    requires Quiet(n)
    ensures !Delivered(Heards(n, ms), e) && !Acknowledged(Heards(n, ms), e)
    decreases ms
  {
    hide Quiet, Delivered, Acknowledged, Hears, Apply;
    if ms == [] {
      NothingHeard(e);
    } else {
      QuietStep(n, ms[0], e);
      QuietStaysQuiet(Apply(n, ms[0]), ms[1..], e);
      HeardFirst(Hears(n, ms[0]), Heards(Apply(n, ms[0]), ms[1..]), e);
    }
  }

  lemma NothingHeard(e: Envelope)
    ensures !Delivered([], e) && !Acknowledged([], e)
  {
  }

  // ---------------------------------------------------------------------------------------------
  // One other packet is in flight
  // ---------------------------------------------------------------------------------------------

  /** Packet number `i` is in flight, and nothing else but relay ACKs. */
  ghost predicate Single(n: Net, i: nat) {
    WellFormed(n) && i < |n.flying| && forall j :: 0 <= j < |n.flying| && j != i ==> IsRelayAck(n.flying[j])
  }

  /** The move is the arrival of packet number `i`. */
  predicate Moves(n: Net, m: Move, i: nat) {
    Calls(n, m) && m.i == i
  }

  /** Any other move that loses nothing leaves that packet and the ways open. */
  lemma OtherStep(n: Net, m: Move, i: nat, e: Envelope) returns (i': nat)
    requires Single(n, i) && !m.Lose? && !Moves(n, m, i)
    ensures var n' := Apply(n, m);
            && Single(n', i') && n'.flying[i'] == n.flying[i]
            && (Open(n.routers, e) ==> Open(n'.routers, e)) && (AckOpen(n.routers, e) ==> AckOpen(n'.routers, e))
    ensures !Delivered(Hears(n, m), e) && !Acknowledged(Hears(n, m), e)
  {
    hide Open, AckOpen, IsRelayAck, CleanUp, TellsDelivered, TellsAcked;
    i' := i;
    if Calls(n, m) {
      var p := n.flying[m.i];
      RelayAckTells(n.routers[p.hop], p, m.ctx, e);
      RelayAckKeepsOpen(n.routers, p, m.ctx, e);
      RouteKeepsLocalId(n.routers[p.hop], p.envelope, m.ctx);
      hide Route, Emissions;
      assert Apply(n, m).flying == Without(n.flying, m.i);
      i' := if m.i < i then i - 1 else i;
    } else if m.CleanCaches? && m.node in n.routers {
      CleaningKeepsOpen(n.routers, m.node, m.now, e);
      CleaningKeepsLocalId(n.routers[m.node], m.now);
    }
  }

  lemma CleaningKeepsLocalId(r: Router, now: nat)
    ensures CleanUp(r, now).localId == r.localId
  {
  }

  /** A forward leaves every cache alone and the envelope in flight to its next hop. */
  lemma HopStep(n: Net, m: Move, i: nat, e: Envelope) returns (i': nat)
    requires Single(n, i) && Moves(n, m, i) && Decide(n.flying[i].hop, n.flying[i].envelope).Hop?
    ensures var n' := Apply(n, m);
            var d := Decide(n.flying[i].hop, n.flying[i].envelope);
            && Single(n', i') && n'.flying[i'] == Packet(d.nextHop, d.envelope) && n'.routers == n.routers
    ensures !Delivered(Hears(n, m), e) && !Acknowledged(Hears(n, m), e)
  {
    var p := n.flying[i];
    var r := n.routers[p.hop];
    var d := Decide(p.hop, p.envelope);
    assert Route(r, p.envelope, m.ctx) == (r, Forward(d.envelope, d.nextHop, RelayAck(p.hop, d.envelope, m.ctx)));
    assert IsRelayAck(Packet(p.envelope.from, RelayAck(p.hop, d.envelope, m.ctx)));
    hide Route, Decide, IsRelayAck;
    var n' := Apply(n, m);
    var relayAck := Packet(p.envelope.from, RelayAck(p.hop, d.envelope, m.ctx));
    assert n'.flying == Without(n.flying, i) + [Packet(d.nextHop, d.envelope), relayAck];
    i' := |n.flying| - 1;
  }

  /** After a call that sends nothing only relay ACKs are left. */
  lemma LastStep(n: Net, m: Move, i: nat)
    requires Single(n, i) && Moves(n, m, i)
    requires Emissions(Route(n.routers[n.flying[i].hop], n.flying[i].envelope, m.ctx).1) == []
    ensures Quiet(Apply(n, m))
  {
    var p := n.flying[i];
    RouteKeepsLocalId(n.routers[p.hop], p.envelope, m.ctx);
    hide Route, Emissions, IsRelayAck;
    assert Apply(n, m).flying == Without(n.flying, i);
  }

  // ---------------------------------------------------------------------------------------------
  // The delivery ACK is on its way
  // ---------------------------------------------------------------------------------------------

  predicate IsAckOf(p: Packet, e: Envelope) {
    && p.envelope.msgType.Ack? && p.envelope.payload == AckBody(e.id, RecipientReceived)
    && p.envelope.from == e.to && p.envelope.to == e.from
  }

  ghost predicate Returning(n: Net, i: nat, e: Envelope) {
    Single(n, i) && IsAckOf(n.flying[i], e) && AckOpen(n.routers, e)
  }

  lemma AckLocal(r: Router, p: Packet, ctx: Context, e: Envelope)
    requires IsAckOf(p, e) && r.localId == p.hop && !Decide(p.hop, p.envelope).Hop?
    requires p.hop == e.from ==> AckKey(e.id, e.to, OfAck(RecipientReceived)) !in r.acks
    ensures var a := Route(r, p.envelope, ctx).1;
            && Emissions(a) == [] && !TellsDelivered(Heard(p.hop, a), e)
            && (TellsAcked(Heard(p.hop, a), e) <==> Follow(p.envelope, p.hop).Arrived?)
  {
    hide RecordAck, AckKey;
  }

  lemma {:induction false} ReturnsIff(n: Net, ms: seq<Move>, i: nat, e: Envelope)
    requires Returning(n, i, e) && Complete(n, ms)
    ensures !Delivered(Heards(n, ms), e)
    ensures Acknowledged(Heards(n, ms), e) <==> Follow(n.flying[i].envelope, n.flying[i].hop).Arrived?
    decreases ms
  {
    var m := ms[0];
    var n' := Apply(n, m);
    var p := n.flying[i];
    assert forall x <- ms[1..] :: x in ms;
    HeardFirst(Hears(n, m), Heards(n', ms[1..]), e);
    if !Moves(n, m, i) {
      var i' := OtherStep(n, m, i, e);
      ReturnsIff(n', ms[1..], i', e);
    } else if Decide(p.hop, p.envelope).Hop? {
      var i' := HopStep(n, m, i, e);
      ReturnsIff(n', ms[1..], i', e);
    } else {
      AckLocal(n.routers[p.hop], p, m.ctx, e);
      LastStep(n, m, i);
      QuietStaysQuiet(n', ms[1..], e);
    }
  }

  // ---------------------------------------------------------------------------------------------
  // The message is on its way
  // ---------------------------------------------------------------------------------------------

  ghost predicate Travelling(n: Net, i: nat, e: Envelope) {
    Single(n, i) && SameMessage(n.flying[i].envelope, e) && e.msgType.Content? && Open(n.routers, e)
  }

  lemma MessageLocal(r: Router, p: Packet, ctx: Context, e: Envelope)
    requires SameMessage(p.envelope, e) && e.msgType.Content? && r.localId == p.hop && Decide(p.hop, p.envelope).Local?
    requires Unseen(r, e)
    ensures var (r', a) := Route(r, p.envelope, ctx);
            var ack := DeliveryAck(p.hop, p.envelope, ctx);
            && TellsDelivered(Heard(p.hop, a), e) && !TellsAcked(Heard(p.hop, a), e)
            && Emissions(a) == [Packet(FirstHop(ack), ack)] && IsAckOf(Packet(FirstHop(ack), ack), e)
            && r'.acks.Keys <= r.acks.Keys
  {
    hide MessageKey, LruPush;
  }

  /** The delivery ACK of any copy of the message takes the way of `AckPacket`. */
  predicate AckReturns(e: Envelope) {
    Follow(AckPacket(e).envelope, AckPacket(e).hop).Arrived?
  }

  lemma {:induction false} TravelsIff(n: Net, ms: seq<Move>, i: nat, e: Envelope)
    requires Travelling(n, i, e) && Complete(n, ms)
    ensures var arrives := Follow(n.flying[i].envelope, n.flying[i].hop).Arrived?;
            && (Delivered(Heards(n, ms), e) <==> arrives)
            && (Acknowledged(Heards(n, ms), e) <==> arrives && AckReturns(e))
    decreases ms
  {
    var m := ms[0];
    var n' := Apply(n, m);
    var p := n.flying[i];
    assert forall x <- ms[1..] :: x in ms;
    HeardFirst(Hears(n, m), Heards(n', ms[1..]), e);
    if !Moves(n, m, i) {
      var i' := OtherStep(n, m, i, e);
      TravelsIff(n', ms[1..], i', e);
    } else {
      match Decide(p.hop, p.envelope)
      case Hop(_, _) =>
        var i' := HopStep(n, m, i, e);
        TravelsIff(n', ms[1..], i', e);
      case Refuse(_) =>
        LastStep(n, m, i);
        QuietStaysQuiet(n', ms[1..], e);
      case Local =>
        var i' := DeliverStep(n, m, i, e);
        ReturnsIff(n', ms[1..], i', e);
    }
  }

  lemma DeliverStep(n: Net, m: Move, i: nat, e: Envelope) returns (i': nat)
    requires Travelling(n, i, e) && Moves(n, m, i) && Decide(n.flying[i].hop, n.flying[i].envelope).Local?
    ensures var n' := Apply(n, m);
            Returning(n', i', e) && (Follow(n'.flying[i'].envelope, n'.flying[i'].hop).Arrived? <==> AckReturns(e))
    ensures Delivered(Hears(n, m), e) && !Acknowledged(Hears(n, m), e)
  {
    hide Route, Emissions, IsRelayAck, TellsDelivered, TellsAcked, Follow, Unseen, AckKey, Reversed;
    var p := n.flying[i];
    var r := n.routers[p.hop];
    MessageLocal(r, p, m.ctx, e);
    RouteKeepsLocalId(r, p.envelope, m.ctx);
    var ack := DeliveryAck(p.hop, p.envelope, m.ctx);
    FollowAlike(ack, AckPacket(e).envelope, FirstHop(ack));
    hide Decide;
    var n' := Apply(n, m);
    assert n'.flying == Without(n.flying, i) + [Packet(FirstHop(ack), ack)];
    i' := |n.flying| - 1;
    assert Heard(p.hop, Route(r, p.envelope, m.ctx).1) in Hears(n, m);
  }

  /**
   One message in any network that has not seen it, delivered in any order, losing nothing, until nothing is
   in flight: the recipient's router has delivered it iff its chain and TTL carry it there, and the sender's
   has reported the delivery ACK iff, besides, the reversed chain does not loop.
   */
  lemma LosslessDeliveryIff(n: Net, e: Envelope, ms: seq<Move>)
    requires WellFormed(n) && n.flying == [Packet(FirstHop(e), e)] && e.msgType.Content? && Open(n.routers, e)
    requires Complete(n, ms)
    ensures var carried := |e.via| <= MAX_RELAY_DEPTH && !Loops(e) && Relays(e) <= e.ttl;
            && (Delivered(Heards(n, ms), e) <==> carried)
            && (Acknowledged(Heards(n, ms), e) <==> carried && !Loops(AckPacket(e).envelope))
  {
    hide Complete, Open, Heards, Delivered, Acknowledged, Turn, Follow;
    TravelsIff(n, ms, 0, e);
    ReachesIff(e);
    if |e.via| <= MAX_RELAY_DEPTH { DeliveryAckReturnsIff(e.to, e, Context(0, 0, "")); }
  }

  /** In particular, over distinct relays that the TTL covers, it is delivered and its sender told. */
  lemma DistinctRelaysDeliver(n: Net, e: Envelope, ms: seq<Move>)
    requires WellFormed(n) && n.flying == [Packet(FirstHop(e), e)] && e.msgType.Content? && Open(n.routers, e)
    requires Complete(n, ms)
    requires |e.via| <= MAX_RELAY_DEPTH && Distinct(e.via) && |e.via| <= e.ttl
    ensures Delivered(Heards(n, ms), e) && Acknowledged(Heards(n, ms), e)
  {
    hide Complete, Open, Heards, Delivered, Acknowledged, Turn;
    LosslessDeliveryIff(n, e, ms);
    DistinctNeverLoops(e);
    var ack := AckPacket(e).envelope;
    forall i, j | 0 <= i < j < |ack.via|
      ensures ack.via[i] != ack.via[j]
    {
      assert ack.via[i] == e.via[|e.via| - 1 - i] && ack.via[j] == e.via[|e.via| - 1 - j];
    }
    DistinctNeverLoops(ack);
  }
}
