/** How much traffic one envelope can cause in a network of honest nodes. */
module Amplification {
  import opened Common
  import opened Envelopes
  import opened Routing
  import opened Journeys

  /** An envelope on its way to the node that will route it next. */
  datatype Packet = Packet(hop: NodeId, envelope: Envelope)

  /** What a node sends on: its own ACK over the reversed chain, or the envelope and a relay ACK to its sender. */
  function Emissions(a: Action): seq<Packet> {
    match a
    case Deliver(_, response) => [Packet(FirstHop(response), response)]
    case Forward(e, next, relayAck) => [Packet(next, e), Packet(relayAck.to, relayAck)]
    case _ => []
  }

  /** The nodes that forward a packet from here on. */
  function Hops(p: Packet): nat {
    |Follow(p.envelope, p.hop).visited|
  }

  /** A packet causes a call at each node that forwards it, a relay ACK for each of these, and a last call. */
  function OwnWeight(p: Packet): nat {
    2 * Hops(p) + 1
  }

  /** The way back of the delivery ACK that a message causes where it arrives. */
  function AckPacket(e: Envelope): Packet {
    var ack := DeliveryAck(e.to, e, Context(0, 0, ""));
    Packet(FirstHop(ack), ack)
  }

  /** The calls of `route` that a packet still causes if nothing is lost or dropped. */
  function Weight(p: Packet): nat {
    OwnWeight(p) +
    if p.envelope.msgType.Content? && Follow(p.envelope, p.hop).Arrived? then OwnWeight(AckPacket(p.envelope)) else 0
  }

  /** The journey depends on the chain, the recipient and the TTL alone. */
  lemma {:induction false} FollowAlike(e: Envelope, f: Envelope, at: NodeId)
    requires e.via == f.via && e.to == f.to && e.ttl == f.ttl
    ensures Follow(e, at).Arrived? == Follow(f, at).Arrived? && Follow(e, at).visited == Follow(f, at).visited
    decreases e.ttl
  {
    hide Position, NextHop;
    assert NextHop(e, at) == NextHop(f, at) by { SameNextHop(e, f, at); }
    if Decide(at, e).Hop? {
      FollowAlike(e.(ttl := e.ttl - 1), f.(ttl := f.ttl - 1), NextHop(e, at));
    }
  }

  lemma SameNextHop(e: Envelope, f: Envelope, at: NodeId)
    requires e.via == f.via && e.to == f.to
    ensures NextHop(e, at) == NextHop(f, at)
  {
  }

  lemma {:induction false} VisitsWithinTtl(e: Envelope, at: NodeId)
    ensures |Follow(e, at).visited| <= e.ttl
    decreases e.ttl
  {
    if e.ttl == 0 {
    } else {
      VisitsWithinTtl(e.(ttl := e.ttl - 1), NextHop(e, at));
    }
  }

  function TotalWeight(ps: seq<Packet>): nat {
    if ps == [] then 0 else Weight(ps[0]) + TotalWeight(ps[1..])
  }

  lemma {:induction false} TotalWeightConcat(a: seq<Packet>, b: seq<Packet>)
    ensures TotalWeight(a + b) == TotalWeight(a) + TotalWeight(b)
  {
    if a == [] {
      assert a + b == b;
    } else {
      TotalWeightConcat(a[1..], b);
      assert (a + b)[1..] == a[1..] + b;
    }
  }

  lemma WeightOfTwo(p: Packet, q: Packet)
    ensures TotalWeight([p]) == Weight(p) && TotalWeight([p, q]) == Weight(p) + Weight(q) && TotalWeight([]) == 0
  {
    assert [p][1..] == [] && [q][1..] == [] && [p, q][1..] == [q];
    assert TotalWeight([q]) == Weight(q);
  }

  /** A forward costs the call itself and the relay ACK; the rest goes on with the envelope. */
  lemma ForwardWeighs(e: Envelope, at: NodeId, ctx: Context)
    requires Decide(at, e).Hop?
    ensures var d := Decide(at, e);
            Weight(Packet(d.nextHop, d.envelope)) + Weight(Packet(e.from, RelayAck(at, d.envelope, ctx))) + 1
            == Weight(Packet(at, e))
  {
    var d := Decide(at, e);
    assert Hops(Packet(at, e)) == 1 + Hops(Packet(d.nextHop, d.envelope));
    RelayAckIsDirect(at, d.envelope, ctx);
    hide Follow, Decide;
  }

  /** A delivery costs the call itself; the rest goes on with the delivery ACK. */
  lemma DeliveryWeighs(e: Envelope, at: NodeId, ctx: Context)
    requires Decide(at, e).Local? && e.msgType.Content?
    ensures var ack := DeliveryAck(at, e, ctx);
            Weight(Packet(FirstHop(ack), ack)) + 1 == Weight(Packet(at, e))
  {
    var ack := DeliveryAck(at, e, ctx);
    FollowAlike(ack, AckPacket(e).envelope, FirstHop(ack));
    assert Follow(e, at) == Arrived(e, []);
    hide Follow, Reversed;
  }

  /** Every call of `route`, in any cache state, uses up weight; exactly one unless it drops a message. */
  lemma RouteUsesWeight(r: Router, p: Packet, ctx: Context)
    requires r.localId == p.hop
    ensures var a := Route(r, p.envelope, ctx).1;
            && TotalWeight(Emissions(a)) < Weight(p)
            && (!(p.envelope.msgType.Content? && a.Drop?) ==> TotalWeight(Emissions(a)) + 1 == Weight(p))
  {
    var e := p.envelope;
    var a := Route(r, e, ctx).1;
    RouteTells(r, e, ctx);
    WeightOfTwo(p, p);
    match Decide(p.hop, e)
    case Hop(e', next) =>
      ForwardWeighs(e, p.hop, ctx);
      WeightOfTwo(Packet(next, e'), Packet(e.from, RelayAck(p.hop, e', ctx)));
      assert Weight(Packet(e.from, RelayAck(p.hop, e', ctx))) >= 1;
      hide Route, TotalWeight, Follow, Decide;
    case Refuse(_) =>
      assert Follow(e, p.hop) == Lost([]);
      hide Route, Decide, TotalWeight;
    case Local =>
      assert Follow(e, p.hop) == Arrived(e, []);
      if e.msgType.Content? { DeliveryWeighs(e, p.hop, ctx); }
      var ack := DeliveryAck(p.hop, e, ctx);
      WeightOfTwo(Packet(FirstHop(ack), ack), p);
      hide Route, Decide, TotalWeight, Follow;
  }

  /** What a call emits. */
  lemma RouteTells(r: Router, e: Envelope, ctx: Context)
    ensures var a := Route(r, e, ctx).1;
            match Decide(r.localId, e)
            case Hop(e', next) =>
              !a.Drop? && Emissions(a) == [Packet(next, e'), Packet(e.from, RelayAck(r.localId, e', ctx))]
            case Refuse(_) => Emissions(a) == [] && !a.Drop?
            case Local =>
              var ack := DeliveryAck(r.localId, e, ctx);
              Emissions(a) == if e.msgType.Content? && !a.Drop? then [Packet(FirstHop(ack), ack)] else []
  {
    hide LruPush, CleanUp, RecordAck, Position, Reversed;
  }

  // ---------------------------------------------------------------------------------------------
  // Runs of a whole network
  // ---------------------------------------------------------------------------------------------

  /** The routers of all nodes, and the packets in flight. */
  datatype Net = Net(routers: map<NodeId, Router>, flying: seq<Packet>)

  /** The network delivers packet number `i` to its hop, or loses it; or a node cleans its caches. */
  datatype Move = Arrive(i: nat, ctx: Context) | Lose(i: nat) | CleanCaches(node: NodeId, now: nat)

  ghost predicate WellFormed(n: Net) {
    forall k <- n.routers :: n.routers[k].localId == k
  }

  function Without(ps: seq<Packet>, i: nat): seq<Packet>
    requires i < |ps|
  {
    ps[..i] + ps[i + 1..]
  }

  /** Whether a move is a call of `route`: it is one when there is such a packet and its hop is a node. */
  predicate Calls(n: Net, m: Move) {
    m.Arrive? && m.i < |n.flying| && n.flying[m.i].hop in n.routers
  }

  function Apply(n: Net, m: Move): Net {
    match m
    case Arrive(i, ctx) =>
      if !Calls(n, m) then n
      else
        var p := n.flying[i];
        var (r, a) := Route(n.routers[p.hop], p.envelope, ctx);
        Net(n.routers[p.hop := r], Without(n.flying, i) + Emissions(a))
    case Lose(i) => if i < |n.flying| then n.(flying := Without(n.flying, i)) else n
    case CleanCaches(node, now) =>
      if node in n.routers then n.(routers := n.routers[node := CleanUp(n.routers[node], now)]) else n
  }

  lemma WithoutUsesWeight(ps: seq<Packet>, i: nat)
    requires i < |ps|
    ensures TotalWeight(Without(ps, i)) + Weight(ps[i]) == TotalWeight(ps)
  {
    hide Weight;
    assert ps == ps[..i] + ps[i..] && ps[i..][1..] == ps[i + 1..];
    assert TotalWeight(ps[i..]) == Weight(ps[i]) + TotalWeight(ps[i + 1..]);
    hide TotalWeight;
    TotalWeightConcat(ps[..i], ps[i + 1..]);
    TotalWeightConcat(ps[..i], ps[i..]);
  }

  lemma RouteKeepsLocalId(r: Router, e: Envelope, ctx: Context)
    ensures Route(r, e, ctx).0.localId == r.localId
  {
  }

  lemma ApplyUsesWeight(n: Net, m: Move)
    requires WellFormed(n)
    ensures WellFormed(Apply(n, m))
    ensures TotalWeight(Apply(n, m).flying) + (if Calls(n, m) then 1 else 0) <= TotalWeight(n.flying)
  {
    hide TotalWeight, Route, Without, Emissions, Weight;
    if Calls(n, m) {
      var p := n.flying[m.i];
      RouteUsesWeight(n.routers[p.hop], p, m.ctx);
      RouteKeepsLocalId(n.routers[p.hop], p.envelope, m.ctx);
      WithoutUsesWeight(n.flying, m.i);
      TotalWeightConcat(Without(n.flying, m.i), Emissions(Route(n.routers[p.hop], p.envelope, m.ctx).1));
    } else if m.Lose? && m.i < |n.flying| {
      WithoutUsesWeight(n.flying, m.i);
    }
  }

  /** The number of calls of `route` in a run. */
  function CallCount(n: Net, ms: seq<Move>): nat
    decreases ms
  {
    if ms == [] then 0 else (if Calls(n, ms[0]) then 1 else 0) + CallCount(Apply(n, ms[0]), ms[1..])
  }

  function Final(n: Net, ms: seq<Move>): Net
    decreases ms
  {
    if ms == [] then n else Final(Apply(n, ms[0]), ms[1..])
  }

  /** The run loses nothing and ends with nothing in flight. */
  ghost predicate Complete(n: Net, ms: seq<Move>) {
    (forall m <- ms :: !m.Lose?) && Final(n, ms).flying == []
  }

  lemma {:induction false} CallsAreBounded(n: Net, ms: seq<Move>)
    requires WellFormed(n)
    ensures CallCount(n, ms) <= TotalWeight(n.flying)
    decreases ms
  {
    if ms == [] {
    } else {
      hide WellFormed, TotalWeight, Calls, Apply;
      ApplyUsesWeight(n, ms[0]);
      CallsAreBounded(Apply(n, ms[0]), ms[1..]);
    }
  }

  /** The calls that one message causes if nothing is lost or dropped. */
  function CallsFor(e: Envelope): nat {
    Weight(Packet(FirstHop(e), e))
  }

  /** One message, whatever the schedule, losses and caches, causes at most these calls in the whole network. */
  lemma OneMessageIsBounded(n: Net, e: Envelope, ms: seq<Move>)
    requires WellFormed(n) && n.flying == [Packet(FirstHop(e), e)]
    ensures CallCount(n, ms) <= CallsFor(e)
  {
    CallsAreBounded(n, ms);
    WeightOfTwo(Packet(FirstHop(e), e), Packet(FirstHop(e), e));
  }

  // ---------------------------------------------------------------------------------------------
  // The bound is attained
  // ---------------------------------------------------------------------------------------------

  /** Every node that the packet names is there. */
  ghost predicate Known(nodes: set<NodeId>, p: Packet) {
    p.hop in nodes && p.envelope.to in nodes && p.envelope.from in nodes && forall x <- p.envelope.via :: x in nodes
  }

  /** The router has neither the message nor its nonce in its caches. */
  predicate Unseen(r: Router, e: Envelope) {
    MessageKey(e.id, e.from) !in r.messages && (GuardNonce(e).Some? ==> GuardNonce(e).value !in r.nonces)
  }

  predicate IsContent(p: Packet) {
    p.envelope.msgType.Content?
  }

  /** At most one message is in flight, and its recipient has not seen it. */
  ghost predicate OneMessage(n: Net) {
    && (forall i, j :: 0 <= i < j < |n.flying| ==> !(IsContent(n.flying[i]) && IsContent(n.flying[j])))
    && (forall p <- n.flying :: IsContent(p) ==>
          p.envelope.to in n.routers && Unseen(n.routers[p.envelope.to], p.envelope))
  }

  ghost predicate Lossless(n: Net) {
    WellFormed(n) && OneMessage(n) && forall p <- n.flying :: Known(n.routers.Keys, p)
  }

  lemma EmissionsAreKnown(nodes: set<NodeId>, r: Router, p: Packet, ctx: Context)
    requires Known(nodes, p) && r.localId == p.hop
    ensures forall q <- Emissions(Route(r, p.envelope, ctx).1) :: Known(nodes, q)
  {
    RouteTells(r, p.envelope, ctx);
    hide Route;
    var ack := DeliveryAck(p.hop, p.envelope, ctx);
    forall x <- ack.via
      ensures x in nodes
    {
      var i :| 0 <= i < |ack.via| && ack.via[i] == x;
      assert x == p.envelope.via[|ack.via| - 1 - i];
    }
  }

  /** A message goes on only as itself, and only the first packet that a call emits can be one. */
  lemma EmittedContent(r: Router, e: Envelope, ctx: Context)
    ensures var out := Emissions(Route(r, e, ctx).1);
            && (forall k :: 0 < k < |out| ==> !IsContent(out[k]))
            && (out != [] && IsContent(out[0]) ==>
                  e.msgType.Content? && Route(r, e, ctx).0 == r && out[0].envelope.(ttl := 0) == e.(ttl := 0))
  {
    RouteTells(r, e, ctx);
    hide HandleDeliver, HandleAck, HandleReadReceipt;
  }

  /** Only a message adds to what a router has seen of messages. */
  lemma RouteKeepsUnseen(r: Router, e: Envelope, ctx: Context, f: Envelope)
    requires Unseen(r, f) && !e.msgType.Content?
    ensures Unseen(Route(r, e, ctx).0, f)
  {
    hide Decide, MessageKey, AckKey, GuardNonce;
  }

  lemma UnseenIsDelivered(r: Router, e: Envelope, ctx: Context)
    requires e.msgType.Content? && (Decide(r.localId, e).Local? ==> Unseen(r, e))
    ensures !Route(r, e, ctx).1.Drop?
  {
    hide MessageKey, LruPush, CleanUp;
  }

  lemma ArriveKeepsOneMessage(n: Net, ctx: Context)
    requires Lossless(n) && n.flying != []
    ensures OneMessage(Apply(n, Arrive(0, ctx)))
  {
    var p := n.flying[0];
    assert Known(n.routers.Keys, p);
    var r := n.routers[p.hop];
    var out := Emissions(Route(r, p.envelope, ctx).1);
    var n' := Apply(n, Arrive(0, ctx));
    EmittedContent(r, p.envelope, ctx);
    assert n'.flying == n.flying[1..] + out && n'.routers == n.routers[p.hop := Route(r, p.envelope, ctx).0];
    hide Route, Emissions, Apply;
    assert forall i :: 0 <= i < |n.flying| - 1 ==> n'.flying[i] == n.flying[i + 1];
    forall q <- n'.flying | IsContent(q)
      ensures q.envelope.to in n'.routers && Unseen(n'.routers[q.envelope.to], q.envelope)
    {
      if q in n.flying[1..] && q.envelope.to == p.hop {
        RouteKeepsUnseen(r, p.envelope, ctx, q.envelope);
      }
    }
  }

  lemma ArriveTells(n: Net, ctx: Context)
    requires Lossless(n) && n.flying != []
    ensures var p := n.flying[0];
            && p.hop in n.routers && Calls(n, Arrive(0, ctx)) && Known(n.routers.Keys, p)
            && var (r, a) := Route(n.routers[p.hop], p.envelope, ctx);
               && Apply(n, Arrive(0, ctx)) == Net(n.routers[p.hop := r], Without(n.flying, 0) + Emissions(a))
               && (IsContent(p) ==> !a.Drop?)
  {
    hide Route, Emissions, Without, Unseen;
    var p := n.flying[0];
    assert Known(n.routers.Keys, p);
    if IsContent(p) { UnseenIsDelivered(n.routers[p.hop], p.envelope, ctx); }
  }

  lemma ArriveIsExact(n: Net, ctx: Context)
    requires Lossless(n) && n.flying != []
    ensures var n' := Apply(n, Arrive(0, ctx));
            && Calls(n, Arrive(0, ctx)) && Lossless(n')
            && TotalWeight(n'.flying) + 1 == TotalWeight(n.flying)
  {
    hide Route, Emissions, TotalWeight, Weight, Known, OneMessage, Without, Apply, Calls;
    ArriveTells(n, ctx);
    ArriveKeepsOneMessage(n, ctx);
    var p := n.flying[0];
    var r := n.routers[p.hop];
    var out := Emissions(Route(r, p.envelope, ctx).1);
    RouteUsesWeight(r, p, ctx);
    WithoutUsesWeight(n.flying, 0);
    TotalWeightConcat(Without(n.flying, 0), out);
    RouteKeepsLocalId(r, p.envelope, ctx);
    EmissionsAreKnown(n.routers.Keys, r, p, ctx);
    WithoutIsSubset(n.flying, 0);
    var n' := Apply(n, Arrive(0, ctx));
    assert n'.routers.Keys == n.routers.Keys;
  }

  lemma WithoutIsSubset(ps: seq<Packet>, i: nat)
    requires i < |ps|
    ensures forall p <- Without(ps, i) :: p in ps
  {
  }

  /** Delivering the packets in the order in which they were sent makes every call that the weight allows. */
  lemma {:induction false} LosslessRunAttains(n: Net, ctx: Context) returns (ms: seq<Move>)
    requires Lossless(n)
    ensures CallCount(n, ms) == TotalWeight(n.flying) && Complete(n, ms)
    decreases TotalWeight(n.flying)
  {
    if n.flying == [] {
      ms := [];
    } else {
      ArriveIsExact(n, ctx);
      hide Lossless, TotalWeight, Apply, Calls;
      var rest := LosslessRunAttains(Apply(n, Arrive(0, ctx)), ctx);
      ms := [Arrive(0, ctx)] + rest;
      assert ms[1..] == rest;
    }
  }

  /** So the bound on the calls for one message is exact, in every network that has its nodes and has not seen it. */
  lemma OneMessageAttains(n: Net, e: Envelope)
    requires WellFormed(n) && n.flying == [Packet(FirstHop(e), e)]
    requires Known(n.routers.Keys, Packet(FirstHop(e), e)) && Unseen(n.routers[e.to], e)
    ensures exists ms :: CallCount(n, ms) == CallsFor(e) && Complete(n, ms)
  {
    var ms := LosslessRunAttains(n, Context(0, 0, ""));
    WeightOfTwo(Packet(FirstHop(e), e), Packet(FirstHop(e), e));
    hide CallCount, Complete;
  }

  // ---------------------------------------------------------------------------------------------
  // The most calls for each TTL
  // ---------------------------------------------------------------------------------------------

  /** A message that arrives has passed at most four relays, and so has its ACK; one that loops uses up its TTL. */
  function MostCalls(ttl: nat): nat {
    Max(2 * Min(ttl, MAX_RELAY_DEPTH) + 10, 2 * ttl + 1)
  }

  lemma CallsWithinMost(e: Envelope)
    ensures CallsFor(e) <= MostCalls(e.ttl)
  {
    var p := Packet(FirstHop(e), e);
    ReachesIff(e);
    VisitsWithinTtl(e, FirstHop(e));
    VisitsWithinTtl(AckPacket(e).envelope, AckPacket(e).hop);
    hide Follow, Turn, Reversed;
  }

  lemma RelaysBefore(e: Envelope, k: nat)
    requires Distinct(e.via) && k <= |e.via| && (k < |e.via| ==> e.via[k] == e.to)
    requires forall i :: 0 <= i < k ==> e.via[i] != e.to
    ensures Relays(e) == k
  {
  }

  /** Four distinct relays, the recipient perhaps among them: the ACK passes all of them. */
  lemma StraightCalls(e: Envelope, k: nat)
    requires e.msgType.Content? && |e.via| == MAX_RELAY_DEPTH && Distinct(e.via) && e.from !in e.via
    requires k <= e.ttl && k <= |e.via| && (k < |e.via| ==> e.via[k] == e.to)
    requires forall i :: 0 <= i < k ==> e.via[i] != e.to
    ensures CallsFor(e) == 2 * k + 10
  {
    ReachesIff(e);
    DistinctNeverLoops(e);
    RelaysBefore(e, k);
    DeliveryAckReturns(e.to, e, Context(0, 0, ""));
    hide Follow, Turn, Reversed, Distinct;
  }

  lemma LoopingCalls(e: Envelope)
    requires |e.via| <= MAX_RELAY_DEPTH && Loops(e)
    ensures CallsFor(e) == 2 * e.ttl + 1
  {
    assert Relays(e) > 0;
    FollowLoop(e, 0);
    hide Follow, Turn, Reversed;
  }

  function Message(via: seq<NodeId>, ttl: nat): Envelope {
    Envelope("m", "s", "r", via, Content(0), Plain([]), 0, [], ttl, false)
  }

  /** For every TTL some message causes that many calls. */
  lemma MostCallsIsAttained(ttl: nat)
    ensures exists via :: CallsFor(Message(via, ttl)) == MostCalls(ttl)
  {
    hide CallsFor, Loops;
    if ttl <= 8 {
      var k := Min(ttl, MAX_RELAY_DEPTH);
      var via := ["a", "b", "c", "d"];
      if k < 4 { via := via[k := "r"]; }
      StraightCalls(Message(via, ttl), k);
    } else {
      LoopOfTwo(ttl);
      LoopingCalls(Message(["a", "a"], ttl));
    }
  }

  lemma LoopOfTwo(ttl: nat)
    ensures Loops(Message(["a", "a"], ttl))
  {
    var via := Message(["a", "a"], ttl).via;
    assert via[1] in via[..1] by { assert via[..1][0] == "a"; }
  }
}
