/**
 Many honest nodes, each with a router and a tracker, over a network that may lose, delay, repeat and
 misdeliver envelopes. A sender's tracker never claims more than what happened.
 */
module Networks {
  import opened Common
  import opened Envelopes
  import opened Routing
  import opened Tracking

  datatype Node = Node(router: Router, tracker: Messages)

  /** Node `actor` handled message `id` of sender `from`. */
  datatype Fact = Fact(actor: NodeId, id: MessageId, from: NodeId)

  /**
   `sent` holds every envelope ever put on the wire, with each TTL it had; `delivered` and `forwarded`
   record the `Deliver` and `Forward` results of the routers; `used` holds every message id created; `saved`
   holds what each node last saved of its tracker.
   */
  datatype World = World(nodes: map<NodeId, Node>, sent: set<Envelope>, used: set<MessageId>,
                         delivered: set<Fact>, forwarded: set<Fact>, saved: map<NodeId, map<MessageId, Record>>)

  datatype Event =
    | SendMessage(node: NodeId, envelope: Envelope, now: nat)
    | SendReceipt(node: NodeId, envelope: Envelope)
    | Arrive(node: NodeId, envelope: Envelope, ctx: Context)
    | TrackerTick(node: NodeId, op: Op)
    | CleanCaches(node: NodeId, now: nat)
    | SaveState(node: NodeId, now: nat, epoch: nat)
    | Restart(node: NodeId, now: nat)

  /** Housekeeping of a tracker: marking sent or failed, retrying, evicting, removing. */
  predicate Housekeeping(op: Op) {
    match op
    case AdvanceOp(_, status) => status == Sent
    case FailOp(_) => true
    case ResetOp(_, _) => true
    case RemoveOp(_) => true
    case EvictOp(_) => true
    case TickOp(_, _) => true
    case _ => false
  }

  /** What an honest node does: fresh ids, its own name, content as content, and receipts for what it delivered. */
  predicate Honest(w: World, e: Event) {
    && e.node in w.nodes
    && match e
       case SendMessage(n, env, _) => env.from == n && env.msgType.Content? && env.id !in w.used
       case SendReceipt(n, env) =>
         && env.from == n && env.msgType.ReadReceipt? && env.id !in w.used
         && env.payload.ReadBody? && Fact(n, env.payload.original, env.to) in w.delivered
       case Arrive(_, env, ctx) => env in w.sent && ctx.freshId !in w.used
       case TrackerTick(_, op) => Housekeeping(op)
       case _ => true
  }

  function Mark(m: Messages, a: Action): Messages {
    match a
    case Acked(original, RelayForwarded, _) => Advance(m, original, Relayed).0
    case Acked(original, RecipientReceived, _) => MarkDelivered(m, original).0
    case Read(original, _, _) => Advance(m, original, Status.Read).0
    case _ => m
  }

  function Outgoing(a: Action): set<Envelope> {
    match a
    case Deliver(_, response) => {response}
    case Forward(env, _, relayAck) => {env, relayAck}
    case _ => {}
  }

  function Step(w: World, e: Event): World
    requires Honest(w, e)
  {
    var n := w.nodes[e.node];
    match e
    case SendMessage(_, env, now) =>
      var tracker := Track(n.tracker, env.id, env.to, now).0;
      w.(nodes := w.nodes[e.node := n.(tracker := tracker)], sent := w.sent + {env}, used := w.used + {env.id})
    case SendReceipt(_, env) =>
      w.(sent := w.sent + {env}, used := w.used + {env.id})
    case Arrive(_, env, ctx) =>
      var (r, a) := Route(n.router, env, ctx);
      var fact := Fact(e.node, env.id, env.from);
      World(w.nodes[e.node := Node(r, Mark(n.tracker, a))],
            w.sent + Outgoing(a),
            w.used + {ctx.freshId},
            if a.Deliver? then w.delivered + {fact} else w.delivered,
            if a.Forward? then w.forwarded + {fact} else w.forwarded,
            w.saved)
    case TrackerTick(_, op) =>
      w.(nodes := w.nodes[e.node := n.(tracker := Tracking.Step(n.tracker, op))])
    case CleanCaches(_, now) =>
      w.(nodes := w.nodes[e.node := n.(router := CleanUp(n.router, now))])
    case SaveState(_, now, epoch) =>
      w.(saved := w.saved[e.node := Snapshot(n.tracker, now, epoch)])
    case Restart(_, now) =>
      var records := if e.node in w.saved then w.saved[e.node] else map[];
      w.(nodes := w.nodes[e.node := Node(Router(e.node, map[], map[], []), Restore(map[], records, now))])
  }

  /** The nodes at the start: empty caches and empty trackers. */
  predicate Initial(w: World) {
    && w.sent == {} && w.used == {} && w.delivered == {} && w.forwarded == {} && w.saved == map[]
    && forall k <- w.nodes :: w.nodes[k] == Node(Router(k, map[], map[], []), map[])
  }

  /** `ws` is a run: it starts in an initial world and each world follows from the one before by an honest event. */
  ghost predicate IsRun(ws: seq<World>, es: seq<Event>) {
    && |ws| == |es| + 1 && Initial(ws[0])
    && forall i :: 0 <= i < |es| ==> Honest(ws[i], es[i]) && ws[i + 1] == Step(ws[i], es[i])
  }

  // ---------------------------------------------------------------------------------------------
  // The invariant
  // ---------------------------------------------------------------------------------------------

  /** An ACK or receipt on the wire is backed by what its sender did. */
  ghost predicate Backed(w: World, env: Envelope) {
    match env.msgType
    case Ack =>
      env.payload.AckBody? &&
      var fact := Fact(env.from, env.payload.original, env.to);
      if env.payload.ackType.RecipientReceived? then fact in w.delivered else fact in w.forwarded
    case ReadReceipt => env.payload.ReadBody? && Fact(env.from, env.payload.original, env.to) in w.delivered
    case Content(_) => true
  }

  /** A delivery was of an envelope on the wire, addressed to the node that delivered it. */
  ghost predicate Witnessed(w: World, f: Fact) {
    exists env <- w.sent :: env.id == f.id && env.from == f.from && env.to == f.actor
  }

  /** A tracked message was sent by this node to the recipient on record, and its status is true. */
  ghost predicate Truthful(w: World, node: NodeId, id: MessageId, t: Tracked) {
    && (exists env <- w.sent :: env.id == id && env.from == node && env.to == t.to)
    && (t.status == Relayed ==> exists f <- w.forwarded :: f.id == id && f.from == node)
    && (t.status == Delivered || t.status == Status.Read ==> Fact(t.to, id, node) in w.delivered)
  }

  /** Envelopes of one id differ at most in their TTL. */
  ghost predicate UniqueIds(sent: set<Envelope>) {
    forall a, b :: a in sent && b in sent && a.id == b.id ==> a.(ttl := 0) == b.(ttl := 0)
  }

  ghost predicate WireInv(w: World) {
    && (forall env <- w.sent :: env.id in w.used)
    && UniqueIds(w.sent)
    && (forall env <- w.sent :: Backed(w, env))
    && (forall f <- w.delivered :: Witnessed(w, f))
  }

  ghost predicate TruthfulTracker(w: World, node: NodeId, m: Messages) {
    forall id <- m :: Truthful(w, node, id, m[id])
  }

  /** What a node has saved would be true of a tracker that restores it. */
  ghost predicate TruthfulRecords(w: World, node: NodeId, records: map<MessageId, Record>) {
    forall now :: TruthfulTracker(w, node, Restore(map[], records, now))
  }

  ghost predicate Inv(w: World) {
    && WireInv(w)
    && (forall k <- w.saved :: TruthfulRecords(w, k, w.saved[k]))
    && (forall k <- w.nodes :: w.nodes[k].router.localId == k && TruthfulTracker(w, k, w.nodes[k].tracker))
  }

  // ---------------------------------------------------------------------------------------------
  // Facts only accumulate
  // ---------------------------------------------------------------------------------------------

  ghost predicate Extends(w: World, w': World) {
    w.sent <= w'.sent && w.used <= w'.used && w.delivered <= w'.delivered && w.forwarded <= w'.forwarded
  }

  lemma ExtendsKeepsBacked(w: World, w': World, env: Envelope)
    requires Extends(w, w') && Backed(w, env)
    ensures Backed(w', env)
  {
  }

  lemma ExtendsKeepsWitnessed(w: World, w': World, f: Fact)
    requires Extends(w, w') && Witnessed(w, f)
    ensures Witnessed(w', f)
  {
  }

  lemma ExtendsKeepsTruthful(w: World, w': World, node: NodeId, id: MessageId, t: Tracked)
    requires Extends(w, w') && Truthful(w, node, id, t)
    ensures Truthful(w', node, id, t)
  {
  }

  lemma StepExtends(w: World, e: Event)
    requires Honest(w, e)
    ensures Extends(w, Step(w, e)) && Step(w, e).nodes.Keys == w.nodes.Keys
    ensures forall k <- w.nodes :: k != e.node ==> Step(w, e).nodes[k] == w.nodes[k]
    ensures !e.SaveState? ==> Step(w, e).saved == w.saved
  {
    hide Route, Track, Mark, Outgoing, CleanUp, Tracking.Step, Snapshot, Restore;
  }

  // ---------------------------------------------------------------------------------------------
  // What goes on the wire
  // ---------------------------------------------------------------------------------------------

  /** An envelope with a fresh id may join the wire. */
  lemma FreshKeepsUnique(sent: set<Envelope>, used: set<MessageId>, env: Envelope)
    requires UniqueIds(sent) && (forall x <- sent :: x.id in used) && env.id !in used
    ensures UniqueIds(sent + {env})
  {
  }

  /** So may a copy of one that is there, with another TTL. */
  lemma CopyKeepsUnique(sent: set<Envelope>, env: Envelope, copy: Envelope)
    requires UniqueIds(sent) && env in sent && copy == env.(ttl := copy.ttl)
    ensures UniqueIds(sent + {copy})
  {
    var all := sent + {copy};
    forall a, b | a in all && b in all && a.id == b.id
      ensures a.(ttl := 0) == b.(ttl := 0)
    {
      var a0 := if a in sent then a else env;
      var b0 := if b in sent then b else env;
      assert a0.(ttl := 0) == b0.(ttl := 0);
    }
  }

  /** What an action emits, in terms of the envelope that was routed. */
  lemma EmissionsTell(r: Router, env: Envelope, ctx: Context)
    ensures Route(r, env, ctx).0.localId == r.localId
    ensures match Route(r, env, ctx).1
            case Deliver(_, response) =>
              && env.to == r.localId && response.id == ctx.freshId && response.msgType == Ack
              && response.from == r.localId && response.to == env.from
              && response.payload == AckBody(env.id, RecipientReceived) && response.timestamp == ctx.wallClock
            case Forward(copy, _, relayAck) =>
              && copy == env.(ttl := copy.ttl) && relayAck.id == ctx.freshId && relayAck.msgType == Ack
              && relayAck.from == r.localId && relayAck.to == env.from
              && relayAck.payload == AckBody(env.id, RelayForwarded) && relayAck.timestamp == ctx.wallClock
            case Acked(original, ackType, from) =>
              env.to == r.localId && env.msgType == Ack && env.payload == AckBody(original, ackType) && from == env.from
            case Read(original, _, from) =>
              && env.to == r.localId && env.msgType == ReadReceipt && from == env.from
              && env.payload.ReadBody? && env.payload.original == original
            case _ => true
  {
    hide LruPush, Retained, Position, Reversed, AckKey, MessageKey;
  }

  lemma SendKeepsWire(w: World, w': World, env: Envelope)
    requires WireInv(w) && env.id !in w.used
    requires w'.sent == w.sent + {env} && w'.used == w.used + {env.id}
    requires w'.delivered == w.delivered && w'.forwarded == w.forwarded
    requires Backed(w', env)
    ensures WireInv(w')
  {
    FreshKeepsUnique(w.sent, w.used, env);
    hide UniqueIds, Backed, Witnessed;
    forall x <- w.sent ensures Backed(w', x) { ExtendsKeepsBacked(w, w', x); }
    forall f <- w.delivered ensures Witnessed(w', f) { ExtendsKeepsWitnessed(w, w', f); }
  }

  lemma DeliverKeepsWire(w: World, w': World, env: Envelope, response: Envelope, node: NodeId)
    requires WireInv(w) && env in w.sent && env.to == node && response.id !in w.used
    requires response.msgType == Ack && response.from == node && response.to == env.from
    requires response.payload == AckBody(env.id, RecipientReceived)
    requires w'.sent == w.sent + {response} && w'.used == w.used + {response.id}
    requires w'.delivered == w.delivered + {Fact(node, env.id, env.from)} && w'.forwarded == w.forwarded
    ensures WireInv(w')
  {
    FreshKeepsUnique(w.sent, w.used, response);
    assert Backed(w', response);
    assert Witnessed(w', Fact(node, env.id, env.from)) by { assert env in w'.sent; }
    hide UniqueIds, Backed, Witnessed;
    forall x <- w.sent ensures Backed(w', x) { ExtendsKeepsBacked(w, w', x); }
    forall f <- w.delivered ensures Witnessed(w', f) { ExtendsKeepsWitnessed(w, w', f); }
  }

  lemma ForwardKeepsWire(w: World, w': World, env: Envelope, copy: Envelope, relayAck: Envelope, node: NodeId)
    requires WireInv(w) && env in w.sent && copy == env.(ttl := copy.ttl) && relayAck.id !in w.used
    requires relayAck.msgType == Ack && relayAck.from == node && relayAck.to == env.from
    requires relayAck.payload == AckBody(env.id, RelayForwarded)
    requires w'.sent == w.sent + {copy, relayAck} && w'.used == w.used + {relayAck.id}
    requires w'.delivered == w.delivered && w'.forwarded == w.forwarded + {Fact(node, env.id, env.from)}
    ensures WireInv(w')
  {
    CopyKeepsUnique(w.sent, env, copy);
    FreshKeepsUnique(w.sent + {copy}, w.used, relayAck);
    assert w'.sent == w.sent + {copy} + {relayAck};
    assert Backed(w', relayAck);
    ExtendsKeepsBacked(w, w', env);
    assert Backed(w', copy);
    hide UniqueIds, Backed, Witnessed;
    forall x <- w.sent ensures Backed(w', x) { ExtendsKeepsBacked(w, w', x); }
    forall f <- w.delivered ensures Witnessed(w', f) { ExtendsKeepsWitnessed(w, w', f); }
  }

  /** A step that adds nothing but ids. */
  lemma QuietKeepsWire(w: World, w': World)
    requires WireInv(w) && w'.sent == w.sent && w.used <= w'.used
    requires w'.delivered == w.delivered && w'.forwarded == w.forwarded
    ensures WireInv(w')
  {
    hide UniqueIds, Backed, Witnessed;
    forall x <- w.sent ensures Backed(w', x) { ExtendsKeepsBacked(w, w', x); }
    forall f <- w.delivered ensures Witnessed(w', f) { ExtendsKeepsWitnessed(w, w', f); }
  }

  lemma StepKeepsWire(w: World, e: Event)
    requires Honest(w, e) && WireInv(w) && w.nodes[e.node].router.localId == e.node
    ensures WireInv(Step(w, e))
    ensures Step(w, e).nodes[e.node].router.localId == e.node
  {
    hide WireInv, Route, Track, Mark, Tracking.Step, Extends, Snapshot, Restore;
    var w' := Step(w, e);
    match e
    case SendMessage(_, env, _) => SendKeepsWire(w, w', env);
    case SendReceipt(_, env) => SendKeepsWire(w, w', env);
    case Arrive(node, env, ctx) =>
      EmissionsTell(w.nodes[node].router, env, ctx);
      match Route(w.nodes[node].router, env, ctx).1 {
        case Deliver(_, response) => DeliverKeepsWire(w, w', env, response, node);
        case Forward(copy, _, relayAck) => ForwardKeepsWire(w, w', env, copy, relayAck, node);
        case _ => QuietKeepsWire(w, w');
      }
    case _ => QuietKeepsWire(w, w');
  }

  // ---------------------------------------------------------------------------------------------
  // What the trackers claim
  // ---------------------------------------------------------------------------------------------

  /** An ACK of delivery to the sender comes from the recipient on record: one id, one envelope, one recipient. */
  lemma AckNamesRecipient(w: World, node: NodeId, id: MessageId, t: Tracked, actor: NodeId)
    requires WireInv(w) && Truthful(w, node, id, t) && Fact(actor, id, node) in w.delivered
    ensures actor == t.to
  {
    var env :| env in w.sent && env.id == id && env.from == node && env.to == t.to;
    assert Witnessed(w, Fact(actor, id, node));
    var seen :| seen in w.sent && seen.id == id && seen.from == node && seen.to == actor;
    assert env.(ttl := 0) == seen.(ttl := 0);
  }

  /** An entry after an action: as before, or at the status that the action reports for its id. */
  lemma MarkTells(m: Messages, a: Action, id: MessageId)
    requires id in Mark(m, a)
    ensures id in m && Mark(m, a)[id].to == m[id].to
    ensures Mark(m, a)[id].status == m[id].status ||
            match a
            case Acked(original, RelayForwarded, _) => id == original && Mark(m, a)[id].status == Relayed
            case Acked(original, RecipientReceived, _) => id == original && Mark(m, a)[id].status == Delivered
            case Read(original, _, _) => id == original && Mark(m, a)[id].status == Status.Read
            case _ => false
  {
  }

  /** What an action tells of message `id`, as a rank. */
  function ToldRank(a: Action, id: MessageId): nat {
    match a
    case Acked(original, RelayForwarded, _) => if original == id then Rank(Relayed) else 0
    case Acked(original, RecipientReceived, _) => if original == id then Rank(Delivered) else 0
    case Read(original, _, _) => if original == id then Rank(Status.Read) else 0
    case _ => 0
  }

  /** Conversely, whatever a router reports reaches the tracker: the status rises to what was told. */
  lemma ReportsAreMarked(m: Messages, a: Action, id: MessageId)
    requires id in m && m[id].status != Failed
    ensures id in Mark(m, a) && Rank(Mark(m, a)[id].status) == Max(Rank(m[id].status), ToldRank(a, id))
  {
  }

  /** Only the recipient and the status matter. */
  lemma TruthfulAlike(w: World, node: NodeId, id: MessageId, t: Tracked, t': Tracked)
    requires Truthful(w, node, id, t) && t'.to == t.to
    requires t'.status == t.status || t'.status.Pending? || t'.status.Sent? || t'.status.Failed?
    ensures Truthful(w, node, id, t')
  {
  }

  lemma MarkKeepsTruthful(w: World, node: NodeId, m: Messages, r: Router, env: Envelope, ctx: Context)
    requires WireInv(w) && TruthfulTracker(w, node, m) && env in w.sent && r.localId == node
    ensures TruthfulTracker(w, node, Mark(m, Route(r, env, ctx).1))
  {
    var a := Route(r, env, ctx).1;
    EmissionsTell(r, env, ctx);
    var m' := Mark(m, a);
    assert Backed(w, env);
    hide Route, Mark, UniqueIds, Witnessed;
    forall id <- m'
      ensures Truthful(w, node, id, m'[id])
    {
      MarkTells(m, a, id);
      assert Truthful(w, node, id, m[id]);
      if m'[id].status == m[id].status {
        TruthfulAlike(w, node, id, m[id], m'[id]);
      } else if a.Acked? && a.ackType.RelayForwarded? {
        assert Fact(env.from, id, node) in w.forwarded;
      } else {
        AckNamesRecipient(w, node, id, m[id], env.from);
      }
    }
  }

  lemma HousekeepingTells(m: Messages, op: Op, id: MessageId)
    requires Housekeeping(op) && id in Tracking.Step(m, op)
    ensures id in m && Tracking.Step(m, op)[id].to == m[id].to
    ensures Tracking.Step(m, op)[id].status == m[id].status
            || Tracking.Step(m, op)[id].status.Sent? || Tracking.Step(m, op)[id].status.Failed?
  {
  }

  lemma HousekeepingKeepsTruthful(w: World, node: NodeId, m: Messages, op: Op)
    requires TruthfulTracker(w, node, m) && Housekeeping(op)
    ensures TruthfulTracker(w, node, Tracking.Step(m, op))
  {
    hide Truthful, Tracking.Step;
    forall id <- Tracking.Step(m, op)
      ensures Truthful(w, node, id, Tracking.Step(m, op)[id])
    {
      HousekeepingTells(m, op, id);
      TruthfulAlike(w, node, id, m[id], Tracking.Step(m, op)[id]);
    }
  }

  lemma TrackKeepsTruthful(w: World, node: NodeId, m: Messages, env: Envelope, now: nat)
    requires TruthfulTracker(w, node, m) && env in w.sent && env.from == node
    ensures TruthfulTracker(w, node, Track(m, env.id, env.to, now).0)
  {
  }

  lemma ExtendsKeepsTracker(w: World, w': World, node: NodeId, m: Messages)
    requires Extends(w, w') && TruthfulTracker(w, node, m)
    ensures TruthfulTracker(w', node, m)
  {
    hide Truthful, Extends;
    forall id <- m ensures Truthful(w', node, id, m[id]) { ExtendsKeepsTruthful(w, w', node, id, m[id]); }
  }

  lemma SnapshotIsTruthful(w: World, node: NodeId, m: Messages, now: nat, epoch: nat)
    requires TruthfulTracker(w, node, m)
    ensures TruthfulRecords(w, node, Snapshot(m, now, epoch))
  {
    forall later
      ensures TruthfulTracker(w, node, Restore(map[], Snapshot(m, now, epoch), later))
    {
      var back := Restore(map[], Snapshot(m, now, epoch), later);
      RestoreAfterSnapshot(m, now, epoch, later, later, epoch);
      hide Restore, Snapshot, Truthful;
      forall id <- back ensures Truthful(w, node, id, back[id]) {
        assert back[id].(created := 0, deadline := None) == m[id].(created := 0, deadline := None);
        TruthfulAlike(w, node, id, m[id], back[id]);
      }
    }
  }

  lemma ExtendsKeepsRecords(w: World, w': World, node: NodeId, records: map<MessageId, Record>)
    requires Extends(w, w') && TruthfulRecords(w, node, records)
    ensures TruthfulRecords(w', node, records)
  {
    hide Extends, TruthfulTracker, Restore;
    forall now ensures TruthfulTracker(w', node, Restore(map[], records, now)) {
      ExtendsKeepsTracker(w, w', node, Restore(map[], records, now));
    }
  }

  lemma NoRecordsAreTruthful(w: World, node: NodeId)
    ensures TruthfulRecords(w, node, map[])
  {
    forall now ensures Restore(map[], map[], now) == map[] {}
  }

  /** What the step makes of the tracker of the node that takes it. */
  lemma StepKeepsTracker(w: World, e: Event)
    requires Honest(w, e) && Inv(w)
    ensures TruthfulTracker(Step(w, e), e.node, Step(w, e).nodes[e.node].tracker)
  {
    hide WireInv, TruthfulTracker, Extends, Route, Track, Mark, Tracking.Step, Outgoing, CleanUp, Snapshot, Restore;
    var w' := Step(w, e);
    var m := w.nodes[e.node].tracker;
    StepExtends(w, e);
    StepKeepsWire(w, e);
    ExtendsKeepsTracker(w, w', e.node, m);
    match e
    case SendMessage(node, env, now) => TrackKeepsTruthful(w', node, m, env, now);
    case Arrive(node, env, ctx) => MarkKeepsTruthful(w', node, m, w.nodes[node].router, env, ctx);
    case TrackerTick(node, op) => HousekeepingKeepsTruthful(w', node, m, op);
    case Restart(node, now) =>
      var records := if node in w.saved then w.saved[node] else map[];
      NoRecordsAreTruthful(w, node);
      ExtendsKeepsRecords(w, w', node, records);
      assert TruthfulTracker(w', node, Restore(map[], records, now));
    case _ =>
  }

  lemma StepKeepsRecords(w: World, e: Event)
    requires Honest(w, e) && Inv(w)
    ensures forall k <- Step(w, e).saved :: TruthfulRecords(Step(w, e), k, Step(w, e).saved[k])
  {
    hide WireInv, TruthfulTracker, TruthfulRecords, Extends, Route, Track, Mark, Tracking.Step, Outgoing, CleanUp,
         Snapshot, Restore;
    var w' := Step(w, e);
    StepExtends(w, e);
    forall k <- w.saved ensures TruthfulRecords(w', k, w.saved[k]) { ExtendsKeepsRecords(w, w', k, w.saved[k]); }
    if e.SaveState? {
      ExtendsKeepsTracker(w, w', e.node, w.nodes[e.node].tracker);
      SnapshotIsTruthful(w', e.node, w.nodes[e.node].tracker, e.now, e.epoch);
    }
  }

  lemma StepKeepsInv(w: World, e: Event)
    requires Honest(w, e) && Inv(w)
    ensures Inv(Step(w, e))
  {
    assert e.node in w.nodes;
    hide WireInv, TruthfulTracker, TruthfulRecords, Extends, Step, Honest;
    var w' := Step(w, e);
    StepExtends(w, e);
    StepKeepsWire(w, e);
    StepKeepsTracker(w, e);
    StepKeepsRecords(w, e);
    forall k | k in w.nodes && k != e.node
      ensures w'.nodes[k].router.localId == k && TruthfulTracker(w', k, w'.nodes[k].tracker)
    {
      ExtendsKeepsTracker(w, w', k, w.nodes[k].tracker);
    }
  }

  lemma InitialKeepsInv(w: World)
    requires Initial(w)
    ensures Inv(w)
  {
  }

  lemma {:induction false} RunKeepsInv(ws: seq<World>, es: seq<Event>, i: nat)
    requires IsRun(ws, es) && i < |ws|
    ensures Inv(ws[i])
  {
    hide Inv, Step, Honest, Initial;
    if i == 0 {
      InitialKeepsInv(ws[0]);
    } else {
      RunKeepsInv(ws, es, i - 1);
      assert Honest(ws[i - 1], es[i - 1]) && ws[i] == Step(ws[i - 1], es[i - 1]);
      StepKeepsInv(ws[i - 1], es[i - 1]);
    }
  }

  /**
   In every run, whenever a sender's tracker shows a message as delivered or read, the router of that
   message's recipient has already returned `Deliver` for it; and as relayed, some router has forwarded it.
   */
  lemma TrackersTellTheTruth(ws: seq<World>, es: seq<Event>, i: nat, node: NodeId, id: MessageId)
    requires IsRun(ws, es) && i < |ws| && node in ws[i].nodes && id in ws[i].nodes[node].tracker
    ensures var t := ws[i].nodes[node].tracker[id];
            && (t.status == Delivered || t.status == Status.Read ==>
                  exists k: nat :: k < i && Delivers(ws[k], es, k, Fact(t.to, id, node)))
            && (t.status == Relayed ==>
                  exists k: nat, actor :: k < i && Forwards(ws[k], es, k, Fact(actor, id, node)))
  {
    RunKeepsInv(ws, es, i);
    var w := ws[i];
    var t := w.nodes[node].tracker[id];
    assert TruthfulTracker(w, node, w.nodes[node].tracker);
    assert Truthful(w, node, id, t);
    hide IsRun, Inv, Delivers, Forwards;
    if t.status == Delivered || t.status == Status.Read {
      var k := DeliveredBefore(ws, es, i, Fact(t.to, id, node));
    } else if t.status == Relayed {
      var f :| f in w.forwarded && f.id == id && f.from == node;
      assert f == Fact(f.actor, id, node);
      var k := ForwardedBefore(ws, es, i, f);
    }
  }

  // ---------------------------------------------------------------------------------------------
  // The log records router results
  // ---------------------------------------------------------------------------------------------

  /** Event number `k` was the arrival of an envelope that the router of `f.actor` delivered to its application. */
  ghost predicate Delivers(w: World, es: seq<Event>, k: nat, f: Fact) {
    && k < |es| && es[k].Arrive? && es[k].node == f.actor && f.actor in w.nodes
    && es[k].envelope.id == f.id && es[k].envelope.from == f.from
    && Route(w.nodes[f.actor].router, es[k].envelope, es[k].ctx).1.Deliver?
  }

  ghost predicate Forwards(w: World, es: seq<Event>, k: nat, f: Fact) {
    && k < |es| && es[k].Arrive? && es[k].node == f.actor && f.actor in w.nodes
    && es[k].envelope.id == f.id && es[k].envelope.from == f.from
    && Route(w.nodes[f.actor].router, es[k].envelope, es[k].ctx).1.Forward?
  }

  lemma LogTells(w: World, e: Event, f: Fact)
    requires Honest(w, e)
    ensures f in Step(w, e).delivered && f !in w.delivered ==> Delivers(w, [e], 0, f)
    ensures f in Step(w, e).forwarded && f !in w.forwarded ==> Forwards(w, [e], 0, f)
  {
    hide Route, Track, Mark, Outgoing, CleanUp, Tracking.Step, Snapshot, Restore;
  }

  lemma LogAt(w: World, es: seq<Event>, k: nat, f: Fact)
    requires k < |es|
    ensures Delivers(w, [es[k]], 0, f) ==> Delivers(w, es, k, f)
    ensures Forwards(w, [es[k]], 0, f) ==> Forwards(w, es, k, f)
  {
    hide Route;
  }

  lemma {:induction false} DeliveredBefore(ws: seq<World>, es: seq<Event>, i: nat, f: Fact) returns (k: nat)
    requires IsRun(ws, es) && i < |ws| && f in ws[i].delivered
    ensures k < i && Delivers(ws[k], es, k, f)
  {
    hide Step, Honest, Delivers, Forwards;
    var e := es[i - 1];
    LogTells(ws[i - 1], e, f);
    if f in ws[i - 1].delivered {
      k := DeliveredBefore(ws, es, i - 1, f);
    } else {
      k := i - 1;
      LogAt(ws[k], es, k, f);
    }
  }

  lemma {:induction false} ForwardedBefore(ws: seq<World>, es: seq<Event>, i: nat, f: Fact) returns (k: nat)
    requires IsRun(ws, es) && i < |ws| && f in ws[i].forwarded
    ensures k < i && Forwards(ws[k], es, k, f)
  {
    hide Step, Honest, Delivers, Forwards;
    var e := es[i - 1];
    LogTells(ws[i - 1], e, f);
    if f in ws[i - 1].forwarded {
      k := ForwardedBefore(ws, es, i - 1, f);
    } else {
      k := i - 1;
      LogAt(ws[k], es, k, f);
    }
  }
}
