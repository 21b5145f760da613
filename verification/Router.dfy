/** The routing engine of one node: what to do with an envelope, and the caches that stop replays. */
module Routing {
  import opened Common
  import opened Envelopes

  const MAX_RELAY_DEPTH := 4
  const DEDUP_TTL := 600_000 // milliseconds
  const ACK_TTL := 300_000
  const MAX_CACHE_SIZE := 10_000
  const MAX_NONCE_CACHE := 50_000
  const READ_RECEIPT_MAX_AGE := 7 * 24 * 60 * 60 * 1000

  /** When a cache entry was first seen, by its text key. */
  type Cache = map<string, nat>

  datatype Router = Router(localId: NodeId, messages: Cache, acks: Cache, nonces: seq<Nonce>)

  /** The clocks at a call, and the id for an envelope that it creates. */
  datatype Context = Context(now: nat, wallClock: nat, freshId: MessageId)

  datatype Reason = TooDeep | TtlExhausted | MalformedAck | MalformedReceipt

  datatype Action =
    | Deliver(envelope: Envelope, response: Envelope)
    | Acked(original: MessageId, ackType: AckType, from: NodeId)
    | Read(original: MessageId, readAt: nat, from: NodeId)
    | Forward(envelope: Envelope, nextHop: NodeId, relayAck: Envelope)
    | Reject(reason: Reason)
    | Drop

  // ---------------------------------------------------------------------------------------------
  // Cache keys
  // ---------------------------------------------------------------------------------------------

  function MessageKey(id: MessageId, from: NodeId): string {
    id + ":" + from
  }

  datatype AckKind = OfAck(ackType: AckType) | OfRead

  function KindText(k: AckKind): string {
    match k
    case OfAck(RelayForwarded) => "RelayForwarded"
    case OfAck(RecipientReceived) => "RecipientReceived"
    case OfRead => "read"
  }

  function AckKey(original: MessageId, from: NodeId, kind: AckKind): string {
    original + ":" + from + ":" + KindText(kind)
  }

  // ---------------------------------------------------------------------------------------------
  // The route of an envelope, apart from the caches
  // ---------------------------------------------------------------------------------------------

  datatype Decision = Local | Hop(envelope: Envelope, nextHop: NodeId) | Refuse(reason: Reason)

  function Position(via: seq<NodeId>, node: NodeId): (i: nat)
    ensures i <= |via|
    ensures i < |via| ==> via[i] == node
    ensures forall j :: 0 <= j < i ==> via[j] != node
  {
    if via == [] || via[0] == node then 0 else 1 + Position(via[1..], node)
  }

  function NextHop(e: Envelope, node: NodeId): NodeId {
    var i := Position(e.via, node);
    if i + 1 < |e.via| then e.via[i + 1] else e.to
  }

  function Decide(node: NodeId, e: Envelope): Decision {
    if |e.via| > MAX_RELAY_DEPTH then Refuse(TooDeep)
    else if e.to == node then Local
    else
      match DecrementTtl(e)
      case None => Refuse(TtlExhausted)
      case Some(e') => Hop(e', NextHop(e, node))
  }

  function Reversed(via: seq<NodeId>): (r: seq<NodeId>)
    ensures |r| == |via| && forall i :: 0 <= i < |via| ==> r[i] == via[|via| - 1 - i]
  {
    if via == [] then [] else Reversed(via[1..]) + [via[0]]
  }

  function DeliveryAck(node: NodeId, e: Envelope, ctx: Context): Envelope {
    NewVia(ctx.freshId, ctx.wallClock, node, e.from, Reversed(e.via), Ack, AckBody(e.id, RecipientReceived))
  }

  function RelayAck(node: NodeId, e: Envelope, ctx: Context): Envelope {
    NewVia(ctx.freshId, ctx.wallClock, node, e.from, [], Ack, AckBody(e.id, RelayForwarded))
  }

  // ---------------------------------------------------------------------------------------------
  // The caches
  // ---------------------------------------------------------------------------------------------

  function Retained(cache: Cache, now: nat, ttl: nat): Cache {
    map k | k in cache && now < cache[k] + ttl :: cache[k]
  }

  function CleanUp(r: Router, now: nat): Router {
    r.(messages := Retained(r.messages, now, DEDUP_TTL), acks := Retained(r.acks, now, ACK_TTL))
  }

  /** `push` of a least-recently-used cache, oldest first: move to the end, or append and evict. */
  function LruPush(cache: seq<Nonce>, n: nat, nonce: Nonce): seq<Nonce>
    requires n > 0
  {
    var i := IndexOf(cache, nonce);
    if i < |cache| then cache[..i] + cache[i + 1..] + [nonce]
    else if |cache| >= n then cache[1..] + [nonce]
    else cache + [nonce]
  }

  function IndexOf(s: seq<Nonce>, x: Nonce): (i: nat)
    ensures i <= |s| && (i < |s| <==> x in s) && (i < |s| ==> s[i] == x)
  {
    if s == [] || s[0] == x then 0 else 1 + IndexOf(s[1..], x)
  }

  /** The nonce that guards against replays: that of an encrypted payload which decodes as one. */
  function GuardNonce(e: Envelope): Option<Nonce> {
    if e.encrypted && e.payload.Sealed? then Some(e.payload.nonce) else None
  }

  function HandleDeliver(r: Router, e: Envelope, ctx: Context): (Router, Action) {
    var key := MessageKey(e.id, e.from);
    var nonce := GuardNonce(e);
    if key in r.messages || (nonce.Some? && nonce.value in r.nonces) then (r, Drop)
    else
      var r1 := if nonce.Some? then r.(nonces := LruPush(r.nonces, MAX_NONCE_CACHE, nonce.value)) else r;
      var r2 := if |r1.messages| >= MAX_CACHE_SIZE then CleanUp(r1, ctx.now) else r1;
      (r2.(messages := r2.messages[key := ctx.now]), Deliver(e, DeliveryAck(r.localId, e, ctx)))
  }

  /** Records a key in the ACK cache, making room first if it is full. */
  function RecordAck(r: Router, key: string, now: nat): Router {
    var r' := if |r.acks| >= MAX_CACHE_SIZE then CleanUp(r, now) else r;
    r'.(acks := r'.acks[key := now])
  }

  function HandleAck(r: Router, e: Envelope, ctx: Context): (Router, Action) {
    if !e.payload.AckBody? then (r, Reject(MalformedAck))
    else
      var key := AckKey(e.payload.original, e.from, OfAck(e.payload.ackType));
      if key in r.acks then (r, Drop)
      else (RecordAck(r, key, ctx.now), Acked(e.payload.original, e.payload.ackType, e.from))
  }

  function HandleReadReceipt(r: Router, e: Envelope, ctx: Context): (Router, Action) {
    if !e.payload.ReadBody? then (r, Reject(MalformedReceipt))
    else
      var key := AckKey(e.payload.original, e.from, OfRead);
      if key in r.acks then (r, Drop)
      else (RecordAck(r, key, ctx.now),
            Read(e.payload.original, Clamped(e.payload.readAt, ctx.wallClock), e.from))
  }

  /** Not in the future, and not more than a week ago. */
  function Clamped(readAt: nat, now: nat): (t: nat)
    ensures t <= now <= t + READ_RECEIPT_MAX_AGE
    ensures readAt <= now <= readAt + READ_RECEIPT_MAX_AGE ==> t == readAt
  {
    Max(Min(readAt, now), Max(0, now - READ_RECEIPT_MAX_AGE))
  }

  function Route(r: Router, e: Envelope, ctx: Context): (Router, Action) {
    match Decide(r.localId, e)
    case Refuse(reason) => (r, Reject(reason))
    case Hop(e', next) => (r, Forward(e', next, RelayAck(r.localId, e', ctx)))
    case Local =>
      match e.msgType
      case Ack => HandleAck(r, e, ctx)
      case ReadReceipt => HandleReadReceipt(r, e, ctx)
      case Content(_) => HandleDeliver(r, e, ctx)
  }
}
