/** The routing engine as the object that owns the caches, together with what it has delivered so far. */
module RouterObjects {
  import opened Common
  import opened Envelopes
  import opened Routing
  import opened RouterRuns

  /** Every event seen with the key of `s` is at least `ttl` older. */
  ghost predicate Distant(seen: seq<Stamp>, s: Stamp, ttl: nat) {
    forall x <- seen :: KeyOf(x) == KeyOf(s) ==> x.time + ttl <= s.time
  }

  ghost predicate Seen(seen: seq<Stamp>, key: string) {
    exists x <- seen :: KeyOf(x) == key
  }

  /** One of the last `MAX_NONCE_CACHE` nonces accepted. */
  ghost predicate Recent(accepted: seq<Nonce>, nonce: Nonce) {
    nonce in accepted[Max(0, |accepted| - MAX_NONCE_CACHE)..]
  }

  function ContentStamp(e: Envelope, now: nat): Stamp {
    Stamp(e.id, e.from, None, now)
  }

  /** A key that is not cached was last seen long ago; one that is was seen. */
  lemma CacheTells(cache: Cache, ttl: nat, now: nat, seen: seq<Stamp>, s: Stamp)
    requires Sound(cache, ttl, now, seen) && s.time == now
    ensures KeyOf(s) !in cache ==> Distant(seen, s, ttl)
    ensures KeyOf(s) in cache ==> Seen(seen, KeyOf(s))
  {
    hide KeyOf;
  }

  lemma DeliverTells(t: Trace, e: Envelope, ctx: Context)
    requires Inv(t) && ctx.now == t.clock
    ensures match HandleDeliver(t.router, e, ctx).1
            case Deliver(_, _) =>
              && Distant(t.delivered, ContentStamp(e, ctx.now), DEDUP_TTL)
              && (GuardNonce(e).Some? ==> !Recent(t.nonces, GuardNonce(e).value))
            case Drop =>
              && HandleDeliver(t.router, e, ctx).0 == t.router
              && (|| Seen(t.delivered, MessageKey(e.id, e.from))
                  || (GuardNonce(e).Some? && Recent(t.nonces, GuardNonce(e).value)))
            case _ => false
  {
    assert KeyOf(ContentStamp(e, ctx.now)) == MessageKey(e.id, e.from);
    hide Sound, KeyOf, MessageKey, Distant, Seen, LruPush, CleanUp, NoncesSpaced;
    CacheTells(t.router.messages, DEDUP_TTL, t.clock, t.delivered, ContentStamp(e, ctx.now));
  }

  lemma AckTells(t: Trace, s: Stamp)
    requires Inv(t) && s.time == t.clock
    ensures KeyOf(s) !in t.router.acks ==> Distant(t.acked, s, ACK_TTL)
    ensures KeyOf(s) in t.router.acks ==> Seen(t.acked, KeyOf(s))
  {
    hide Sound, KeyOf, Distant, Seen, NoncesSpaced;
    CacheTells(t.router.acks, ACK_TTL, t.clock, t.acked, s);
  }

  class RouterObject {
    const localId: NodeId
    var messages: Cache
    var acks: Cache
    var nonces: seq<Nonce>

    ghost var clock: nat
    ghost var delivered: seq<Stamp>
    ghost var acked: seq<Stamp>
    ghost var accepted: seq<Nonce>

    ghost function View(): Router
      reads this
    {
      Router(localId, messages, acks, nonces)
    }

    /** The engine with the books of what it has delivered, acknowledged and accepted. */
    ghost function Books(): Trace
      reads this
    {
      Trace(View(), clock, delivered, acked, accepted)
    }

    ghost predicate Valid()
      reads this
    {
      Inv(Books())
    }

    constructor (localId: NodeId)
      ensures Valid() && Books() == Start(localId)
    {
      this.localId := localId;
      messages, acks, nonces := map[], map[], [];
      clock, delivered, acked, accepted := 0, [], [], [];
    }

    /** One call of `route` is one event of a run; the clock of the calls never goes back. */
    method Route(e: Envelope, ctx: Context) returns (a: Action)
      requires Valid() && clock <= ctx.now
      modifies this
      ensures Valid() && (View(), a) == Routing.Route(old(View()), e, ctx)
      ensures Books() == Step(old(Books()), Incoming(e, ctx.now - old(clock), ctx.wallClock, ctx.freshId))
    {
      hide Inv, Routing.Route;
      WaitKeepsInv(Books(), ctx.now);
      clock := ctx.now;
      a := Dispatch(e, ctx);
    }

    method Dispatch(e: Envelope, ctx: Context) returns (a: Action)
      requires Valid() && clock == ctx.now
      modifies this
      ensures Valid() && (View(), a) == Routing.Route(old(View()), e, ctx)
      ensures Books() == Step(old(Books()), Incoming(e, 0, ctx.wallClock, ctx.freshId))
    {
      hide Inv, Position, HandleDeliver, HandleAck, HandleReadReceipt, DeliveryAck, RelayAck, KeyOf, MessageKey,
           Distant, Seen, Recent;
      AppendNothing(delivered);
      AppendNothing(acked);
      AppendNothing(accepted);
      if |e.via| > MAX_RELAY_DEPTH {
        return Reject(TooDeep);
      }
      if e.to == localId {
        match e.msgType {
          case Ack => a := RouteAck(e, ctx);
          case ReadReceipt => a := RouteReceipt(e, ctx);
          case Content(_) => a := RouteContent(e, ctx);
        }
        return;
      }
      var pos := Position(e.via, localId);
      if pos < |e.via| {
        a := ForwardInChain(e, pos, ctx);
      } else {
        a := ForwardDirect(e, ctx);
      }
    }

    /** `HashMap::retain` with the age of the entries. */
    method Retain(cache: Cache, now: nat, ttl: nat) returns (kept: Cache)
      requires ttl > 0
      ensures kept == Retained(cache, now, ttl)
    {
      kept := cache;
      var rest := cache.Keys;
      while rest != {}
        invariant rest <= cache.Keys
        invariant forall k :: k in kept <==> k in cache && (k in rest || now < cache[k] + ttl)
        invariant forall k <- kept :: kept[k] == cache[k]
        decreases |rest|
      {
        var k :| k in rest;
        if Max(0, now - cache[k]) >= ttl {
          kept := kept - {k};
        }
        rest := rest - {k};
      }
    }

    /** The body of `cleanup_caches`; a full cache also sets it off in the middle of a call. */
    method EvictExpired(now: nat)
      modifies `messages, `acks
      ensures View() == CleanUp(old(View()), now)
    {
      hide Retained;
      messages := Retain(messages, now, DEDUP_TTL);
      acks := Retain(acks, now, ACK_TTL);
    }

    /** Drops only what is older than its lifetime: what it forgets can no longer be a repeat. */
    method CleanUpCaches(now: nat)
      requires Valid() && clock <= now
      modifies `messages, `acks, `clock
      ensures Valid() && clock == now && View() == CleanUp(old(View()), now)
      ensures forall k :: k in messages <==> k in old(messages) && now < old(messages)[k] + 600_000
      ensures forall k :: k in acks <==> k in old(acks) && now < old(acks)[k] + 300_000
    {
      hide Inv, CleanUp;
      WaitKeepsInv(Books(), now);
      CleanedTells(View(), now);
      EvictExpired(now);
      clock := now;
    }

    /**
     Delivers only what was not delivered within ten minutes; drops only what was delivered, or a nonce
     seen lately.
     */
    method RouteContent(e: Envelope, ctx: Context) returns (a: Action)
      requires Valid() && clock == ctx.now
      modifies this
      ensures (View(), a) == HandleDeliver(old(View()), e, ctx)
      ensures match a
              case Deliver(e', response) =>
                && e' == e && response == DeliveryAck(localId, e, ctx)
                && Distant(old(delivered), ContentStamp(e, ctx.now), DEDUP_TTL)
                && (e.encrypted && e.payload.Sealed? ==> !Recent(old(accepted), e.payload.nonce))
              case Drop =>
                && View() == old(View())
                && (|| Seen(old(delivered), MessageKey(e.id, e.from))
                    || (e.encrypted && e.payload.Sealed? && Recent(old(accepted), e.payload.nonce)))
              case _ => false
      ensures Valid() && clock == old(clock) && acked == old(acked)
      ensures delivered == old(delivered) + if a.Deliver? then [ContentStamp(e, ctx.now)] else []
      ensures accepted == old(accepted) +
                          if a.Deliver? && e.encrypted && e.payload.Sealed? then [e.payload.nonce] else []
    {
      hide Inv, Distant, Recent, Seen, LruPush, MessageKey, Reversed, CleanUp;
      DeliverTells(Books(), e, ctx);
      if HandleDeliver(View(), e, ctx).1.Deliver? { DeliverKeepsInv(Books(), e, ctx); }
      AppendNothing(delivered);
      AppendNothing(accepted);
      var key := MessageKey(e.id, e.from);
      if key in messages {
        return Drop;
      }
      ghost var added: seq<Nonce> := [];
      if e.encrypted && e.payload.Sealed? {
        if e.payload.nonce in nonces {
          return Drop;
        }
        nonces := LruPush(nonces, MAX_NONCE_CACHE, e.payload.nonce);
        added := [e.payload.nonce];
      }
      if |messages| >= MAX_CACHE_SIZE {
        EvictExpired(ctx.now);
      }
      messages := messages[key := ctx.now];
      delivered := delivered + [ContentStamp(e, ctx.now)];
      accepted := accepted + added;
      a := Deliver(e, DeliveryAck(localId, e, ctx));
    }

    /** Reports an ACK at most once in five minutes, and a malformed one never. */
    method RouteAck(e: Envelope, ctx: Context) returns (a: Action)
      requires Valid() && clock == ctx.now
      modifies this
      ensures (View(), a) == HandleAck(old(View()), e, ctx)
      ensures a.Reject? <==> !e.payload.AckBody?
      ensures e.payload.AckBody? ==>
                var s := AckStamp(e, ctx.now);
                match a
                case Acked(original, ackType, from) =>
                  && original == s.original && from == s.from && s.kind == Some(OfAck(ackType))
                  && Distant(old(acked), s, ACK_TTL)
                case Drop => View() == old(View()) && Seen(old(acked), KeyOf(s))
                case _ => false
      ensures Valid() && clock == old(clock) && delivered == old(delivered) && accepted == old(accepted)
      ensures acked == old(acked) + if a.Acked? then [AckStamp(e, ctx.now)] else []
    {
      hide Inv, Distant, Seen, AckKey, CleanUp;
      AppendNothing(acked);
      if !e.payload.AckBody? {
        return Reject(MalformedAck);
      }
      var key := AckKey(e.payload.original, e.from, OfAck(e.payload.ackType));
      AckTells(Books(), AckStamp(e, ctx.now));
      if key in acks {
        return Drop;
      }
      AckKeepsInv(Books(), key, AckStamp(e, ctx.now));
      if |acks| >= MAX_CACHE_SIZE {
        EvictExpired(ctx.now);
      }
      acks := acks[key := ctx.now];
      acked := acked + [AckStamp(e, ctx.now)];
      a := Acked(e.payload.original, e.payload.ackType, e.from);
    }

    /** The same for read receipts, whose time is neither in the future nor more than a week old. */
    method RouteReceipt(e: Envelope, ctx: Context) returns (a: Action)
      requires Valid() && clock == ctx.now
      modifies this
      ensures (View(), a) == HandleReadReceipt(old(View()), e, ctx)
      ensures a.Reject? <==> !e.payload.ReadBody?
      ensures e.payload.ReadBody? ==>
                var s := AckStamp(e, ctx.now);
                match a
                case Read(original, readAt, from) =>
                  && original == s.original && from == s.from && Distant(old(acked), s, ACK_TTL)
                  && readAt <= ctx.wallClock <= readAt + READ_RECEIPT_MAX_AGE
                  && (e.payload.readAt <= ctx.wallClock <= e.payload.readAt + READ_RECEIPT_MAX_AGE ==>
                        readAt == e.payload.readAt)
                case Drop => View() == old(View()) && Seen(old(acked), KeyOf(s))
                case _ => false
      ensures Valid() && clock == old(clock) && delivered == old(delivered) && accepted == old(accepted)
      ensures acked == old(acked) + if a.Read? then [AckStamp(e, ctx.now)] else []
    {
      hide Inv, Distant, Seen, AckKey, CleanUp;
      AppendNothing(acked);
      if !e.payload.ReadBody? {
        return Reject(MalformedReceipt);
      }
      var key := AckKey(e.payload.original, e.from, OfRead);
      AckTells(Books(), AckStamp(e, ctx.now));
      if key in acks {
        return Drop;
      }
      AckKeepsInv(Books(), key, AckStamp(e, ctx.now));
      if |acks| >= MAX_CACHE_SIZE {
        EvictExpired(ctx.now);
      }
      acks := acks[key := ctx.now];
      acked := acked + [AckStamp(e, ctx.now)];
      a := Read(e.payload.original, Clamped(e.payload.readAt, ctx.wallClock), e.from);
    }

    method ForwardInChain(e: Envelope, position: nat, ctx: Context) returns (a: Action)
      requires e.to != localId && |e.via| <= MAX_RELAY_DEPTH
      requires position == Position(e.via, localId) < |e.via|
      ensures (View(), a) == Routing.Route(View(), e, ctx)
    {
      var nextHop := if position >= |e.via| - 1 then e.to else e.via[position + 1];
      var decremented := DecrementTtl(e);
      if decremented.None? {
        return Reject(TtlExhausted);
      }
      a := Forward(decremented.value, nextHop, RelayAck(localId, decremented.value, ctx));
    }

    method ForwardDirect(e: Envelope, ctx: Context) returns (a: Action)
      requires e.to != localId && |e.via| <= MAX_RELAY_DEPTH && Position(e.via, localId) == |e.via|
      ensures (View(), a) == Routing.Route(View(), e, ctx)
    {
      var decremented := DecrementTtl(e);
      if decremented.None? {
        return Reject(TtlExhausted);
      }
      a := Forward(decremented.value, e.to, RelayAck(localId, decremented.value, ctx));
    }
  }
}
