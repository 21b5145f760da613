/** Whole runs of one node's routing engine: how far apart repeats are, and that nothing new is dropped. */
module RouterRuns {
  import opened Common
  import opened Envelopes
  import opened Routing

  // ---------------------------------------------------------------------------------------------
  // Cache keys name what they stand for
  // ---------------------------------------------------------------------------------------------

  predicate ColonFree(s: string) {
    ':' !in s
  }

  lemma SplitAtLastColon(a: string, b: string, c: string, d: string)
    requires a + ":" + b == c + ":" + d && ColonFree(b) && ColonFree(d)
    ensures a == c && b == d
  {
    var s := a + ":" + b;
    var t := c + ":" + d;
    assert s[|a|] == ':' && s[|a| + 1..] == b && s[..|a|] == a;
    assert t[|c|] == ':' && t[|c| + 1..] == d && t[..|c|] == c;
  }

  /** The event that a cache entry records: a delivery when `kind` is `None`. */
  datatype Stamp = Stamp(original: MessageId, from: NodeId, kind: Option<AckKind>, time: nat)

  function KeyOf(s: Stamp): string {
    match s.kind
    case None => MessageKey(s.original, s.from)
    case Some(k) => AckKey(s.original, s.from, k)
  }

  predicate SameEvent(s: Stamp, t: Stamp) {
    s.original == t.original && s.from == t.from && s.kind == t.kind
  }

  lemma KindTextInjective(j: AckKind, k: AckKind)
    ensures ColonFree(KindText(j))
    ensures KindText(j) == KindText(k) ==> j == k
  {
    if KindText(j) == KindText(k) {
      assert KindText(OfRead)[1] == 'e' && |KindText(OfRead)| == 4;
      assert |KindText(OfAck(RelayForwarded))| == 14 && |KindText(OfAck(RecipientReceived))| == 17;
    }
  }

  /** Keys of the same cache are equal only for the same event, as long as node ids contain no colon. */
  lemma KeysInjective(s: Stamp, t: Stamp)
    requires ColonFree(s.from) && ColonFree(t.from) && s.kind.None? == t.kind.None?
    ensures KeyOf(s) == KeyOf(t) <==> SameEvent(s, t)
  {
    if KeyOf(s) == KeyOf(t) {
      match s.kind
      case None =>
        SplitAtLastColon(s.original, s.from, t.original, t.from);
      case Some(k) =>
        KindTextInjective(k, t.kind.value);
        KindTextInjective(t.kind.value, k);
        SplitAtLastColon(s.original + ":" + s.from, KindText(k), t.original + ":" + t.from, KindText(t.kind.value));
        SplitAtLastColon(s.original, s.from, t.original, t.from);
    }
  }

  /** With a colon in a node id, two different messages share a key. */
  lemma KeysCollideWithColons()
    ensures MessageKey("a", "b:c") == MessageKey("a:b", "c")
  {
  }

  // ---------------------------------------------------------------------------------------------
  // Runs
  // ---------------------------------------------------------------------------------------------

  /** `delay` is the time since the previous event. */
  datatype Event =
    | Incoming(envelope: Envelope, delay: nat, wallClock: nat, freshId: MessageId)
    | Housekeeping(delay: nat)

  /** What the node has delivered and acknowledged so far, and the nonces that it accepted. */
  datatype Trace = Trace(router: Router, clock: nat, delivered: seq<Stamp>, acked: seq<Stamp>, nonces: seq<Nonce>)

  function Start(localId: NodeId): Trace {
    Trace(Router(localId, map[], map[], []), 0, [], [], [])
  }

  function ActionOf(t: Trace, e: Event): Action
    requires e.Incoming?
  {
    Route(t.router, e.envelope, Context(t.clock + e.delay, e.wallClock, e.freshId)).1
  }

  /** The delivery that an event amounts to, if any. */
  function Delivery(t: Trace, e: Event): seq<Stamp> {
    if e.Incoming? && ActionOf(t, e).Deliver?
    then [Stamp(e.envelope.id, e.envelope.from, None, t.clock + e.delay)] else []
  }

  /** The acknowledgement or read receipt that an event amounts to, if any. */
  function Acknowledgement(t: Trace, e: Event): seq<Stamp> {
    if !e.Incoming? then []
    else
      match ActionOf(t, e)
      case Acked(original, ackType, from) => [Stamp(original, from, Some(OfAck(ackType)), t.clock + e.delay)]
      case Read(original, _, from) => [Stamp(original, from, Some(OfRead), t.clock + e.delay)]
      case _ => []
  }

  function AcceptedNonce(t: Trace, e: Event): seq<Nonce> {
    if e.Incoming? && ActionOf(t, e).Deliver? && GuardNonce(e.envelope).Some?
    then [GuardNonce(e.envelope).value] else []
  }

  function Step(t: Trace, e: Event): Trace {
    var now := t.clock + e.delay;
    Trace(if !e.Incoming? then CleanUp(t.router, now)
          else Route(t.router, e.envelope, Context(now, e.wallClock, e.freshId)).0,
          now,
          t.delivered + Delivery(t, e),
          t.acked + Acknowledgement(t, e),
          t.nonces + AcceptedNonce(t, e))
  }

  function Run(localId: NodeId, es: seq<Event>): Trace {
    if es == [] then Start(localId) else Step(Run(localId, es[..|es| - 1]), es[|es| - 1])
  }

  // ---------------------------------------------------------------------------------------------
  // A timed cache guards what it has seen
  // ---------------------------------------------------------------------------------------------

  /** Every event seen is either still cached, or older than the cache's lifetime. */
  ghost predicate Guards(cache: Cache, ttl: nat, clock: nat, seen: seq<Stamp>) {
    forall s <- seen :: (KeyOf(s) in cache && s.time <= cache[KeyOf(s)]) || s.time + ttl <= clock
  }

  /** Every cached key stands for an event seen, with its time. */
  ghost predicate Backed(cache: Cache, seen: seq<Stamp>) {
    forall k <- cache :: exists s <- seen :: KeyOf(s) == k && s.time == cache[k]
  }

  /** Equal keys are at least a lifetime apart. */
  ghost predicate Spaced(ttl: nat, seen: seq<Stamp>) {
    forall i, j :: 0 <= i < j < |seen| && KeyOf(seen[i]) == KeyOf(seen[j]) ==> seen[i].time + ttl <= seen[j].time
  }

  ghost predicate Sound(cache: Cache, ttl: nat, clock: nat, seen: seq<Stamp>) {
    Guards(cache, ttl, clock, seen) && Backed(cache, seen) && Spaced(ttl, seen)
  }

  lemma RetainKeepsSound(cache: Cache, ttl: nat, clock: nat, now: nat, seen: seq<Stamp>)
    requires Sound(cache, ttl, clock, seen) && clock <= now
    ensures Sound(Retained(cache, now, ttl), ttl, now, seen)
    ensures Sound(cache, ttl, now, seen)
  {
    hide KeyOf;
  }

  lemma RecordKeepsSound(cache: Cache, ttl: nat, now: nat, seen: seq<Stamp>, s: Stamp)
    requires Sound(cache, ttl, now, seen) && KeyOf(s) !in cache && s.time == now
    ensures Sound(cache[KeyOf(s) := now], ttl, now, seen + [s])
  {
    hide KeyOf;
    var all := seen + [s];
    var cache' := cache[KeyOf(s) := now];
    assert all[|seen|] == s;
    forall k <- cache'
      ensures exists x <- all :: KeyOf(x) == k && x.time == cache'[k]
    {
      if k != KeyOf(s) {
        var x :| x in seen && KeyOf(x) == k && x.time == cache[k];
        assert x in all;
      }
    }
    assert forall x :: x in all <==> x in seen || x == s;
    forall i | 0 <= i < |seen| && KeyOf(seen[i]) == KeyOf(s)
      ensures seen[i].time + ttl <= now
    {
      assert seen[i] in seen;
    }
  }

  // ---------------------------------------------------------------------------------------------
  // The nonce cache is a queue of the last nonces accepted
  // ---------------------------------------------------------------------------------------------

  ghost predicate LastOf(cache: seq<Nonce>, accepted: seq<Nonce>, n: nat) {
    cache == accepted[Max(0, |accepted| - n)..]
  }

  ghost predicate NoncesSpaced(accepted: seq<Nonce>, n: nat) {
    forall p, q :: 0 <= p < q < |accepted| && accepted[p] == accepted[q] ==> q - p > n
  }

  lemma PushKeepsLast(cache: seq<Nonce>, accepted: seq<Nonce>, n: nat, nonce: Nonce)
    requires n > 0 && LastOf(cache, accepted, n) && NoncesSpaced(accepted, n) && nonce !in cache
    ensures LastOf(LruPush(cache, n, nonce), accepted + [nonce], n)
    ensures NoncesSpaced(accepted + [nonce], n)
  {
    var all := accepted + [nonce];
    forall p | 0 <= p < |accepted| && accepted[p] == nonce
      ensures |accepted| - p > n
    {
    }
    assert LruPush(cache, n, nonce) == all[Max(0, |all| - n)..];
  }

  // ---------------------------------------------------------------------------------------------
  // The invariant of every run
  // ---------------------------------------------------------------------------------------------

  ghost predicate Inv(t: Trace) {
    && Sound(t.router.messages, DEDUP_TTL, t.clock, t.delivered)
    && Sound(t.router.acks, ACK_TTL, t.clock, t.acked)
    && LastOf(t.router.nonces, t.nonces, MAX_NONCE_CACHE)
    && NoncesSpaced(t.nonces, MAX_NONCE_CACHE)
  }

  /** Time passes, and the caches may be cleaned. */
  lemma WaitKeepsInv(t: Trace, now: nat)
    requires Inv(t) && t.clock <= now
    ensures Inv(t.(clock := now))
    ensures Inv(t.(clock := now, router := CleanUp(t.router, now)))
  {
    hide Sound, LastOf, NoncesSpaced, Retained;
    RetainKeepsSound(t.router.messages, DEDUP_TTL, t.clock, now, t.delivered);
    RetainKeepsSound(t.router.acks, ACK_TTL, t.clock, now, t.acked);
  }

  lemma KeptIfAbsent(cache: Cache, now: nat, ttl: nat, key: string)
    requires key !in cache
    ensures key !in Retained(cache, now, ttl)
  {
  }

  lemma DeliverKeepsInv(t: Trace, e: Envelope, ctx: Context)
    requires Inv(t) && ctx.now == t.clock && HandleDeliver(t.router, e, ctx).1.Deliver?
    ensures var s := Stamp(e.id, e.from, None, ctx.now);
            var nonces := if GuardNonce(e).Some? then [GuardNonce(e).value] else [];
            Inv(t.(router := HandleDeliver(t.router, e, ctx).0, delivered := t.delivered + [s],
                   nonces := t.nonces + nonces))
  {
    hide Sound, LastOf, NoncesSpaced, Retained, LruPush, DeliveryAck;
    var key := MessageKey(e.id, e.from);
    var s := Stamp(e.id, e.from, None, ctx.now);
    assert KeyOf(s) == key;
    hide KeyOf, MessageKey;
    WaitKeepsInv(t, ctx.now);
    KeptIfAbsent(t.router.messages, ctx.now, DEDUP_TTL, key);
    RecordKeepsSound(t.router.messages, DEDUP_TTL, ctx.now, t.delivered, s);
    RecordKeepsSound(CleanUp(t.router, ctx.now).messages, DEDUP_TTL, ctx.now, t.delivered, s);
    if GuardNonce(e).Some? {
      PushKeepsLast(t.router.nonces, t.nonces, MAX_NONCE_CACHE, GuardNonce(e).value);
    } else {
      assert t.nonces + [] == t.nonces;
    }
  }

  lemma AckKeepsInv(t: Trace, key: string, s: Stamp)
    requires Inv(t) && s.time == t.clock && KeyOf(s) == key && key !in t.router.acks
    ensures Inv(t.(router := RecordAck(t.router, key, t.clock), acked := t.acked + [s]))
  {
    hide Sound, LastOf, NoncesSpaced, Retained, KeyOf;
    WaitKeepsInv(t, t.clock);
    KeptIfAbsent(t.router.acks, t.clock, ACK_TTL, key);
    RecordKeepsSound(t.router.acks, ACK_TTL, t.clock, t.acked, s);
    RecordKeepsSound(CleanUp(t.router, t.clock).acks, ACK_TTL, t.clock, t.acked, s);
  }

  /** Which handler an action came from, and that every other action leaves the engine as it was. */
  lemma ActionTells(r: Router, e: Envelope, ctx: Context)
    ensures match Route(r, e, ctx).1
            case Deliver(_, _) => Route(r, e, ctx) == HandleDeliver(r, e, ctx)
            case Acked(original, ackType, from) =>
              var key := AckKey(original, from, OfAck(ackType));
              key !in r.acks && Route(r, e, ctx).0 == RecordAck(r, key, ctx.now)
            case Read(original, _, from) =>
              var key := AckKey(original, from, OfRead);
              key !in r.acks && Route(r, e, ctx).0 == RecordAck(r, key, ctx.now)
            case _ => Route(r, e, ctx).0 == r
  {
    hide RecordAck, AckKey, Decide, LruPush, CleanUp;
  }

  lemma AppendNothing<T>(s: seq<T>)
    ensures s + [] == s
  {
  }

  lemma StepKeepsInv(t: Trace, e: Event)
    requires Inv(t)
    ensures Inv(Step(t, e))
  {
    hide Inv, Route, HandleDeliver, RecordAck, CleanUp, AckKey;
    var now := t.clock + e.delay;
    var t1 := t.(clock := now);
    WaitKeepsInv(t, now);
    AppendNothing(t.delivered);
    AppendNothing(t.acked);
    AppendNothing(t.nonces);
    if e.Incoming? {
      var ctx := Context(now, e.wallClock, e.freshId);
      ActionTells(t.router, e.envelope, ctx);
      match ActionOf(t, e)
      case Deliver(_, _) =>
        DeliverKeepsInv(t1, e.envelope, ctx);
      case Acked(original, ackType, from) =>
        AckKeepsInv(t1, AckKey(original, from, OfAck(ackType)), Stamp(original, from, Some(OfAck(ackType)), now));
      case Read(original, _, from) =>
        AckKeepsInv(t1, AckKey(original, from, OfRead), Stamp(original, from, Some(OfRead), now));
      case _ =>
        assert Step(t, e) == t1;
    }
  }

  lemma {:induction false} RunKeepsInv(localId: NodeId, es: seq<Event>)
    ensures Inv(Run(localId, es))
  {
    if es == [] {
    } else {
      hide Inv, Step;
      RunKeepsInv(localId, es[..|es| - 1]);
      StepKeepsInv(Run(localId, es[..|es| - 1]), es[|es| - 1]);
    }
  }

  // ---------------------------------------------------------------------------------------------
  // The theorems
  // ---------------------------------------------------------------------------------------------

  /** Equal deliveries are ten minutes apart, equal acknowledgements and equal read receipts five. */
  lemma RepeatsAreFarApart(localId: NodeId, es: seq<Event>)
    ensures var t := Run(localId, es);
            && (forall i, j :: 0 <= i < j < |t.delivered| && SameEvent(t.delivered[i], t.delivered[j]) ==>
                  t.delivered[i].time + DEDUP_TTL <= t.delivered[j].time)
            && (forall i, j :: 0 <= i < j < |t.acked| && SameEvent(t.acked[i], t.acked[j]) ==>
                  t.acked[i].time + ACK_TTL <= t.acked[j].time)
  {
    RunKeepsInv(localId, es);
    hide Run;
  }

  /** A nonce is accepted again only after `MAX_NONCE_CACHE` other nonces were accepted in between. */
  lemma NonceRecursLate(localId: NodeId, es: seq<Event>, p: nat, q: nat)
    requires p < q < |Run(localId, es).nonces| && Run(localId, es).nonces[p] == Run(localId, es).nonces[q]
    ensures q - p - 1 >= MAX_NONCE_CACHE
  {
    RunKeepsInv(localId, es);
  }

  /** Node ids are public keys in hexadecimal, so no sender's id contains a colon. */
  ghost predicate PlainSenders(es: seq<Event>) {
    forall e <- es :: e.Incoming? ==> ColonFree(e.envelope.from)
  }

  lemma {:induction false} DeliveredSendersArePlain(localId: NodeId, es: seq<Event>)
    requires PlainSenders(es)
    ensures forall s <- Run(localId, es).delivered :: ColonFree(s.from) && s.kind == None
  {
    if es == [] {
    } else {
      assert forall e <- es[..|es| - 1] :: e in es;
      assert es[|es| - 1] in es;
      DeliveredSendersArePlain(localId, es[..|es| - 1]);
    }
  }

  lemma DropTells(r: Router, e: Envelope, ctx: Context)
    requires e.msgType.Content? && Route(r, e, ctx).1.Drop?
    ensures MessageKey(e.id, e.from) in r.messages || (GuardNonce(e).Some? && GuardNonce(e).value in r.nonces)
  {
    hide MessageKey, LruPush, CleanUp;
  }

  /**
   A message for this node is dropped only if that very message was delivered before, or its nonce is
   among the last `MAX_NONCE_CACHE` accepted.
   */
  lemma DropsOnlyRepeats(localId: NodeId, es: seq<Event>, e: Event)
    requires PlainSenders(es) && e.Incoming? && ColonFree(e.envelope.from) && e.envelope.msgType.Content?
    requires ActionOf(Run(localId, es), e).Drop?
    ensures var t := Run(localId, es);
            || (exists s <- t.delivered :: s.original == e.envelope.id && s.from == e.envelope.from)
            || (e.envelope.encrypted && e.envelope.payload.Sealed? && exists i: nat ::
                  |t.nonces| - MAX_NONCE_CACHE <= i < |t.nonces| && t.nonces[i] == e.envelope.payload.nonce)
  {
    var t := Run(localId, es);
    hide Run, Route, KeyOf, MessageKey, Guards, Spaced, NoncesSpaced, ColonFree;
    RunKeepsInv(localId, es);
    DeliveredSendersArePlain(localId, es);
    DropTells(t.router, e.envelope, Context(t.clock + e.delay, e.wallClock, e.freshId));
    var key := MessageKey(e.envelope.id, e.envelope.from);
    if key in t.router.messages {
      var s :| s in t.delivered && KeyOf(s) == key;
      KeyOfDelivery(e.envelope.id, e.envelope.from);
      KeysInjective(s, Stamp(e.envelope.id, e.envelope.from, None, 0));
    } else {
      var base := Max(0, |t.nonces| - MAX_NONCE_CACHE);
      var j :| 0 <= j < |t.router.nonces| && t.router.nonces[j] == GuardNonce(e.envelope).value;
      assert t.nonces[base + j] == GuardNonce(e.envelope).value;
    }
  }

  lemma KeyOfDelivery(id: MessageId, from: NodeId)
    ensures KeyOf(Stamp(id, from, None, 0)) == MessageKey(id, from)
  {
  }

  /** The event that an acknowledgement or a read receipt stands for. */
  function AckStamp(e: Envelope, now: nat): Stamp
    requires e.payload.AckBody? || e.payload.ReadBody?
  {
    Stamp(e.payload.original, e.from, Some(if e.payload.AckBody? then OfAck(e.payload.ackType) else OfRead), now)
  }

  lemma AckDropTells(r: Router, e: Envelope, ctx: Context)
    requires !e.msgType.Content? && Route(r, e, ctx).1.Drop?
    ensures (e.payload.AckBody? || e.payload.ReadBody?) && KeyOf(AckStamp(e, 0)) in r.acks
  {
    hide AckKey, RecordAck;
  }

  lemma {:induction false} AckedSendersArePlain(localId: NodeId, es: seq<Event>)
    requires PlainSenders(es)
    ensures forall s <- Run(localId, es).acked :: ColonFree(s.from) && s.kind.Some?
  {
    if es == [] {
    } else {
      assert forall e <- es[..|es| - 1] :: e in es;
      assert es[|es| - 1] in es;
      AckedSendersArePlain(localId, es[..|es| - 1]);
      var t := Run(localId, es[..|es| - 1]);
      if es[|es| - 1].Incoming? { AckSender(t, es[|es| - 1]); }
      hide Step, ColonFree;
      assert Run(localId, es).acked == t.acked + Acknowledgement(t, es[|es| - 1]) by { StepAcked(t, es[|es| - 1]); }
    }
  }

  lemma StepAcked(t: Trace, e: Event)
    ensures Step(t, e).acked == t.acked + Acknowledgement(t, e)
  {
    hide Route, CleanUp;
  }

  lemma AckSender(t: Trace, e: Event)
    requires e.Incoming?
    ensures forall s <- Acknowledgement(t, e) :: s.from == e.envelope.from && s.kind.Some?
  {
    hide Decide, AckKey, RecordAck, LruPush, CleanUp, MessageKey;
  }

  /** An ACK or a read receipt for this node is dropped only if that very one was reported before. */
  lemma AckDropsOnlyRepeats(localId: NodeId, es: seq<Event>, e: Event)
    requires PlainSenders(es) && e.Incoming? && ColonFree(e.envelope.from) && !e.envelope.msgType.Content?
    requires ActionOf(Run(localId, es), e).Drop?
    ensures e.envelope.payload.AckBody? || e.envelope.payload.ReadBody?
    ensures exists s <- Run(localId, es).acked :: SameEvent(s, AckStamp(e.envelope, 0))
  {
    var t := Run(localId, es);
    hide Run, Route, KeyOf, Guards, Spaced, NoncesSpaced, LastOf, ColonFree;
    RunKeepsInv(localId, es);
    AckedSendersArePlain(localId, es);
    AckDropTells(t.router, e.envelope, Context(t.clock + e.delay, e.wallClock, e.freshId));
    var s :| s in t.acked && KeyOf(s) == KeyOf(AckStamp(e.envelope, 0));
    KeysInjective(s, AckStamp(e.envelope, 0));
  }

  // ---------------------------------------------------------------------------------------------
  // Encrypted messages, by the fields of their envelopes
  // ---------------------------------------------------------------------------------------------

  /** Event `k` delivered an encrypted message with a sealed payload. */
  predicate DeliversSealed(localId: NodeId, es: seq<Event>, k: nat) {
    && k < |es| && es[k].Incoming? && es[k].envelope.encrypted && es[k].envelope.payload.Sealed?
    && ActionOf(Run(localId, es[..k]), es[k]).Deliver?
  }

  /** How many of the first `n` events did. */
  function SealedDeliveries(localId: NodeId, es: seq<Event>, n: nat): nat
    requires n <= |es|
  {
    if n == 0 then 0
    else SealedDeliveries(localId, es, n - 1) + if DeliversSealed(localId, es, n - 1) then 1 else 0
  }

  /** A step accepts a nonce exactly if it delivers an encrypted message, whose nonce was not among the last ones. */
  lemma StepAcceptsNonce(t: Trace, e: Event)
    requires Inv(t)
    ensures var sealed := e.Incoming? && e.envelope.encrypted && e.envelope.payload.Sealed? && ActionOf(t, e).Deliver?;
            && Step(t, e).nonces == t.nonces + (if sealed then [e.envelope.payload.nonce] else [])
            && (sealed ==> e.envelope.payload.nonce !in t.nonces[Max(0, |t.nonces| - MAX_NONCE_CACHE)..])
  {
    hide Sound, NoncesSpaced, MessageKey, LruPush, CleanUp, Decide;
    if e.Incoming? && ActionOf(t, e).Deliver? {
      ActionTells(t.router, e.envelope, Context(t.clock + e.delay, e.wallClock, e.freshId));
    }
  }

  lemma {:induction false} NoncesAreOfSealed(localId: NodeId, es: seq<Event>, n: nat)
    requires n <= |es|
    ensures |Run(localId, es[..n]).nonces| == SealedDeliveries(localId, es, n)
    ensures n < |es| && DeliversSealed(localId, es, n) ==>
              Run(localId, es[..n + 1]).nonces == Run(localId, es[..n]).nonces + [es[n].envelope.payload.nonce]
  {
    hide Inv, Step, ActionOf;
    if n < |es| {
      StepOfRun(localId, es, n);
      RunKeepsInv(localId, es[..n]);
      StepAcceptsNonce(Run(localId, es[..n]), es[n]);
    }
    if n == 0 {
    } else {
      NoncesAreOfSealed(localId, es, n - 1);
      StepOfRun(localId, es, n - 1);
      RunKeepsInv(localId, es[..n - 1]);
      StepAcceptsNonce(Run(localId, es[..n - 1]), es[n - 1]);
    }
  }

  lemma StepOfRun(localId: NodeId, es: seq<Event>, n: nat)
    requires n < |es|
    ensures Run(localId, es[..n + 1]) == Step(Run(localId, es[..n]), es[n])
  {
    hide Step;
    assert es[..n + 1][..n] == es[..n];
  }

  lemma StepAddsNonces(t: Trace, e: Event)
    ensures t.nonces <= Step(t, e).nonces
  {
    hide AcceptedNonce, Route, CleanUp, Delivery, Acknowledgement;
  }

  lemma {:induction false} NoncesOnlyGrow(localId: NodeId, es: seq<Event>, i: nat, j: nat)
    requires i <= j <= |es|
    ensures Run(localId, es[..i]).nonces <= Run(localId, es[..j]).nonces
    decreases j
  {
    hide Run, Step;
    if i == j {
    } else {
      NoncesOnlyGrow(localId, es, i, j - 1);
      StepOfRun(localId, es, j - 1);
      StepAddsNonces(Run(localId, es[..j - 1]), es[j - 1]);
    }
  }

  /** Two encrypted messages with one nonce are delivered only with 50,000 other encrypted ones in between. */
  lemma EncryptedReplaysAreFarApart(localId: NodeId, es: seq<Event>, i: nat, j: nat)
    requires i < j && DeliversSealed(localId, es, i) && DeliversSealed(localId, es, j)
    requires es[i].envelope.payload.nonce == es[j].envelope.payload.nonce
    ensures SealedDeliveries(localId, es, j) - SealedDeliveries(localId, es, i + 1) >= 50_000
  {
    hide Run, ActionOf;
    var p, q := SealedDeliveries(localId, es, i), SealedDeliveries(localId, es, j);
    NoncesAreOfSealed(localId, es, i);
    NoncesAreOfSealed(localId, es, i + 1);
    NoncesAreOfSealed(localId, es, j);
    NoncesOnlyGrow(localId, es, i + 1, j);
    NoncesOnlyGrow(localId, es, j, j + 1);
    hide SealedDeliveries, DeliversSealed;
    NonceRecursLate(localId, es[..j + 1], p, q);
  }

  // ---------------------------------------------------------------------------------------------
  // What the caches forget
  // ---------------------------------------------------------------------------------------------

  /** An event of which every occurrence is older than the lifetime is not in a cache that was just cleaned. */
  lemma CleanedCacheForgets(cache: Cache, ttl: nat, clock: nat, now: nat, seen: seq<Stamp>, key: string)
    requires Sound(cache, ttl, clock, seen)
    requires forall s <- seen :: KeyOf(s) == key ==> s.time + ttl <= now
    ensures key !in Retained(cache, now, ttl)
  {
    hide KeyOf, Guards, Spaced;
  }

  /** The message is for this node and of a legal depth. */
  predicate ForUs(localId: NodeId, e: Envelope) {
    e.to == localId && |e.via| <= MAX_RELAY_DEPTH
  }

  lemma StepKeepsLocalId(t: Trace, e: Event)
    ensures Step(t, e).router.localId == t.router.localId
  {
    hide Delivery, Acknowledgement, AcceptedNonce, Decide, LruPush, Retained, MessageKey, AckKey;
  }

  lemma {:induction false} RunKeepsLocalId(localId: NodeId, es: seq<Event>)
    ensures Run(localId, es).router.localId == localId
  {
    hide Step;
    if es == [] {
    } else {
      RunKeepsLocalId(localId, es[..|es| - 1]);
      StepKeepsLocalId(Run(localId, es[..|es| - 1]), es[|es| - 1]);
    }
  }

  /** The message was not delivered in the last ten minutes, and its nonce is not among the last 50,000. */
  ghost predicate Fresh(t: Trace, e: Envelope, now: nat) {
    && (forall s <- t.delivered :: s.original == e.id && s.from == e.from ==> s.time + 600_000 <= now)
    && (e.encrypted && e.payload.Sealed? ==> e.payload.nonce !in t.nonces[Max(0, |t.nonces| - 50_000)..])
  }

  lemma UnseenIsDelivered(r: Router, e: Envelope, ctx: Context)
    requires ForUs(r.localId, e) && e.msgType.Content? && MessageKey(e.id, e.from) !in r.messages
    requires e.encrypted && e.payload.Sealed? ==> e.payload.nonce !in r.nonces
    ensures Route(r, e, ctx).1.Deliver?
  {
    hide MessageKey, LruPush, CleanUp, DeliveryAck;
  }

  lemma FreshKeyIsForgotten(localId: NodeId, es: seq<Event>, e: Envelope, now: nat)
    requires PlainSenders(es) && ColonFree(e.from) && Fresh(Run(localId, es), e, now)
    ensures MessageKey(e.id, e.from) !in Retained(Run(localId, es).router.messages, now, DEDUP_TTL)
  {
    var t := Run(localId, es);
    hide Run, Guards, Backed, Spaced, LastOf, NoncesSpaced, ColonFree, Retained, KeyOf, MessageKey;
    RunKeepsInv(localId, es);
    DeliveredSendersArePlain(localId, es);
    var key := MessageKey(e.id, e.from);
    forall s <- t.delivered | KeyOf(s) == key
      ensures s.time + DEDUP_TTL <= now
    {
      KeyOfDelivery(e.id, e.from);
      KeysInjective(s, Stamp(e.id, e.from, None, 0));
    }
    hide Sound;
    CleanedCacheForgets(t.router.messages, DEDUP_TTL, t.clock, now, t.delivered, key);
  }

  /** After housekeeping, every such message is delivered: nothing is dropped for longer than it has to be. */
  lemma FreshIsDelivered(localId: NodeId, es: seq<Event>, delay: nat, e: Event)
    requires PlainSenders(es) && e.Incoming? && ColonFree(e.envelope.from)
    requires e.envelope.msgType.Content? && ForUs(localId, e.envelope)
    requires var t := Run(localId, es); Fresh(t, e.envelope, t.clock + delay)
    ensures ActionOf(Run(localId, es + [Housekeeping(delay)]), e).Deliver?
  {
    hide Run, Sound, NoncesSpaced, Route, ColonFree, Retained, MessageKey, PlainSenders, ForUs;
    var t := Run(localId, es);
    var now := t.clock + delay;
    var cleaned := Run(localId, es + [Housekeeping(delay)]);
    HousekeepingCleans(localId, es, delay);
    RunKeepsInv(localId, es);
    RunKeepsLocalId(localId, es);
    FreshKeyIsForgotten(localId, es, e.envelope, now);
    UnseenIsDelivered(cleaned.router, e.envelope, Context(cleaned.clock + e.delay, e.wallClock, e.freshId));
  }

  lemma HousekeepingCleans(localId: NodeId, es: seq<Event>, delay: nat)
    ensures var t := Run(localId, es);
            Run(localId, es + [Housekeeping(delay)]).router == CleanUp(t.router, t.clock + delay)
  {
    hide Step;
    var all := es + [Housekeeping(delay)];
    assert all[..|es|] == es && all[|es|] == Housekeeping(delay) && all[..|es| + 1] == all;
    StepOfRun(localId, all, |es|);
    StepHousekeeping(Run(localId, es), delay);
  }

  lemma StepHousekeeping(t: Trace, delay: nat)
    ensures Step(t, Housekeeping(delay)).router == CleanUp(t.router, t.clock + delay)
  {
    hide CleanUp, Route;
  }

  lemma CleanedTells(r: Router, now: nat)
    ensures var r' := CleanUp(r, now);
            && (forall k :: k in r'.messages <==> k in r.messages && now < r.messages[k] + 600_000)
            && (forall k :: k in r'.acks <==> k in r.acks && now < r.acks[k] + 300_000)
            && (forall k <- r'.messages :: r'.messages[k] == r.messages[k])
            && (forall k <- r'.acks :: r'.acks[k] == r.acks[k])
  {
  }

  /** At most 10,000 entries, or none older than the lifetime. */
  ghost predicate SmallOrYoung(cache: Cache, now: nat, ttl: nat) {
    |cache| <= 10_000 || forall k <- cache :: now < cache[k] + ttl
  }

  lemma DeliveryKeepsSmallOrYoung(r: Router, e: Envelope, ctx: Context)
    requires HandleDeliver(r, e, ctx).1.Deliver?
    ensures SmallOrYoung(HandleDeliver(r, e, ctx).0.messages, ctx.now, 600_000)
  {
    CleanedTells(r, ctx.now);
    GrowsByOne(r.messages, MessageKey(e.id, e.from), ctx.now);
    hide Retained, LruPush, MessageKey, DeliveryAck;
  }

  lemma RecordKeepsSmallOrYoung(r: Router, key: string, now: nat)
    ensures SmallOrYoung(RecordAck(r, key, now).acks, now, 300_000)
  {
    CleanedTells(r, now);
    GrowsByOne(r.acks, key, now);
    hide Retained;
  }

  /** A full cache is cleaned before it grows, so beyond 10,000 entries it holds only young ones. */
  lemma FullCachesAreYoung(t: Trace, e: Event)
    requires e.Incoming?
    ensures var now := t.clock + e.delay;
            var r := Step(t, e).router;
            match ActionOf(t, e)
            case Deliver(_, _) => SmallOrYoung(r.messages, now, 600_000)
            case Acked(_, _, _) => SmallOrYoung(r.acks, now, 300_000)
            case Read(_, _, _) => SmallOrYoung(r.acks, now, 300_000)
            case _ => r == t.router
  {
    hide Route, RecordAck, HandleDeliver, SmallOrYoung, AckKey;
    var now := t.clock + e.delay;
    var ctx := Context(now, e.wallClock, e.freshId);
    ActionTells(t.router, e.envelope, ctx);
    match ActionOf(t, e)
    case Deliver(_, _) => DeliveryKeepsSmallOrYoung(t.router, e.envelope, ctx);
    case Acked(original, ackType, from) =>
      RecordKeepsSmallOrYoung(t.router, AckKey(original, from, OfAck(ackType)), now);
    case Read(original, _, from) => RecordKeepsSmallOrYoung(t.router, AckKey(original, from, OfRead), now);
    case _ =>
  }

  lemma GrowsByOne(cache: Cache, key: string, now: nat)
    ensures |cache[key := now]| <= |cache| + 1
  {
    assert cache[key := now].Keys == cache.Keys + {key};
  }

  /** Exactly when an envelope is rejected, and for what reason. */
  lemma RejectTells(r: Router, e: Envelope, ctx: Context)
    ensures var a := Route(r, e, ctx).1;
            var legal := |e.via| <= 4;
            && (a == Reject(TooDeep) <==> !legal)
            && (a == Reject(TtlExhausted) <==> legal && e.to != r.localId && e.ttl == 0)
            && (a == Reject(MalformedAck) <==>
                  (legal && e.to == r.localId && e.msgType.Ack? && !e.payload.AckBody?))
            && (a == Reject(MalformedReceipt) <==>
                  (legal && e.to == r.localId && e.msgType.ReadReceipt? && !e.payload.ReadBody?))
  {
    hide RecordAck, AckKey, LruPush, CleanUp, MessageKey, NextHop;
  }

  /** A read receipt is reported with its own time, unless that is in the future or more than a week ago. */
  lemma ReceiptTime(r: Router, e: Envelope, ctx: Context)
    requires Route(r, e, ctx).1.Read?
    ensures e.payload.ReadBody?
    ensures var sent, told := e.payload.readAt, Route(r, e, ctx).1.readAt;
            && (sent <= ctx.wallClock <= sent + 604_800_000 ==> told == sent)
            && (sent > ctx.wallClock ==> told == ctx.wallClock)
            && (sent + 604_800_000 < ctx.wallClock ==> told == ctx.wallClock - 604_800_000)
  {
    hide RecordAck, AckKey, LruPush, CleanUp, MessageKey;
  }
}
