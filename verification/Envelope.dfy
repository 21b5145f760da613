/** Protocol envelopes: owned values that each node copies, changes and sends on. */
module Envelopes {
  import opened Common

  /** A node, named by the text of its public key. */
  type NodeId = string

  type MessageId = string

  type Nonce = seq<Byte>

  datatype MessageType = Ack | ReadReceipt | Content(kind: nat)

  datatype AckType = RelayForwarded | RecipientReceived

  /** What a payload decodes to; the wire encoding is a library's. */
  datatype Payload =
    | AckBody(original: MessageId, ackType: AckType)
    | ReadBody(original: MessageId, readAt: nat)
    | Sealed(ciphertext: seq<Byte>, nonce: Nonce, ephemeral: seq<Byte>)
    | Plain(bytes: seq<Byte>)

  datatype Envelope = Envelope(
    id: MessageId, from: NodeId, to: NodeId, via: seq<NodeId>, msgType: MessageType, payload: Payload,
    timestamp: nat, signature: seq<Byte>, ttl: nat, encrypted: bool)

  const DEFAULT_TTL := 4

  /** An unsigned envelope with the default TTL. */
  function NewVia(id: MessageId, timestamp: nat, from: NodeId, to: NodeId, via: seq<NodeId>,
                  msgType: MessageType, payload: Payload): Envelope {
    Envelope(id, from, to, via, msgType, payload, timestamp, [], DEFAULT_TTL, false)
  }

  /** Where a sender hands an envelope over: the head of its relay chain, or its recipient. */
  function FirstHop(e: Envelope): NodeId {
    if e.via == [] then e.to else e.via[0]
  }

  function DecrementTtl(e: Envelope): Option<Envelope> {
    if e.ttl == 0 then None else Some(e.(ttl := e.ttl - 1))
  }

  /** The canonical bytes to sign: every field but the signature and the TTL, which relays change. */
  datatype Signable = Signable(id: MessageId, from: NodeId, to: NodeId, via: seq<NodeId>, msgType: MessageType,
                               payload: Payload, timestamp: nat, encrypted: bool)

  function SigningBytes(e: Envelope): Signable {
    Signable(e.id, e.from, e.to, e.via, e.msgType, e.payload, e.timestamp, e.encrypted)
  }

  // ---------------------------------------------------------------------------------------------
  // Signing and encryption
  // ---------------------------------------------------------------------------------------------

  type Secret = seq<Byte>

  /** The cryptographic library. */
  datatype Crypto = Crypto(
    publicKey: Secret -> NodeId,
    sign: (Secret, Signable) -> seq<Byte>,
    verify: (NodeId, Signable, seq<Byte>) -> bool,
    encrypt: (seq<Byte>, NodeId) -> Payload,
    decrypt: (Payload, Secret) -> Option<seq<Byte>>)

  const SIGNATURE_LEN := 64

  /** What the library promises: its own signatures verify, and its own ciphertexts open. */
  ghost predicate Lawful(c: Crypto) {
    && (forall k, m :: |c.sign(k, m)| == SIGNATURE_LEN && c.verify(c.publicKey(k), m, c.sign(k, m)))
    && (forall k, b :: c.encrypt(b, c.publicKey(k)).Sealed? && c.decrypt(c.encrypt(b, c.publicKey(k)), k) == Some(b))
  }

  function Sign(c: Crypto, e: Envelope, secret: Secret): Envelope {
    e.(signature := c.sign(secret, SigningBytes(e)))
  }

  predicate VerifySignature(c: Crypto, e: Envelope) {
    |e.signature| == SIGNATURE_LEN && c.verify(e.from, SigningBytes(e), e.signature)
  }

  function EncryptPayload(c: Crypto, e: Envelope, recipient: NodeId): Envelope
    requires e.payload.Plain?
  {
    e.(payload := c.encrypt(e.payload.bytes, recipient), encrypted := true)
  }

  function DecryptPayload(c: Crypto, e: Envelope, secret: Secret): Option<Envelope> {
    if !e.encrypted || !e.payload.Sealed? then None
    else
      match c.decrypt(e.payload, secret)
      case None => None
      case Some(bytes) => Some(e.(payload := Plain(bytes), encrypted := false))
  }

  /** The builder's order: encrypt, then sign, so that the signature covers the ciphertext. */
  function EncryptAndSign(c: Crypto, e: Envelope, secret: Secret, recipient: NodeId): Envelope
    requires e.payload.Plain?
  {
    Sign(c, EncryptPayload(c, e, recipient), secret)
  }

  /** However many relays counted its TTL down, an envelope verifies at the recipient and opens to what was sent. */
  lemma SealedEnvelopeSurvivesRelays(c: Crypto, e: Envelope, sender: Secret, recipient: Secret, hops: nat)
    requires Lawful(c) && e.payload.Plain? && e.from == c.publicKey(sender) && hops <= e.ttl && !e.encrypted
    ensures var sent := EncryptAndSign(c, e, sender, c.publicKey(recipient));
            var arrived := sent.(ttl := sent.ttl - hops);
            && SigningBytes(arrived) == SigningBytes(sent)
            && VerifySignature(c, arrived)
            && DecryptPayload(c, arrived, recipient) == Some(e.(ttl := e.ttl - hops, signature := sent.signature))
  {
    var sealed := EncryptPayload(c, e, c.publicKey(recipient));
    var signature := c.sign(sender, SigningBytes(sealed));
    assert SigningBytes(sealed.(signature := signature, ttl := e.ttl - hops)) == SigningBytes(sealed);
    assert c.decrypt(c.encrypt(e.payload.bytes, c.publicKey(recipient)), recipient) == Some(e.payload.bytes);
  }

  /** What is signed: everything but the TTL and the signature itself. */
  lemma SigningCovers(e: Envelope, f: Envelope)
    ensures SigningBytes(e) == SigningBytes(f) <==> e.(ttl := 0, signature := []) == f.(ttl := 0, signature := [])
  {
  }

  /** What the library promises besides: a signature is good for what was signed, and nothing else. */
  ghost predicate Binding(c: Crypto) {
    forall k, m, m' :: c.verify(c.publicKey(k), m', c.sign(k, m)) ==> m' == m
  }

  /** An envelope that carries the signature of another from the same sender verifies iff only its TTL was changed. */
  lemma VerifiesIffUntouched(c: Crypto, e: Envelope, secret: Secret, f: Envelope)
    requires Lawful(c) && Binding(c) && e.from == c.publicKey(secret) == f.from
    requires f.signature == Sign(c, e, secret).signature
    ensures VerifySignature(c, f) <==> f.(ttl := 0) == Sign(c, e, secret).(ttl := 0)
  {
    SigningCovers(e, f);
  }
}
