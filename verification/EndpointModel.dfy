/**
 The endpoint's connection slab and lookup tables as one value, and the effect of every operation on it.
 Connection IDs in use are never empty here; connections, TLS and packet decoding are outcomes.
 */
module EndpointModel {
  import opened Common

  type Handle = nat
  type PathId = nat
  type SocketAddr = seq<Byte>

  const PATH_ZERO: PathId := 0
  const RESET_TOKEN_SIZE := 16
  const MAX_CID_SIZE := 20
  const MIN_INITIAL_SIZE := 1200

  datatype Side = Client | Server

  /** The connection IDs issued on one path, by sequence number; `issued` is the next number. */
  datatype PathCids = PathCids(issued: nat, cids: map<nat, ConnectionId>)

  const NO_CIDS := PathCids(0, map[])

  /** A reset token and the address it is expected from. */
  datatype ResetKey = ResetKey(remote: SocketAddr, token: ResetToken)

  datatype Meta = Meta(initCid: ConnectionId, paths: map<PathId, PathCids>, side: Side, resets: map<PathId, ResetKey>)

  datatype Owner = Owner(ch: Handle, path: PathId)

  datatype RouteTo = ToIncoming(idx: nat) | ToConnection(owner: Owner)

  /** The lengths of the datagrams held back for an undecided connection. */
  datatype Buffer = Buffer(datagrams: seq<nat>, totalBytes: nat)

  const EMPTY_BUFFER := Buffer([], 0)

  type ResetTable = map<SocketAddr, map<ResetToken, Handle>>

  /**
   `outstanding` holds the undecided `Incoming` values in the application's hands, by buffer index, with
   their initial destination ID; `orphans` holds the IDs reserved by a `connect` that then failed.
   */
  datatype Endpoint = Endpoint(
    connections: map<Handle, Meta>, cids: map<ConnectionId, Owner>, initial: map<ConnectionId, RouteTo>,
    resets: ResetTable, buffers: map<nat, Buffer>, totalBytes: nat, lastReset: Option<nat>,
    outstanding: map<nat, ConnectionId>, orphans: set<ConnectionId>)

  datatype ServerConfig = ServerConfig(bufferSize: nat, bufferSizeTotal: nat, maxIncoming: nat)

  datatype Config = Config(cidLen: nat, minResetInterval: nat, server: Option<ServerConfig>)

  const NEW_ENDPOINT := Endpoint(map[], map[], map[], map[], map[], 0, None, map[], {})

  // ---------------------------------------------------------------------------------------------
  // Issuing and retiring connection IDs
  // ---------------------------------------------------------------------------------------------

  function PathOf(m: Meta, path: PathId): PathCids {
    if path in m.paths then m.paths[path] else NO_CIDS
  }

  /** `m` after `id` was issued on `path`. */
  function Issued(m: Meta, path: PathId, id: ConnectionId): Meta {
    var p := PathOf(m, path);
    m.(paths := m.paths[path := PathCids(p.issued + 1, p.cids[p.issued := id])])
  }

  function IssueOne(s: Endpoint, ch: Handle, path: PathId, id: ConnectionId): Endpoint
    requires ch in s.connections
  {
    s.(cids := s.cids[id := Owner(ch, path)], connections := s.connections[ch := Issued(s.connections[ch], path, id)])
  }

  function IssueAll(s: Endpoint, ch: Handle, path: PathId, ids: seq<ConnectionId>): Endpoint
    requires ch in s.connections
    decreases ids
  {
    if ids == [] then s else IssueAll(IssueOne(s, ch, path, ids[0]), ch, path, ids[1..])
  }

  /** The generator's results: distinct, in use nowhere, and never empty. */
  ghost predicate FreshIds(s: Endpoint, ids: seq<ConnectionId>) {
    && (forall i :: 0 <= i < |ids| ==> ids[i] !in s.cids && ids[i] != [])
    && (forall i, j :: 0 <= i < j < |ids| ==> ids[i] != ids[j])
  }

  predicate HoldsSequence(s: Endpoint, ch: Handle, path: PathId, sequence: nat) {
    ch in s.connections && path in s.connections[ch].paths && sequence in s.connections[ch].paths[path].cids
  }

  function RetireOne(s: Endpoint, ch: Handle, path: PathId, sequence: nat): Endpoint
    requires HoldsSequence(s, ch, path, sequence)
  {
    var m := s.connections[ch];
    var p := m.paths[path];
    s.(cids := s.cids - {p.cids[sequence]},
       connections := s.connections[ch := m.(paths := m.paths[path := p.(cids := p.cids - {sequence})])])
  }

  // ---------------------------------------------------------------------------------------------
  // Reset tokens
  // ---------------------------------------------------------------------------------------------

  function InsertToken(t: ResetTable, k: ResetKey, ch: Handle): ResetTable {
    t[k.remote := (if k.remote in t then t[k.remote] else map[])[k.token := ch]]
  }

  function RemoveToken(t: ResetTable, k: ResetKey): ResetTable {
    if k.remote !in t then t
    else
      var inner := t[k.remote] - {k.token};
      if inner == map[] then t - {k.remote} else t[k.remote := inner]
  }

  function SetResetToken(s: Endpoint, ch: Handle, path: PathId, k: ResetKey): Endpoint
    requires ch in s.connections
  {
    var m := s.connections[ch];
    var t := if path in m.resets then RemoveToken(s.resets, m.resets[path]) else s.resets;
    s.(connections := s.connections[ch := m.(resets := m.resets[path := k])], resets := InsertToken(t, k, ch))
  }

  function RetireResetToken(s: Endpoint, ch: Handle, path: PathId): Endpoint
    requires ch in s.connections
  {
    var m := s.connections[ch];
    if path !in m.resets then s
    else s.(connections := s.connections[ch := m.(resets := m.resets - {path})],
            resets := RemoveToken(s.resets, m.resets[path]))
  }

  // ---------------------------------------------------------------------------------------------
  // Connections come and go
  // ---------------------------------------------------------------------------------------------

  /** The first IDs of a connection: its own, and that of the preferred address if there is one. */
  function FirstCids(ids: seq<ConnectionId>): PathCids
    requires 1 <= |ids| <= 2
  {
    if |ids| == 1 then PathCids(1, map[0 := ids[0]]) else PathCids(2, map[0 := ids[0], 1 := ids[1]])
  }

  function AddConnection(s: Endpoint, ch: Handle, initCid: ConnectionId, side: Side, ids: seq<ConnectionId>): Endpoint
    requires 1 <= |ids| <= 2
  {
    s.(cids := s.cids + map c | c in ids :: Owner(ch, PATH_ZERO),
       connections := s.connections[ch := Meta(initCid, map[PATH_ZERO := FirstCids(ids)], side, map[])])
  }

  /** Every local connection ID of a connection. */
  function CidsOf(m: Meta): set<ConnectionId> {
    set path, sequence | path in m.paths && sequence in m.paths[path].cids :: m.paths[path].cids[sequence]
  }

  function KeysOf(m: Meta): set<ResetKey> {
    set path | path in m.resets :: m.resets[path]
  }

  /** The table without the given entries, and without the addresses that this leaves empty. */
  function Purged(t: ResetTable, keys: set<ResetKey>): ResetTable {
    map r | r in t && exists k :: k in t[r] && ResetKey(r, k) !in keys ::
      map k | k in t[r] && ResetKey(r, k) !in keys :: t[r][k]
  }

  function Drain(s: Endpoint, ch: Handle): Endpoint {
    if ch !in s.connections then s
    else
      var m := s.connections[ch];
      s.(connections := s.connections - {ch},
         initial := if m.side.Server? then s.initial - {m.initCid} else s.initial,
         cids := s.cids - CidsOf(m),
         resets := Purged(s.resets, KeysOf(m)))
  }

  /** Whether more than three quarters of a short ID space is in use. */
  predicate CidsExhausted(c: Config, inUse: nat) {
    c.cidLen <= 4 && Space(c.cidLen) - inUse < Space(c.cidLen) / 4
  }

  function Space(len: nat): nat {
    if len == 0 then 1 else 256 * Space(len - 1)
  }

  datatype ConnectOutcome = ConnectRefused | SessionFailed | Connected

  /** `valid`: the remote address and version are acceptable. */
  function Connect(s: Endpoint, c: Config, valid: bool, ch: Handle, initCid: ConnectionId, id: ConnectionId,
                   sessionOk: bool): (Endpoint, ConnectOutcome) {
    if CidsExhausted(c, |s.cids|) || !valid then (s, ConnectRefused)
    else if !sessionOk then (s.(cids := s.cids[id := Owner(ch, PATH_ZERO)], orphans := s.orphans + {id}), SessionFailed)
    else (AddConnection(s, ch, initCid, Client, [id]), Connected)
  }

  // ---------------------------------------------------------------------------------------------
  // Incoming connections
  // ---------------------------------------------------------------------------------------------

  function BytesAt(s: Endpoint, idx: nat): nat {
    if idx in s.buffers then s.buffers[idx].totalBytes else 0
  }

  function Unbuffered(s: Endpoint, idx: nat): Endpoint {
    s.(buffers := s.buffers - {idx}, totalBytes := Max(0, s.totalBytes - BytesAt(s, idx)),
       outstanding := s.outstanding - {idx})
  }

  /** `refuse`, `ignore` and a permitted `retry`. */
  function CleanUpIncoming(s: Endpoint, idx: nat): Endpoint
    requires idx in s.outstanding
  {
    var s1 := Unbuffered(s, idx);
    s1.(initial := s1.initial - {s.outstanding[idx]})
  }

  datatype AcceptOutcome = TimedOut | Exhausted | Unauthenticated | HandshakeFailed | Accepted

  /** What the foreign code answers during an `accept`. */
  datatype Answers = Answers(stale: bool, decrypts: bool, handshakeOk: bool)

  function Accept(s: Endpoint, c: Config, idx: nat, a: Answers, ch: Handle,
                  ids: seq<ConnectionId>): (Endpoint, AcceptOutcome)
    requires idx in s.outstanding && 1 <= |ids| <= 2
  {
    var dst := s.outstanding[idx];
    var s1 := Unbuffered(s, idx);
    var forgotten := s1.(initial := s1.initial - {dst});
    if a.stale then (forgotten, TimedOut)
    else if CidsExhausted(c, |s.cids|) then (forgotten, Exhausted)
    else if !a.decrypts then (forgotten, Unauthenticated)
    else
      var s2 := AddConnection(s1, ch, dst, Server, ids);
      var s3 := s2.(initial := s2.initial[dst := ToConnection(Owner(ch, PATH_ZERO))]);
      if a.handshakeOk then (s3, Accepted) else (Drain(s3, ch), HandshakeFailed)
  }

  // ---------------------------------------------------------------------------------------------
  // Stateless resets
  // ---------------------------------------------------------------------------------------------

  const MIN_PADDING := 5
  const IDEAL_PADDING := MIN_PADDING + MAX_CID_SIZE

  /** The sizes a reset in reply to `len` bytes may have; none when it could not be smaller. */
  predicate ResetSize(len: nat, size: nat) {
    && len > RESET_TOKEN_SIZE + MIN_PADDING
    && var most := len - RESET_TOKEN_SIZE - 1;
       if most <= IDEAL_PADDING then size == most + RESET_TOKEN_SIZE
       else IDEAL_PADDING + RESET_TOKEN_SIZE <= size < most + RESET_TOKEN_SIZE
  }

  predicate ResetAllowed(s: Endpoint, c: Config, now: nat) {
    s.lastReset.None? || s.lastReset.value + c.minResetInterval <= now
  }

  /** A reset is sent if the last one is long enough ago and the datagram is large enough. */
  predicate SendsReset(s: Endpoint, c: Config, now: nat, len: nat) {
    ResetAllowed(s, c, now) && len > RESET_TOKEN_SIZE + MIN_PADDING
  }

  function TryReset(s: Endpoint, c: Config, now: nat, len: nat): Endpoint {
    if SendsReset(s, c, now, len) then s.(lastReset := Some(now)) else s
  }

  /** The sizes of a reset exchange: each answers the one before. */
  ghost predicate ResetExchange(sizes: seq<nat>) {
    |sizes| > 0 && forall i :: 0 <= i < |sizes| - 1 ==> ResetSize(sizes[i], sizes[i + 1])
  }

  /**
   A reset is at least 21 bytes and smaller than its cause, so an exchange begun by `L` bytes has at
   most `L - 21` resets.
   */
  lemma {:induction false} ResetExchangeEnds(sizes: seq<nat>)
    requires ResetExchange(sizes)
    ensures forall i :: 0 < i < |sizes| ==> RESET_TOKEN_SIZE + MIN_PADDING <= sizes[i] < sizes[i - 1]
    ensures |sizes| - 1 <= Max(0, sizes[0] - (RESET_TOKEN_SIZE + MIN_PADDING))
  {
    if |sizes| == 1 {
    } else {
      assert ResetSize(sizes[0], sizes[1]);
      forall i | 0 <= i < |sizes[1..]| - 1
        ensures ResetSize(sizes[1..][i], sizes[1..][i + 1])
      {
        assert ResetSize(sizes[i + 1], sizes[i + 2]);
      }
      ResetExchangeEnds(sizes[1..]);
      forall i | 0 < i < |sizes|
        ensures RESET_TOKEN_SIZE + MIN_PADDING <= sizes[i] < sizes[i - 1]
      {
        assert ResetSize(sizes[i - 1], sizes[i - 1 + 1]);
      }
    }
  }

  // ---------------------------------------------------------------------------------------------
  // Datagrams
  // ---------------------------------------------------------------------------------------------

  datatype Kind = Initial | ZeroRtt | OtherLong | Short

  /** `tail`: the last bytes of the first packet, when there are enough of them for a reset token. */
  datatype Datagram = Datagram(kind: Kind, dstCid: ConnectionId, remote: SocketAddr, len: nat, tail: Option<ResetToken>,
                               hasToken: bool)

  /** What the foreign code answers about a first packet, and whether a short packet's ID is one of ours. */
  datatype Verdicts = Verdicts(keysOk: bool, decodes: bool, tokenOk: bool, cidValid: bool)

  function Lookup(s: Endpoint, d: Datagram): Option<RouteTo> {
    if d.dstCid != [] && d.dstCid in s.cids then Some(ToConnection(s.cids[d.dstCid]))
    else if (d.kind.Initial? || d.kind.ZeroRtt?) && d.dstCid in s.initial then Some(s.initial[d.dstCid])
    else if d.tail.Some? && d.remote in s.resets && d.tail.value in s.resets[d.remote] then
      Some(ToConnection(Owner(s.resets[d.remote][d.tail.value], PATH_ZERO)))
    else None
  }

  /** The datagram joins the buffer if both limits allow it. */
  function BufferDatagram(s: Endpoint, c: ServerConfig, idx: nat, len: nat): Endpoint
    requires idx in s.buffers
  {
    var b := s.buffers[idx];
    if b.totalBytes + len <= c.bufferSize && s.totalBytes + len <= c.bufferSizeTotal then
      s.(buffers := s.buffers[idx := Buffer(b.datagrams + [len], b.totalBytes + len)], totalBytes := s.totalBytes + len)
    else s
  }

  /** `Dangling` would be an index or an option that the code unwraps without a check. */
  datatype DatagramOutcome =
    | Dangling | Ignored | Buffered(idx: nat) | Routed(owner: Owner)
    | NewIncoming(idx: nat) | Closed | Reset(sent: bool)

  /** A first packet that is not too short, for which there is room, and whose destination ID has a legal length. */
  predicate WelcomesFirst(s: Endpoint, c: Config, d: Datagram)
    requires c.server.Some?
  {
    && !CidsExhausted(c, |s.cids|) && |s.buffers| < c.server.value.maxIncoming
    && (|d.dstCid| >= 8 || (d.hasToken && |d.dstCid| == c.cidLen))
  }

  /** `idx`: the next free buffer index. */
  function HandleDatagram(s: Endpoint, c: Config, d: Datagram, v: Verdicts, idx: nat,
                          now: nat): (Endpoint, DatagramOutcome)
  {
    match Lookup(s, d)
    case Some(ToIncoming(i)) =>
      if i in s.buffers && c.server.Some? then (BufferDatagram(s, c.server.value, i, d.len), Buffered(i))
      else (s, Dangling)
    case Some(ToConnection(owner)) => (s, Routed(owner))
    case None =>
      if d.kind.Initial? then
        if c.server.None? then (TryReset(s, c, now, d.len), Reset(SendsReset(s, c, now, d.len)))
        else if d.len < MIN_INITIAL_SIZE || !v.keysOk then (s, Ignored)
        else if !WelcomesFirst(s, c, d) then (s, Closed)
        else if !v.decodes then (s, Ignored)
        else if !v.tokenOk then (s, Closed)
        else
          (s.(buffers := s.buffers[idx := EMPTY_BUFFER], initial := s.initial[d.dstCid := ToIncoming(idx)],
              outstanding := s.outstanding[idx := d.dstCid]), NewIncoming(idx))
      else if !d.kind.Short? || !v.cidValid || d.dstCid == [] then (s, Ignored)
      else (TryReset(s, c, now, d.len), Reset(SendsReset(s, c, now, d.len)))
  }
}
