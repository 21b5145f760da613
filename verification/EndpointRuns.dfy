/** Whole runs of the endpoint: every event keeps every table in agreement with the connections. */
module EndpointRuns {
  import opened Common
  import opened EndpointModel
  import opened EndpointCids
  import opened EndpointIncoming
  import opened EndpointResets

  datatype Event =
    | Connecting(valid: bool, ch: Handle, initCid: ConnectionId, id: ConnectionId, sessionOk: bool)
    | Arriving(d: Datagram, v: Verdicts, idx: nat, now: nat)
    | Accepting(idx: nat, a: Answers, ch: Handle, ids: seq<ConnectionId>)
    | Forgetting(idx: nat)
    | NeedIdentifiers(ch: Handle, path: PathId, ids: seq<ConnectionId>)
    | NewResetToken(ch: Handle, path: PathId, key: ResetKey)
    | DropResetToken(ch: Handle, path: PathId)
    | RetireConnectionId(ch: Handle, path: PathId, sequence: nat, replacement: seq<ConnectionId>)
    | Drained(ch: Handle)

  /**
   Free slab keys are free, generated IDs are new, an `Incoming` is used once, and events come from
   live connections.
   */
  ghost predicate Possible(s: Endpoint, e: Event) {
    match e
    case Connecting(_, ch, _, id, _) => ch !in s.connections && FreshIds(s, [id])
    case Arriving(_, _, idx, _) => idx !in s.buffers
    case Accepting(idx, _, ch, ids) =>
      idx in s.outstanding && ch !in s.connections && 1 <= |ids| <= 2 && FreshIds(s, ids)
    case Forgetting(idx) => idx in s.outstanding
    case NeedIdentifiers(ch, _, ids) => ch in s.connections && FreshIds(s, ids)
    case NewResetToken(ch, _, _) => ch in s.connections
    case DropResetToken(ch, _) => ch in s.connections
    case RetireConnectionId(ch, path, sequence, replacement) =>
      && ch in s.connections
      && (HoldsSequence(s, ch, path, sequence) ==> FreshIds(RetireOne(s, ch, path, sequence), replacement))
    case Drained(_) => true
  }

  ghost function Apply(s: Endpoint, c: Config, e: Event): Endpoint
    requires Possible(s, e)
  {
    match e
    case Connecting(valid, ch, initCid, id, sessionOk) => Connect(s, c, valid, ch, initCid, id, sessionOk).0
    case Arriving(d, v, idx, now) => HandleDatagram(s, c, d, v, idx, now).0
    case Accepting(idx, a, ch, ids) => Accept(s, c, idx, a, ch, ids).0
    case Forgetting(idx) => CleanUpIncoming(s, idx)
    case NeedIdentifiers(ch, path, ids) => IssueAll(s, ch, path, ids)
    case NewResetToken(ch, path, key) => SetResetToken(s, ch, path, key)
    case DropResetToken(ch, path) => RetireResetToken(s, ch, path)
    case RetireConnectionId(ch, path, sequence, replacement) =>
      if !HoldsSequence(s, ch, path, sequence) then s
      else IssueAll(RetireOne(s, ch, path, sequence), ch, path, replacement)
    case Drained(ch) => Drain(s, ch)
  }

  ghost predicate Inv(s: Endpoint, c: Config) {
    CidInv(s) && InitialInv(s) && ResetInv(s) && BytesInv(s, c)
  }

  // ---------------------------------------------------------------------------------------------
  // Every event keeps the invariant
  // ---------------------------------------------------------------------------------------------

  /** Changes of the paths and the ID table alone. */
  lemma PathsOnlyKeepRest(s: Endpoint, s': Endpoint, c: Config)
    requires InitialInv(s) && ResetInv(s) && BytesInv(s, c)
    requires s' == s.(connections := s'.connections, cids := s'.cids)
    requires s'.connections.Keys == s.connections.Keys
    requires forall ch <- s.connections :: s'.connections[ch] == s.connections[ch].(paths := s'.connections[ch].paths)
    ensures InitialInv(s') && ResetInv(s') && BytesInv(s', c)
  {
    ClientsKeepInitialInv(s, s');
    SameResetsKeepResetInv(s, s');
  }

  lemma IssueKeepsInv(s: Endpoint, c: Config, ch: Handle, path: PathId, id: ConnectionId)
    requires Inv(s, c) && ch in s.connections && id !in s.cids && id != []
    ensures Inv(IssueOne(s, ch, path, id), c)
  {
    hide CidInv, InitialInv, ResetInv, BytesInv;
    IssueKeepsCidInv(s, ch, path, id);
    PathsOnlyKeepRest(s, IssueOne(s, ch, path, id), c);
  }

  lemma {:induction false} IssueAllKeepsInv(s: Endpoint, c: Config, ch: Handle, path: PathId, ids: seq<ConnectionId>)
    requires Inv(s, c) && ch in s.connections && FreshIds(s, ids)
    ensures Inv(IssueAll(s, ch, path, ids), c)
    decreases ids
  {
    if ids == [] {
    } else {
      hide Inv;
      assert ids[0] !in s.cids && ids[0] != [];
      IssueKeepsInv(s, c, ch, path, ids[0]);
      IssueAllKeepsInv(IssueOne(s, ch, path, ids[0]), c, ch, path, ids[1..]);
    }
  }

  lemma RetireKeepsInv(s: Endpoint, c: Config, ch: Handle, path: PathId, sequence: nat)
    requires Inv(s, c) && HoldsSequence(s, ch, path, sequence)
    ensures Inv(RetireOne(s, ch, path, sequence), c)
  {
    hide CidInv, InitialInv, ResetInv, BytesInv;
    RetireKeepsCidInv(s, ch, path, sequence);
    PathsOnlyKeepRest(s, RetireOne(s, ch, path, sequence), c);
  }

  lemma DrainKeepsInv(s: Endpoint, c: Config, ch: Handle)
    requires Inv(s, c)
    ensures Inv(Drain(s, ch), c)
  {
    hide CidInv, InitialInv, ResetInv, BytesInv, CidsOf, KeysOf, Purged;
    DrainKeepsCidInv(s, ch);
    DrainKeepsInitialInv(s, ch);
    DrainKeepsResetInv(s, ch);
    SameBuffersKeepBytesInv(s, Drain(s, ch), c);
  }

  /** Changes of the reset tokens alone. */
  lemma TokensOnlyKeepRest(s: Endpoint, s': Endpoint, c: Config)
    requires CidInv(s) && InitialInv(s) && BytesInv(s, c)
    requires s' == s.(connections := s'.connections, resets := s'.resets)
    requires s'.connections.Keys == s.connections.Keys
    requires forall ch <- s.connections :: s'.connections[ch] == s.connections[ch].(resets := s'.connections[ch].resets)
    ensures CidInv(s') && InitialInv(s') && BytesInv(s', c)
  {
    hide CidInv, InitialInv, BytesInv;
    SamePathsKeepCidInv(s, s');
    ClientsKeepInitialInv(s, s');
    SameBuffersKeepBytesInv(s, s', c);
  }

  lemma SetTokenKeepsInv(s: Endpoint, c: Config, ch: Handle, path: PathId, key: ResetKey)
    requires Inv(s, c) && ch in s.connections
    ensures Inv(SetResetToken(s, ch, path, key), c)
  {
    hide CidInv, InitialInv, ResetInv, BytesInv, InsertToken, RemoveToken;
    SetKeepsResetInv(s, ch, path, key);
    TokensOnlyKeepRest(s, SetResetToken(s, ch, path, key), c);
  }

  lemma RetireTokenKeepsInv(s: Endpoint, c: Config, ch: Handle, path: PathId)
    requires Inv(s, c) && ch in s.connections
    ensures Inv(RetireResetToken(s, ch, path), c)
  {
    hide CidInv, InitialInv, ResetInv, BytesInv, RemoveToken;
    RetireKeepsResetInv(s, ch, path);
    TokensOnlyKeepRest(s, RetireResetToken(s, ch, path), c);
  }

  lemma OrphanKeepsInv(s: Endpoint, c: Config, ch: Handle, id: ConnectionId)
    requires Inv(s, c) && FreshIds(s, [id])
    ensures Inv(s.(cids := s.cids[id := Owner(ch, PATH_ZERO)], orphans := s.orphans + {id}), c)
  {
    assert [id][0] !in s.cids && [id][0] != [];
    hide CidInv, InitialInv, ResetInv, BytesInv, FreshIds;
    var s' := s.(cids := s.cids[id := Owner(ch, PATH_ZERO)], orphans := s.orphans + {id});
    OrphanKeepsCidInv(s, ch, id);
    ClientsKeepInitialInv(s, s');
    SameResetsKeepResetInv(s, s');
    SameBuffersKeepBytesInv(s, s', c);
  }

  lemma AddClientKeepsInv(s: Endpoint, c: Config, ch: Handle, initCid: ConnectionId, id: ConnectionId)
    requires Inv(s, c) && ch !in s.connections && FreshIds(s, [id])
    ensures Inv(AddConnection(s, ch, initCid, Client, [id]), c)
  {
    hide CidInv, InitialInv, ResetInv, BytesInv, FreshIds, FirstCids;
    var s' := AddConnection(s, ch, initCid, Client, [id]);
    AddKeepsCidInv(s, ch, initCid, Client, [id]);
    ClientsKeepInitialInv(s, s');
    SameResetsKeepResetInv(s, s');
    SameBuffersKeepBytesInv(s, s', c);
  }

  lemma ForgetKeepsInv(s: Endpoint, c: Config, idx: nat)
    requires Inv(s, c) && idx in s.outstanding
    ensures Inv(CleanUpIncoming(s, idx), c)
  {
    hide CidInv, InitialInv, ResetInv, BytesInv;
    UnbufferKeepsBytesInv(s, c, idx);
    ForgetKeepsInitialInv(s, idx);
    SameBuffersKeepBytesInv(Unbuffered(s, idx), CleanUpIncoming(s, idx), c);
    SamePathsKeepCidInv(s, CleanUpIncoming(s, idx));
    SameResetsKeepResetInv(s, CleanUpIncoming(s, idx));
  }

  lemma PromoteKeepsInv(s: Endpoint, c: Config, idx: nat, ch: Handle, ids: seq<ConnectionId>)
    requires Inv(s, c) && idx in s.outstanding
    requires ch !in s.connections && 1 <= |ids| <= 2 && FreshIds(s, ids)
    ensures Inv(Joined(s, idx, ch, ids), c)
  {
    hide CidInv, InitialInv, ResetInv, BytesInv, FreshIds, FirstCids;
    var s3 := Joined(s, idx, ch, ids);
    PromoteKeepsCidInv(s, idx, ch, ids);
    PromoteKeepsInitialInv(s, idx, ch, s3);
    SameResetsKeepResetInv(s, s3);
    UnbufferKeepsBytesInv(s, c, idx);
    SameBuffersKeepBytesInv(Unbuffered(s, idx), s3, c);
  }

  lemma PromoteKeepsCidInv(s: Endpoint, idx: nat, ch: Handle, ids: seq<ConnectionId>)
    requires CidInv(s) && idx in s.outstanding && ch !in s.connections && 1 <= |ids| <= 2 && FreshIds(s, ids)
    ensures CidInv(Joined(s, idx, ch, ids))
  {
    var s1 := Unbuffered(s, idx);
    assert FreshIds(s1, ids);
    hide CidInv, FreshIds, FirstCids;
    SamePathsKeepCidInv(s, s1);
    AddKeepsCidInv(s1, ch, s.outstanding[idx], Server, ids);
    SamePathsKeepCidInv(AddConnection(s1, ch, s.outstanding[idx], Server, ids), Joined(s, idx, ch, ids));
  }

  lemma AcceptKeepsInv(s: Endpoint, c: Config, idx: nat, a: Answers, ch: Handle, ids: seq<ConnectionId>)
    requires Inv(s, c) && idx in s.outstanding
    requires ch !in s.connections && 1 <= |ids| <= 2 && FreshIds(s, ids)
    ensures Inv(Accept(s, c, idx, a, ch, ids).0, c)
  {
    hide Inv, Drain, CidsExhausted, FreshIds, AddConnection, Unbuffered;
    ForgetKeepsInv(s, c, idx);
    PromoteKeepsInv(s, c, idx, ch, ids);
    DrainKeepsInv(Joined(s, idx, ch, ids), c, ch);
  }

  lemma BufferKeepsInv(s: Endpoint, c: Config, idx: nat, len: nat)
    requires Inv(s, c) && c.server.Some? && idx in s.buffers
    ensures Inv(BufferDatagram(s, c.server.value, idx, len), c)
  {
    hide CidInv, InitialInv, ResetInv, BytesInv;
    var s' := BufferDatagram(s, c.server.value, idx, len);
    BufferKeepsBytesInv(s, c, idx, len);
    SamePathsKeepCidInv(s, s');
    ClientsKeepInitialInv(s, s');
    SameResetsKeepResetInv(s, s');
  }

  lemma NewIncomingKeepsInv(s: Endpoint, c: Config, idx: nat, id: ConnectionId)
    requires Inv(s, c) && c.server.Some? && idx !in s.buffers && id !in s.initial && id != []
    ensures Inv(s.(buffers := s.buffers[idx := EMPTY_BUFFER], initial := s.initial[id := ToIncoming(idx)],
                   outstanding := s.outstanding[idx := id]), c)
  {
    hide CidInv, InitialInv, ResetInv, BytesInv;
    var s' := s.(buffers := s.buffers[idx := EMPTY_BUFFER], initial := s.initial[id := ToIncoming(idx)],
                 outstanding := s.outstanding[idx := id]);
    NewBufferKeepsBytesInv(s, c, idx, s');
    SamePathsKeepCidInv(s, s');
    NewIncomingKeepsInitialInv(s, idx, id, s');
    SameResetsKeepResetInv(s, s');
  }

  lemma ClockKeepsInv(s: Endpoint, c: Config, now: nat)
    requires Inv(s, c)
    ensures Inv(s.(lastReset := Some(now)), c)
  {
    hide CidInv, InitialInv, ResetInv, BytesInv;
    var s' := s.(lastReset := Some(now));
    SamePathsKeepCidInv(s, s');
    ClientsKeepInitialInv(s, s');
    SameResetsKeepResetInv(s, s');
    SameBuffersKeepBytesInv(s, s', c);
  }

  lemma DatagramKeepsInv(s: Endpoint, c: Config, d: Datagram, v: Verdicts, idx: nat, now: nat)
    requires Inv(s, c) && c.cidLen > 0 && Possible(s, Arriving(d, v, idx, now))
    ensures Inv(HandleDatagram(s, c, d, v, idx, now).0, c)
  {
    hide Inv, CidsExhausted, SendsReset, BufferDatagram;
    match HandleDatagram(s, c, d, v, idx, now).1
    case Buffered(i) => BufferKeepsInv(s, c, i, d.len);
    case NewIncoming(_) => NewIncomingKeepsInv(s, c, idx, d.dstCid);
    case Reset(_) => ClockKeepsInv(s, c, now);
    case _ =>
  }

  lemma ApplyKeepsInv(s: Endpoint, c: Config, e: Event)
    requires Inv(s, c) && c.cidLen > 0 && Possible(s, e)
    ensures Inv(Apply(s, c, e), c)
  {
    hide Inv, AddConnection, CidsExhausted, HandleDatagram, Accept, CleanUpIncoming, IssueAll, SetResetToken,
         RetireResetToken, Drain, FreshIds;
    match e
    case Connecting(valid, ch, initCid, id, sessionOk) =>
      OrphanKeepsInv(s, c, ch, id);
      AddClientKeepsInv(s, c, ch, initCid, id);
    case Arriving(d, v, idx, now) => DatagramKeepsInv(s, c, d, v, idx, now);
    case Accepting(idx, a, ch, ids) => AcceptKeepsInv(s, c, idx, a, ch, ids);
    case Forgetting(idx) => ForgetKeepsInv(s, c, idx);
    case NeedIdentifiers(ch, path, ids) => IssueAllKeepsInv(s, c, ch, path, ids);
    case NewResetToken(ch, path, key) => SetTokenKeepsInv(s, c, ch, path, key);
    case DropResetToken(ch, path) => RetireTokenKeepsInv(s, c, ch, path);
    case RetireConnectionId(ch, path, sequence, replacement) =>
      if HoldsSequence(s, ch, path, sequence) {
        RetireKeepsInv(s, c, ch, path, sequence);
        IssueAllKeepsInv(RetireOne(s, ch, path, sequence), c, ch, path, replacement);
      }
    case Drained(ch) => DrainKeepsInv(s, c, ch);
  }

  ghost predicate IsRun(c: Config, ss: seq<Endpoint>, es: seq<Event>) {
    && |ss| == |es| + 1 && ss[0] == NEW_ENDPOINT && c.cidLen > 0
    && forall i :: 0 <= i < |es| ==> Possible(ss[i], es[i]) && ss[i + 1] == Apply(ss[i], c, es[i])
  }

  lemma {:induction false} RunKeepsInv(c: Config, ss: seq<Endpoint>, es: seq<Event>, i: nat)
    requires IsRun(c, ss, es) && i < |ss|
    ensures Inv(ss[i], c)
  {
    if i == 0 {
    } else {
      hide Inv, Apply, Possible;
      RunKeepsInv(c, ss, es, i - 1);
      assert Possible(ss[i - 1], es[i - 1]) && ss[i] == Apply(ss[i - 1], c, es[i - 1]);
      ApplyKeepsInv(ss[i - 1], c, es[i - 1]);
    }
  }

  // ---------------------------------------------------------------------------------------------
  // What holds in every run
  // ---------------------------------------------------------------------------------------------

  /** The event would index, unwrap, subtract or assert where the code does so without a check. */
  ghost predicate Fails(s: Endpoint, c: Config, e: Event) {
    match e
    case Arriving(d, v, idx, now) => HandleDatagram(s, c, d, v, idx, now).1.Dangling?
    case Accepting(idx, a, ch, ids) =>
      || FailsToUnbuffer(s, idx)
      || (idx in s.outstanding && 1 <= |ids| <= 2 && Accept(s, c, idx, a, ch, ids).1.HandshakeFailed?
          && FailsToDrain(Joined(s, idx, ch, ids), ch))
    case Forgetting(idx) => FailsToUnbuffer(s, idx)
    case Drained(ch) => FailsToDrain(s, ch)
    case _ => false
  }

  /** The assertion of `remove_initial`, which a drain of a server-side connection reaches. */
  ghost predicate FailsToDrain(s: Endpoint, ch: Handle) {
    ch in s.connections && s.connections[ch].side.Server? && s.connections[ch].initCid !in s.initial
  }

  ghost predicate FailsToUnbuffer(s: Endpoint, idx: nat) {
    idx in s.outstanding ==>
      || idx !in s.buffers || s.totalBytes < BytesAt(s, idx)
      || s.outstanding[idx] !in s.initial || s.initial[s.outstanding[idx]] != ToIncoming(idx)
  }

  lemma InvNeverFails(s: Endpoint, c: Config, e: Event)
    requires Inv(s, c) && Possible(s, e)
    ensures !Fails(s, c, e)
  {
    match e
    case Arriving(d, v, idx, now) =>
      hide BufferDatagram, TryReset, WelcomesFirst, CidInv, ResetInv;
      if d.dstCid in s.initial { assert Names(s, d.dstCid, s.initial[d.dstCid]); }
    case Accepting(idx, a, ch, ids) =>
      hide Accept, CidInv, ResetInv, SumBytes, Joined;
      UnbufferKeepsBytesInv(s, c, idx);
      PromoteKeepsInv(s, c, idx, ch, ids);
    case Forgetting(idx) => UnbufferKeepsBytesInv(s, c, idx);
    case _ =>
  }

  /** No accept, failure, refusal, retry, ignore or drain on any run meets a dangling index or a failing assertion. */
  lemma NoEventFails(c: Config, ss: seq<Endpoint>, es: seq<Event>, i: nat)
    requires IsRun(c, ss, es) && i < |es|
    ensures !Fails(ss[i], c, es[i])
  {
    RunKeepsInv(c, ss, es, i);
    assert Possible(ss[i], es[i]);
    hide Inv, Fails, Possible, Apply;
    InvNeverFails(ss[i], c, es[i]);
  }

  /** Apart from orphans, the ID table answers exactly what the live connections hold, and nobody shares an ID. */
  lemma CidTableIsExact(c: Config, ss: seq<Endpoint>, es: seq<Event>, i: nat, id: ConnectionId, ch: Handle,
                        path: PathId)
    requires IsRun(c, ss, es) && i < |ss|
    ensures var s := ss[i];
            && (id !in s.orphans ==>
                  ((id in s.cids && s.cids[id] == Owner(ch, path)) <==>
                     exists q :: Holds(s.connections, ch, path, q, id)))
            && (forall q, ch', path', q' ::
                  Holds(s.connections, ch, path, q, id) && Holds(s.connections, ch', path', q', id) ==>
                  ch == ch' && path == path' && q == q' && id !in s.orphans)
  {
    RunKeepsInv(c, ss, es, i);
    hide IsRun, Holds;
  }

  /** The connection IDs of `connect` calls that passed every check and could not start a session, up to event `i`. */
  ghost function LeakedBy(c: Config, ss: seq<Endpoint>, es: seq<Event>, i: nat): set<ConnectionId>
    requires IsRun(c, ss, es) && i <= |es|
  {
    if i == 0 then {} else LeakedBy(c, ss, es, i - 1) + Leak(c, ss[i - 1], es[i - 1])
  }

  ghost function Leak(c: Config, s: Endpoint, e: Event): set<ConnectionId> {
    if e.Connecting? && !CidsExhausted(c, |s.cids|) && e.valid && !e.sessionOk then {e.id} else {}
  }

  lemma {:induction false} IssueAllFrame(s: Endpoint, ch: Handle, path: PathId, ids: seq<ConnectionId>)
    requires ch in s.connections
    ensures IssueAll(s, ch, path, ids).orphans == s.orphans
    ensures IssueAll(s, ch, path, ids).connections.Keys == s.connections.Keys
    decreases ids
  {
    if ids == [] {
    } else {
      IssueAllFrame(IssueOne(s, ch, path, ids[0]), ch, path, ids[1..]);
    }
  }

  lemma BufferFrame(s: Endpoint, sc: ServerConfig, idx: nat, len: nat)
    requires idx in s.buffers
    ensures var s' := BufferDatagram(s, sc, idx, len);
            s' == s.(buffers := s'.buffers, totalBytes := s'.totalBytes) && s'.buffers.Keys == s.buffers.Keys
  {
  }

  lemma ResetFrame(s: Endpoint, c: Config, now: nat, len: nat)
    ensures TryReset(s, c, now, len) == s.(lastReset := TryReset(s, c, now, len).lastReset)
  {
  }

  lemma DatagramFrame(s: Endpoint, c: Config, d: Datagram, v: Verdicts, idx: nat, now: nat)
    ensures var s' := HandleDatagram(s, c, d, v, idx, now).0;
            s' == s.(initial := s'.initial, buffers := s'.buffers, totalBytes := s'.totalBytes,
                     lastReset := s'.lastReset, outstanding := s'.outstanding)
  {
    hide WelcomesFirst, Lookup, TryReset, BufferDatagram;
    match HandleDatagram(s, c, d, v, idx, now).1
    case Buffered(i) => BufferFrame(s, c.server.value, i, d.len);
    case Reset(_) => ResetFrame(s, c, now, d.len);
    case _ =>
  }

  lemma DrainFrame(s: Endpoint, ch: Handle)
    ensures Drain(s, ch).orphans == s.orphans && Drain(s, ch).connections == s.connections - {ch}
    ensures Drain(s, ch).buffers == s.buffers && Drain(s, ch).lastReset == s.lastReset
  {
    hide CidsOf, KeysOf, Purged;
  }

  lemma JoinedFrame(s: Endpoint, idx: nat, ch: Handle, ids: seq<ConnectionId>)
    requires idx in s.outstanding && 1 <= |ids| <= 2
    ensures var s' := Joined(s, idx, ch, ids);
            && s'.orphans == s.orphans && s'.buffers.Keys <= s.buffers.Keys && s'.lastReset == s.lastReset
            && forall k <- s.connections :: k != ch ==> k in s'.connections && s'.connections[k] == s.connections[k]
  {
    hide FirstCids;
  }

  lemma AcceptFrame(s: Endpoint, c: Config, idx: nat, a: Answers, ch: Handle, ids: seq<ConnectionId>)
    requires idx in s.outstanding && 1 <= |ids| <= 2
    ensures var s' := Accept(s, c, idx, a, ch, ids).0;
            && s'.orphans == s.orphans && s'.buffers.Keys <= s.buffers.Keys && s'.lastReset == s.lastReset
            && forall k <- s.connections :: k != ch ==> k in s'.connections && s'.connections[k] == s.connections[k]
  {
    hide Accept, Joined, Drain;
    AcceptTells(s, c, idx, a, ch, ids);
    JoinedFrame(s, idx, ch, ids);
    DrainFrame(Joined(s, idx, ch, ids), ch);
  }

  lemma ConnectLeaks(s: Endpoint, c: Config, e: Event)
    requires e.Connecting?
    ensures Connect(s, c, e.valid, e.ch, e.initCid, e.id, e.sessionOk).0.orphans == s.orphans + Leak(c, s, e)
  {
    hide CidsExhausted, FirstCids;
  }

  lemma TokensKeepOrphans(s: Endpoint, ch: Handle, path: PathId, key: ResetKey)
    requires ch in s.connections
    ensures SetResetToken(s, ch, path, key).orphans == s.orphans
    ensures RetireResetToken(s, ch, path).orphans == s.orphans
  {
    hide InsertToken, RemoveToken;
  }

  lemma ApplyLeaks(s: Endpoint, c: Config, e: Event)
    requires Possible(s, e)
    ensures Apply(s, c, e).orphans == s.orphans + Leak(c, s, e)
  {
    hide FreshIds, CidsExhausted, HandleDatagram, Accept, IssueAll, Drain, Connect, SetResetToken, RetireResetToken;
    assert s.orphans + {} == s.orphans;
    match e
    case Connecting(_, _, _, _, _) => ConnectLeaks(s, c, e);
    case NewResetToken(ch, path, key) => TokensKeepOrphans(s, ch, path, key);
    case DropResetToken(ch, path) => TokensKeepOrphans(s, ch, path, ResetKey([], []));
    case Drained(ch) => DrainFrame(s, ch);
    case Arriving(d, v, idx, now) => DatagramFrame(s, c, d, v, idx, now);
    case Accepting(idx, a, ch, ids) => AcceptFrame(s, c, idx, a, ch, ids);
    case NeedIdentifiers(ch, path, ids) => IssueAllFrame(s, ch, path, ids);
    case RetireConnectionId(ch, path, sequence, replacement) =>
      if HoldsSequence(s, ch, path, sequence) {
        IssueAllFrame(RetireOne(s, ch, path, sequence), ch, path, replacement);
      }
    case _ =>
  }

  /** The orphans are exactly the IDs of failed `connect` calls: none of them is ever released. */
  lemma {:induction false} OrphansAreFailedConnects(c: Config, ss: seq<Endpoint>, es: seq<Event>, i: nat)
    requires IsRun(c, ss, es) && i < |ss|
    ensures ss[i].orphans == LeakedBy(c, ss, es, i)
    ensures ss[i].orphans <= ss[i].cids.Keys
  {
    RunKeepsInv(c, ss, es, i);
    if i == 0 {
    } else {
      hide Inv, Apply, Possible;
      OrphansAreFailedConnects(c, ss, es, i - 1);
      assert Possible(ss[i - 1], es[i - 1]) && ss[i] == Apply(ss[i - 1], c, es[i - 1]);
      ApplyLeaks(ss[i - 1], c, es[i - 1]);
    }
  }

  /** The ID table is the inverse of what the live connections hold, with no exception. */
  ghost predicate Inverse(s: Endpoint) {
    forall id, ch, path ::
      (id in s.cids && s.cids[id] == Owner(ch, path)) <==> exists q :: Holds(s.connections, ch, path, q, id)
  }

  lemma InverseIffNoOrphans(s: Endpoint)
    requires CidInv(s)
    ensures Inverse(s) <==> s.orphans == {}
  {
    hide Holds;
    if s.orphans != {} {
      var id :| id in s.orphans;
      var owner := s.cids[id];
      assert id in s.cids && owner == Owner(owner.ch, owner.path);
      assert !exists q :: Holds(s.connections, owner.ch, owner.path, q, id);
    }
  }

  /** So the table is the inverse of the live connections iff no session start has failed so far. */
  lemma InverseIffNothingLeaked(c: Config, ss: seq<Endpoint>, es: seq<Event>, i: nat)
    requires IsRun(c, ss, es) && i < |ss|
    ensures Inverse(ss[i]) <==> LeakedBy(c, ss, es, i) == {}
  {
    RunKeepsInv(c, ss, es, i);
    OrphansAreFailedConnects(c, ss, es, i);
    hide IsRun, Inverse, LeakedBy, CidInv, InitialInv, ResetInv, BytesInv;
    InverseIffNoOrphans(ss[i]);
  }

  /** The endpoint after a `connect` that reserved `id` under slab key `ch` and then failed. */
  function Leaked(s: Endpoint, ch: Handle, id: ConnectionId): Endpoint {
    s.(cids := s.cids[id := Owner(ch, PATH_ZERO)], orphans := s.orphans + {id})
  }

  /** The slab key of a failed `connect` is free again: the next connection to take it gets the orphan's datagrams. */
  lemma OrphanMisroutes(s: Endpoint, c: Config, ch: Handle, orphan: ConnectionId, id: ConnectionId,
                        initCid: ConnectionId, d: Datagram)
    requires ch !in s.connections && d.dstCid == orphan
    requires FreshIds(s, [orphan]) && FreshIds(Leaked(s, ch, orphan), [id])
    requires !CidsExhausted(c, |s.cids|)
    ensures var s1 := Leaked(s, ch, orphan);
            var s2 := AddConnection(s1, ch, initCid, Client, [id]);
            && Apply(s, c, Connecting(true, ch, initCid, orphan, false)) == s1
            && (!CidsExhausted(c, |s1.cids|) ==> Apply(s1, c, Connecting(true, ch, initCid, id, true)) == s2)
            && Lookup(s1, d) == Some(ToConnection(Owner(ch, PATH_ZERO))) && ch !in s1.connections
            && Lookup(s2, d) == Some(ToConnection(Owner(ch, PATH_ZERO))) && ch in s2.connections
            && forall path, q :: !Holds(s2.connections, ch, path, q, orphan)
  {
    hide CidsExhausted;
    assert [orphan][0] != [] && [id][0] !in Leaked(s, ch, orphan).cids;
    hide FreshIds;
    LeakedThenAdded(s, ch, orphan, id, initCid);
    hide AddConnection;
  }

  lemma LeakedThenAdded(s: Endpoint, ch: Handle, orphan: ConnectionId, id: ConnectionId, initCid: ConnectionId)
    requires id !in Leaked(s, ch, orphan).cids
    ensures var s2 := AddConnection(Leaked(s, ch, orphan), ch, initCid, Client, [id]);
            && orphan in s2.cids && s2.cids[orphan] == Owner(ch, PATH_ZERO) && ch in s2.connections
            && forall path, q :: !Holds(s2.connections, ch, path, q, orphan)
  {
    var s2 := AddConnection(Leaked(s, ch, orphan), ch, initCid, Client, [id]);
    assert orphan !in [id];
    assert s2.connections[ch].paths == map[PATH_ZERO := PathCids(1, map[0 := id])];
  }

  /** Whatever `handle` finds is there: an occupied buffer, or a live connection unless the ID is an orphan. */
  lemma LookupNeverDangles(c: Config, ss: seq<Endpoint>, es: seq<Event>, i: nat, d: Datagram)
    requires IsRun(c, ss, es) && i < |ss|
    ensures var s := ss[i];
            match Lookup(s, d)
            case None => true
            case Some(ToIncoming(idx)) => idx in s.buffers && c.server.Some?
            case Some(ToConnection(o)) => o.ch in s.connections || d.dstCid in s.orphans
  {
    RunKeepsInv(c, ss, es, i);
    var s := ss[i];
    hide IsRun;
    if d.dstCid in s.cids && d.dstCid !in s.orphans {
      var q :| Holds(s.connections, s.cids[d.dstCid].ch, s.cids[d.dstCid].path, q, d.dstCid);
    } else if d.dstCid in s.initial {
      assert Names(s, d.dstCid, s.initial[d.dstCid]);
    }
    if d.tail.Some? && d.remote in s.resets && d.tail.value in s.resets[d.remote] {
      assert Points(s.resets, ResetKey(d.remote, d.tail.value), s.resets[d.remote][d.tail.value]);
    }
  }

  /** Nobody was given `id`, and no `connect` leaked it. */
  ghost predicate Unheld(s: Endpoint, id: ConnectionId) {
    id !in s.orphans && forall ch, path, q :: !Holds(s.connections, ch, path, q, id)
  }

  /** A live server-side connection whose first packet was addressed to `id`. */
  ghost predicate BegunWith(s: Endpoint, ch: Handle, id: ConnectionId) {
    ch in s.connections && s.connections[ch].side.Server? && s.connections[ch].initCid == id
  }

  predicate Early(d: Datagram) {
    d.kind.Initial? || d.kind.ZeroRtt?
  }

  /**
   The holder of the ID gets the datagram; else, if it is early, the connection that it began does; else, as
   long as no holder has dropped out of the reset table, the holder of its last bytes as a token.
   */
  ghost predicate Finds(s: Endpoint, d: Datagram, r: Option<RouteTo>) {
    && (forall ch, path, q :: Holds(s.connections, ch, path, q, d.dstCid) ==> r == Some(ToConnection(Owner(ch, path))))
    && (Unheld(s, d.dstCid) && Early(d) ==>
          && (forall idx <- s.outstanding :: s.outstanding[idx] == d.dstCid ==> r == Some(ToIncoming(idx)))
          && (forall ch :: BegunWith(s, ch, d.dstCid) ==> r == Some(ToConnection(Owner(ch, PATH_ZERO)))))
    && (Complete(s) && Unclaimed(s, d) && d.tail.Some? ==>
          forall ch, path :: HoldsKey(s.connections, ch, path, ResetKey(d.remote, d.tail.value)) ==>
            r == Some(ToConnection(Owner(ch, PATH_ZERO))))
  }

  /** Nobody holds the datagram's ID, and if it is early, it began no connection. */
  ghost predicate Unclaimed(s: Endpoint, d: Datagram) {
    && Unheld(s, d.dstCid)
    && (Early(d) ==> d.dstCid !in s.outstanding.Values && forall ch :: !BegunWith(s, ch, d.dstCid))
  }

  /** Whoever gets it has one of these claims; only what nobody else claims is taken for a reset. */
  ghost predicate Claims(s: Endpoint, d: Datagram, r: RouteTo) {
    match r
    case ToIncoming(idx) => Unheld(s, d.dstCid) && Early(d) && idx in s.outstanding && s.outstanding[idx] == d.dstCid
    case ToConnection(o) =>
      || d.dstCid in s.orphans
      || (exists q :: Holds(s.connections, o.ch, o.path, q, d.dstCid))
      || (Unheld(s, d.dstCid) && Early(d) && o.path == PATH_ZERO && BegunWith(s, o.ch, d.dstCid))
      || (Unclaimed(s, d) && o.path == PATH_ZERO && d.tail.Some?
          && exists path :: HoldsKey(s.connections, o.ch, path, ResetKey(d.remote, d.tail.value)))
  }

  lemma UnheldIffAbsent(s: Endpoint, id: ConnectionId)
    requires CidInv(s)
    ensures Unheld(s, id) <==> id !in s.cids
  {
    hide Holds;
  }

  lemma NobodyBegan(s: Endpoint, id: ConnectionId)
    requires InitialInv(s) && id !in s.initial
    ensures id !in s.outstanding.Values && forall ch :: !BegunWith(s, ch, id)
  {
  }

  ghost predicate RoutesRight(s: Endpoint, d: Datagram, r: Option<RouteTo>) {
    Finds(s, d, r) && if r.Some? then Claims(s, d, r.value) else Unheld(s, d.dstCid)
  }

  lemma UnclaimedIffAbsent(s: Endpoint, d: Datagram)
    requires CidInv(s) && InitialInv(s)
    ensures Unclaimed(s, d) <==> d.dstCid !in s.cids && (Early(d) ==> d.dstCid !in s.initial)
  {
    UnheldIffAbsent(s, d.dstCid);
    hide Unheld, CidInv;
    if d.dstCid in s.initial {
      assert Names(s, d.dstCid, s.initial[d.dstCid]);
      match s.initial[d.dstCid]
      case ToIncoming(idx) => assert s.outstanding[idx] in s.outstanding.Values;
      case ToConnection(o) => assert BegunWith(s, o.ch, d.dstCid);
    } else {
      NobodyBegan(s, d.dstCid);
    }
  }

  /** A datagram that nobody claims is taken for a reset of the connection that the reset table names. */
  lemma ResetRoutesRight(s: Endpoint, d: Datagram)
    requires CidInv(s) && InitialInv(s) && ResetInv(s) && Unclaimed(s, d)
    ensures match Lookup(s, d)
            case None => d.tail.None? || forall ch :: !Points(s.resets, ResetKey(d.remote, d.tail.value), ch)
            case Some(r) =>
              && r.ToConnection? && r.owner.path == PATH_ZERO && d.tail.Some?
              && Points(s.resets, ResetKey(d.remote, d.tail.value), r.owner.ch)
              && exists path :: HoldsKey(s.connections, r.owner.ch, path, ResetKey(d.remote, d.tail.value))
  {
    UnclaimedIffAbsent(s, d);
    hide Unclaimed, CidInv, InitialInv;
    if d.tail.Some? && d.remote in s.resets && d.tail.value in s.resets[d.remote] {
      assert Points(s.resets, ResetKey(d.remote, d.tail.value), s.resets[d.remote][d.tail.value]);
    }
  }

  lemma InvRoutesRight(s: Endpoint, c: Config, d: Datagram)
    requires Inv(s, c)
    ensures RoutesRight(s, d, Lookup(s, d))
  {
    UnheldIffAbsent(s, d.dstCid);
    UnclaimedIffAbsent(s, d);
    if Unclaimed(s, d) { ResetRoutesRight(s, d); }
    hide BytesInv, ResetInv, Unheld, Holds, Unclaimed, Points;
    if d.dstCid !in s.cids && Early(d) && d.dstCid in s.initial {
      assert Names(s, d.dstCid, s.initial[d.dstCid]);
    }
  }

  /** Where every datagram goes in every run, in terms of the connections and not of the tables. */
  lemma LookupIsExact(c: Config, ss: seq<Endpoint>, es: seq<Event>, i: nat, d: Datagram)
    requires IsRun(c, ss, es) && i < |ss|
    ensures RoutesRight(ss[i], d, Lookup(ss[i], d))
  {
    hide Inv, RoutesRight, Lookup;
    RunKeepsInv(c, ss, es, i);
    InvRoutesRight(ss[i], c, d);
  }

  /** Every reset-token entry is backed by a live holder, and the byte total is the sum of what is buffered. */
  lemma TablesAndBytesAgree(c: Config, ss: seq<Endpoint>, es: seq<Event>, i: nat)
    requires IsRun(c, ss, es) && i < |ss|
    ensures ResetInv(ss[i]) && InitialInv(ss[i]) && BytesInv(ss[i], c)
  {
    RunKeepsInv(c, ss, es, i);
  }

  // ---------------------------------------------------------------------------------------------
  // Undecided connections
  // ---------------------------------------------------------------------------------------------

  lemma {:induction false} IssueAllKeepsBuffers(s: Endpoint, ch: Handle, path: PathId, ids: seq<ConnectionId>)
    requires ch in s.connections
    ensures IssueAll(s, ch, path, ids).buffers == s.buffers
    decreases ids
  {
    if ids == [] {
    } else {
      IssueAllKeepsBuffers(IssueOne(s, ch, path, ids[0]), ch, path, ids[1..]);
    }
  }

  lemma {:induction false} SubsetSize(a: set<nat>, b: set<nat>)
    requires a <= b
    ensures |a| <= |b|
  {
    if a == {} {
    } else {
      var x :| x in a;
      SubsetSize(a - {x}, b - {x});
    }
  }

  lemma DatagramBuffers(s: Endpoint, c: Config, d: Datagram, v: Verdicts, idx: nat, now: nat)
    requires idx !in s.buffers
    ensures var s' := HandleDatagram(s, c, d, v, idx, now).0;
            || s'.buffers.Keys <= s.buffers.Keys
            || (c.server.Some? && |s'.buffers| == |s.buffers| + 1 && |s.buffers| < c.server.value.maxIncoming)
  {
    hide CidsExhausted, Lookup, TryReset, BufferDatagram;
    match HandleDatagram(s, c, d, v, idx, now).1
    case NewIncoming(_) => assert s.buffers[idx := EMPTY_BUFFER].Keys == s.buffers.Keys + {idx};
    case Buffered(i) => BufferFrame(s, c.server.value, i, d.len);
    case Reset(_) => ResetFrame(s, c, now, d.len);
    case _ =>
  }

  /** An event adds a buffer only where there is room. */
  lemma ApplyBuffers(s: Endpoint, c: Config, e: Event)
    requires Possible(s, e)
    ensures var s' := Apply(s, c, e);
            || s'.buffers.Keys <= s.buffers.Keys
            || (c.server.Some? && |s'.buffers| == |s.buffers| + 1 && |s.buffers| < c.server.value.maxIncoming)
  {
    hide FreshIds, CidsExhausted, IssueAll, InsertToken, RemoveToken, FirstCids, HandleDatagram, Accept, Drain;
    match e
    case Arriving(d, v, idx, now) => DatagramBuffers(s, c, d, v, idx, now);
    case Accepting(idx, a, ch, ids) => AcceptFrame(s, c, idx, a, ch, ids);
    case Drained(ch) => DrainFrame(s, ch);
    case NeedIdentifiers(ch, path, ids) => IssueAllKeepsBuffers(s, ch, path, ids);
    case RetireConnectionId(ch, path, sequence, replacement) =>
      if HoldsSequence(s, ch, path, sequence) {
        IssueAllKeepsBuffers(RetireOne(s, ch, path, sequence), ch, path, replacement);
      }
    case _ =>
  }

  lemma OneBufferEach(s: Endpoint, c: Config)
    requires Inv(s, c)
    ensures |s.outstanding| == |s.buffers|
  {
    hide CidInv, ResetInv, BytesInv;
    assert |s.outstanding.Keys| == |s.buffers.Keys|;
  }

  /** At no time are more connections undecided than the server allows; a client-only endpoint has none. */
  lemma {:induction false} UndecidedAreBounded(c: Config, ss: seq<Endpoint>, es: seq<Event>, i: nat)
    requires IsRun(c, ss, es) && i < |ss|
    ensures |ss[i].outstanding| == |ss[i].buffers| <= if c.server.Some? then c.server.value.maxIncoming else 0
  {
    hide Inv, Apply, Possible;
    RunKeepsInv(c, ss, es, i);
    OneBufferEach(ss[i], c);
    if i == 0 {
    } else {
      UndecidedAreBounded(c, ss, es, i - 1);
      assert Possible(ss[i - 1], es[i - 1]) && ss[i] == Apply(ss[i - 1], c, es[i - 1]);
      ApplyBuffers(ss[i - 1], c, es[i - 1]);
      if ss[i].buffers.Keys <= ss[i - 1].buffers.Keys { SubsetSize(ss[i].buffers.Keys, ss[i - 1].buffers.Keys); }
    }
  }

  // ---------------------------------------------------------------------------------------------
  // Stateless resets over a run
  // ---------------------------------------------------------------------------------------------

  /** The event answers its datagram with a stateless reset. */
  ghost predicate Resets(s: Endpoint, c: Config, e: Event) {
    e.Arriving? && HandleDatagram(s, c, e.d, e.v, e.idx, e.now).1 == DatagramOutcome.Reset(true)
  }

  lemma {:induction false} IssueAllKeepsClock(s: Endpoint, ch: Handle, path: PathId, ids: seq<ConnectionId>)
    requires ch in s.connections
    ensures IssueAll(s, ch, path, ids).lastReset == s.lastReset
    decreases ids
  {
    if ids == [] {
    } else {
      IssueAllKeepsClock(IssueOne(s, ch, path, ids[0]), ch, path, ids[1..]);
    }
  }

  lemma DatagramClock(s: Endpoint, c: Config, d: Datagram, v: Verdicts, idx: nat, now: nat)
    ensures var (s', r) := HandleDatagram(s, c, d, v, idx, now);
            && (r == DatagramOutcome.Reset(true) ==> ResetAllowed(s, c, now) && s'.lastReset == Some(now))
            && (r != DatagramOutcome.Reset(true) ==> s'.lastReset == s.lastReset)
  {
    hide WelcomesFirst, Lookup, ResetAllowed;
  }

  lemma ApplyClock(s: Endpoint, c: Config, e: Event)
    requires Possible(s, e)
    ensures if Resets(s, c, e) then ResetAllowed(s, c, e.now) && Apply(s, c, e).lastReset == Some(e.now)
            else Apply(s, c, e).lastReset == s.lastReset
  {
    hide FreshIds, CidsExhausted, HandleDatagram, IssueAll, InsertToken, RemoveToken, FirstCids, ResetAllowed,
         Accept, Drain;
    match e
    case Arriving(d, v, idx, now) => DatagramClock(s, c, d, v, idx, now);
    case Accepting(idx, a, ch, ids) => AcceptFrame(s, c, idx, a, ch, ids);
    case Drained(ch) => DrainFrame(s, ch);
    case NeedIdentifiers(ch, path, ids) => IssueAllKeepsClock(s, ch, path, ids);
    case RetireConnectionId(ch, path, sequence, replacement) =>
      if HoldsSequence(s, ch, path, sequence) {
        IssueAllKeepsClock(RetireOne(s, ch, path, sequence), ch, path, replacement);
      }
    case _ =>
  }

  lemma {:induction false} LastResetNeverFalls(c: Config, ss: seq<Endpoint>, es: seq<Event>, i: nat, j: nat)
    requires IsRun(c, ss, es) && i <= j < |ss| && ss[i].lastReset.Some?
    ensures ss[j].lastReset.Some? && ss[i].lastReset.value <= ss[j].lastReset.value
    decreases j
  {
    hide Possible, Apply, Resets;
    if i == j {
    } else {
      LastResetNeverFalls(c, ss, es, i, j - 1);
      assert Possible(ss[j - 1], es[j - 1]) && ss[j] == Apply(ss[j - 1], c, es[j - 1]);
      ApplyClock(ss[j - 1], c, es[j - 1]);
    }
  }

  /** Any two stateless resets of a run are at least the minimum interval apart. */
  lemma ResetsAreSpaced(c: Config, ss: seq<Endpoint>, es: seq<Event>, i: nat, j: nat)
    requires IsRun(c, ss, es) && i < j < |es| && Resets(ss[i], c, es[i]) && Resets(ss[j], c, es[j])
    ensures es[i].now + c.minResetInterval <= es[j].now
  {
    hide Possible, Apply, HandleDatagram;
    assert Possible(ss[i], es[i]) && ss[i + 1] == Apply(ss[i], c, es[i]);
    assert Possible(ss[j], es[j]);
    ApplyClock(ss[i], c, es[i]);
    LastResetNeverFalls(c, ss, es, i + 1, j);
    ApplyClock(ss[j], c, es[j]);
  }
}
