/** NAT traversal as a protocol: the client's mirror of the server's address table, and both sides' rounds. */
module NatProtocol {
  import opened Common
  import opened NatTraversal

  // ---------------------------------------------------------------------------------------------
  // The server's table over a whole run
  // ---------------------------------------------------------------------------------------------

  datatype LocalOp = Advertise(address: Address) | Withdraw(address: Address)

  function Apply(s: Server, op: LocalOp): (Server, Sending) {
    match op
    case Advertise(a) => AddLocal(s, a)
    case Withdraw(a) => RemoveLocal(s, a)
  }

  function ServerAfter(s: Server, ops: seq<LocalOp>): Server {
    if ops == [] then s else Apply(ServerAfter(s, ops[..|ops| - 1]), ops[|ops| - 1]).0
  }

  function Emitted(r: Sending): seq<Frame> {
    if r.Send? then [r.frame] else []
  }

  /** The frames that a run sends, in order. */
  function Frames(s: Server, ops: seq<LocalOp>): seq<Frame> {
    if ops == [] then []
    else
      var n := |ops| - 1;
      Frames(s, ops[..n]) + Emitted(Apply(ServerAfter(s, ops[..n]), ops[n]).1)
  }

  /** How many addresses were given an id. */
  function Assigned(frames: seq<Frame>): nat {
    if frames == [] then 0
    else Assigned(frames[..|frames| - 1]) + if frames[|frames| - 1].AddAddress? then 1 else 0
  }

  lemma AssignedAppend(frames: seq<Frame>, f: Frame)
    ensures Assigned(frames + [f]) == Assigned(frames) + if f.AddAddress? then 1 else 0
  {
    assert (frames + [f])[..|frames|] == frames;
  }

  lemma AppendNothing(frames: seq<Frame>)
    ensures frames + [] == frames
  {
  }

  /** No id was ever given to two addresses. */
  ghost predicate UniqueIds(frames: seq<Frame>) {
    forall f, g :: f in frames && g in frames && f.AddAddress? && g.AddAddress? && f.id == g.id ==> f == g
  }

  ghost predicate IdsBelow(frames: seq<Frame>, limit: nat) {
    forall f <- frames :: f.AddAddress? ==> f.id < limit
  }

  lemma UniqueIdsAppend(frames: seq<Frame>, f: Frame, limit: nat)
    requires UniqueIds(frames) && IdsBelow(frames, limit)
    requires f.AddAddress? ==> f.id == limit
    ensures UniqueIds(frames + [f]) && IdsBelow(frames + [f], if f.AddAddress? then limit + 1 else limit)
  {
    assert forall g :: g in frames + [f] <==> g in frames || g == f;
  }

  /** Unless an id saturates, the next id counts the assignments, and every id names one address for good. */
  ghost predicate Numbered(s: Server, frames: seq<Frame>) {
    && s.nextId == Min(Assigned(frames), VARINT_MAX)
    && (Assigned(frames) <= VARINT_MAX + 1 ==>
          && UniqueIds(frames) && IdsBelow(frames, Assigned(frames))
          && (forall a <- s.local :: AddAddress(s.local[a], a) in frames))
  }

  lemma StepKeepsNumbered(s: Server, frames: seq<Frame>, op: LocalOp)
    requires Numbered(s, frames)
    ensures var (s', r) := Apply(s, op);
            Numbered(s', frames + Emitted(r))
  {
    hide Assigned, UniqueIds, IdsBelow;
    var (s', r) := Apply(s, op);
    if r.Send? {
      AssignedAppend(frames, r.frame);
      if Assigned(frames + [r.frame]) <= VARINT_MAX + 1 {
        UniqueIdsAppend(frames, r.frame, Assigned(frames));
      }
    } else {
      AppendNothing(frames);
    }
  }

  lemma {:induction false} RunIsNumbered(maxRemote: nat, maxLocal: nat, ops: seq<LocalOp>)
    ensures var s := NewServer(maxRemote, maxLocal);
            Numbered(ServerAfter(s, ops), Frames(s, ops))
  {
    if ops == [] {
    } else {
      var s := NewServer(maxRemote, maxLocal);
      var n := |ops| - 1;
      RunIsNumbered(maxRemote, maxLocal, ops[..n]);
      StepKeepsNumbered(ServerAfter(s, ops[..n]), Frames(s, ops[..n]), ops[n]);
    }
  }

  // ---------------------------------------------------------------------------------------------
  // In-order delivery
  // ---------------------------------------------------------------------------------------------

  function ClientAfter(c: Client, frames: seq<Frame>): Client {
    if frames == [] then c else Receive(ClientAfter(c, frames[..|frames| - 1]), frames[|frames| - 1])
  }

  /** The client found the frame in order: its id unused or unchanged, and room for it. */
  ghost predicate Welcome(c: Client, f: Frame) {
    match f
    case AddAddress(id, a) => CheckRemote(c, id, a) && !AddRemote(c, id, a).1.Refused?
    case RemoveAddress(id) => id in c.remote
  }

  ghost predicate Mirrors(c: Client, s: Server) {
    && (forall a <- s.local :: s.local[a] in c.remote && c.remote[s.local[a]].address == a)
    && (forall id <- c.remote :: c.remote[id].address in s.local && s.local[c.remote[id].address] == id)
  }

  lemma {:induction false} MirrorsSameSize(remote: map<nat, Remote>, local: map<Address, nat>)
    requires forall a <- local :: local[a] in remote && remote[local[a]].address == a
    requires forall id <- remote :: remote[id].address in local && local[remote[id].address] == id
    ensures |remote| == |local|
    decreases |local|
  {
    if local == map[] {
      assert remote == map[];
    } else {
      var a :| a in local;
      var id := local[a];
      MirrorsSameSize(remote - {id}, local - {a});
      assert (local - {a}).Keys == local.Keys - {a} && (remote - {id}).Keys == remote.Keys - {id};
    }
  }

  /** Advertising a new address keeps the mirror exactly when its id is not in use, which the server can check. */
  lemma AdvertiseKeepsMirrorIff(s: Server, c: Client, a: Address)
    requires Mirrors(c, s) && s.maxLocal <= c.maxRemote && a !in s.local && |s.local| < s.maxLocal
    ensures var (s', r) := AddLocal(s, a);
            && r.Send? && !AddRemote(c, r.frame.id, a).1.Refused?
            && (Mirrors(Receive(c, r.frame), s') <==> s.nextId !in s.local.Values)
            && (CheckRemote(c, r.frame.id, a) <==> s.nextId !in s.local.Values)
  {
    MirrorsSameSize(c.remote, s.local);
    var (s', r) := AddLocal(s, a);
    if s.nextId in s.local.Values {
      var b :| b in s.local && s.local[b] == s.nextId;
      assert b in s'.local && s'.local[b] == s.nextId;
    }
  }

  lemma WithdrawKeepsMirror(s: Server, c: Client, a: Address)
    requires Mirrors(c, s) && a in s.local
    ensures var (s', r) := RemoveLocal(s, a);
            r.Send? && Welcome(c, r.frame) && Mirrors(Receive(c, r.frame), s')
  {
  }

  lemma {:induction false} ClientAfterAppend(c: Client, frames: seq<Frame>, f: Frame)
    ensures ClientAfter(c, frames + [f]) == Receive(ClientAfter(c, frames), f)
  {
    assert (frames + [f])[..|frames|] == frames;
  }

  lemma {:induction false} ClientKeepsLimit(c: Client, frames: seq<Frame>)
    ensures ClientAfter(c, frames).maxRemote == c.maxRemote
  {
    if frames == [] {
    } else {
      ClientKeepsLimit(c, frames[..|frames| - 1]);
    }
  }

  lemma {:induction false} ServerKeepsLimit(s: Server, ops: seq<LocalOp>)
    ensures ServerAfter(s, ops).maxLocal == s.maxLocal
  {
    if ops == [] {
    } else {
      ServerKeepsLimit(s, ops[..|ops| - 1]);
    }
  }

  /** One operation of the server and the delivery of what it sent. */
  lemma StepKeepsMirror(s: Server, frames: seq<Frame>, c: Client, op: LocalOp)
    requires Numbered(s, frames) && Mirrors(c, s) && s.maxLocal <= c.maxRemote
    requires Assigned(frames + Emitted(Apply(s, op).1)) <= VARINT_MAX + 1
    ensures var (s', r) := Apply(s, op);
            && Mirrors(if r.Send? then Receive(c, r.frame) else c, s')
            && (r.Send? ==> Welcome(c, r.frame))
  {
    var (s', r) := Apply(s, op);
    if r.Send? {
      AssignedAppend(frames, r.frame);
      match op
      case Advertise(a) =>
        AdvertiseKeepsMirrorIff(s, c, a);
        forall b <- s.local
          ensures s.local[b] != s.nextId
        {
          assert AddAddress(s.local[b], b) in frames;
        }
      case Withdraw(a) =>
        WithdrawKeepsMirror(s, c, a);
    }
  }

  /** Every frame of `frames` was welcome when it was delivered. */
  ghost predicate AllWelcome(c: Client, frames: seq<Frame>) {
    forall k: nat :: k < |frames| ==> Welcome(ClientAfter(c, frames[..k]), frames[k])
  }

  lemma AllWelcomeAppend(c: Client, frames: seq<Frame>, f: Frame)
    requires AllWelcome(c, frames) && Welcome(ClientAfter(c, frames), f)
    ensures AllWelcome(c, frames + [f])
  {
    hide Welcome, ClientAfter;
    var all := frames + [f];
    forall k: nat | k < |all|
      ensures Welcome(ClientAfter(c, all[..k]), all[k])
    {
      if k < |frames| {
        assert all[..k] == frames[..k];
      } else {
        assert all[..k] == frames;
      }
    }
  }

  /**
   With in-order delivery and fewer than 2^62 assignments before it, each frame is welcome and, after
   all that a run sent, the client's table is exactly the inverse of the server's.
   */
  lemma {:induction false} InOrderMirror(s: Server, c: Client, ops: seq<LocalOp>)
    requires s == NewServer(s.maxRemote, s.maxLocal) && c.remote == map[] && s.maxLocal <= c.maxRemote
    requires Assigned(Frames(s, ops)) <= VARINT_MAX + 1
    ensures Mirrors(ClientAfter(c, Frames(s, ops)), ServerAfter(s, ops))
    ensures AllWelcome(c, Frames(s, ops))
  {
    if ops == [] {
    } else {
      var n := |ops| - 1;
      var sent := Frames(s, ops[..n]);
      var s1 := ServerAfter(s, ops[..n]);
      var (s2, r) := Apply(s1, ops[n]);
      if r.Send? { AssignedAppend(sent, r.frame); } else { AppendNothing(sent); }
      InOrderMirror(s, c, ops[..n]);
      RunIsNumbered(s.maxRemote, s.maxLocal, ops[..n]);
      ClientKeepsLimit(c, sent);
      ServerKeepsLimit(s, ops[..n]);
      StepKeepsMirror(s1, sent, ClientAfter(c, sent), ops[n]);
      if r.Send? {
        ClientAfterAppend(c, sent, r.frame);
        AllWelcomeAppend(c, sent, r.frame);
      }
    }
  }

  /** Whatever the point at which delivery stands, it is the point at which some prefix of the run stood. */
  lemma {:induction false} FramePrefix(s: Server, ops: seq<LocalOp>, k: nat) returns (n: nat)
    requires k <= |Frames(s, ops)|
    ensures n <= |ops| && Frames(s, ops[..n]) == Frames(s, ops)[..k]
  {
    if ops == [] {
      n := 0;
    } else {
      var m := |ops| - 1;
      var sent := Frames(s, ops[..m]);
      if k <= |sent| {
        n := FramePrefix(s, ops[..m], k);
        assert ops[..m][..n] == ops[..n];
        assert Frames(s, ops)[..k] == sent[..k];
      } else {
        n := |ops|;
        assert ops[..n] == ops;
        assert Frames(s, ops)[..k] == Frames(s, ops);
      }
    }
  }

  lemma {:induction false} AssignedPrefix(frames: seq<Frame>, k: nat)
    requires k <= |frames|
    ensures Assigned(frames[..k]) <= Assigned(frames)
  {
    if k < |frames| {
      AssignedPrefix(frames[..|frames| - 1], k);
      assert frames[..|frames| - 1][..k] == frames[..k];
    } else {
      assert frames[..k] == frames;
    }
  }

  /** After `k` frames the client's table is the inverse of the server's table when frame `k` was sent. */
  lemma MirrorAtEveryFrame(s: Server, c: Client, ops: seq<LocalOp>, k: nat) returns (n: nat)
    requires s == NewServer(s.maxRemote, s.maxLocal) && c.remote == map[] && s.maxLocal <= c.maxRemote
    requires Assigned(Frames(s, ops)) <= VARINT_MAX + 1
    requires k <= |Frames(s, ops)|
    ensures n <= |ops| && Frames(s, ops[..n]) == Frames(s, ops)[..k]
    ensures Mirrors(ClientAfter(c, Frames(s, ops)[..k]), ServerAfter(s, ops[..n]))
  {
    n := FramePrefix(s, ops, k);
    AssignedPrefix(Frames(s, ops), k);
    InOrderMirror(s, c, ops[..n]);
  }

  // ---------------------------------------------------------------------------------------------
  // Saturated ids
  // ---------------------------------------------------------------------------------------------

  lemma ServerAfterAppend(s: Server, ops: seq<LocalOp>, op: LocalOp)
    ensures ServerAfter(s, ops + [op]) == Apply(ServerAfter(s, ops), op).0
    ensures Frames(s, ops + [op]) == Frames(s, ops) + Emitted(Apply(ServerAfter(s, ops), op).1)
  {
    assert (ops + [op])[..|ops|] == ops;
  }

  const HOST := Address(V4(1), 1)

  /** Advertising and withdrawing one address over and over uses up the ids. */
  lemma {:induction false} Churn(s: Server, n: nat) returns (ops: seq<LocalOp>)
    requires s == NewServer(s.maxRemote, s.maxLocal) && s.maxLocal > 0 && n <= VARINT_MAX
    ensures ServerAfter(s, ops) == s.(nextId := n)
    ensures Assigned(Frames(s, ops)) == n
  {
    if n == 0 {
      ops := [];
    } else {
      var before := Churn(s, n - 1);
      ops := before + [Advertise(HOST)] + [Withdraw(HOST)];
      ChurnOnce(s, before, n - 1);
    }
  }

  lemma ChurnOnce(s: Server, before: seq<LocalOp>, n: nat)
    requires s.local == map[] && s.maxLocal > 0 && n < VARINT_MAX && ServerAfter(s, before) == s.(nextId := n)
    ensures var ops := before + [Advertise(HOST)] + [Withdraw(HOST)];
            ServerAfter(s, ops) == s.(nextId := n + 1) && Assigned(Frames(s, ops)) == Assigned(Frames(s, before)) + 1
  {
    hide Frames, ServerAfter, Assigned;
    var mid := before + [Advertise(HOST)];
    ServerAfterAppend(s, before, Advertise(HOST));
    ServerAfterAppend(s, mid, Withdraw(HOST));
    assert ServerAfter(s, mid).local == map[HOST := n];
    assert ServerAfter(s, mid + [Withdraw(HOST)]).local == map[];
    AssignedAppend(Frames(s, before), AddAddress(n, HOST));
    AssignedAppend(Frames(s, mid), RemoveAddress(n));
  }

  /** What the server could check: it is about to give a new address an id that another one still has. */
  predicate MeetsUsedId(s: Server, op: LocalOp) {
    op.Advertise? && op.address !in s.local && |s.local| < s.maxLocal && s.nextId in s.local.Values
  }

  lemma StepKeepsMirrorIff(s: Server, c: Client, op: LocalOp)
    requires Mirrors(c, s) && s.maxLocal <= c.maxRemote
    ensures var (s', r) := Apply(s, op);
            Mirrors(if r.Send? then Receive(c, r.frame) else c, s') <==> !MeetsUsedId(s, op)
  {
    match op
    case Advertise(a) =>
      if a !in s.local && |s.local| < s.maxLocal { AdvertiseKeepsMirrorIff(s, c, a); }
    case Withdraw(a) =>
      if a in s.local { WithdrawKeepsMirror(s, c, a); }
  }

  ghost predicate MirrorsAfter(s: Server, c: Client, ops: seq<LocalOp>) {
    Mirrors(ClientAfter(c, Frames(s, ops)), ServerAfter(s, ops))
  }

  /** After `ops`, and after every shorter prefix. */
  ghost predicate MirrorsThroughout(s: Server, c: Client, ops: seq<LocalOp>) {
    MirrorsAfter(s, c, ops) && (ops != [] ==> MirrorsThroughout(s, c, ops[..|ops| - 1]))
  }

  predicate NeverMeetsUsedId(s: Server, ops: seq<LocalOp>) {
    ops != [] ==>
      && NeverMeetsUsedId(s, ops[..|ops| - 1])
      && !MeetsUsedId(ServerAfter(s, ops[..|ops| - 1]), ops[|ops| - 1])
  }

  lemma StepOfMirror(s: Server, c: Client, ops: seq<LocalOp>, op: LocalOp)
    requires MirrorsAfter(s, c, ops) && s.maxLocal <= c.maxRemote
    ensures MirrorsAfter(s, c, ops + [op]) <==> !MeetsUsedId(ServerAfter(s, ops), op)
  {
    hide ServerAfter, Frames, ClientAfter, Mirrors, Apply, MeetsUsedId;
    var sent := Frames(s, ops);
    ServerKeepsLimit(s, ops);
    ClientKeepsLimit(c, sent);
    ServerAfterAppend(s, ops, op);
    StepKeepsMirrorIff(ServerAfter(s, ops), ClientAfter(c, sent), op);
    var r := Apply(ServerAfter(s, ops), op).1;
    if r.Send? { ClientAfterAppend(c, sent, r.frame); } else { AppendNothing(sent); }
  }

  /** With in-order delivery the client mirrors the server after every operation iff none met an id still in use. */
  lemma {:induction false} MirrorIff(s: Server, c: Client, ops: seq<LocalOp>)
    requires s == NewServer(s.maxRemote, s.maxLocal) && c.remote == map[] && s.maxLocal <= c.maxRemote
    ensures MirrorsThroughout(s, c, ops) <==> NeverMeetsUsedId(s, ops)
  {
    hide MeetsUsedId, Mirrors;
    if ops == [] {
      EmptyMirror(s, c);
    } else {
      var n := |ops| - 1;
      assert ops == ops[..n] + [ops[n]];
      MirrorIff(s, c, ops[..n]);
      hide MirrorsAfter, ServerAfter;
      if MirrorsThroughout(s, c, ops[..n]) {
        StepOfMirror(s, c, ops[..n], ops[n]);
      }
    }
  }

  lemma EmptyMirror(s: Server, c: Client)
    requires s.local == map[] && c.remote == map[]
    ensures Mirrors(c, s)
  {
  }

  const OTHER := Address(V4(2), 2)

  /** Advertising to a server whose ids are used up. */
  lemma AdvertiseSaturated(s: Server, ops: seq<LocalOp>, a: Address)
    requires var t := ServerAfter(s, ops); t.nextId == VARINT_MAX && a !in t.local && |t.local| < t.maxLocal
    ensures var t := ServerAfter(s, ops);
            && ServerAfter(s, ops + [Advertise(a)]) == t.(local := t.local[a := VARINT_MAX])
            && Assigned(Frames(s, ops + [Advertise(a)])) == Assigned(Frames(s, ops)) + 1
  {
    hide Frames, ServerAfter, Assigned;
    ServerAfterAppend(s, ops, Advertise(a));
    AssignedAppend(Frames(s, ops), AddAddress(VARINT_MAX, a));
  }

  /** After 2^62 assignments two live addresses share an id. */
  lemma IdsCollide(s: Server) returns (ops: seq<LocalOp>)
    requires s == NewServer(s.maxRemote, s.maxLocal) && 2 <= s.maxLocal
    ensures Assigned(Frames(s, ops)) == VARINT_MAX + 2
    ensures ServerAfter(s, ops).local == map[HOST := VARINT_MAX, OTHER := VARINT_MAX]
  {
    hide Frames, ServerAfter, Assigned;
    var full := Churn(s, VARINT_MAX);
    AdvertiseSaturated(s, full, HOST);
    var one := full + [Advertise(HOST)];
    assert ServerAfter(s, one).local == map[HOST := VARINT_MAX];
    AdvertiseSaturated(s, one, OTHER);
    ops := one + [Advertise(OTHER)];
  }

  /** The bound of `InOrderMirror` cannot be raised: one assignment more, and the mirror can break even in order. */
  lemma SaturationBreaksMirror(s: Server, c: Client)
    requires s == NewServer(s.maxRemote, s.maxLocal) && 2 <= s.maxLocal
    ensures exists ops :: Assigned(Frames(s, ops)) == VARINT_MAX + 2
                          && !Mirrors(ClientAfter(c, Frames(s, ops)), ServerAfter(s, ops))
  {
    var ops := IdsCollide(s);
    hide Frames, ServerAfter, Assigned, ClientAfter;
    var s2 := ServerAfter(s, ops);
    assert HOST in s2.local && OTHER in s2.local;
    assert !Mirrors(ClientAfter(c, Frames(s, ops)), s2);
  }

  // ---------------------------------------------------------------------------------------------
  // Reordered, lost and duplicated frames
  // ---------------------------------------------------------------------------------------------

  /** The server assigned `id` to `a`, and to nothing else. */
  ghost predicate OnlyAssignment(frames: seq<Frame>, id: nat, a: Address) {
    AddAddress(id, a) in frames && forall f <- frames :: f.AddAddress? && f.id == id ==> f.address == a
  }

  ghost predicate SoundTable(c: Client, frames: seq<Frame>) {
    forall id <- c.remote :: OnlyAssignment(frames, id, c.remote[id].address)
  }

  lemma ReceiveKeepsSound(c: Client, frames: seq<Frame>, f: Frame)
    requires SoundTable(c, frames) && f in frames
    requires f.AddAddress? ==> OnlyAssignment(frames, f.id, f.address)
    ensures SoundTable(Receive(c, f), frames)
  {
    hide OnlyAssignment;
    var c' := Receive(c, f);
    forall id <- c'.remote
      ensures OnlyAssignment(frames, id, c'.remote[id].address)
    {
      if id in c.remote && c'.remote[id] == c.remote[id] {
        assert OnlyAssignment(frames, id, c.remote[id].address);
      }
    }
  }

  lemma {:induction false} AnyDeliveryKeepsSound(c: Client, frames: seq<Frame>, delivered: seq<Frame>)
    requires SoundTable(c, frames)
    requires forall f <- frames :: f.AddAddress? ==> OnlyAssignment(frames, f.id, f.address)
    requires forall f <- delivered :: f in frames
    ensures SoundTable(ClientAfter(c, delivered), frames)
  {
    hide SoundTable, OnlyAssignment;
    if delivered == [] {
    } else {
      var n := |delivered| - 1;
      assert delivered[n] in delivered;
      AnyDeliveryKeepsSound(c, frames, delivered[..n]);
      ReceiveKeepsSound(ClientAfter(c, delivered[..n]), frames, delivered[n]);
    }
  }

  /**
   Deliver any frames that the server ever sent, in any order and any number of times: every entry
   of the client is a pair that the server assigned, the only one for that id, and no check fails.
   */
  lemma AnyOrderIsSound(s: Server, c: Client, ops: seq<LocalOp>, delivered: seq<Frame>)
    requires s == NewServer(s.maxRemote, s.maxLocal) && c.remote == map[]
    requires Assigned(Frames(s, ops)) <= VARINT_MAX + 1
    requires forall f <- delivered :: f in Frames(s, ops)
    ensures SoundTable(ClientAfter(c, delivered), Frames(s, ops))
    ensures forall f <- Frames(s, ops) :: f.AddAddress? ==> CheckRemote(ClientAfter(c, delivered), f.id, f.address)
  {
    RunIsNumbered(s.maxRemote, s.maxLocal, ops);
    hide Frames, Assigned, ServerAfter, ClientAfter;
    AnyDeliveryKeepsSound(c, Frames(s, ops), delivered);
  }

  // ---------------------------------------------------------------------------------------------
  // The client's table is the last word on every id
  // ---------------------------------------------------------------------------------------------

  /** The address that the last frame about `id` leaves it with. */
  function LastWord(frames: seq<Frame>, id: nat): Option<Address> {
    if frames == [] then None
    else
      var f := frames[|frames| - 1];
      if f.id != id then LastWord(frames[..|frames| - 1], id)
      else if f.AddAddress? then Some(f.address)
      else None
  }

  function AddressOf(remote: map<nat, Remote>, id: nat): Option<Address> {
    if id in remote then Some(remote[id].address) else None
  }

  ghost predicate SaysLast(remote: map<nat, Remote>, frames: seq<Frame>) {
    forall id: nat :: AddressOf(remote, id) == LastWord(frames, id)
  }

  /** The client has no room for the address. */
  predicate Refuses(c: Client, f: Frame) {
    f.AddAddress? && AddRemote(c, f.id, f.address).1.Refused?
  }

  /** The frames of a delivery that the client did not refuse. */
  function Unrefused(c: Client, frames: seq<Frame>): seq<Frame> {
    if frames == [] then []
    else
      var n := |frames| - 1;
      Unrefused(c, frames[..n]) + if Refuses(ClientAfter(c, frames[..n]), frames[n]) then [] else [frames[n]]
  }

  lemma LastWordAppend(frames: seq<Frame>, f: Frame, id: nat)
    ensures LastWord(frames + [f], id) ==
            if f.id != id then LastWord(frames, id) else if f.AddAddress? then Some(f.address) else None
  {
    assert (frames + [f])[..|frames|] == frames;
  }

  lemma ReceiveAddress(c: Client, f: Frame, id: nat)
    ensures AddressOf(Receive(c, f).remote, id) ==
            if f.id != id || Refuses(c, f) then AddressOf(c.remote, id)
            else if f.AddAddress? then Some(f.address)
            else None
  {
  }

  lemma ReceiveKeepsSize(c: Client, f: Frame)
    requires |c.remote| <= c.maxRemote
    ensures |Receive(c, f).remote| <= c.maxRemote && Receive(c, f).maxRemote == c.maxRemote
  {
    match f
    case AddAddress(id, a) => KeySizes(c.remote, id, Remote(a, false));
    case RemoveAddress(id) => KeySizes(c.remote, id, Remote(HOST, false));
  }

  lemma KeySizes(m: map<nat, Remote>, id: nat, r: Remote)
    ensures |m[id := r]| == if id in m then |m| else |m| + 1
    ensures |m - {id}| <= |m|
  {
    assert m[id := r].Keys == m.Keys + {id};
    assert (m - {id}).Keys == m.Keys - {id};
  }

  lemma ReceiveSaysLast(c: Client, frames: seq<Frame>, f: Frame)
    requires SaysLast(c.remote, frames) && |c.remote| <= c.maxRemote
    ensures var c' := Receive(c, f);
            && SaysLast(c'.remote, frames + if Refuses(c, f) then [] else [f])
            && |c'.remote| <= c'.maxRemote && c'.maxRemote == c.maxRemote
  {
    hide Receive, Refuses, LastWord, AddressOf;
    ReceiveKeepsSize(c, f);
    AppendNothing(frames);
    var c' := Receive(c, f);
    forall id: nat
      ensures AddressOf(c'.remote, id) == LastWord(frames + if Refuses(c, f) then [] else [f], id)
    {
      ReceiveAddress(c, f, id);
      LastWordAppend(frames, f, id);
      assert AddressOf(c.remote, id) == LastWord(frames, id);
    }
  }

  /**
   Whatever is delivered, in whatever order: the client holds an id iff the last frame about it that it
   had room for was an advertisement, and then the address of that frame; and it never holds too many.
   */
  lemma {:induction false} ClientHoldsLastWord(c: Client, frames: seq<Frame>)
    requires c.remote == map[]
    ensures SaysLast(ClientAfter(c, frames).remote, Unrefused(c, frames))
    ensures |ClientAfter(c, frames).remote| <= c.maxRemote
  {
    ClientKeepsLimit(c, frames);
    if frames == [] {
    } else {
      var n := |frames| - 1;
      ClientHoldsLastWord(c, frames[..n]);
      ClientKeepsLimit(c, frames[..n]);
      hide SaysLast, Refuses;
      ReceiveSaysLast(ClientAfter(c, frames[..n]), Unrefused(c, frames[..n]), frames[n]);
    }
  }

  // ---------------------------------------------------------------------------------------------
  // Rounds on the server
  // ---------------------------------------------------------------------------------------------

  datatype ServerEvent = Local(op: LocalOp) | Reach(frame: ReachOut, ipv6: bool) | Probed(remote: Address, token: nat)

  /** A probe can only finish for an address that is still pending. */
  function React(s: Server, e: ServerEvent): Server {
    match e
    case Local(op) => Apply(s, op).0
    case Reach(frame, ipv6) => HandleReachOut(s, frame, ipv6).0
    case Probed(remote, token) => if remote in s.pending then FinishProbe(s, remote, token) else s
  }

  function ServerRun(s: Server, es: seq<ServerEvent>): Server {
    if es == [] then s else React(ServerRun(s, es[..|es| - 1]), es[|es| - 1])
  }

  /** A REACH_OUT of round `round` asked for `a`, as mapped to the local socket. */
  predicate AskedBy(e: ServerEvent, a: Address, round: nat) {
    e.Reach? && e.frame.round == round && Reachable(e.frame.address, e.ipv6) == Some(a)
  }

  ghost predicate Asked(es: seq<ServerEvent>, a: Address, round: nat) {
    exists e <- es :: AskedBy(e, a, round)
  }

  ghost predicate ProbesCurrentRound(s: Server, es: seq<ServerEvent>) {
    && (forall a <- s.pending :: Asked(es, a, s.round))
    && (forall t <- s.active :: Asked(es, s.active[t], s.round))
    && |s.pending| <= Max(1, s.maxRemote)
  }

  lemma AskedExtends(es: seq<ServerEvent>, e: ServerEvent, a: Address, round: nat)
    ensures Asked(es + [e], a, round) <==> Asked(es, a, round) || AskedBy(e, a, round)
  {
    hide AskedBy;
    assert forall x :: x in es + [e] <==> x in es || x == e;
  }

  lemma ReachKeepsProbes(s: Server, es: seq<ServerEvent>, frame: ReachOut, ipv6: bool)
    requires ProbesCurrentRound(s, es)
    ensures ProbesCurrentRound(HandleReachOut(s, frame, ipv6).0, es + [Reach(frame, ipv6)])
  {
    var e := Reach(frame, ipv6);
    var s' := HandleReachOut(s, frame, ipv6).0;
    var asked := Reachable(frame.address, ipv6);
    hide Asked, Reachable;
    forall a <- s'.pending
      ensures Asked(es + [e], a, s'.round)
    {
      AskedExtends(es, e, a, s'.round);
      assert Some(a) == asked || a in s.pending;
    }
    forall t <- s'.active
      ensures Asked(es + [e], s'.active[t], s'.round)
    {
      AskedExtends(es, e, s'.active[t], s'.round);
    }
  }

  /** A step that only moves probes from pending to active, or drops them. */
  lemma MoveKeepsProbes(s: Server, s': Server, es: seq<ServerEvent>, e: ServerEvent)
    requires ProbesCurrentRound(s, es) && s'.round == s.round && s'.maxRemote == s.maxRemote
    requires s'.pending <= s.pending && |s'.pending| <= |s.pending|
    requires forall t <- s'.active :: s'.active[t] in s.pending || (t in s.active && s'.active[t] == s.active[t])
    ensures ProbesCurrentRound(s', es + [e])
  {
    hide Asked;
    forall a <- s'.pending
      ensures Asked(es + [e], a, s'.round)
    {
      AskedExtends(es, e, a, s.round);
    }
    forall t <- s'.active
      ensures Asked(es + [e], s'.active[t], s'.round)
    {
      AskedExtends(es, e, s'.active[t], s.round);
    }
  }

  lemma ReactKeepsProbes(s: Server, es: seq<ServerEvent>, e: ServerEvent)
    requires ProbesCurrentRound(s, es)
    ensures ProbesCurrentRound(React(s, e), es + [e])
    ensures React(s, e).round >= s.round && React(s, e).maxRemote == s.maxRemote
  {
    hide ProbesCurrentRound, Reachable;
    match e
    case Reach(frame, ipv6) =>
      ReachKeepsProbes(s, es, frame, ipv6);
    case Local(op) =>
      MoveKeepsProbes(s, React(s, e), es, e);
    case Probed(remote, _) =>
      assert remote in s.pending ==> (s.pending - {remote}) + {remote} == s.pending;
      MoveKeepsProbes(s, React(s, e), es, e);
  }

  /** For every interleaving, whatever is probed was asked for in the current round, and few wait. */
  lemma {:induction false} ServerProbesCurrentRound(maxRemote: nat, maxLocal: nat, es: seq<ServerEvent>)
    ensures var s := ServerRun(NewServer(maxRemote, maxLocal), es);
            ProbesCurrentRound(s, es) && s.maxRemote == maxRemote
  {
    if es == [] {
    } else {
      var n := |es| - 1;
      ServerProbesCurrentRound(maxRemote, maxLocal, es[..n]);
      ReactKeepsProbes(ServerRun(NewServer(maxRemote, maxLocal), es[..n]), es[..n], es[n]);
      assert es == es[..n] + [es[n]];
    }
  }

  lemma {:induction false} RoundNeverDecreases(s: Server, es: seq<ServerEvent>, k: nat)
    requires k <= |es|
    ensures ServerRun(s, es[..k]).round <= ServerRun(s, es).round
  {
    if k == |es| {
      assert es[..k] == es;
    } else {
      RoundNeverDecreases(s, es[..|es| - 1], k);
      assert es[..|es| - 1][..k] == es[..k];
    }
  }

  // ---------------------------------------------------------------------------------------------
  // What is pending and active, exactly
  // ---------------------------------------------------------------------------------------------

  predicate ProbesFor(e: ServerEvent, a: Address) {
    e.Probed? && e.remote == a
  }

  /** Event `i` asked for `a` in round `round`, and was not refused. */
  predicate TakenAt(s: Server, es: seq<ServerEvent>, i: nat, a: Address, round: nat) {
    && i < |es| && AskedBy(es[i], a, round)
    && HandleReachOut(ServerRun(s, es[..i]), es[i].frame, es[i].ipv6).1
  }

  /** It was asked for in that round, and has not been probed since. */
  ghost predicate Waiting(s: Server, es: seq<ServerEvent>, a: Address, round: nat) {
    exists i: nat :: TakenAt(s, es, i, a, round) && forall j :: i < j < |es| ==> !ProbesFor(es[j], a)
  }

  lemma TakenExtends(s: Server, es: seq<ServerEvent>, e: ServerEvent, i: nat, a: Address, round: nat)
    requires i < |es|
    ensures TakenAt(s, es + [e], i, a, round) <==> TakenAt(s, es, i, a, round)
  {
    assert (es + [e])[..i] == es[..i] && (es + [e])[i] == es[i];
  }

  lemma WaitingExtends(s: Server, es: seq<ServerEvent>, e: ServerEvent, a: Address, round: nat)
    ensures Waiting(s, es + [e], a, round) <==>
            (Waiting(s, es, a, round) && !ProbesFor(e, a)) || TakenAt(s, es + [e], |es|, a, round)
  {
    var all := es + [e];
    assert all[|es|] == e && forall j :: 0 <= j < |es| ==> all[j] == es[j];
    forall i: nat | i < |es|
      ensures TakenAt(s, all, i, a, round) <==> TakenAt(s, es, i, a, round)
    {
      TakenExtends(s, es, e, i, a, round);
    }
    hide TakenAt, ProbesFor;
    assert forall i: nat :: TakenAt(s, all, i, a, round) ==> i < |all| by { TakenInRange(s, all, a, round); }
    assert forall i: nat :: TakenAt(s, es, i, a, round) ==> i < |es| by { TakenInRange(s, es, a, round); }
    if Waiting(s, all, a, round) {
      var i: nat :| TakenAt(s, all, i, a, round) && forall j :: i < j < |all| ==> !ProbesFor(all[j], a);
      if i < |es| { assert !ProbesFor(all[|es|], a); }
    }
    if Waiting(s, es, a, round) && !ProbesFor(e, a) {
      var i: nat :| TakenAt(s, es, i, a, round) && forall j :: i < j < |es| ==> !ProbesFor(es[j], a);
      assert TakenAt(s, all, i, a, round);
    }
  }

  lemma TakenInRange(s: Server, es: seq<ServerEvent>, a: Address, round: nat)
    ensures forall i: nat :: TakenAt(s, es, i, a, round) ==> i < |es|
  {
  }

  lemma RunExtends(s: Server, es: seq<ServerEvent>, e: ServerEvent)
    ensures ServerRun(s, es + [e]) == React(ServerRun(s, es), e)
  {
    assert (es + [e])[..|es|] == es;
  }

  /** A frame that was taken belongs to a round that has been reached. */
  lemma TakenWasReached(s: Server, es: seq<ServerEvent>, i: nat, a: Address, round: nat)
    requires TakenAt(s, es, i, a, round)
    ensures round <= ServerRun(s, es).round
  {
    var before := ServerRun(s, es[..i]);
    assert es[..i + 1] == es[..i] + [es[i]];
    RunExtends(s, es[..i], es[i]);
    ReachOutTells(before, es[i].frame, es[i].ipv6);
    RoundNeverDecreases(s, es, i + 1);
  }

  lemma NobodyWaitsAhead(s: Server, es: seq<ServerEvent>, a: Address, round: nat)
    requires ServerRun(s, es).round < round
    ensures !Waiting(s, es, a, round)
  {
    hide TakenAt, ProbesFor, ServerRun;
    forall i: nat
      ensures !TakenAt(s, es, i, a, round)
    {
      if TakenAt(s, es, i, a, round) { TakenWasReached(s, es, i, a, round); }
    }
  }

  lemma TakenLast(s: Server, es: seq<ServerEvent>, e: ServerEvent, a: Address, round: nat)
    ensures TakenAt(s, es + [e], |es|, a, round) <==>
            AskedBy(e, a, round) && HandleReachOut(ServerRun(s, es), e.frame, e.ipv6).1
  {
    assert (es + [e])[..|es|] == es;
    hide ServerRun, HandleReachOut;
  }

  /**
   In every run, an address is waiting to be probed exactly when some frame of the current round asked for
   it and was not refused, and it has not been probed since.
   */
  lemma {:induction false} PendingIff(maxRemote: nat, maxLocal: nat, es: seq<ServerEvent>, a: Address)
    ensures var s := NewServer(maxRemote, maxLocal);
            a in ServerRun(s, es).pending <==> Waiting(s, es, a, ServerRun(s, es).round)
  {
    var s := NewServer(maxRemote, maxLocal);
    if es == [] {
    } else {
      var n := |es| - 1;
      var before, e := ServerRun(s, es[..n]), es[n];
      assert es == es[..n] + [e];
      PendingIff(maxRemote, maxLocal, es[..n], a);
      RunExtends(s, es[..n], e);
      var after := ServerRun(s, es);
      hide ServerRun, Waiting, TakenAt, Reachable;
      WaitingExtends(s, es[..n], e, a, after.round);
      TakenLast(s, es[..n], e, a, after.round);
      match e
      case Reach(frame, ipv6) =>
        ReachOutTells(before, frame, ipv6);
        if frame.round > before.round { NobodyWaitsAhead(s, es[..n], a, frame.round); }
      case _ =>
    }
  }

  /** The first probe of `a` after event `i`, if there is any. */
  lemma {:induction false} FirstProbe(es: seq<ServerEvent>, i: nat, a: Address, n: nat) returns (j: nat)
    requires i < n <= |es|
    ensures i < j <= n && (forall k :: i < k < j ==> !ProbesFor(es[k], a)) && (j < n ==> ProbesFor(es[j], a))
    decreases n - i
  {
    if i + 1 == n || ProbesFor(es[i + 1], a) {
      j := i + 1;
    } else {
      j := FirstProbe(es, i + 1, a, n);
    }
  }

  /** Asked for in the current round while there was room, an address is waiting, or was probed from then on. */
  lemma AskedIsServed(maxRemote: nat, maxLocal: nat, es: seq<ServerEvent>, i: nat, a: Address)
    requires var s := NewServer(maxRemote, maxLocal);
             && i < |es| && AskedBy(es[i], a, ServerRun(s, es).round)
             && |ServerRun(s, es[..i]).pending| < maxRemote
    ensures var s := NewServer(maxRemote, maxLocal);
            || a in ServerRun(s, es).pending
            || exists j :: i < j < |es| && ProbesFor(es[j], a) && a in ServerRun(s, es[..j]).pending
  {
    var s := NewServer(maxRemote, maxLocal);
    var round := ServerRun(s, es).round;
    ServerProbesCurrentRound(maxRemote, maxLocal, es[..i]);
    hide ServerRun, ProbesCurrentRound, Reachable;
    ReachOutTells(ServerRun(s, es[..i]), es[i].frame, es[i].ipv6);
    assert TakenAt(s, es, i, a, round);
    var j := FirstProbe(es, i, a, |es|);
    var before := es[..j];
    assert before[..i] == es[..i];
    assert TakenAt(s, before, i, a, round);
    TakenWasReached(s, before, i, a, round);
    RoundNeverDecreases(s, es, j);
    hide TakenAt, HandleReachOut;
    assert Waiting(s, before, a, round);
    PendingIff(maxRemote, maxLocal, before, a);
    assert j == |es| ==> before == es;
  }

  /** Event `j` moved `a` from the pending to the active probes, under `token`, in round `round`. */
  predicate StartedAt(s: Server, es: seq<ServerEvent>, j: nat, a: Address, token: nat, round: nat) {
    && j < |es| && es[j] == Probed(a, token) && a in ServerRun(s, es[..j]).pending
    && ServerRun(s, es[..j]).round == round
  }

  /** And no later event used the token for another. */
  ghost predicate Running(s: Server, es: seq<ServerEvent>, a: Address, token: nat, round: nat) {
    exists j: nat :: StartedAt(s, es, j, a, token, round)
      && forall k, b :: j < k < |es| && b != a ==> !StartedAt(s, es, k, b, token, round)
  }

  lemma StartedExtends(s: Server, es: seq<ServerEvent>, e: ServerEvent, a: Address, token: nat, round: nat)
    ensures forall j: nat :: j < |es| ==>
              (StartedAt(s, es + [e], j, a, token, round) <==> StartedAt(s, es, j, a, token, round))
    ensures forall j: nat :: StartedAt(s, es, j, a, token, round) ==> j < |es|
    ensures StartedAt(s, es + [e], |es|, a, token, round) <==>
            e == Probed(a, token) && a in ServerRun(s, es).pending && ServerRun(s, es).round == round
  {
    var all := es + [e];
    assert all[..|es|] == es;
    forall j: nat | j < |es|
      ensures StartedAt(s, all, j, a, token, round) <==> StartedAt(s, es, j, a, token, round)
    {
      assert all[..j] == es[..j] && all[j] == es[j];
    }
  }

  lemma RunningExtends(s: Server, es: seq<ServerEvent>, e: ServerEvent, a: Address, token: nat, round: nat)
    ensures var starts := e.Probed? && e.token == token && e.remote in ServerRun(s, es).pending
                          && ServerRun(s, es).round == round;
            Running(s, es + [e], a, token, round) <==>
              if starts && e.remote != a then false
              else starts || Running(s, es, a, token, round)
  {
    var all := es + [e];
    forall b
      ensures forall j: nat :: j < |es| ==>
                (StartedAt(s, all, j, b, token, round) <==> StartedAt(s, es, j, b, token, round))
      ensures forall j: nat :: StartedAt(s, all, j, b, token, round) ==> j < |all|
      ensures forall j: nat :: StartedAt(s, es, j, b, token, round) ==> j < |es|
      ensures StartedAt(s, all, |es|, b, token, round) <==>
              e == Probed(b, token) && b in ServerRun(s, es).pending && ServerRun(s, es).round == round
    {
      StartedExtends(s, es, e, b, token, round);
      StartedExtends(s, all, e, b, token, round);
    }
    hide StartedAt, ServerRun;
    if Running(s, all, a, token, round) {
      var j: nat :| StartedAt(s, all, j, a, token, round)
                    && forall k, b :: j < k < |all| && b != a ==> !StartedAt(s, all, k, b, token, round);
      if j < |es| { assert StartedAt(s, es, j, a, token, round); }
    }
    if Running(s, es, a, token, round) {
      var j: nat :| StartedAt(s, es, j, a, token, round)
                    && forall k, b :: j < k < |es| && b != a ==> !StartedAt(s, es, k, b, token, round);
      assert StartedAt(s, all, j, a, token, round);
    }
  }

  lemma NobodyRunsAhead(s: Server, es: seq<ServerEvent>, a: Address, token: nat, round: nat)
    requires ServerRun(s, es).round < round
    ensures !Running(s, es, a, token, round)
  {
    forall j: nat
      ensures !StartedAt(s, es, j, a, token, round)
    {
      if j < |es| { RoundNeverDecreases(s, es, j); }
    }
  }

  /** In every run, exactly the probes begun in the current round are active, each under its latest token. */
  lemma {:induction false} ActiveIff(maxRemote: nat, maxLocal: nat, es: seq<ServerEvent>, a: Address, token: nat)
    ensures var s := NewServer(maxRemote, maxLocal);
            var active := ServerRun(s, es).active;
            (token in active && active[token] == a) <==> Running(s, es, a, token, ServerRun(s, es).round)
  {
    var s := NewServer(maxRemote, maxLocal);
    if es == [] {
    } else {
      var n := |es| - 1;
      var before, e := ServerRun(s, es[..n]), es[n];
      assert es == es[..n] + [e];
      ActiveIff(maxRemote, maxLocal, es[..n], a, token);
      RunExtends(s, es[..n], e);
      var after := ServerRun(s, es);
      hide ServerRun, Running, Reachable;
      RunningExtends(s, es[..n], e, a, token, after.round);
      match e
      case Reach(frame, ipv6) =>
        ReachOutTells(before, frame, ipv6);
        if frame.round > before.round { NobodyRunsAhead(s, es[..n], a, token, frame.round); }
      case _ =>
    }
  }

  // ---------------------------------------------------------------------------------------------
  // Continuations on the client
  // ---------------------------------------------------------------------------------------------

  /** `ids` are the answers of repeated continuations from `c`, up to the one that found nothing. */
  ghost predicate Continues(c: Client, ipv6: bool, ids: seq<nat>, c': Client)
    decreases ids
  {
    if ids == [] then Reportable(c, ipv6) == {} && c' == c
    else ids[0] in Reportable(c, ipv6) && Continues(Cleared(c, ids[0]), ipv6, ids[1..], c')
  }

  lemma ClearedReportable(c: Client, ipv6: bool, id: nat)
    requires id in Reportable(c, ipv6)
    ensures Reportable(Cleared(c, id), ipv6) == Reportable(c, ipv6) - {id}
  {
  }

  /** Each marked reachable address comes back once, in some order. */
  lemma {:induction false} ContinuationsReportOnce(c: Client, ipv6: bool, ids: seq<nat>, c': Client)
    requires Continues(c, ipv6, ids, c')
    ensures forall i, j :: 0 <= i < j < |ids| ==> ids[i] != ids[j]
    ensures forall id :: id in ids <==> id in Reportable(c, ipv6)
    ensures |ids| == |Reportable(c, ipv6)|
    decreases ids
  {
    if ids == [] {
    } else {
      ClearedReportable(c, ipv6, ids[0]);
      ContinuationsReportOnce(Cleared(c, ids[0]), ipv6, ids[1..], c');
      hide Reportable, Continues, Cleared;
      assert ids == [ids[0]] + ids[1..];
      forall j | 0 < j < |ids|
        ensures ids[j] != ids[0]
      {
        assert ids[j] == ids[1..][j - 1] && ids[1..][j - 1] in ids[1..];
      }
    }
  }

  /** Afterwards those marks are cleared, and nothing else has changed. */
  lemma {:induction false} ContinuationsClearMarks(c: Client, ipv6: bool, ids: seq<nat>, c': Client)
    requires Continues(c, ipv6, ids, c')
    ensures c' == c.(remote := map id | id in c.remote ::
                       if id in Reportable(c, ipv6) then c.remote[id].(report := false) else c.remote[id])
    decreases ids
  {
    if ids == [] {
      assert c.remote == map id | id in c.remote :: c.remote[id];
    } else {
      ClearedReportable(c, ipv6, ids[0]);
      ContinuationsClearMarks(Cleared(c, ids[0]), ipv6, ids[1..], c');
    }
  }

  /** A new round starts with nothing to report. */
  lemma NewRoundReportsNothing(c: Client, ipv6: bool, ids: seq<nat>, c': Client)
    requires Continues(AllCleared(c), ipv6, ids, c')
    ensures ids == [] && c' == AllCleared(c)
  {
    assert Reportable(AllCleared(c), ipv6) == {};
  }

  /** Any order of picking is possible: whatever a continuation may pick first, some maximal run picks first. */
  lemma {:induction false} ContinuationsExist(c: Client, ipv6: bool, first: Option<nat>)
    returns (ids: seq<nat>, c': Client)
    requires first.Some? ==> first.value in Reportable(c, ipv6)
    ensures Continues(c, ipv6, ids, c')
    ensures first.Some? ==> ids != [] && ids[0] == first.value
    decreases |Reportable(c, ipv6)|
  {
    if Reportable(c, ipv6) == {} {
      ids, c' := [], c;
    } else {
      var any :| any in Reportable(c, ipv6);
      var id := if first.Some? then first.value else any;
      ClearedReportable(c, ipv6, id);
      ids, c' := ContinuationsExist(Cleared(c, id), ipv6, None);
      var rest := ids;
      ids := [id] + ids;
      assert ids[1..] == rest;
    }
  }
}
