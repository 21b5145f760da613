/** NAT traversal: the two sides' states as values, and the effect of every operation on them. */
module NatTraversal {
  import opened Common

  const VARINT_MAX := 0x3FFF_FFFF_FFFF_FFFF

  function Bump(n: nat): nat {
    if n < VARINT_MAX then n + 1 else VARINT_MAX
  }

  // ---------------------------------------------------------------------------------------------
  // Addresses
  // ---------------------------------------------------------------------------------------------

  datatype Ip = V4(bits: nat) | V6(bits: nat)

  datatype Address = Address(ip: Ip, port: nat)

  const TWO_32 := 0x1_0000_0000
  const MAPPED := 0xFFFF_0000_0000 // ::ffff:0:0

  predicate WellFormedIp(ip: Ip) {
    ip.V4? ==> ip.bits < TWO_32
  }

  /** The address as seen by the local socket; `None` when an IPv4 socket cannot reach it. */
  function MapToLocalSocketFamily(ip: Ip, ipv6: bool): Option<Ip> {
    match ip
    case V4(b) => Some(if ipv6 then V6(MAPPED + b) else ip)
    case V6(b) =>
      if ipv6 then Some(ip)
      else if MAPPED <= b < MAPPED + TWO_32 then Some(V4(b - MAPPED))
      else None
  }

  function Reachable(a: Address, ipv6: bool): Option<Address> {
    match MapToLocalSocketFamily(a.ip, ipv6)
    case None => None
    case Some(ip) => Some(Address(ip, a.port))
  }

  /** The result is of the socket's family, mapping it again changes nothing, and IPv4 survives the round trip. */
  lemma MappingIsCanonical(ip: Ip, ipv6: bool)
    requires WellFormedIp(ip)
    ensures MapToLocalSocketFamily(ip, ipv6).None? <==>
            !ipv6 && ip.V6? && forall b :: 0 <= b < TWO_32 ==> MapToLocalSocketFamily(V4(b), true) != Some(ip)
    ensures match MapToLocalSocketFamily(ip, ipv6)
            case None => true
            case Some(m) =>
              && m.V6? == ipv6 && WellFormedIp(m)
              && MapToLocalSocketFamily(m, ipv6) == Some(m)
              && (ip.V4? ==> MapToLocalSocketFamily(m, false) == Some(ip))
  {
    if !ipv6 && ip.V6? && MAPPED <= ip.bits < MAPPED + TWO_32 {
      assert MapToLocalSocketFamily(V4(ip.bits - MAPPED), true) == Some(ip);
    }
  }

  /** An address as the local socket sees it has that socket's family and the port of the original. */
  lemma ReachableKeepsPort(a: Address, ipv6: bool)
    requires WellFormedIp(a.ip)
    ensures match Reachable(a, ipv6)
            case None => !ipv6 && a.ip.V6?
            case Some(m) => m.port == a.port && m.ip.V6? == ipv6 && Reachable(m, ipv6) == Some(m)
  {
    MappingIsCanonical(a.ip, ipv6);
  }

  // ---------------------------------------------------------------------------------------------
  // The server
  // ---------------------------------------------------------------------------------------------

  datatype Frame = AddAddress(id: nat, address: Address) | RemoveAddress(id: nat)

  datatype ReachOut = ReachOut(round: nat, address: Address)

  datatype Server = Server(maxRemote: nat, maxLocal: nat, local: map<Address, nat>, nextId: nat,
                           round: nat, pending: set<Address>, active: map<nat, Address>)

  datatype Sending = Nothing | Send(frame: Frame) | TooManyAddresses

  function NewServer(maxRemote: nat, maxLocal: nat): Server {
    Server(maxRemote, maxLocal, map[], 0, 0, {}, map[])
  }

  function AddLocal(s: Server, a: Address): (Server, Sending) {
    if a in s.local then (s, Nothing)
    else if |s.local| < s.maxLocal then
      (s.(local := s.local[a := s.nextId], nextId := Bump(s.nextId)), Send(AddAddress(s.nextId, a)))
    else (s, TooManyAddresses)
  }

  function RemoveLocal(s: Server, a: Address): (Server, Sending) {
    if a in s.local then (s.(local := s.local - {a}), Send(RemoveAddress(s.local[a]))) else (s, Nothing)
  }

  /** The server afterwards, and whether the frame was acceptable. */
  function HandleReachOut(s: Server, r: ReachOut, ipv6: bool): (Server, bool) {
    if r.round < s.round then (s, true)
    else
      match Reachable(r.address, ipv6)
      case None => (s, true)
      case Some(a) =>
        if r.round > s.round then (s.(round := r.round, pending := {a}, active := map[]), true)
        else if |s.pending| >= s.maxRemote then (s, false)
        else (s.(pending := s.pending + {a}), true)
  }

  /** A frame is refused exactly when the round is current, its address reachable, and too many are waiting. */
  lemma ReachOutTells(s: Server, r: ReachOut, ipv6: bool)
    ensures var (s', ok) := HandleReachOut(s, r, ipv6);
            var a := Reachable(r.address, ipv6);
            && (!ok <==> r.round == s.round && a.Some? && |s.pending| >= s.maxRemote)
            && (!ok || r.round < s.round || a.None? ==> s' == s)
            && (ok && s.round <= r.round && a.Some? ==>
                  && s'.round == r.round && a.value in s'.pending
                  && s' == s.(round := s'.round, pending := s'.pending, active := s'.active)
                  && (r.round == s.round ==> s'.pending == s.pending + {a.value} && s'.active == s.active)
                  && (r.round > s.round ==> s'.pending == {a.value} && s'.active == map[]))
  {
    hide Reachable;
  }

  function FinishProbe(s: Server, remote: Address, token: nat): Server {
    s.(pending := s.pending - {remote}, active := s.active[token := remote])
  }

  /** Each answer of the server about an address of its own: known, given an id, or one too many. */
  lemma AddLocalTells(s: Server, a: Address)
    ensures var (s', r) := AddLocal(s, a);
            && (r.Nothing? <==> a in s.local)
            && (r.TooManyAddresses? <==> a !in s.local && |s.local| >= s.maxLocal)
            && (!r.Send? ==> s' == s)
            && (r.Send? ==> r.frame == AddAddress(s.nextId, a) && s'.local == s.local[a := s.nextId])
  {
  }

  // ---------------------------------------------------------------------------------------------
  // The client
  // ---------------------------------------------------------------------------------------------

  /** A remote address, and whether a continuation of the round should report it. */
  datatype Remote = Remote(address: Address, report: bool)

  datatype Client = Client(maxRemote: nat, maxLocal: nat, remote: map<nat, Remote>, local: set<Address>,
                           round: nat, pathIds: seq<nat>)

  datatype Receipt = Added(address: Address) | Unchanged | Refused

  function NewClient(maxRemote: nat, maxLocal: nat): Client {
    Client(maxRemote, maxLocal, map[], {}, 0, [])
  }

  function AddRemote(c: Client, id: nat, a: Address): (Client, Receipt) {
    if id in c.remote then
      if c.remote[id].address != a then (c.(remote := c.remote[id := Remote(a, false)]), Added(a)) else (c, Unchanged)
    else if |c.remote| < c.maxRemote then (c.(remote := c.remote[id := Remote(a, false)]), Added(a))
    else (c, Refused)
  }

  function RemoveRemote(c: Client, id: nat): Client {
    c.(remote := c.remote - {id})
  }

  predicate CheckRemote(c: Client, id: nat, a: Address) {
    id in c.remote ==> c.remote[id].address == a
  }

  function Receive(c: Client, f: Frame): Client {
    match f
    case AddAddress(id, a) => AddRemote(c, id, a).0
    case RemoveAddress(id) => RemoveRemote(c, id)
  }

  /** The ids that a continuation can still report over the local socket. */
  function Reportable(c: Client, ipv6: bool): set<nat> {
    set id | id in c.remote && c.remote[id].report && Reachable(c.remote[id].address, ipv6).Some?
  }

  function Cleared(c: Client, id: nat): Client
    requires id in c.remote
  {
    c.(remote := c.remote[id := c.remote[id].(report := false)])
  }

  function AllCleared(c: Client): Client {
    c.(remote := map id | id in c.remote :: c.remote[id].(report := false))
  }

  /** The addresses to probe in a new round: every remote address that the local socket can reach. */
  function ToProbe(remote: map<nat, Remote>, ipv6: bool): map<nat, Address> {
    map id | id in remote && Reachable(remote[id].address, ipv6).Some? :: Reachable(remote[id].address, ipv6).value
  }
}
