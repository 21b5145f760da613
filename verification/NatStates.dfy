/** Both sides of NAT traversal as the objects that the connection updates in place. */
module NatStates {
  import opened Common
  import opened NatTraversal
  import opened NatProtocol

  /** An id that no frame so far has given to an address. */
  ghost predicate Unused(frames: seq<Frame>, id: nat) {
    forall f <- frames :: f.AddAddress? ==> f.id != id
  }

  lemma NextIdIsUnused(s: Server, sent: seq<Frame>, a: Address)
    requires Numbered(s, sent)
    ensures var (s', r) := AddLocal(s, a);
            r.Send? && Assigned(sent + Emitted(r)) <= VARINT_MAX + 1 ==> Unused(sent, r.frame.id)
  {
    var (s', r) := AddLocal(s, a);
    if r.Send? { AssignedAppend(sent, r.frame); }
    hide Assigned, UniqueIds;
  }

  lemma NumberedAlike(s: Server, s': Server, sent: seq<Frame>)
    requires Numbered(s, sent) && s'.nextId == s.nextId && s'.local == s.local
    ensures Numbered(s', sent)
  {
  }

  lemma WithdrawsWhatWasSent(s: Server, sent: seq<Frame>, a: Address)
    requires Numbered(s, sent)
    ensures var (s', r) := RemoveLocal(s, a);
            r.Send? && Assigned(sent) <= VARINT_MAX + 1 ==> AddAddress(r.frame.id, a) in sent
  {
    hide Assigned, UniqueIds, IdsBelow;
  }

  /** `sent` holds every frame sent, `log` every event so far. */
  class ServerState {
    const maxRemote: nat
    const maxLocal: nat
    var local: map<Address, nat>
    var nextId: nat
    var round: nat
    var pending: set<Address>
    var active: map<nat, Address>

    ghost var sent: seq<Frame>
    ghost var log: seq<ServerEvent>

    ghost function View(): Server
      reads this
    {
      Server(maxRemote, maxLocal, local, nextId, round, pending, active)
    }

    ghost predicate Valid()
      reads this
    {
      Numbered(View(), sent) && ProbesCurrentRound(View(), log)
    }

    constructor (maxRemote: nat, maxLocal: nat)
      ensures Valid() && View() == NewServer(maxRemote, maxLocal) && sent == [] && log == []
    {
      this.maxRemote, this.maxLocal := maxRemote, maxLocal;
      local, nextId, round, pending, active := map[], 0, 0, {}, map[];
      sent, log := [], [];
    }

    /** A new address gets an id that no address ever had, unless the ids are used up. */
    method AddLocalAddress(a: Address) returns (r: Sending)
      requires Valid()
      modifies this
      ensures Valid() && sent == old(sent) + Emitted(r) && log == old(log) + [Local(Advertise(a))]
      ensures (View(), r) == AddLocal(old(View()), a)
      ensures r.Nothing? <==> a in old(local)
      ensures r.TooManyAddresses? <==> a !in old(local) && |old(local)| >= maxLocal
      ensures r.Send? && Assigned(sent) <= VARINT_MAX + 1 ==> Unused(old(sent), r.frame.id)
    {
      hide Numbered, ProbesCurrentRound, Assigned, Unused;
      StepKeepsNumbered(View(), sent, Advertise(a));
      ReactKeepsProbes(View(), log, Local(Advertise(a)));
      NextIdIsUnused(View(), sent, a);
      log := log + [Local(Advertise(a))];
      var allowNew := |local| < maxLocal;
      if a in local {
        AppendNothing(sent);
        return Nothing;
      }
      if !allowNew {
        AppendNothing(sent);
        return TooManyAddresses;
      }
      r := Send(AddAddress(nextId, a));
      local := local[a := nextId];
      nextId := Bump(nextId);
      sent := sent + [r.frame];
    }

    /** What is withdrawn is what was advertised. */
    method RemoveLocalAddress(a: Address) returns (r: Sending)
      requires Valid()
      modifies this
      ensures Valid() && sent == old(sent) + Emitted(r) && log == old(log) + [Local(Withdraw(a))]
      ensures (View(), r) == RemoveLocal(old(View()), a)
      ensures r.Send? && Assigned(old(sent)) <= VARINT_MAX + 1 ==> AddAddress(r.frame.id, a) in old(sent)
    {
      hide Numbered, ProbesCurrentRound, Assigned;
      StepKeepsNumbered(View(), sent, Withdraw(a));
      ReactKeepsProbes(View(), log, Local(Withdraw(a)));
      WithdrawsWhatWasSent(View(), sent, a);
      log := log + [Local(Withdraw(a))];
      if a !in local {
        AppendNothing(sent);
        return Nothing;
      }
      r := Send(RemoveAddress(local[a]));
      local := local - {a};
      sent := sent + [r.frame];
    }

    /** Whatever is probed afterwards was asked for in the current round; the round never falls. */
    method HandleReachOut(r: ReachOut, ipv6: bool) returns (ok: bool)
      requires Valid()
      modifies this
      ensures Valid() && sent == old(sent) && log == old(log) + [Reach(r, ipv6)]
      ensures (View(), ok) == NatTraversal.HandleReachOut(old(View()), r, ipv6)
      ensures old(round) <= round && (round > old(round) ==> active == map[])
      ensures !ok <==> r.round == old(round) && Reachable(r.address, ipv6).Some? && |old(pending)| >= maxRemote
      ensures ok && r.round == round && Reachable(r.address, ipv6).Some? ==> Reachable(r.address, ipv6).value in pending
    {
      hide Numbered, ProbesCurrentRound, Reachable, NatTraversal.HandleReachOut;
      ReachOutTells(View(), r, ipv6);
      ReactKeepsProbes(View(), log, Reach(r, ipv6));
      ghost var after := NatTraversal.HandleReachOut(View(), r, ipv6).0;
      NumberedAlike(View(), after, sent);
      ok := TakeReachOut(r, ipv6);
      log := log + [Reach(r, ipv6)];
    }

    /** Its statements. */
    method TakeReachOut(r: ReachOut, ipv6: bool) returns (ok: bool)
      modifies `round, `pending, `active
      ensures (View(), ok) == NatTraversal.HandleReachOut(old(View()), r, ipv6)
    {
      hide Reachable;
      if r.round < round {
        return true;
      }
      var remote := Reachable(r.address, ipv6);
      if remote.None? {
        return true;
      }
      if r.round > round {
        round := r.round;
        pending := {};
        active := map[];
      } else if |pending| >= maxRemote {
        return false;
      }
      assert {} + {remote.value} == {remote.value};
      pending := pending + {remote.value};
      ok := true;
    }

    /** `next_probe` and `finish`: the probe borrows the state, so nothing can happen in between. */
    method ProbeOne(token: nat) returns (remote: Option<Address>)
      requires Valid()
      modifies this
      ensures Valid() && sent == old(sent)
      ensures remote.None? <==> old(pending) == {}
      ensures remote.None? ==> View() == old(View())
      ensures remote.Some? ==> remote.value in old(pending) && View() == FinishProbe(old(View()), remote.value, token)
    {
      if pending == {} {
        return None;
      }
      var r :| r in pending;
      hide Numbered, ProbesCurrentRound;
      ReactKeepsProbes(View(), log, Probed(r, token));
      NumberedAlike(View(), FinishProbe(View(), r, token), sent);
      pending := pending - {r};
      active := active[token := r];
      log := log + [Probed(r, token)];
      remote := Some(r);
    }
  }

  lemma SameAddressesSayLast(remote: map<nat, Remote>, remote': map<nat, Remote>, frames: seq<Frame>)
    requires SaysLast(remote, frames) && remote'.Keys == remote.Keys
    requires forall id <- remote :: remote'[id].address == remote[id].address
    ensures SaysLast(remote', frames)
  {
    forall id: nat
      ensures AddressOf(remote', id) == LastWord(frames, id)
    {
      assert AddressOf(remote, id) == LastWord(frames, id);
    }
  }

  /** A new or changed address is not to be reported. */
  lemma AddedReportable(c: Client, id: nat, a: Address)
    ensures var (c', r) := AddRemote(c, id, a);
            forall ipv6 :: Reportable(c', ipv6) == Reportable(c, ipv6) - if r.Added? then {id} else {}
  {
    hide Reachable;
  }

  lemma ProbesTell(remote: map<nat, Remote>, ipv6: bool)
    ensures var probes := ToProbe(remote, ipv6);
            && (forall id :: id in probes <==> id in remote && Reachable(remote[id].address, ipv6).Some?)
            && (forall id <- probes :: Some(probes[id]) == Reachable(remote[id].address, ipv6))
  {
    hide Reachable;
  }

  lemma MarkedReportable(c: Client, id: nat)
    requires id in c.remote
    ensures forall ipv6 :: Reportable(c.(remote := c.remote[id := c.remote[id].(report := true)]), ipv6) ==
              Reportable(c, ipv6) + if Reachable(c.remote[id].address, ipv6).Some? then {id} else {}
  {
    hide Reachable;
  }

  /** The table with the marks of some ids cleared. */
  function Unmarked(remote: map<nat, Remote>, ids: set<nat>): map<nat, Remote> {
    map id | id in remote :: if id in ids then remote[id].(report := false) else remote[id]
  }

  /** The reachable addresses of some ids. */
  function Among(remote: map<nat, Remote>, ids: set<nat>, ipv6: bool): map<nat, Address> {
    map id | id in remote && id in ids && Reachable(remote[id].address, ipv6).Some? ::
      Reachable(remote[id].address, ipv6).value
  }

  lemma NoneCleared(remote: map<nat, Remote>, ipv6: bool)
    ensures Unmarked(remote, {}) == remote && Among(remote, {}, ipv6) == map[]
  {
    hide Reachable;
  }

  lemma OneCleared(remote: map<nat, Remote>, ids: set<nat>, id: nat, ipv6: bool)
    requires id in remote && id !in ids
    ensures var now := Unmarked(remote, ids);
            && id in now && now[id] == remote[id]
            && Unmarked(remote, ids + {id}) == now[id := remote[id].(report := false)]
    ensures var r := Reachable(remote[id].address, ipv6);
            Among(remote, ids + {id}, ipv6) ==
              if r.Some? then Among(remote, ids, ipv6)[id := r.value] else Among(remote, ids, ipv6)
  {
    hide Reachable;
  }

  lemma AllOfThem(c: Client, ipv6: bool)
    ensures Unmarked(c.remote, c.remote.Keys) == AllCleared(c).remote
    ensures Among(c.remote, c.remote.Keys, ipv6) == ToProbe(c.remote, ipv6)
  {
    hide Reachable;
  }

  /** `heard` holds every frame received that there was room for. */
  class ClientState {
    const maxRemote: nat
    const maxLocal: nat
    var remote: map<nat, Remote>
    var local: set<Address>
    var round: nat
    var pathIds: seq<nat>

    ghost var heard: seq<Frame>

    ghost function View(): Client
      reads this
    {
      Client(maxRemote, maxLocal, remote, local, round, pathIds)
    }

    ghost predicate Valid()
      reads this
    {
      SaysLast(remote, heard) && |remote| <= maxRemote && |local| <= maxLocal
    }

    constructor (maxRemote: nat, maxLocal: nat)
      ensures Valid() && View() == NewClient(maxRemote, maxLocal) && heard == []
    {
      this.maxRemote, this.maxLocal := maxRemote, maxLocal;
      remote, local, round, pathIds, heard := map[], {}, 0, [], [];
    }

    method AddLocalAddress(a: Address) returns (ok: bool)
      requires Valid()
      modifies `local
      ensures Valid()
      ensures ok <==> |old(local)| < maxLocal || a in old(local)
      ensures local == if ok then old(local) + {a} else old(local)
    {
      hide SaysLast;
      if |local| < maxLocal {
        local := local + {a};
        return true;
      }
      assert a in local ==> local == local + {a};
      ok := a in local;
    }

    /** Afterwards this frame is the last word on its id, unless there was no room for it. */
    method AddRemoteAddress(id: nat, a: Address) returns (r: Receipt)
      requires Valid()
      modifies `remote, `heard
      ensures Valid() && (View(), r) == AddRemote(old(View()), id, a)
      ensures heard == old(heard) + if r.Refused? then [] else [AddAddress(id, a)]
      ensures r.Refused? <==> LastWord(old(heard), id).None? && |old(remote)| == maxRemote
      ensures r.Unchanged? <==> LastWord(old(heard), id) == Some(a)
      ensures forall ipv6 :: Reportable(View(), ipv6) == Reportable(old(View()), ipv6) - if r.Added? then {id} else {}
    {
      AddedReportable(View(), id, a);
      ReceiveSaysLast(View(), heard, AddAddress(id, a));
      assert AddressOf(remote, id) == LastWord(heard, id);
      hide SaysLast, LastWord;
      var allowNew := |remote| < maxRemote;
      if id in remote {
        heard := heard + [AddAddress(id, a)];
        if remote[id].address == a {
          return Unchanged;
        }
        remote := remote[id := Remote(a, false)];
        return Added(a);
      }
      if !allowNew {
        AppendNothing(heard);
        return Refused;
      }
      remote := remote[id := Remote(a, false)];
      heard := heard + [AddAddress(id, a)];
      r := Added(a);
    }

    /** Returns the last word on the id, which is then withdrawn. */
    method RemoveRemoteAddress(id: nat) returns (r: Option<Address>)
      requires Valid()
      modifies `remote, `heard
      ensures Valid() && View() == RemoveRemote(old(View()), id)
      ensures heard == old(heard) + [RemoveAddress(id)]
      ensures r == LastWord(old(heard), id) && LastWord(heard, id).None?
    {
      ReceiveSaysLast(View(), heard, RemoveAddress(id));
      assert AddressOf(remote, id) == LastWord(heard, id);
      LastWordAppend(heard, RemoveAddress(id), id);
      hide SaysLast, LastWord;
      r := if id in remote then Some(remote[id].address) else None;
      remote := remote - {id};
      heard := heard + [RemoveAddress(id)];
    }

    /**
     `spurious`: the path could not be opened for lack of path or connection IDs. The address can then be
     continued with.
     */
    method ReportInContinuation(id: nat, spurious: bool)
      requires Valid()
      modifies `remote
      ensures Valid() && remote.Keys == old(remote).Keys
      ensures forall k <- remote :: k != id ==> remote[k] == old(remote)[k]
      ensures forall ipv6 :: Reportable(View(), ipv6) == Reportable(old(View()), ipv6) +
                var known := LastWord(heard, id);
                if spurious && known.Some? && Reachable(known.value, ipv6).Some? then {id} else {}
    {
      hide Reachable, LastWord, Reportable;
      assert AddressOf(remote, id) == LastWord(heard, id);
      hide SaysLast;
      ghost var before := View();
      if spurious && id in remote {
        remote := remote[id := remote[id].(report := true)];
        MarkedReportable(before, id);
      }
      SameAddressesSayLast(before.remote, remote, heard);
    }

    /** The loop over the remote addresses that starts a round. */
    method ClearMarks(ipv6: bool) returns (probes: map<nat, Address>)
      modifies `remote
      ensures remote == AllCleared(old(View())).remote
      ensures probes == ToProbe(old(remote), ipv6)
    {
      hide Reachable, Unmarked, Among, ToProbe;
      ghost var before := remote;
      ghost var done: set<nat> := {};
      NoneCleared(before, ipv6);
      probes := map[];
      var rest := remote.Keys;
      while rest != {}
        invariant done + rest == before.Keys && done !! rest
        invariant remote == Unmarked(before, done) && probes == Among(before, done, ipv6)
        decreases |rest|
      {
        var id :| id in rest;
        OneCleared(before, done, id, ipv6);
        var mapped := Reachable(remote[id].address, ipv6);
        remote := remote[id := remote[id].(report := false)];
        if mapped.Some? {
          probes := probes[id := mapped.value];
        }
        rest, done := rest - {id}, done + {id};
      }
      assert done == before.Keys;
      AllOfThem(old(View()), ipv6);
    }

    /** Starts a round: `None` when there is no local address to report. */
    method Initiate(ipv6: bool) returns (r: Option<(nat, set<Address>, map<nat, Address>, seq<nat>)>)
      requires Valid()
      modifies `remote, `round, `pathIds
      ensures Valid()
      ensures r.None? <==> old(local) == {}
      ensures r.None? ==> View() == old(View())
      ensures r.Some? ==>
                && View() == AllCleared(old(View())).(round := Bump(old(round)), pathIds := [])
                && r.value == (Bump(old(round)), old(local), ToProbe(old(remote), ipv6), old(pathIds))
                && (forall id :: id in r.value.2 <==>
                      (id in old(remote) && Reachable(old(remote)[id].address, ipv6).Some?))
                && (forall id <- r.value.2 :: Some(r.value.2[id]) == Reachable(old(remote)[id].address, ipv6))
    {
      ProbesTell(remote, ipv6);
      if local == {} {
        return None;
      }
      hide SaysLast, ToProbe;
      ghost var before := remote;
      var previous := pathIds;
      pathIds := [];
      round := Bump(round);
      var probes := ClearMarks(ipv6);
      assert remote.Keys == before.Keys;
      SameAddressesSayLast(before, remote, heard);
      r := Some((round, local, probes, previous));
    }

    /** The paths on which the round's addresses are being tried, for the next round to close. */
    method SetRoundPathIds(ids: seq<nat>)
      modifies `pathIds
      ensures pathIds == ids
    {
      pathIds := ids;
    }

    method AddRoundPathId(id: nat)
      modifies `pathIds
      ensures pathIds == old(pathIds) + [id]
    {
      pathIds := pathIds + [id];
    }

    /** Any one marked address that the local socket can reach; its mark is cleared. */
    method Continue(ipv6: bool) returns (r: Option<(nat, Address)>)
      requires Valid()
      modifies `remote
      ensures Valid()
      ensures r.None? <==> Reportable(old(View()), ipv6) == {}
      ensures r.None? ==> View() == old(View())
      ensures r.Some? ==>
                && r.value.0 in Reportable(old(View()), ipv6)
                && Some(r.value.1) == Reachable(old(remote)[r.value.0].address, ipv6)
                && View() == Cleared(old(View()), r.value.0)
    {
      hide MapToLocalSocketFamily, SaysLast;
      ghost var before := remote;
      var candidates := set id | id in remote && remote[id].report && Reachable(remote[id].address, ipv6).Some?;
      if candidates == {} {
        return None;
      }
      var id :| id in candidates;
      r := Some((id, Reachable(remote[id].address, ipv6).value));
      remote := remote[id := remote[id].(report := false)];
      SameAddressesSayLast(before, remote, heard);
    }
  }
}
