/** The sequence numbers of a connection's IDs, over whole runs of the endpoint. */
module EndpointNumbers {
  import opened Common
  import opened EndpointModel
  import opened EndpointCids
  import opened EndpointRuns

  function NextSequence(s: Endpoint, ch: Handle, path: PathId): nat
    requires ch in s.connections
  {
    PathOf(s.connections[ch], path).issued
  }

  /** Issuing IDs gives them consecutive numbers, each under its own number. */
  lemma {:induction false} IssueAllNumbers(s: Endpoint, ch: Handle, path: PathId, ids: seq<ConnectionId>,
                                           ch': Handle, path': PathId)
    requires ch in s.connections && ch' in s.connections
    ensures var s' := IssueAll(s, ch, path, ids);
            && ch' in s'.connections
            && NextSequence(s', ch', path') ==
                 NextSequence(s, ch', path') + (if ch' == ch && path' == path then |ids| else 0)
    ensures forall k :: 0 <= k < |ids| ==>
              Holds(IssueAll(s, ch, path, ids).connections, ch, path, NextSequence(s, ch, path) + k, ids[k])
    decreases ids
  {
    if ids == [] {
    } else {
      var s1 := IssueOne(s, ch, path, ids[0]);
      var n := NextSequence(s, ch, path);
      IssueAllNumbers(s1, ch, path, ids[1..], ch', path');
      assert NextSequence(s1, ch, path) == n + 1;
      IssueAllKeepsHeld(s1, ch, path, ids[1..], n, ids[0]);
      forall k | 0 < k < |ids|
        ensures Holds(IssueAll(s, ch, path, ids).connections, ch, path, n + k, ids[k])
      {
        assert ids[1..][k - 1] == ids[k];
      }
    }
  }

  lemma {:induction false} IssueAllKeepsHeld(s: Endpoint, ch: Handle, path: PathId, ids: seq<ConnectionId>,
                                             q: nat, id: ConnectionId)
    requires ch in s.connections && Holds(s.connections, ch, path, q, id) && q < NextSequence(s, ch, path)
    ensures Holds(IssueAll(s, ch, path, ids).connections, ch, path, q, id)
    decreases ids
  {
    if ids == [] {
    } else {
      IssueAllKeepsHeld(IssueOne(s, ch, path, ids[0]), ch, path, ids[1..], q, id);
    }
  }

  lemma SamePathSameNumbers(s: Endpoint, s': Endpoint, ch: Handle, path: PathId)
    requires ch in s.connections && ch in s'.connections && s'.connections[ch].paths == s.connections[ch].paths
    ensures NextSequence(s', ch, path) == NextSequence(s, ch, path)
  {
  }

  lemma AddFrame(s: Endpoint, ch: Handle, initCid: ConnectionId, side: Side, ids: seq<ConnectionId>, k: Handle)
    requires 1 <= |ids| <= 2 && k in s.connections && k != ch
    ensures var s' := AddConnection(s, ch, initCid, side, ids);
            k in s'.connections && s'.connections[k] == s.connections[k]
  {
    hide FirstCids;
  }

  lemma TokenFrame(s: Endpoint, ch: Handle, path: PathId, key: ResetKey, k: Handle)
    requires ch in s.connections && k in s.connections
    ensures SetResetToken(s, ch, path, key).connections[k].paths == s.connections[k].paths
    ensures RetireResetToken(s, ch, path).connections[k].paths == s.connections[k].paths
  {
    hide InsertToken, RemoveToken;
  }

  /** Only the two events that issue IDs touch the paths of a connection that lives on. */
  lemma ApplyPathFrame(s: Endpoint, c: Config, e: Event, ch: Handle)
    requires Possible(s, e) && ch in s.connections && ch in Apply(s, c, e).connections
    requires !e.NeedIdentifiers? && !e.RetireConnectionId?
    ensures Apply(s, c, e).connections[ch].paths == s.connections[ch].paths
  {
    hide FreshIds, CidsExhausted, HandleDatagram, Accept, Drain, SetResetToken, RetireResetToken, AddConnection;
    match e
    case Connecting(_, ch', initCid, id, _) => AddFrame(s, ch', initCid, Client, [id], ch);
    case Arriving(d, v, idx, now) => DatagramFrame(s, c, d, v, idx, now);
    case Accepting(idx, a, ch', ids) => AcceptFrame(s, c, idx, a, ch', ids);
    case Drained(ch') => DrainFrame(s, ch');
    case NewResetToken(ch', path, key) => TokenFrame(s, ch', path, key, ch);
    case DropResetToken(ch', path) => TokenFrame(s, ch', path, ResetKey([], []), ch);
    case Forgetting(_) =>
  }

  lemma RetireKeepsNumbers(s: Endpoint, ch: Handle, path: PathId, sequence: nat, ch': Handle, path': PathId)
    requires HoldsSequence(s, ch, path, sequence) && ch' in s.connections
    ensures NextSequence(RetireOne(s, ch, path, sequence), ch', path') == NextSequence(s, ch', path')
  {
  }

  /** Issuing more IDs puts none under a number that was assigned before. */
  lemma {:induction false} IssueAllAddsNothingOld(s: Endpoint, ch: Handle, path: PathId, ids: seq<ConnectionId>,
                                                  ch': Handle, path': PathId, q: nat, id: ConnectionId)
    requires ch in s.connections && ch' in s.connections && q < NextSequence(s, ch', path')
    requires Holds(IssueAll(s, ch, path, ids).connections, ch', path', q, id)
    ensures Holds(s.connections, ch', path', q, id)
    decreases ids
  {
    if ids == [] {
    } else {
      IssueAllAddsNothingOld(IssueOne(s, ch, path, ids[0]), ch, path, ids[1..], ch', path', q, id);
    }
  }

  /** One event gives no ID to a number that was assigned before. */
  lemma ApplyReusesNothing(s: Endpoint, c: Config, e: Event, ch: Handle, path: PathId, q: nat, id: ConnectionId)
    requires Possible(s, e) && ch in s.connections && q < NextSequence(s, ch, path)
    requires Holds(Apply(s, c, e).connections, ch, path, q, id)
    ensures Holds(s.connections, ch, path, q, id)
  {
    hide FreshIds, CidsExhausted, HandleDatagram, Accept, IssueAll, Drain, SetResetToken, RetireResetToken,
         AddConnection,
         CleanUpIncoming;
    match e
    case NeedIdentifiers(ch', path', ids) => IssueAllAddsNothingOld(s, ch', path', ids, ch, path, q, id);
    case RetireConnectionId(ch', path', sequence, replacement) =>
      if HoldsSequence(s, ch', path', sequence) {
        var s1 := RetireOne(s, ch', path', sequence);
        IssueAllAddsNothingOld(s1, ch', path', replacement, ch, path, q, id);
      }
    case _ =>
      ApplyPathFrame(s, c, e, ch);
  }

  /** One event assigns the numbers from the next one on, with no gap, and each to an ID that is then held. */
  lemma ApplyAssigns(s: Endpoint, c: Config, e: Event, ch: Handle, path: PathId)
    requires Possible(s, e) && ch in s.connections && ch in Apply(s, c, e).connections
    ensures var s' := Apply(s, c, e);
            && NextSequence(s, ch, path) <= NextSequence(s', ch, path)
            && forall q :: NextSequence(s, ch, path) <= q < NextSequence(s', ch, path) ==>
                 HoldsSequence(s', ch, path, q)
  {
    hide FreshIds, CidsExhausted, HandleDatagram, Accept, IssueAll, Drain, SetResetToken, RetireResetToken,
         AddConnection,
         CleanUpIncoming, NextSequence;
    match e
    case NeedIdentifiers(ch', path', ids) => IssueAllAssigns(s, ch', path', ids, ch, path);
    case RetireConnectionId(ch', path', sequence, replacement) =>
      if HoldsSequence(s, ch', path', sequence) {
        RetireKeepsNumbers(s, ch', path', sequence, ch, path);
        IssueAllAssigns(RetireOne(s, ch', path', sequence), ch', path', replacement, ch, path);
      }
    case _ =>
      ApplyPathFrame(s, c, e, ch);
      SamePathSameNumbers(s, Apply(s, c, e), ch, path);
  }

  lemma IssueAllAssigns(s: Endpoint, ch: Handle, path: PathId, ids: seq<ConnectionId>, ch': Handle, path': PathId)
    requires ch in s.connections && ch' in s.connections
    ensures var s' := IssueAll(s, ch, path, ids);
            && ch' in s'.connections
            && NextSequence(s, ch', path') <= NextSequence(s', ch', path')
            && forall q :: NextSequence(s, ch', path') <= q < NextSequence(s', ch', path') ==>
                 HoldsSequence(s', ch', path', q)
  {
    hide IssueAll, NextSequence;
    var s' := IssueAll(s, ch, path, ids);
    IssueAllNumbers(s, ch, path, ids, ch', path');
    forall q | NextSequence(s, ch', path') <= q < NextSequence(s', ch', path')
      ensures HoldsSequence(s', ch', path', q)
    {
      var k := q - NextSequence(s, ch', path');
      assert Holds(s'.connections, ch, path, NextSequence(s, ch, path) + k, ids[k]);
    }
  }

  /** Connection `ch` stays live from state `i` to state `j`. */
  ghost predicate LiveBetween(ss: seq<Endpoint>, ch: Handle, i: nat, j: nat) {
    i <= j < |ss| && forall k :: i <= k <= j ==> ch in ss[k].connections
  }

  lemma {:induction false} NextNeverFalls(c: Config, ss: seq<Endpoint>, es: seq<Event>, ch: Handle, path: PathId,
                                          i: nat, j: nat)
    requires IsRun(c, ss, es) && LiveBetween(ss, ch, i, j)
    ensures NextSequence(ss[i], ch, path) <= NextSequence(ss[j], ch, path)
    decreases j
  {
    hide Possible, Apply, NextSequence, Holds, HoldsSequence;
    if i == j {
    } else {
      assert Possible(ss[j - 1], es[j - 1]) && ss[j] == Apply(ss[j - 1], c, es[j - 1]);
      hide IsRun;
      ApplyAssigns(ss[j - 1], c, es[j - 1], ch, path);
      NextNeverFalls(c, ss, es, ch, path, i, j - 1);
    }
  }

  /**
   While a connection lives, a number that was assigned on a path names what it named, or nothing any
   more: it never names a second ID, and a retired one never comes back.
   */
  lemma {:induction false} NumbersAreNeverReused(c: Config, ss: seq<Endpoint>, es: seq<Event>, ch: Handle, path: PathId,
                                                 i: nat, j: nat, q: nat, id: ConnectionId)
    requires IsRun(c, ss, es) && LiveBetween(ss, ch, i, j)
    requires q < NextSequence(ss[i], ch, path) && Holds(ss[j].connections, ch, path, q, id)
    ensures Holds(ss[i].connections, ch, path, q, id)
    decreases j
  {
    hide Possible, Apply, NextSequence, Holds, HoldsSequence;
    if i == j {
    } else {
      assert Possible(ss[j - 1], es[j - 1]) && ss[j] == Apply(ss[j - 1], c, es[j - 1]);
      hide IsRun;
      NextNeverFalls(c, ss, es, ch, path, i, j - 1);
      ApplyReusesNothing(ss[j - 1], c, es[j - 1], ch, path, q, id);
      NumbersAreNeverReused(c, ss, es, ch, path, i, j - 1, q, id);
    }
  }

  /** Event number `k` gave `id` the number `q`. */
  ghost predicate AssignedAt(ss: seq<Endpoint>, ch: Handle, path: PathId, k: nat, q: nat, id: ConnectionId) {
    && k + 1 < |ss| && ch in ss[k].connections && ch in ss[k + 1].connections
    && NextSequence(ss[k], ch, path) <= q < NextSequence(ss[k + 1], ch, path)
    && Holds(ss[k + 1].connections, ch, path, q, id)
  }

  /** No number is skipped: each one below the next was assigned to some ID, by an event that then held it. */
  lemma {:induction false} NumbersAreConsecutive(c: Config, ss: seq<Endpoint>, es: seq<Event>, ch: Handle, path: PathId,
                                                 i: nat, j: nat, q: nat) returns (k: nat, id: ConnectionId)
    requires IsRun(c, ss, es) && LiveBetween(ss, ch, i, j)
    requires NextSequence(ss[i], ch, path) <= q < NextSequence(ss[j], ch, path)
    ensures i <= k < j && AssignedAt(ss, ch, path, k, q, id)
    decreases j
  {
    hide Possible, Apply, NextSequence;
    assert Possible(ss[j - 1], es[j - 1]) && ss[j] == Apply(ss[j - 1], c, es[j - 1]);
    if q < NextSequence(ss[j - 1], ch, path) {
      k, id := NumbersAreConsecutive(c, ss, es, ch, path, i, j - 1, q);
    } else {
      ApplyAssigns(ss[j - 1], c, es[j - 1], ch, path);
      k := j - 1;
      assert HoldsSequence(ss[j], ch, path, q);
      id := ss[j].connections[ch].paths[path].cids[q];
    }
  }

  // ---------------------------------------------------------------------------------------------
  // What is held stays held until it is retired, and no longer
  // ---------------------------------------------------------------------------------------------

  /** A connection lives until it is drained. */
  lemma ApplyKeepsLive(s: Endpoint, c: Config, e: Event, ch: Handle)
    requires Possible(s, e) && ch in s.connections && e != Event.Drained(ch)
    ensures ch in Apply(s, c, e).connections
  {
    hide FreshIds, CidsExhausted, HandleDatagram, Accept, IssueAll, Drain, InsertToken, RemoveToken, FirstCids;
    match e
    case Arriving(d, v, idx, now) => DatagramFrame(s, c, d, v, idx, now);
    case Accepting(idx, a, ch', ids) => AcceptFrame(s, c, idx, a, ch', ids);
    case Drained(ch') => DrainFrame(s, ch');
    case NeedIdentifiers(ch', path, ids) => IssueAllFrame(s, ch', path, ids);
    case RetireConnectionId(ch', path, sequence, replacement) =>
      if HoldsSequence(s, ch', path, sequence) {
        IssueAllFrame(RetireOne(s, ch', path, sequence), ch', path, replacement);
      }
    case _ =>
  }

  lemma {:induction false} LiveUntilDrained(c: Config, ss: seq<Endpoint>, es: seq<Event>, ch: Handle, i: nat, j: nat)
    requires IsRun(c, ss, es) && i <= j < |ss| && ch in ss[i].connections
    requires forall k :: i <= k < j ==> es[k] != Event.Drained(ch)
    ensures LiveBetween(ss, ch, i, j)
    decreases j
  {
    hide Possible, Apply;
    if i == j {
    } else {
      LiveUntilDrained(c, ss, es, ch, i, j - 1);
      assert Possible(ss[j - 1], es[j - 1]) && ss[j] == Apply(ss[j - 1], c, es[j - 1]);
      ApplyKeepsLive(ss[j - 1], c, es[j - 1], ch);
    }
  }

  lemma {:induction false} IssueAllKeepsOthersHeld(s: Endpoint, ch: Handle, path: PathId, ids: seq<ConnectionId>,
                                                   ch': Handle, path': PathId, q: nat, id: ConnectionId)
    requires ch in s.connections && Holds(s.connections, ch', path', q, id) && q < NextSequence(s, ch', path')
    ensures Holds(IssueAll(s, ch, path, ids).connections, ch', path', q, id)
    decreases ids
  {
    if ids == [] {
    } else {
      IssueAllKeepsOthersHeld(IssueOne(s, ch, path, ids[0]), ch, path, ids[1..], ch', path', q, id);
    }
  }

  /** Retiring removes just that number. */
  lemma RetireTells(s: Endpoint, ch: Handle, path: PathId, sequence: nat)
    requires HoldsSequence(s, ch, path, sequence)
    ensures var s' := RetireOne(s, ch, path, sequence);
            && s.connections[ch].paths[path].cids[sequence] !in s'.cids
            && forall c, p, q, id :: Holds(s'.connections, c, p, q, id) <==>
                 (Holds(s.connections, c, p, q, id) && !(c == ch && p == path && q == sequence))
  {
  }

  /** The event retires number `q` of `ch` on `path`. */
  predicate Retires(e: Event, ch: Handle, path: PathId, q: nat) {
    e.RetireConnectionId? && e.ch == ch && e.path == path && e.sequence == q
  }

  /** What an assigned number names, one event later. */
  lemma ApplyHolds(s: Endpoint, c: Config, e: Event, ch: Handle, path: PathId, q: nat, id: ConnectionId)
    requires Possible(s, e) && ch in s.connections && ch in Apply(s, c, e).connections && q < NextSequence(s, ch, path)
    ensures Holds(Apply(s, c, e).connections, ch, path, q, id) <==>
            Holds(s.connections, ch, path, q, id) && !Retires(e, ch, path, q)
  {
    if Holds(Apply(s, c, e).connections, ch, path, q, id) { ApplyReusesNothing(s, c, e, ch, path, q, id); }
    hide FreshIds, CidsExhausted, HandleDatagram, Accept, IssueAll, Drain, SetResetToken, RetireResetToken,
         AddConnection, CleanUpIncoming, RetireOne;
    match e
    case NeedIdentifiers(ch', path', ids) =>
      if Holds(s.connections, ch, path, q, id) { IssueAllKeepsOthersHeld(s, ch', path', ids, ch, path, q, id); }
    case RetireConnectionId(ch', path', sequence, replacement) =>
      if HoldsSequence(s, ch', path', sequence) {
        var s1 := RetireOne(s, ch', path', sequence);
        RetireTells(s, ch', path', sequence);
        RetireKeepsNumbers(s, ch', path', sequence, ch, path);
        RetireKeepsConnections(s, ch', path', sequence);
        if Holds(s1.connections, ch, path, q, id) {
          IssueAllKeepsOthersHeld(s1, ch', path', replacement, ch, path, q, id);
        }
        if Holds(Apply(s, c, e).connections, ch, path, q, id) {
          IssueAllAddsNothingOld(s1, ch', path', replacement, ch, path, q, id);
        }
      }
    case _ => ApplyPathFrame(s, c, e, ch);
  }

  lemma RetireKeepsConnections(s: Endpoint, ch: Handle, path: PathId, sequence: nat)
    requires HoldsSequence(s, ch, path, sequence)
    ensures RetireOne(s, ch, path, sequence).connections.Keys == s.connections.Keys
  {
  }

  /**
   While a connection lives, a number that it holds is held from then on until an event retires it, under
   the same ID, and not afterwards.
   */
  lemma {:induction false} HeldUntilRetired(c: Config, ss: seq<Endpoint>, es: seq<Event>, ch: Handle, path: PathId,
                                            i: nat, j: nat, q: nat, id: ConnectionId)
    requires IsRun(c, ss, es) && LiveBetween(ss, ch, i, j) && Holds(ss[i].connections, ch, path, q, id)
    ensures Holds(ss[j].connections, ch, path, q, id) <==> forall k :: i <= k < j ==> !Retires(es[k], ch, path, q)
    decreases j
  {
    hide Possible, Apply, NextSequence, Holds, Retires, Inv;
    if i == j {
    } else {
      HeldUntilRetired(c, ss, es, ch, path, i, j - 1, q, id);
      assert Possible(ss[j - 1], es[j - 1]) && ss[j] == Apply(ss[j - 1], c, es[j - 1]);
      HeldWasAssigned(c, ss, es, ch, path, i, q, id);
      NextNeverFalls(c, ss, es, ch, path, i, j - 1);
      hide IsRun;
      ApplyHolds(ss[j - 1], c, es[j - 1], ch, path, q, id);
    }
  }

  lemma HeldWasAssigned(c: Config, ss: seq<Endpoint>, es: seq<Event>, ch: Handle, path: PathId, i: nat, q: nat,
                        id: ConnectionId)
    requires IsRun(c, ss, es) && i < |ss| && Holds(ss[i].connections, ch, path, q, id)
    ensures q < NextSequence(ss[i], ch, path)
  {
    RunKeepsInv(c, ss, es, i);
    hide IsRun, Owned;
  }
}
