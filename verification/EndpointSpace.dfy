/** How many connection IDs of one length there are, and that the endpoint never counts more. */
module EndpointSpace {
  import opened Common
  import opened EndpointModel
  import opened EndpointIncoming
  import opened EndpointRuns

  // ---------------------------------------------------------------------------------------------
  // Counting IDs of one length
  // ---------------------------------------------------------------------------------------------

  ghost predicate OfLength(ids: set<ConnectionId>, n: nat) {
    forall id <- ids :: |id| == n
  }

  function Tails(ids: set<ConnectionId>, n: nat): set<ConnectionId>
    requires forall id <- ids :: |id| == n + 1
  {
    set id | id in ids :: id[1..]
  }

  /** IDs with the same first byte are told apart by the rest. */
  lemma {:induction false} TailsCount(ids: set<ConnectionId>, n: nat, first: Byte)
    requires OfLength(ids, n + 1) && forall id <- ids :: id[0] == first
    ensures |Tails(ids, n)| == |ids|
    decreases |ids|
  {
    if ids == {} {
    } else {
      var id :| id in ids;
      TailsCount(ids - {id}, n, first);
      forall x <- ids - {id}
        ensures x[1..] != id[1..]
      {
        assert x == [first] + x[1..] && id == [first] + id[1..];
      }
      assert Tails(ids, n) == Tails(ids - {id}, n) + {id[1..]};
    }
  }

  lemma {:induction false} CountBelow(ids: set<ConnectionId>, n: nat, k: nat)
    requires k <= 256 && OfLength(ids, n + 1) && forall id <- ids :: id[0] as int < k
    ensures |ids| <= k * Space(n)
    decreases n, k
  {
    if k == 0 {
      assert ids == {};
    } else {
      var last := set id | id in ids && id[0] as int == k - 1;
      var others := ids - last;
      CountBelow(others, n, k - 1);
      TailsCount(last, n, (k - 1) as Byte);
      CountOfLength(Tails(last, n), n);
      assert ids == others + last && others !! last;
      assert k * Space(n) == (k - 1) * Space(n) + Space(n);
    }
  }

  /** There are at most `Space(n)` IDs of length `n`. */
  lemma {:induction false} CountOfLength(ids: set<ConnectionId>, n: nat)
    requires OfLength(ids, n)
    ensures |ids| <= Space(n)
    decreases n, 0
  {
    if n == 0 {
      forall id <- ids ensures id == [] {}
      if ids != {} { assert ids == {[]}; }
    } else {
      CountBelow(ids, n - 1, 256);
    }
  }

  // ---------------------------------------------------------------------------------------------
  // Runs
  // ---------------------------------------------------------------------------------------------

  /** The IDs that the generator returns during an event. */
  function Generated(e: Event): seq<ConnectionId> {
    match e
    case Connecting(_, _, _, id, _) => [id]
    case Accepting(_, _, _, ids) => ids
    case NeedIdentifiers(_, _, ids) => ids
    case RetireConnectionId(_, _, _, replacement) => replacement
    case _ => []
  }

  lemma {:induction false} IssueAllAdds(s: Endpoint, ch: Handle, path: PathId, ids: seq<ConnectionId>)
    requires ch in s.connections
    ensures forall id <- IssueAll(s, ch, path, ids).cids :: id in s.cids || id in ids
    decreases ids
  {
    if ids == [] {
    } else {
      IssueAllAdds(IssueOne(s, ch, path, ids[0]), ch, path, ids[1..]);
    }
  }

  lemma AcceptAdds(s: Endpoint, c: Config, idx: nat, a: Answers, ch: Handle, ids: seq<ConnectionId>)
    requires idx in s.outstanding && 1 <= |ids| <= 2
    ensures forall id <- Accept(s, c, idx, a, ch, ids).0.cids :: id in s.cids || id in ids
  {
    hide CidsExhausted, FirstCids, CidsOf, KeysOf, Purged;
  }

  lemma ApplyAdds(s: Endpoint, c: Config, e: Event)
    requires Possible(s, e)
    ensures forall id <- Apply(s, c, e).cids :: id in s.cids || id in Generated(e)
  {
    hide FreshIds, CidsExhausted, HandleDatagram, Accept, IssueAll, InsertToken, RemoveToken, FirstCids, CidsOf,
         KeysOf, Purged;
    match e
    case Arriving(d, v, idx, now) => DatagramFrame(s, c, d, v, idx, now);
    case Accepting(idx, a, ch, ids) => AcceptAdds(s, c, idx, a, ch, ids);
    case NeedIdentifiers(ch, path, ids) => IssueAllAdds(s, ch, path, ids);
    case RetireConnectionId(ch, path, sequence, replacement) =>
      if HoldsSequence(s, ch, path, sequence) {
        IssueAllAdds(RetireOne(s, ch, path, sequence), ch, path, replacement);
      }
    case _ =>
  }

  /** The generator keeps to the length that it announces. */
  ghost predicate Announced(c: Config, es: seq<Event>) {
    forall e <- es :: forall id <- Generated(e) :: |id| == c.cidLen
  }

  lemma {:induction false} TableOfLength(c: Config, ss: seq<Endpoint>, es: seq<Event>, i: nat)
    requires IsRun(c, ss, es) && Announced(c, es) && i < |ss|
    ensures OfLength(ss[i].cids.Keys, c.cidLen)
  {
    hide Possible, Apply, Generated;
    if i == 0 {
    } else {
      TableOfLength(c, ss, es, i - 1);
      assert Possible(ss[i - 1], es[i - 1]) && ss[i] == Apply(ss[i - 1], c, es[i - 1]) && es[i - 1] in es;
      ApplyAdds(ss[i - 1], c, es[i - 1]);
    }
  }

  /** The subtraction in `cids_exhausted` never underflows, and its answer is that three quarters are used up. */
  lemma ExhaustedIff(c: Config, ss: seq<Endpoint>, es: seq<Event>, i: nat)
    requires IsRun(c, ss, es) && Announced(c, es) && i < |ss|
    ensures |ss[i].cids| <= Space(c.cidLen)
    ensures CidsExhausted(c, |ss[i].cids|) <==> c.cidLen <= 4 && 4 * |ss[i].cids| > 3 * Space(c.cidLen)
  {
    assert c.cidLen > 0;
    hide IsRun, Announced, OfLength, Space;
    TableOfLength(c, ss, es, i);
    CountOfLength(ss[i].cids.Keys, c.cidLen);
    SpaceInQuarters(c.cidLen);
    Quarters(Space(c.cidLen), |ss[i].cids|);
  }

  lemma SpaceInQuarters(n: nat)
    requires n > 0
    ensures Space(n) % 4 == 0
  {
    assert Space(n) == 4 * (64 * Space(n - 1));
  }

  lemma Quarters(space: nat, used: nat)
    requires space % 4 == 0 && used <= space
    ensures space - used < space / 4 <==> 4 * used > 3 * space
  {
  }
}
