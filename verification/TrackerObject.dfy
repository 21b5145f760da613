/** The tracker as the object that owns the table, together with what it has reported. */
module TrackerObjects {
  import opened Common
  import opened Envelopes
  import opened Tracking

  lemma {:induction false} SubmapSize(a: Messages, b: Messages)
    requires a.Keys <= b.Keys
    ensures |a| <= |b|
    decreases |a|
  {
    if a == map[] {
    } else {
      var id :| id in a;
      assert (a - {id}).Keys == a.Keys - {id} && (b - {id}).Keys == b.Keys - {id};
      SubmapSize(a - {id}, b - {id});
    }
  }

  lemma TrackTells(m: Messages, id: MessageId, to: NodeId, now: nat)
    ensures var (m', r) := Tracking.Track(m, id, to, now);
            && (r.None? <==> |Evicted(m, now)| >= MAX_TRACKED)
            && (r.Some? ==> id in m' && forall t :: Due(m'[id], t) <==> now + ACK_DEADLINE <= t)
            && (forall k <- m :: k !in m' ==> m[k].created + MAX_AGE <= now)
  {
    SubmapSize(Evicted(m, now), m);
  }

  lemma TrackAgrees(told: map<MessageId, Status>, m: Messages, id: MessageId, to: NodeId, now: nat)
    requires Agree(told, m)
    ensures var (m', r) := Tracking.Track(m, id, to, now);
            Agree(Followed(told, ById(r)), m') && (r.None? ==> Followed(told, ById(r)) == told)
  {
  }

  // ---------------------------------------------------------------------------------------------
  // Some of the overdue messages handled
  // ---------------------------------------------------------------------------------------------

  function Handled(m: Messages, ids: set<MessageId>, cached: set<MessageId>, now: nat): Messages {
    map id | id in m :: if id in ids then Ticked(m[id], id in cached, now) else m[id]
  }

  /** The attempts that are made, numbered from 1. */
  function Attempts(m: Messages, ids: set<MessageId>, cached: set<MessageId>, now: nat): map<MessageId, int> {
    map id | id in m && id in ids && Resent(m[id], id in cached, now) :: MAX_RETRIES - m[id].retries + 1
  }

  function Failures(m: Messages, ids: set<MessageId>, now: nat): set<MessageId> {
    set id | id in m && id in ids && GivenUp(m[id], now)
  }

  function ToldOf(told: map<MessageId, Status>, failed: set<MessageId>): map<MessageId, Status> {
    told + map id | id in failed :: Failed
  }

  lemma HandleOne(m: Messages, ids: set<MessageId>, id: MessageId, cached: set<MessageId>, now: nat)
    requires id in m && id !in ids
    ensures Handled(m, ids + {id}, cached, now) == Handled(m, ids, cached, now)[id := Ticked(m[id], id in cached, now)]
    ensures id in Handled(m, ids, cached, now) && Handled(m, ids, cached, now)[id] == m[id]
  {
    hide Ticked;
  }

  lemma AttemptOne(m: Messages, ids: set<MessageId>, id: MessageId, cached: set<MessageId>, now: nat)
    requires id in m && id !in ids
    ensures Attempts(m, ids + {id}, cached, now) ==
            var before := Attempts(m, ids, cached, now);
            if Resent(m[id], id in cached, now) then before[id := MAX_RETRIES - m[id].retries + 1] else before
    ensures Failures(m, ids + {id}, now) == Failures(m, ids, now) + if GivenUp(m[id], now) then {id} else {}
  {
    hide Due;
  }

  lemma TellOne(told: map<MessageId, Status>, failed: set<MessageId>, id: MessageId)
    ensures ToldOf(told, failed + {id}) == ToldOf(told, failed)[id := Failed]
  {
  }

  lemma HandleNone(told: map<MessageId, Status>, m: Messages, cached: set<MessageId>, now: nat)
    ensures Handled(m, {}, cached, now) == m && Attempts(m, {}, cached, now) == map[]
    ensures Failures(m, {}, now) == {} && ToldOf(told, {}) == told
  {
    hide Ticked, Due;
  }

  lemma HandleAll(told: map<MessageId, Status>, m: Messages, cached: set<MessageId>, now: nat)
    ensures var all := ExpiredDeadlines(m, now).Keys;
            && Handled(m, all, cached, now) == Tick(m, cached, now)
            && Attempts(m, all, cached, now) ==
                 (map id | id in m && Resent(m[id], id in cached, now) :: MAX_RETRIES - m[id].retries + 1)
            && Failures(m, all, now) == (set id | id in m && GivenUp(m[id], now))
            && ToldOf(told, Failures(m, all, now)) == Followed(told, Reports(m, TickOp(cached, now)))
  {
    hide Due;
  }

  /** The table with some of the records entered. */
  function Entered(m: Messages, records: map<MessageId, Record>, ids: set<MessageId>, now: nat): Messages {
    m + map id | id in records && id in ids :: Restored(records[id], now)
  }

  /** A record replaces what is there under its id; everything else stays. */
  lemma RestoredTells(m: Messages, records: map<MessageId, Record>, now: nat)
    ensures var m' := Tracking.Restore(m, records, now);
            && m'.Keys == m.Keys + records.Keys
            && (forall id <- records :: m'[id] == Restored(records[id], now))
            && (forall id <- m :: id !in records ==> m'[id] == m[id])
  {
    hide Restored;
  }

  lemma EnterOne(m: Messages, records: map<MessageId, Record>, ids: set<MessageId>, id: MessageId, now: nat)
    requires id in records
    ensures Entered(m, records, ids + {id}, now) == Entered(m, records, ids, now)[id := Restored(records[id], now)]
  {
    hide Restored;
  }

  lemma EnterAll(m: Messages, records: map<MessageId, Record>, now: nat)
    ensures Entered(m, records, {}, now) == m
    ensures Entered(m, records, records.Keys, now) == Tracking.Restore(m, records, now)
  {
    hide Restored;
  }

  function AllKnown(told: map<MessageId, Status>, m: Messages): (told': map<MessageId, Status>)
    ensures Agree(told', m)
  {
    told + map id | id in m :: m[id].status
  }

  /** `told` is what an application knows that follows every report. */
  class MessageTracker {
    var messages: Messages

    ghost var told: map<MessageId, Status>

    ghost predicate Valid()
      reads this
    {
      Agree(told, messages)
    }

    constructor ()
      ensures Valid() && messages == map[] && told == map[]
    {
      messages, told := map[], map[];
    }

    /** `HashMap::retain` with the age of the entries. */
    method EvictExpired(now: nat)
      requires Valid()
      modifies `messages
      ensures Valid() && messages == Evicted(old(messages), now)
      ensures forall id :: id in messages <==> id in old(messages) && now < old(messages)[id].created + 86_400_000
    {
      ghost var before := messages;
      var rest := messages.Keys;
      while rest != {}
        invariant rest <= before.Keys
        invariant forall id :: id in messages <==> id in before && (id in rest || now < before[id].created + MAX_AGE)
        invariant forall id <- messages :: messages[id] == before[id]
        decreases |rest|
      {
        var id :| id in rest;
        if Max(0, now - messages[id].created) >= MAX_AGE {
          messages := messages - {id};
        }
        rest := rest - {id};
      }
    }

    /** Refuses iff there is no room even without the messages that are a day old; an ACK is due after the deadline. */
    method Track(id: MessageId, to: NodeId, now: nat) returns (r: Option<Change>)
      requires Valid()
      modifies this
      ensures Valid() && (messages, r) == Tracking.Track(old(messages), id, to, now)
      ensures told == Followed(old(told), ById(r))
      ensures r.None? <==> |Evicted(old(messages), now)| >= MAX_TRACKED
      ensures r.Some? ==> id in messages && forall t :: Due(messages[id], t) <==> now + ACK_DEADLINE <= t
      ensures forall k <- old(messages) :: k !in messages ==> old(messages)[k].created + MAX_AGE <= now
    {
      hide Evicted, Agree;
      TrackTells(messages, id, to, now);
      TrackAgrees(told, messages, id, to, now);
      if |messages| >= MAX_TRACKED {
        EvictExpired(now);
        if |messages| >= MAX_TRACKED {
          return None;
        }
      }
      messages := messages[id := Tracked(Pending, to, now, Some(now + ACK_DEADLINE), MAX_RETRIES)];
      r := Some(Change(id, Pending, Pending));
      told := Followed(told, ById(r));
    }

    /** Every entry goes forward or stays, and the result tells exactly the change. */
    method Advance(id: MessageId, status: Status) returns (r: Option<Change>)
      requires Valid()
      modifies this
      ensures Valid() && (messages, r) == Tracking.Advance(old(messages), id, status)
      ensures told == Followed(old(told), ById(r))
      ensures messages.Keys == old(messages).Keys
      ensures !status.Failed? ==> forall k <- messages :: Progress(old(messages)[k], messages[k])
      ensures r.None? <==> messages == old(messages)
      ensures id in messages && old(messages)[id].status != Failed && !status.Failed? ==>
                Rank(messages[id].status) == Max(Rank(old(messages)[id].status), Rank(status))
    {
      if id !in messages {
        return None;
      }
      var entry := messages[id];
      if entry.status == Failed {
        return None;
      }
      if Rank(status) <= Rank(entry.status) {
        return None;
      }
      messages := messages[id := entry.(status := status)];
      r := Some(Change(id, entry.status, status));
      told := Followed(told, ById(r));
      assert messages[id] != old(messages)[id];
    }

    /** From then on the message is never due. */
    method MarkDelivered(id: MessageId) returns (r: Option<Change>)
      requires Valid()
      modifies this
      ensures Valid() && (messages, r) == Tracking.MarkDelivered(old(messages), id)
      ensures told == Followed(old(told), ById(r))
      ensures forall k <- messages :: k in old(messages) && Progress(old(messages)[k], messages[k])
      ensures id in messages ==> forall t :: !Due(messages[id], t)
      ensures r.Some? ==> messages[id].status == Delivered && messages[id].deadline.None?
    {
      r := Advance(id, Delivered);
      if r.Some? {
        messages := messages[id := messages[id].(deadline := None)];
      }
    }

    /** The same for a message that is given up, which must not have been delivered. */
    method MarkFailed(id: MessageId) returns (r: Option<Change>)
      requires Valid()
      modifies this
      ensures Valid() && (messages, r) == Tracking.MarkFailed(old(messages), id)
      ensures told == Followed(old(told), ById(r))
      ensures forall k <- messages :: k in old(messages) && Progress(old(messages)[k], messages[k])
      ensures id in messages ==> forall t :: !Due(messages[id], t)
      ensures r.Some? <==> id in old(messages) && Unsettled(old(messages)[id])
      ensures r.Some? ==> messages[id].status == Failed && messages[id].deadline.None?
    {
      if id !in messages {
        return None;
      }
      var entry := messages[id];
      if Rank(entry.status) >= Rank(Delivered) {
        return None;
      }
      messages := messages[id := entry.(status := Failed, deadline := None)];
      r := Some(Change(id, entry.status, Failed));
      told := Followed(told, ById(r));
    }

    /** An unsettled message is next due when the new deadline has passed. */
    method ResetDeadline(id: MessageId, now: nat)
      requires Valid()
      modifies `messages
      ensures Valid() && messages == Tracking.ResetDeadline(old(messages), id, now)
      ensures forall k <- messages :: k in old(messages) && Progress(old(messages)[k], messages[k])
      ensures id in messages && Unsettled(messages[id]) ==>
                forall t :: Due(messages[id], t) <==> now + ACK_DEADLINE <= t
    {
      if id in messages {
        var entry := messages[id];
        messages := messages[id := entry.(deadline := Some(now + ACK_DEADLINE), retries := Max(0, entry.retries - 1))];
      }
    }

    /** The runtime's loop over the expired deadlines; `cached` holds the ids whose envelope can be sent again. */
    method DeliveryDeadlines(cached: set<MessageId>, now: nat)
      returns (resent: map<MessageId, int>, failed: set<MessageId>)
      requires Valid()
      modifies this
      ensures Valid() && messages == Tick(old(messages), cached, now)
      ensures told == Followed(old(told), Reports(old(messages), TickOp(cached, now)))
      ensures resent == map id | id in old(messages) && Resent(old(messages)[id], id in cached, now) ::
                          MAX_RETRIES - old(messages)[id].retries + 1
      ensures failed == set id | id in old(messages) && GivenUp(old(messages)[id], now)
    {
      hide Due, Handled, Attempts, Failures, ToldOf, Tick, Reports, Followed, Ticked, Resent, GivenUp, Agree;
      ghost var m, t := messages, told;
      var expired := ExpiredDeadlines(messages, now);
      var rest := expired.Keys;
      ghost var done: set<MessageId> := {};
      HandleNone(t, m, cached, now);
      resent, failed := map[], {};
      while rest != {}
        invariant Valid() && rest <= expired.Keys && done == expired.Keys - rest
        invariant messages == Handled(m, done, cached, now) && resent == Attempts(m, done, cached, now)
        invariant failed == Failures(m, done, now) && told == ToldOf(t, failed)
        decreases |rest|
      {
        var id :| id in rest;
        HandleOne(m, done, id, cached, now);
        AttemptOne(m, done, id, cached, now);
        TellOne(t, failed, id);
        var attempt, gaveUp := Overdue(id, expired[id].1, id in cached, now);
        if gaveUp {
          failed := failed + {id};
        }
        if attempt.Some? {
          resent := resent[id := attempt.value];
        }
        assert expired.Keys - (rest - {id}) == done + {id};
        rest := rest - {id};
        done := done + {id};
      }
      assert expired.Keys - {} == expired.Keys;
      HandleAll(t, m, cached, now);
    }

    /** The body of that loop. */
    method Overdue(id: MessageId, retries: nat, cached: bool, now: nat) returns (attempt: Option<int>, gaveUp: bool)
      requires Valid() && id in messages && Due(messages[id], now) && messages[id].retries == retries
      modifies this
      ensures Valid() && messages == old(messages)[id := Ticked(old(messages)[id], cached, now)]
      ensures told == if gaveUp then old(told)[id := Failed] else old(told)
      ensures attempt == if Resent(old(messages)[id], cached, now) then Some(MAX_RETRIES - retries + 1) else None
      ensures gaveUp <==> GivenUp(old(messages)[id], now)
    {
      attempt, gaveUp := None, false;
      if retries > 0 {
        if cached {
          ResetDeadline(id, now);
          attempt := Some(MAX_RETRIES - retries + 1);
        }
      } else {
        var change := MarkFailed(id);
        gaveUp := true;
      }
    }

    /** The loop over the records. */
    method EnterRecords(records: map<MessageId, Record>, now: nat)
      modifies `messages
      ensures messages == Tracking.Restore(old(messages), records, now)
    {
      hide Entered, Tracking.Restore, Restored;
      ghost var before := messages;
      var rest := records.Keys;
      ghost var done: set<MessageId> := {};
      EnterAll(before, records, now);
      while rest != {}
        invariant done + rest == records.Keys && messages == Entered(before, records, done, now)
        decreases |rest|
      {
        var id :| id in rest;
        EnterOne(before, records, done, id, now);
        messages := messages[id := Restored(records[id], now)];
        rest, done := rest - {id}, done + {id};
      }
      assert done == records.Keys;
    }

    /** Enters every record with a fresh deadline; the application reads the same records. */
    method Restore(records: map<MessageId, Record>, now: nat)
      requires Valid()
      modifies this
      ensures Valid() && messages == Tracking.Restore(old(messages), records, now)
      ensures forall id <- records :: id in messages && messages[id] == Restored(records[id], now)
      ensures forall id <- old(messages) :: id !in records ==> id in messages && messages[id] == old(messages)[id]
    {
      hide Agree, Tracking.Restore, Restored;
      RestoredTells(messages, records, now);
      EnterRecords(records, now);
      told := AllKnown(told, messages);
    }
  }
}
