/** The lifecycle of sent messages: Pending, Sent, Relayed, Delivered, Read, or Failed. */
module Tracking {
  import opened Common
  import opened Envelopes

  const MAX_TRACKED := 10_000
  const MAX_AGE := 24 * 60 * 60 * 1000 // milliseconds
  const ACK_DEADLINE := 30_000
  const MAX_RETRIES := 2

  datatype Status = Pending | Sent | Relayed | Delivered | Read | Failed

  /** The derived order of the statuses; `Failed` comes last. */
  function Rank(s: Status): nat {
    match s
    case Pending => 0 case Sent => 1 case Relayed => 2 case Delivered => 3 case Read => 4 case Failed => 5
  }

  datatype Tracked = Tracked(status: Status, to: NodeId, created: nat, deadline: Option<nat>, retries: nat)

  type Messages = map<MessageId, Tracked>

  datatype Change = Change(id: MessageId, previous: Status, current: Status)

  predicate Unsettled(t: Tracked) {
    Rank(t.status) < Rank(Delivered) && t.status != Failed
  }

  function Evicted(m: Messages, now: nat): Messages {
    map id | id in m && now < m[id].created + MAX_AGE :: m[id]
  }

  /** The table with room for one more, if that can be had by evicting old entries. */
  function WithRoom(m: Messages, now: nat): (Messages, bool) {
    if |m| < MAX_TRACKED then (m, true) else (Evicted(m, now), |Evicted(m, now)| < MAX_TRACKED)
  }

  function Track(m: Messages, id: MessageId, to: NodeId, now: nat): (Messages, Option<Change>) {
    var (m', room) := WithRoom(m, now);
    if !room then (m', None)
    else
      (m'[id := Tracked(Pending, to, now, Some(now + ACK_DEADLINE), MAX_RETRIES)], Some(Change(id, Pending, Pending)))
  }

  function Advance(m: Messages, id: MessageId, status: Status): (Messages, Option<Change>) {
    if id !in m || m[id].status == Failed || Rank(status) <= Rank(m[id].status) then (m, None)
    else (m[id := m[id].(status := status)], Some(Change(id, m[id].status, status)))
  }

  function MarkDelivered(m: Messages, id: MessageId): (Messages, Option<Change>) {
    var (m', change) := Advance(m, id, Delivered);
    if change.Some? && id in m' then (m'[id := m'[id].(deadline := None)], change) else (m', change)
  }

  function MarkFailed(m: Messages, id: MessageId): (Messages, Option<Change>) {
    if id !in m || Rank(m[id].status) >= Rank(Delivered) then (m, None)
    else (m[id := m[id].(status := Failed, deadline := None)], Some(Change(id, m[id].status, Failed)))
  }

  function ResetDeadline(m: Messages, id: MessageId, now: nat): Messages {
    if id !in m then m
    else m[id := m[id].(deadline := Some(now + ACK_DEADLINE), retries := Max(0, m[id].retries - 1))]
  }

  /** The delivery ACK is overdue. */
  predicate Due(t: Tracked, now: nat) {
    Unsettled(t) && t.deadline.Some? && t.deadline.value <= now
  }

  function ExpiredDeadlines(m: Messages, now: nat): map<MessageId, (NodeId, nat)> {
    map id | id in m && Due(m[id], now) :: (m[id].to, m[id].retries)
  }

  /**
   The runtime's reaction to an overdue ACK: resend while there are retries and the envelope is cached,
   else give up.
   */
  predicate Resent(t: Tracked, cached: bool, now: nat) {
    Due(t, now) && t.retries > 0 && cached
  }

  predicate GivenUp(t: Tracked, now: nat) {
    Due(t, now) && t.retries == 0
  }

  function Ticked(t: Tracked, cached: bool, now: nat): Tracked {
    if Resent(t, cached, now) then t.(deadline := Some(now + ACK_DEADLINE), retries := t.retries - 1)
    else if GivenUp(t, now) then t.(status := Failed, deadline := None)
    else t
  }

  function Tick(m: Messages, cached: set<MessageId>, now: nat): Messages {
    map id | id in m :: Ticked(m[id], id in cached, now)
  }

  // ---------------------------------------------------------------------------------------------
  // Persistence
  // ---------------------------------------------------------------------------------------------

  datatype Record = Record(to: NodeId, status: Status, created: nat, retries: nat)

  /** `epoch` is the wall clock; the age of an entry is taken off it. */
  function Snapshot(m: Messages, now: nat, epoch: nat): map<MessageId, Record> {
    map id | id in m && Unsettled(m[id]) ::
      Record(m[id].to, m[id].status, Max(0, epoch - Max(0, now - m[id].created)), m[id].retries)
  }

  function Restored(r: Record, now: nat): Tracked {
    Tracked(r.status, r.to, now, Some(now + ACK_DEADLINE), r.retries)
  }

  function Restore(m: Messages, records: map<MessageId, Record>, now: nat): Messages {
    m + map id | id in records :: Restored(records[id], now)
  }

  ghost predicate SameRecords(a: map<MessageId, Record>, b: map<MessageId, Record>) {
    a.Keys == b.Keys && forall id <- a :: a[id].(created := 0) == b[id].(created := 0)
  }

  /**
   Restoring a snapshot into an empty tracker keeps exactly the unsettled messages, with recipients,
   statuses and retries; none is due at once, and a second snapshot records the same.
   */
  lemma RestoreAfterSnapshot(m: Messages, now: nat, epoch: nat, now': nat, later: nat, epoch': nat)
    ensures var back := Restore(map[], Snapshot(m, now, epoch), now');
            && (forall id :: id in back <==> id in m && Unsettled(m[id]))
            && (forall id <- back ::
                  back[id].(created := 0, deadline := None) == m[id].(created := 0, deadline := None))
            && ExpiredDeadlines(back, now') == map[]
            && SameRecords(Snapshot(back, later, epoch'), Snapshot(m, now, epoch))
  {
    var records := Snapshot(m, now, epoch);
    var back := Restore(map[], records, now');
    forall id
      ensures id in back <==> id in m && Unsettled(m[id])
      ensures id in back ==> back[id] == Restored(records[id], now')
    {
    }
  }

  // ---------------------------------------------------------------------------------------------
  // Runs
  // ---------------------------------------------------------------------------------------------

  datatype Op =
    | TrackOp(id: MessageId, to: NodeId, now: nat)
    | AdvanceOp(id: MessageId, status: Status)
    | DeliveredOp(id: MessageId)
    | FailOp(id: MessageId)
    | ResetOp(id: MessageId, now: nat)
    | RemoveOp(id: MessageId)
    | EvictOp(now: nat)
    | TickOp(cached: set<MessageId>, now: nat)

  function Step(m: Messages, op: Op): Messages {
    match op
    case TrackOp(id, to, now) => Track(m, id, to, now).0
    case AdvanceOp(id, status) => if status.Failed? then m else Advance(m, id, status).0
    case DeliveredOp(id) => MarkDelivered(m, id).0
    case FailOp(id) => MarkFailed(m, id).0
    case ResetOp(id, now) => ResetDeadline(m, id, now)
    case RemoveOp(id) => m - {id}
    case EvictOp(now) => Evicted(m, now)
    case TickOp(cached, now) => Tick(m, cached, now)
  }

  function Run(m: Messages, ops: seq<Op>): Messages
    decreases ops
  {
    if ops == [] then m else Run(Step(m, ops[0]), ops[1..])
  }

  predicate Tracks(op: Op, id: MessageId) {
    op.TrackOp? && op.id == id
  }

  /** One entry grew into another without being tracked anew. */
  ghost predicate Progress(a: Tracked, b: Tracked) {
    && a.to == b.to && a.created == b.created
    && Rank(a.status) <= Rank(b.status)
    && b.retries <= a.retries
    && (a.status == Failed ==> b.status == Failed)
    && (b.status == Failed && a.status != Failed ==> Rank(a.status) < Rank(Delivered))
  }

  lemma StepProgresses(m: Messages, op: Op, id: MessageId)
    requires id in m && id in Step(m, op) && !Tracks(op, id)
    ensures Progress(m[id], Step(m, op)[id])
  {
  }

  /** The id stays tracked throughout, and nobody starts tracking it anew. */
  ghost predicate Undisturbed(m: Messages, ops: seq<Op>, id: MessageId)
    decreases ops
  {
    && id in m
    && (ops != [] ==> !Tracks(ops[0], id) && Undisturbed(Step(m, ops[0]), ops[1..], id))
  }

  lemma {:induction false} RunProgresses(m: Messages, ops: seq<Op>, id: MessageId)
    requires Undisturbed(m, ops, id)
    ensures id in Run(m, ops) && Progress(m[id], Run(m, ops)[id])
    ensures forall now :: id in ExpiredDeadlines(Run(m, ops), now) ==> Unsettled(m[id])
    decreases ops
  {
    if ops == [] {
    } else {
      RunProgresses(Step(m, ops[0]), ops[1..], id);
      StepProgresses(m, ops[0], id);
    }
  }

  /** Tracking a live id again loses its status exactly when there is room and it had moved on. */
  lemma RetrackingRegressesIff(m: Messages, id: MessageId, to: NodeId, now: nat)
    requires id in m
    ensures var m' := Track(m, id, to, now).0;
            (id in m' && Rank(m'[id].status) < Rank(m[id].status)) <==> WithRoom(m, now).1 && m[id].status != Pending
  {
    if !WithRoom(m, now).1 {
      assert Track(m, id, to, now).0 == Evicted(m, now);
    }
  }

  // ---------------------------------------------------------------------------------------------
  // What the tracker reports
  // ---------------------------------------------------------------------------------------------

  function ById(r: Option<Change>): map<MessageId, Change> {
    if r.Some? then map[r.value.id := r.value] else map[]
  }

  /** The status changes that an operation reports to the application. */
  function Reports(m: Messages, op: Op): map<MessageId, Change> {
    match op
    case TrackOp(id, to, now) => ById(Track(m, id, to, now).1)
    case AdvanceOp(id, status) => if status.Failed? then map[] else ById(Advance(m, id, status).1)
    case DeliveredOp(id) => ById(MarkDelivered(m, id).1)
    case FailOp(id) => ById(MarkFailed(m, id).1)
    case TickOp(_, now) => map id | id in m && GivenUp(m[id], now) :: Change(id, m[id].status, Failed)
    case _ => map[]
  }

  /** The statuses that an application ends up with which starts from `told` and follows every report. */
  function Told(told: map<MessageId, Status>, m: Messages, ops: seq<Op>): map<MessageId, Status>
    decreases ops
  {
    if ops == [] then told
    else Told(Followed(told, Reports(m, ops[0])), Step(m, ops[0]), ops[1..])
  }

  function Followed(told: map<MessageId, Status>, reports: map<MessageId, Change>): map<MessageId, Status> {
    told + map id | id in reports :: reports[id].current
  }

  ghost predicate Agree(told: map<MessageId, Status>, m: Messages) {
    forall id <- m :: id in told && told[id] == m[id].status
  }

  /** A report is exactly the change, and what is not reported has not changed. */
  lemma StepReports(m: Messages, op: Op, id: MessageId)
    requires id in Step(m, op)
    ensures var reports := Reports(m, op);
            if id in reports then
              && reports[id].id == id && reports[id].current == Step(m, op)[id].status
              && (!Tracks(op, id) ==> id in m && reports[id].previous == m[id].status != reports[id].current)
            else id in m && Step(m, op)[id].status == m[id].status
  {
  }

  /** Over any run, an application that follows the reports knows the status of every tracked message. */
  lemma {:induction false} ReportsTellStatuses(told: map<MessageId, Status>, m: Messages, ops: seq<Op>)
    requires Agree(told, m)
    ensures Agree(Told(told, m, ops), Run(m, ops))
    decreases ops
  {
    if ops == [] {
    } else {
      var told' := Followed(told, Reports(m, ops[0]));
      forall id <- Step(m, ops[0])
        ensures id in told' && told'[id] == Step(m, ops[0])[id].status
      {
        StepReports(m, ops[0], id);
      }
      hide Step, Reports, Followed;
      ReportsTellStatuses(told', Step(m, ops[0]), ops[1..]);
    }
  }

  // ---------------------------------------------------------------------------------------------
  // Retries
  // ---------------------------------------------------------------------------------------------

  /** The operation uses up a retry of `id`. */
  predicate UsesRetry(m: Messages, op: Op, id: MessageId) {
    && id in m && m[id].retries > 0
    && match op
       case TickOp(cached, now) => Resent(m[id], id in cached, now)
       case ResetOp(id', _) => id' == id
       case _ => false
  }

  function RetryCount(m: Messages, ops: seq<Op>, id: MessageId): nat
    decreases ops
  {
    if ops == [] then 0 else (if UsesRetry(m, ops[0], id) then 1 else 0) + RetryCount(Step(m, ops[0]), ops[1..], id)
  }

  lemma StepUsesRetries(m: Messages, op: Op, id: MessageId)
    requires id in m && id in Step(m, op) && !Tracks(op, id)
    ensures Step(m, op)[id].retries + (if UsesRetry(m, op, id) then 1 else 0) == m[id].retries
    ensures Step(m, op)[id].status == Failed && m[id].status != Failed && op != FailOp(id) ==> m[id].retries == 0
  {
  }

  /** Every retry is counted; and unless somebody calls `mark_failed`, a message fails only once all are used up. */
  lemma {:induction false} RetriesAreExact(m: Messages, ops: seq<Op>, id: MessageId)
    requires Undisturbed(m, ops, id)
    ensures id in Run(m, ops) && RetryCount(m, ops, id) + Run(m, ops)[id].retries == m[id].retries
    ensures FailOp(id) !in ops && m[id].status != Failed && Run(m, ops)[id].status == Failed ==>
              RetryCount(m, ops, id) == m[id].retries
    decreases ops
  {
    if ops == [] {
    } else {
      StepUsesRetries(m, ops[0], id);
      RetriesAreExact(Step(m, ops[0]), ops[1..], id);
      assert FailOp(id) !in ops ==> FailOp(id) !in ops[1..] && ops[0] != FailOp(id);
    }
  }

  function Ticks(cached: set<MessageId>, times: seq<nat>): (ops: seq<Op>)
    ensures |ops| == |times| && forall k :: 0 <= k < |times| ==> ops[k] == TickOp(cached, times[k])
  {
    seq(|times|, k requires 0 <= k < |times| => TickOp(cached, times[k]))
  }

  /** The checks at `times` that find the deadline passed, when each of them sets a new one. */
  function Rounds(deadline: nat, times: seq<nat>): nat
    decreases times
  {
    if times == [] then 0
    else if times[0] < deadline then Rounds(deadline, times[1..])
    else 1 + Rounds(times[0] + ACK_DEADLINE, times[1..])
  }

  lemma TicksUnfold(cached: set<MessageId>, times: seq<nat>)
    requires times != []
    ensures Ticks(cached, times)[0] == TickOp(cached, times[0])
    ensures Ticks(cached, times)[1..] == Ticks(cached, times[1..])
  {
  }

  /** Checks leave a message alone that has failed. */
  lemma {:induction false} FailedStays(m: Messages, id: MessageId, cached: set<MessageId>, times: seq<nat>)
    requires id in m && m[id].status == Failed
    ensures id in Run(m, Ticks(cached, times)) && Run(m, Ticks(cached, times))[id] == m[id]
    ensures RetryCount(m, Ticks(cached, times), id) == 0
    decreases times
  {
    if times == [] {
    } else {
      TicksUnfold(cached, times);
      var m' := Tick(m, cached, times[0]);
      assert m'[id] == Ticked(m[id], id in cached, times[0]);
      hide Ticks, Tick;
      FailedStays(m', id, cached, times[1..]);
    }
  }

  /**
   A message that nobody acknowledges, checked at any times: it is resent at each check that finds its
   deadline passed while there are retries left, and it has failed iff there was one such check more.
   */
  lemma {:induction false} UnacknowledgedFailsIff(m: Messages, id: MessageId, cached: set<MessageId>, times: seq<nat>)
    requires id in m && id in cached && Unsettled(m[id]) && m[id].deadline.Some?
    ensures var m' := Run(m, Ticks(cached, times));
            var rounds := Rounds(m[id].deadline.value, times);
            && id in m' && (m'[id].status == Failed <==> rounds > m[id].retries)
            && RetryCount(m, Ticks(cached, times), id) == Min(rounds, m[id].retries)
    decreases times
  {
    if times == [] {
    } else {
      TicksUnfold(cached, times);
      var m' := Tick(m, cached, times[0]);
      assert m'[id] == Ticked(m[id], true, times[0]);
      hide Ticks, Tick;
      if GivenUp(m[id], times[0]) {
        FailedStays(m', id, cached, times[1..]);
      } else {
        UnacknowledgedFailsIff(m', id, cached, times[1..]);
      }
    }
  }

  /** A new message is pending for its recipient, due after 30 s, and evicted after a day. */
  lemma TrackedAnew(m: Messages, id: MessageId, to: NodeId, now: nat)
    requires Track(m, id, to, now).1.Some?
    ensures var m' := Track(m, id, to, now).0;
            && id in m' && m'[id].status == Pending && m'[id].to == to && m'[id].retries == 2
            && (forall t: nat :: Due(m'[id], t) <==> now + 30_000 <= t)
            && (forall t: nat :: id in Evicted(m', t) <==> t < now + 86_400_000)
            && m'[id].deadline == Some(now + 30_000)
  {
  }

  /** Never acknowledged, it is resent at the first two checks that find it overdue, and fails at the third. */
  lemma NewMessageIsTriedThrice(m: Messages, id: MessageId, to: NodeId, now: nat, cached: set<MessageId>,
                                times: seq<nat>)
    requires Track(m, id, to, now).1.Some? && id in cached
    ensures var m' := Track(m, id, to, now).0;
            var ops := Ticks(cached, times);
            var rounds := Rounds(now + 30_000, times);
            && id in Run(m', ops) && (Run(m', ops)[id].status == Failed <==> rounds > 2)
            && RetryCount(m', ops, id) == Min(rounds, 2)
  {
    TrackedAnew(m, id, to, now);
    hide Track, Ticks, Rounds, Due, Evicted;
    UnacknowledgedFailsIff(Track(m, id, to, now).0, id, cached, times);
  }

  // ---------------------------------------------------------------------------------------------
  // The status is the highest mark
  // ---------------------------------------------------------------------------------------------

  /** The rank that an operation marks `id` with. */
  function MarkOf(op: Op, id: MessageId): nat {
    match op
    case AdvanceOp(id', status) => if id' == id && !status.Failed? then Rank(status) else 0
    case DeliveredOp(id') => if id' == id then Rank(Delivered) else 0
    case _ => 0
  }

  function HighestMark(ops: seq<Op>, id: MessageId): nat
    decreases ops
  {
    if ops == [] then 0 else Max(MarkOf(ops[0], id), HighestMark(ops[1..], id))
  }

  /** Exactly when a step fails a message; and any other leaves it at the higher of its status and the mark. */
  lemma StepMarks(m: Messages, op: Op, id: MessageId)
    requires id in m && id in Step(m, op) && !Tracks(op, id) && m[id].status != Failed
    ensures var t := Step(m, op)[id];
            && (t.status == Failed <==>
                  (Unsettled(m[id]) && (op == FailOp(id) || (op.TickOp? && GivenUp(m[id], op.now)))))
            && (t.status != Failed ==> Rank(t.status) == Max(Rank(m[id].status), MarkOf(op, id)))
  {
  }

  /** Over any run, a message that has not failed has the highest status that it was ever marked with. */
  lemma {:induction false} StatusIsHighestMark(m: Messages, ops: seq<Op>, id: MessageId)
    requires Undisturbed(m, ops, id) && id in Run(m, ops) && Run(m, ops)[id].status != Failed
    ensures m[id].status != Failed && Rank(Run(m, ops)[id].status) == Max(Rank(m[id].status), HighestMark(ops, id))
    decreases ops
  {
    if ops == [] {
    } else {
      RunProgresses(m, ops, id);
      StatusIsHighestMark(Step(m, ops[0]), ops[1..], id);
      StepMarks(m, ops[0], id);
      hide Step;
    }
  }

  /** A saved record keeps the age of its message, and a restored message is new except for status and retries. */
  lemma SnapshotKeepsAge(m: Messages, now: nat, epoch: nat, now': nat, id: MessageId)
    requires id in m && Unsettled(m[id]) && m[id].created <= now && now - m[id].created <= epoch
    ensures var record := Snapshot(m, now, epoch)[id];
            var back := Restore(map[], Snapshot(m, now, epoch), now')[id];
            && epoch - record.created == now - m[id].created
            && back.created == now' && forall t :: Due(back, t) <==> now' + 30_000 <= t
  {
  }
}
