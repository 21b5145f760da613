/** Whole runs of the connection ID window: what was ever stored, retired and handed out. */
module CidHistory {
  import opened Common
  import opened CidWindow

  datatype Op = InsertFrame(frame: Frame) | SwitchActive | Reserve | ReplaceInitial(id: ConnectionId)

  /**
   `handedOut` lists the sequence numbers that `NextReserved` returned; `resetAt` is its length when
   a retiring frame last cancelled the reservation.
   */
  datatype History = History(window: Window, everStored: set<nat>, retired: seq<Range>, handedOut: seq<nat>,
                             resetAt: nat)

  function Start(id: ConnectionId): History {
    History(Initial(id), {0}, [], [], 0)
  }

  /** A frame its decoder rejects, or a replacement once sequence number 0 is gone, does not reach the window. */
  function Step(h: History, op: Op): History
    requires WellFormed(h.window)
  {
    match op
    case InsertFrame(f) =>
      if !WellFormedFrame(f) then h else
        var (w, r) := Insert(h.window, f);
        h.(window := w,
           everStored := if r.Failed? then h.everStored else h.everStored + {f.sequence},
           retired := if r.Retiring? then h.retired + [r.range] else h.retired,
           resetAt := if r.Retiring? then |h.handedOut| else h.resetAt)
    case SwitchActive =>
      var (w, r) := Next(h.window);
      h.(window := w, retired := if r.Switched? then h.retired + [r.range] else h.retired)
    case Reserve =>
      var (w, n) := NextReserved(h.window);
      h.(window := w, handedOut := if n.Some? then h.handedOut + [n.value] else h.handedOut)
    case ReplaceInitial(id) =>
      if h.window.offset != 0 then h else h.(window := UpdateInitial(h.window, id))
  }

  lemma StepKeepsWellFormed(h: History, op: Op)
    requires WellFormed(h.window)
    ensures WellFormed(Step(h, op).window)
  {
    if op.InsertFrame? && WellFormedFrame(op.frame) { InsertKeepsWellFormed(h.window, op.frame); }
    NextKeepsWellFormed(h.window);
  }

  function Run(id: ConnectionId, ops: seq<Op>): (h: History)
    ensures WellFormed(h.window)
  {
    if ops == [] then Start(id)
    else
      StepKeepsWellFormed(Run(id, ops[..|ops| - 1]), ops[|ops| - 1]);
      Step(Run(id, ops[..|ops| - 1]), ops[|ops| - 1])
  }

  lemma Extend(id: ConnectionId, ops: seq<Op>, op: Op)
    ensures Run(id, ops + [op]) == Step(Run(id, ops), op)
  {
    assert (ops + [op])[..|ops|] == ops;
  }

  // ---------------------------------------------------------------------------------------------
  // Retirement
  // ---------------------------------------------------------------------------------------------

  predicate Covers(r: Range, s: nat) {
    r.from <= s < r.to
  }

  ghost predicate Ascending(retired: seq<Range>, limit: nat) {
    && (forall i :: 0 <= i < |retired| ==> retired[i].from < retired[i].to <= limit)
    && (forall i, j :: 0 <= i < j < |retired| ==> retired[i].to <= retired[j].from)
  }

  ghost predicate Accounted(h: History) {
    && Ascending(h.retired, h.window.offset)
    && h.window.stored.Keys <= h.everStored
    && (forall s <- h.everStored :: s in h.window.stored || exists i :: 0 <= i < |h.retired| && Covers(h.retired[i], s))
  }

  /** A step that retires `r` and stores no more than `added` keeps the books. */
  lemma RetireKeepsAccounted(h: History, h': History, r: Range, added: set<nat>)
    requires Accounted(h) && Retires(h.window, h'.window, r)
    requires h'.retired == h.retired + [r] && h'.everStored == h.everStored + added
    requires h'.window.stored.Keys <= h.window.stored.Keys + added && added <= h'.window.stored.Keys
    ensures Accounted(h')
  {
    var n := |h.retired|;
    forall i, j | 0 <= i < j < |h'.retired|
      ensures h'.retired[i].to <= h'.retired[j].from
    {
      if j == n { assert h'.retired[i] == h.retired[i]; }
    }
    forall s | s in h'.everStored && s !in h'.window.stored
      ensures exists i :: 0 <= i < |h'.retired| && Covers(h'.retired[i], s)
    {
      if s in h.window.stored {
        assert Covers(h'.retired[n], s);
      } else {
        var i :| 0 <= i < n && Covers(h.retired[i], s);
        assert Covers(h'.retired[i], s);
      }
    }
  }

  lemma StepKeepsAccounted(h: History, op: Op)
    requires WellFormed(h.window) && Accounted(h)
    ensures Accounted(Step(h, op))
  {
    var h' := Step(h, op);
    match op
    case InsertFrame(f) =>
      if WellFormedFrame(f) {
        InsertRetires(h.window, f);
        var r := Insert(h.window, f).1;
        hide Insert, WellFormed;
        if r.Retiring? { RetireKeepsAccounted(h, h', r.range, {f.sequence}); }
      }
    case SwitchActive =>
      NextRetires(h.window);
      var r := Next(h.window).1;
      hide Next, WellFormed;
      if r.Switched? { RetireKeepsAccounted(h, h', r.range, {}); }
    case Reserve =>
    case ReplaceInitial(_) =>
  }

  lemma {:induction false} RunKeepsAccounted(id: ConnectionId, ops: seq<Op>)
    ensures Accounted(Run(id, ops))
  {
    if ops == [] {
    } else {
      RunKeepsAccounted(id, ops[..|ops| - 1]);
      StepKeepsAccounted(Run(id, ops[..|ops| - 1]), ops[|ops| - 1]);
    }
  }

  /** Over any run, the ranges are non-empty and ascending, and partition exactly what was stored and is no longer. */
  lemma RetirementIsExact(id: ConnectionId, ops: seq<Op>, s: nat)
    requires s in Run(id, ops).everStored
    ensures var h := Run(id, ops);
            && Ascending(h.retired, h.window.offset)
            && (s in h.window.stored ==> forall i :: 0 <= i < |h.retired| ==> !Covers(h.retired[i], s))
            && (s !in h.window.stored ==>
                  exists i :: 0 <= i < |h.retired| && Covers(h.retired[i], s)
                    && forall j :: 0 <= j < |h.retired| && j != i ==> !Covers(h.retired[j], s))
  {
    RunKeepsAccounted(id, ops);
    var h := Run(id, ops);
    if s !in h.window.stored {
      var i :| 0 <= i < |h.retired| && Covers(h.retired[i], s);
      forall j | 0 <= j < |h.retired| && j != i
        ensures !Covers(h.retired[j], s)
      {
        if j < i { assert h.retired[j].to <= h.retired[i].from; } else { assert h.retired[i].to <= h.retired[j].from; }
      }
    }
  }

  // ---------------------------------------------------------------------------------------------
  // Reservation
  // ---------------------------------------------------------------------------------------------

  /** The last number that is in use, as the active one or as a reserved one. */
  function Position(w: Window): nat {
    w.offset + w.reserved
  }

  ghost predicate Increasing(s: seq<nat>) {
    forall i, j :: 0 <= i < j < |s| ==> s[i] < s[j]
  }

  /** Since the last reset every number was handed out once, in order, and none of them is active. */
  ghost predicate Fresh(h: History) {
    && h.resetAt <= |h.handedOut|
    && Increasing(h.handedOut[h.resetAt..])
    && (forall i :: h.resetAt <= i < |h.handedOut| ==>
          h.handedOut[i] <= Position(h.window) && h.handedOut[i] != h.window.offset)
  }

  lemma StepKeepsFresh(h: History, op: Op)
    requires WellFormed(h.window) && Fresh(h)
    ensures Fresh(Step(h, op))
  {
    hide Insert, Next, WellFormed, Retires;
    if op.InsertFrame? && WellFormedFrame(op.frame) { InsertRetires(h.window, op.frame); }
    NextRetires(h.window);
    var h' := Step(h, op);
    if op.Reserve? && h'.handedOut != h.handedOut {
      assert h'.handedOut[h.resetAt..] == h.handedOut[h.resetAt..] + [h'.handedOut[|h.handedOut|]];
      forall i | 0 <= i < |h.handedOut| - h.resetAt
        ensures h.handedOut[h.resetAt..][i] < h'.handedOut[|h.handedOut|]
      {
        assert h.handedOut[h.resetAt..][i] == h.handedOut[h.resetAt + i];
      }
    }
  }

  lemma {:induction false} HandedOutOnceUntilReset(id: ConnectionId, ops: seq<Op>)
    ensures Fresh(Run(id, ops))
  {
    if ops == [] {
    } else {
      HandedOutOnceUntilReset(id, ops[..|ops| - 1]);
      StepKeepsFresh(Run(id, ops[..|ops| - 1]), ops[|ops| - 1]);
    }
  }

  /** What a caller can see before the frame: it retires the active number but not all that was handed out. */
  predicate ForgetsReservation(w: Window, f: Frame) {
    && w.offset < f.retirePriorTo < Position(w)
    && f.sequence < LEN + f.retirePriorTo
    && (f.sequence < Position(w) || FirstStored(w.stored, f.retirePriorTo, Position(w)).Some?)
  }

  /** The one way in which the last number handed out can fall back. */
  lemma ReservationRegressesIff(w: Window, f: Frame)
    requires WellFormed(w) && WellFormedFrame(f)
    ensures Position(Insert(w, f).0) < Position(w) <==> ForgetsReservation(w, f)
    ensures Position(Next(w).0) >= Position(w) && Position(NextReserved(w).0) >= Position(w)
  {
    var m := Surviving(w.stored, f);
    if w.offset < f.retirePriorTo && f.sequence < LEN + f.retirePriorTo {
      assert f.sequence in m;
      var first := FirstStored(m, f.retirePriorTo, f.retirePriorTo + LEN).value;
      if f.retirePriorTo <= Position(w) { assert Position(w) in m; }
      var seen := FirstStored(w.stored, f.retirePriorTo, Position(w));
      if f.retirePriorTo < Position(w) && seen.Some? { assert seen.value in m; }
    }
  }

  /** No frame of the run makes the window forget part of its reservation. */
  ghost predicate NeverForgets(id: ConnectionId, ops: seq<Op>) {
    forall k: nat :: k < |ops| && ops[k].InsertFrame? && WellFormedFrame(ops[k].frame) ==>
      !ForgetsReservation(Run(id, ops[..k]).window, ops[k].frame)
  }

  /** Every number was handed out once, in order, up to the last one in use. */
  ghost predicate HandedOutOnce(h: History) {
    Increasing(h.handedOut) && forall n <- h.handedOut :: n <= Position(h.window)
  }

  lemma StepKeepsHandedOutOnce(h: History, op: Op)
    requires WellFormed(h.window) && HandedOutOnce(h)
    requires op.InsertFrame? && WellFormedFrame(op.frame) ==> !ForgetsReservation(h.window, op.frame)
    ensures HandedOutOnce(Step(h, op))
  {
    ReservationRegressesIff(h.window, if op.InsertFrame? && WellFormedFrame(op.frame) then op.frame else FrameOf(0, 0));
    var h' := Step(h, op);
    assert Position(h.window) <= Position(h'.window);
    assert forall n <- h'.handedOut :: n in h.handedOut || n > Position(h.window);
    hide Insert, Next, WellFormed;
    if |h'.handedOut| > |h.handedOut| {
      forall i | 0 <= i < |h.handedOut|
        ensures h'.handedOut[i] < h'.handedOut[|h.handedOut|]
      {
        assert h.handedOut[i] in h.handedOut;
      }
    }
  }

  /** As long as no frame forgets a reservation, no number is handed out twice, retiring frames or not. */
  lemma {:induction false} HandedOutOnceUnlessForgotten(id: ConnectionId, ops: seq<Op>)
    requires NeverForgets(id, ops)
    ensures HandedOutOnce(Run(id, ops))
  {
    hide Step, ForgetsReservation, WellFormed;
    if ops == [] {
    } else {
      var n := |ops| - 1;
      assert forall k: nat :: k < n ==> ops[..n][..k] == ops[..k] && ops[..n][k] == ops[k];
      HandedOutOnceUnlessForgotten(id, ops[..n]);
      hide HandedOutOnce;
      StepKeepsHandedOutOnce(Run(id, ops[..n]), ops[n]);
    }
  }

  /** What is reserved was handed out. */
  ghost predicate ReservedHandedOut(h: History) {
    h.window.reserved > 0 ==> Position(h.window) in h.handedOut
  }

  lemma StepKeepsReservedHandedOut(h: History, op: Op)
    requires WellFormed(h.window) && ReservedHandedOut(h)
    ensures ReservedHandedOut(Step(h, op))
  {
    hide Insert, Next, WellFormed, Retires;
    if op.InsertFrame? && WellFormedFrame(op.frame) { InsertRetires(h.window, op.frame); }
    NextRetires(h.window);
  }

  lemma {:induction false} RunKeepsReservedHandedOut(id: ConnectionId, ops: seq<Op>)
    ensures ReservedHandedOut(Run(id, ops))
  {
    if ops == [] {
    } else {
      hide Step;
      RunKeepsReservedHandedOut(id, ops[..|ops| - 1]);
      StepKeepsReservedHandedOut(Run(id, ops[..|ops| - 1]), ops[|ops| - 1]);
    }
  }

  lemma ReserveApproaches(h: History, goal: nat)
    requires WellFormed(h.window) && goal in h.window.stored && Position(h.window) < goal
    ensures var h' := Step(h, Reserve);
            && h'.window.stored == h.window.stored && Position(h.window) < Position(h'.window) <= goal
            && h'.handedOut == h.handedOut + [Position(h'.window)]
  {
  }

  /** Reserving again and again hands out every stored number after the reserved region. */
  lemma {:induction false} ReservesUpTo(id: ConnectionId, ops: seq<Op>, goal: nat) returns (more: seq<Op>)
    requires var w := Run(id, ops).window; goal in w.stored && Position(w) < goal
    ensures forall op <- more :: op.Reserve?
    ensures var given := Run(id, ops + more).handedOut;
            Run(id, ops).handedOut < given && given[|given| - 1] == goal
    decreases goal - Position(Run(id, ops).window)
  {
    hide Run, Step, Position, WellFormed;
    Extend(id, ops, Reserve);
    ReserveApproaches(Run(id, ops), goal);
    if Position(Run(id, ops + [Reserve]).window) == goal {
      more := [Reserve];
    } else {
      var rest := ReservesUpTo(id, ops + [Reserve], goal);
      more := [Reserve] + rest;
      assert ops + more == ops + [Reserve] + rest;
    }
  }

  lemma ForgettingKeepsLast(w: Window, f: Frame)
    requires WellFormed(w) && WellFormedFrame(f) && ForgetsReservation(w, f)
    ensures var w' := Insert(w, f).0; w.reserved > 0 && Position(w) in w'.stored && Position(w') < Position(w)
  {
    ReservationRegressesIff(w, f);
    assert Position(w) in Surviving(w.stored, f);
  }

  /**
   Conversely, after any frame that does forget, the last number that was handed out is handed out again
   as soon as enough IDs are reserved.
   */
  lemma ForgettingRepeats(id: ConnectionId, ops: seq<Op>, f: Frame) returns (more: seq<Op>)
    requires WellFormedFrame(f) && ForgetsReservation(Run(id, ops).window, f)
    ensures forall op <- more :: op.Reserve?
    ensures var given := Run(id, ops + [InsertFrame(f)] + more).handedOut;
            var last := Position(Run(id, ops).window);
            && last in Run(id, ops).handedOut && Run(id, ops).handedOut < given
            && given[|given| - 1] == last && !Increasing(given)
  {
    hide Run, Insert, Position, WellFormed, ForgetsReservation;
    var w := Run(id, ops).window;
    RunKeepsReservedHandedOut(id, ops);
    ForgettingKeepsLast(w, f);
    Extend(id, ops, InsertFrame(f));
    more := ReservesUpTo(id, ops + [InsertFrame(f)], Position(w));
    var handed, given := Run(id, ops).handedOut, Run(id, ops + [InsertFrame(f)] + more).handedOut;
    var i :| 0 <= i < |handed| && handed[i] == Position(w);
    assert given[i] == handed[i];
  }

  function FrameOf(sequence: nat, retirePriorTo: nat): Frame {
    Frame(sequence, retirePriorTo, PEER, TOKEN)
  }

  const PEER: ConnectionId := [1, 2, 3, 4, 5, 6, 7, 8]
  const TOKEN: ResetToken := [0, 1, 2, 3, 4, 5, 6, 7, 8, 9, 10, 11, 12, 13, 14, 15]
  const ISSUED := CidData(PEER, Some(TOKEN))

  /** Frames that the decoder lets through: an ID of 1 to 20 bytes, and 16 bytes of token. */
  ghost predicate Decodable(ops: seq<Op>) {
    forall op <- ops :: op.InsertFrame? ==>
      WellFormedFrame(op.frame) && 1 <= |op.frame.id| <= 20 && |op.frame.token| == 16
  }

  function InsertOf(sequence: nat, retirePriorTo: nat): Op {
    InsertFrame(FrameOf(sequence, retirePriorTo))
  }

  lemma DecodableExtends(ops: seq<Op>, op: Op)
    requires Decodable(ops) && (op.InsertFrame? ==> Decodable([op]))
    ensures Decodable(ops + [op])
  {
    assert op in [op];
  }

  /** A frame that retires nothing just adds its connection ID. */
  lemma InsertAdds(h: History, n: nat)
    requires WellFormed(h.window) && h.window.offset <= n < h.window.offset + LEN
    ensures var h' := Step(h, InsertOf(n, 0));
            h'.window == h.window.(stored := h.window.stored[n := ISSUED]) && h'.handedOut == h.handedOut
  {
    assert Surviving(h.window.stored, FrameOf(n, 0)) == h.window.stored[n := ISSUED];
  }

  lemma ReserveTakes(h: History, n: nat)
    requires WellFormed(h.window) && Successor(h.window) == Some(n)
    ensures var h' := Step(h, Reserve);
            h'.window == h.window.(reserved := n - h.window.offset) && h'.handedOut == h.handedOut + [n]
  {
  }

  lemma TwoReserved() returns (ops: seq<Op>)
    ensures Run(PEER, ops).window == Window(0, 2, map[0 := CidData(PEER, None), 2 := ISSUED])
    ensures Run(PEER, ops).handedOut == [2] && Decodable(ops)
  {
    assert Run(PEER, []) == Start(PEER);
    hide Run, Step, Insert;
    var o1 := [] + [InsertOf(2, 0)];
    Extend(PEER, [], InsertOf(2, 0));
    InsertAdds(Start(PEER), 2);
    assert Run(PEER, o1).window == Window(0, 0, map[0 := CidData(PEER, None), 2 := ISSUED]);
    Extend(PEER, o1, Reserve);
    assert Successor(Run(PEER, o1).window) == Some(2);
    ReserveTakes(Run(PEER, o1), 2);
    ops := o1 + [Reserve];
    DecodableExtends([], InsertOf(2, 0));
    DecodableExtends(o1, Reserve);
  }

  /** Sequence number 2 is handed out twice, with a retiring frame in between. */
  lemma HandedOutTwice()
    ensures exists ops :: Decodable(ops) && Run(PEER, ops).handedOut == [2, 2]
  {
    var ops := TwoReserved();
    hide Run;
    var w := Run(PEER, ops).window;
    var m := map[1 := ISSUED, 2 := ISSUED];
    assert Surviving(w.stored, FrameOf(1, 1)) == m;
    assert FirstStored(m, 1, 6) == Some(1);
    assert Insert(w, FrameOf(1, 1)).0 == Window(1, 0, m);
    hide Insert;
    Extend(PEER, ops, InsertOf(1, 1));
    Extend(PEER, ops + [InsertOf(1, 1)], Reserve);
    assert Successor(Window(1, 0, m)) == Some(2);
    assert Run(PEER, ops + [InsertOf(1, 1)] + [Reserve]).handedOut == [2] + [2];
  }

  // ---------------------------------------------------------------------------------------------
  // Whose IDs and tokens are returned
  // ---------------------------------------------------------------------------------------------

  /** The window takes the frame: its number is neither retired nor beyond the limit. */
  predicate Takes(w: Window, f: Frame) {
    WellFormedFrame(f) && w.offset <= f.sequence < Max(w.offset, f.retirePriorTo) + LEN
  }

  /** What the peer last said about number `n`: in the last frame for it that was taken, or in the handshake. */
  ghost function Brought(id: ConnectionId, ops: seq<Op>, n: nat): Option<CidData> {
    if ops == [] then if n == 0 then Some(CidData(id, None)) else None
    else
      var before := ops[..|ops| - 1];
      match ops[|ops| - 1]
      case InsertFrame(f) =>
        if f.sequence == n && Takes(Run(id, before).window, f) then Some(CidData(f.id, Some(f.token)))
        else Brought(id, before, n)
      case ReplaceInitial(id') =>
        if n == 0 && Run(id, before).window.offset == 0 then Some(CidData(id', None)) else Brought(id, before, n)
      case _ => Brought(id, before, n)
  }

  /** What a step stores under a number: what it brought, or what was there. */
  lemma StepStores(h: History, op: Op, n: nat)
    requires WellFormed(h.window) && n in Step(h, op).window.stored
    ensures var now := Step(h, op).window.stored[n];
            if op.InsertFrame? && op.frame.sequence == n && Takes(h.window, op.frame)
            then now == CidData(op.frame.id, Some(op.frame.token))
            else if op.ReplaceInitial? && n == 0 && h.window.offset == 0 then now == CidData(op.id, None)
            else n in h.window.stored && now == h.window.stored[n]
  {
    hide Insert, Next;
    match op
    case InsertFrame(f) => if WellFormedFrame(f) { InsertTells(h.window, f); }
    case SwitchActive => NextTells(h.window);
    case _ =>
  }

  lemma {:induction false} StoredIsBrought(id: ConnectionId, ops: seq<Op>, n: nat)
    requires n in Run(id, ops).window.stored
    ensures Brought(id, ops, n) == Some(Run(id, ops).window.stored[n])
  {
    hide Step, Takes, WellFormed;
    if ops == [] {
    } else {
      var before := ops[..|ops| - 1];
      StepStores(Run(id, before), ops[|ops| - 1], n);
      if n in Run(id, before).window.stored { StoredIsBrought(id, before, n); }
    }
  }

  /** The reset token that a step returns to the connection. */
  function TokenOf(h: History, op: Op): Option<ResetToken>
    requires WellFormed(h.window)
  {
    match op
    case InsertFrame(f) =>
      if WellFormedFrame(f) && Insert(h.window, f).1.Retiring? then Some(Insert(h.window, f).1.token) else None
    case SwitchActive => if Next(h.window).1.Switched? then Some(Next(h.window).1.token) else None
    case _ => None
  }

  lemma TokenOfActive(h: History, op: Op)
    requires WellFormed(h.window)
    ensures var w := Step(h, op).window;
            && (TokenOf(h, op).Some? <==> w.offset != h.window.offset)
            && (TokenOf(h, op).Some? ==> w.offset in w.stored && w.stored[w.offset].token == TokenOf(h, op))
  {
    hide Insert, Next;
    match op
    case InsertFrame(f) => if WellFormedFrame(f) { InsertTells(h.window, f); }
    case SwitchActive => NextTells(h.window);
    case _ =>
  }

  /**
   In every run a token is returned exactly when the active number changes, and it is the one that the peer
   last sent for the number that is now active.
   */
  lemma TokenIsThatOfActive(id: ConnectionId, ops: seq<Op>, op: Op)
    ensures var h, w := Run(id, ops), Run(id, ops + [op]).window;
            && (TokenOf(h, op).Some? <==> w.offset != h.window.offset)
            && (TokenOf(h, op).Some? ==>
                  && Brought(id, ops + [op], w.offset).Some?
                  && Brought(id, ops + [op], w.offset).value.token == TokenOf(h, op))
  {
    hide Run, Step, Brought, TokenOf, WellFormed;
    Extend(id, ops, op);
    TokenOfActive(Run(id, ops), op);
    if TokenOf(Run(id, ops), op).Some? {
      StoredIsBrought(id, ops + [op], Run(id, ops + [op]).window.offset);
    }
  }

  /** The ID that `next_reserved` returns is the one that the peer last sent for the number handed out. */
  lemma ReservedIdIsBrought(id: ConnectionId, ops: seq<Op>)
    ensures var w := Run(id, ops).window;
            match NextReserved(w).1
            case None => true
            case Some(n) => n in w.stored && Brought(id, ops, n) == Some(w.stored[n])
  {
    var w := Run(id, ops).window;
    hide Run, Brought;
    if NextReserved(w).1.Some? { StoredIsBrought(id, ops, NextReserved(w).1.value); }
  }

  // ---------------------------------------------------------------------------------------------
  // The literal code of `next`
  // ---------------------------------------------------------------------------------------------

  /** The run of the literal code, which stops for good at an index out of bounds. */
  function LiteralRun(id: ConnectionId, ops: seq<Op>): (r: Option<History>)
    ensures r.Some? ==> WellFormed(r.value.window)
  {
    if ops == [] then Some(Start(id))
    else
      match LiteralRun(id, ops[..|ops| - 1])
      case None => None
      case Some(h) =>
        if ops[|ops| - 1].SwitchActive? && NextOverruns(h.window) then None
        else StepKeepsWellFormed(h, ops[|ops| - 1]); Some(Step(h, ops[|ops| - 1]))
  }

  ghost predicate OverrunsAt(id: ConnectionId, ops: seq<Op>, k: nat)
    requires k < |ops|
  {
    ops[k].SwitchActive? && NextOverruns(Run(id, ops[..k]).window)
  }

  ghost predicate Overruns(id: ConnectionId, ops: seq<Op>) {
    exists k: nat :: k < |ops| && OverrunsAt(id, ops, k)
  }

  lemma OverrunsExtend(id: ConnectionId, ops: seq<Op>, op: Op)
    ensures Overruns(id, ops + [op]) <==>
            Overruns(id, ops) || (op.SwitchActive? && NextOverruns(Run(id, ops).window))
  {
    hide Run, Step, NextOverruns;
    var all := ops + [op];
    assert all[..|ops|] == ops;
    forall k: nat | k < |ops|
      ensures OverrunsAt(id, all, k) <==> OverrunsAt(id, ops, k)
    {
      assert all[..k] == ops[..k];
    }
    assert OverrunsAt(id, all, |ops|) <==> op.SwitchActive? && NextOverruns(Run(id, ops).window);
  }

  /** The literal code is the intended one up to the first switch whose reserved region wraps round the ring. */
  lemma {:induction false} LiteralRunIff(id: ConnectionId, ops: seq<Op>)
    ensures LiteralRun(id, ops).None? <==> Overruns(id, ops)
    ensures LiteralRun(id, ops).Some? ==> LiteralRun(id, ops).value == Run(id, ops)
  {
    hide Step, NextOverruns, WellFormed;
    if ops == [] {
    } else {
      hide Overruns;
      var n := |ops| - 1;
      LiteralRunIff(id, ops[..n]);
      OverrunsExtend(id, ops[..n], ops[n]);
      assert ops == ops[..n] + [ops[n]];
    }
  }

  lemma FourthActive()
    ensures Run(PEER, [InsertOf(4, 4)]).window == Window(4, 0, map[4 := ISSUED])
  {
    var o1 := [InsertOf(4, 4)];
    assert o1[..0] == [];
    assert Surviving(Initial(PEER).stored, FrameOf(4, 4)) == map[4 := ISSUED];
  }

  lemma ReservationWraps() returns (ops: seq<Op>)
    ensures Decodable(ops) && Run(PEER, ops).window == Window(4, 1, map[4 := ISSUED, 5 := ISSUED, 6 := ISSUED])
  {
    hide Run, Step, Insert;
    var o1 := [InsertOf(4, 4)];
    FourthActive();
    var o2 := o1 + [InsertOf(5, 0)];
    Extend(PEER, o1, InsertOf(5, 0));
    InsertAdds(Run(PEER, o1), 5);
    var o3 := o2 + [InsertOf(6, 0)];
    Extend(PEER, o2, InsertOf(6, 0));
    InsertAdds(Run(PEER, o2), 6);
    assert Run(PEER, o3).window == Window(4, 0, map[4 := ISSUED, 5 := ISSUED, 6 := ISSUED]);
    Extend(PEER, o3, Reserve);
    assert Successor(Run(PEER, o3).window) == Some(5);
    ReserveTakes(Run(PEER, o3), 5);
    ops := o3 + [Reserve];
    DecodableExtends(o1, InsertOf(5, 0));
    DecodableExtends(o2, InsertOf(6, 0));
    DecodableExtends(o3, Reserve);
  }

  /** Four ordinary operations lead to a state in which the literal `next` indexes out of bounds. */
  lemma OverrunIsReachable()
    ensures exists ops ::
              Decodable(ops) && NextOverruns(Run(PEER, ops).window) && LiteralRun(PEER, ops + [SwitchActive]).None?
  {
    var ops := ReservationWraps();
    hide Run, LiteralRun;
    assert Successor(Run(PEER, ops).window) == Some(6);
    OverrunsExtend(PEER, ops, SwitchActive);
    LiteralRunIff(PEER, ops + [SwitchActive]);
  }
}
