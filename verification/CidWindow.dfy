/**
 The window of connection IDs a peer has issued (sections 5.1.2, 19.15 and 19.16 of RFC 9000), as
 a partial map from sequence number to connection ID.
 */
module CidWindow {
  import opened Common

  const LEN := 5

  datatype CidData = CidData(id: ConnectionId, token: Option<ResetToken>)

  datatype Frame = Frame(sequence: nat, retirePriorTo: nat, id: ConnectionId, token: ResetToken)

  /** The frame decoder rejects a frame that retires numbers it has not issued. */
  predicate WellFormedFrame(f: Frame) {
    f.retirePriorTo <= f.sequence
  }

  datatype InsertError = Retired | ExceedsLimit

  /** Retired sequence numbers `from <= s < to`. */
  datatype Range = Range(from: nat, to: nat)

  datatype InsertResult =
    | Stored
    | Retiring(range: Range, token: ResetToken)
    | Failed(error: InsertError)

  datatype NextResult =
    | Exhausted
    | Switched(token: ResetToken, range: Range)
    | OutOfBounds

  // ---------------------------------------------------------------------------------------------
  // The reference window
  // ---------------------------------------------------------------------------------------------

  /** `offset` is the active sequence number; `offset + reserved` is the last one handed out. */
  datatype Window = Window(offset: nat, reserved: nat, stored: map<nat, CidData>)

  ghost predicate WellFormed(w: Window) {
    && w.offset in w.stored
    && w.reserved < LEN
    && w.offset + w.reserved in w.stored
    && (forall s <- w.stored :: w.offset <= s < w.offset + LEN)
    && (forall s <- w.stored :: w.stored[s].token.None? ==> s == 0)
  }

  /** The least stored number in `[lo, hi)`. */
  function FirstStored(stored: map<nat, CidData>, lo: nat, hi: nat): (r: Option<nat>)
    ensures r.Some? ==> lo <= r.value < hi && r.value in stored && forall s :: lo <= s < r.value ==> s !in stored
    ensures r.None? ==> (forall s :: lo <= s < hi ==> s !in stored)
    decreases hi - lo
  {
    if hi <= lo then None
    else if lo in stored then Some(lo)
    else FirstStored(stored, lo + 1, hi)
  }

  /** The first stored number after the reserved region. */
  function Successor(w: Window): Option<nat> {
    FirstStored(w.stored, w.offset + w.reserved + 1, w.offset + LEN)
  }

  function Initial(id: ConnectionId): Window {
    Window(0, 0, map[0 := CidData(id, None)])
  }

  /** What survives a frame's retirement, together with the connection ID that it carries. */
  function Surviving(stored: map<nat, CidData>, f: Frame): map<nat, CidData> {
    (map s | s in stored && f.retirePriorTo <= s :: stored[s])[f.sequence := CidData(f.id, Some(f.token))]
  }

  function Insert(w: Window, f: Frame): (Window, InsertResult)
    requires WellFormed(w) && WellFormedFrame(f)
  {
    if f.sequence < w.offset then
      (w, Failed(Retired))
    else if f.sequence >= LEN + Max(w.offset, f.retirePriorTo) then
      (w, Failed(ExceedsLimit))
    else
      var m := Surviving(w.stored, f);
      if f.retirePriorTo <= w.offset then (w.(stored := m), Stored) else
      var first := FirstStored(m, f.retirePriorTo, f.retirePriorTo + LEN);
      assert f.sequence in m;
      assert first.value > 0;
      (Window(first.value, 0, m),
       Retiring(Range(w.offset, Min(first.value, w.offset + LEN)), m[first.value].token.value))
  }

  function Next(w: Window): (Window, NextResult)
    requires WellFormed(w)
  {
    match Successor(w)
    case None => (w, Exhausted)
    case Some(n) =>
      (Window(n, 0, map s | s in w.stored && w.offset + w.reserved < s :: w.stored[s]),
       Switched(w.stored[n].token.value, Range(w.offset, n)))
  }

  /** Returns the sequence number handed out as well; the source returns only its ID. */
  function NextReserved(w: Window): (Window, Option<nat>) {
    match Successor(w)
    case None => (w, None)
    case Some(n) => (w.(reserved := n - w.offset), Some(n))
  }

  function UpdateInitial(w: Window, id: ConnectionId): Window {
    w.(stored := w.stored[w.offset := CidData(id, None)])
  }

  lemma InsertKeepsWellFormed(w: Window, f: Frame)
    requires WellFormed(w) && WellFormedFrame(f)
    ensures WellFormed(Insert(w, f).0)
  {
    if w.offset <= f.sequence < LEN + Max(w.offset, f.retirePriorTo) && w.offset < f.retirePriorTo {
      assert f.sequence in Surviving(w.stored, f);
    }
  }

  lemma NextKeepsWellFormed(w: Window)
    requires WellFormed(w)
    ensures WellFormed(Next(w).0)
    ensures WellFormed(NextReserved(w).0)
    ensures Successor(w).Some? ==> w.stored[Successor(w).value].token.Some?
  {
  }

  /** The literal `next` indexes past the buffer exactly here: line 114 does not wrap its index. */
  predicate NextOverruns(w: Window) {
    Successor(w).Some? && w.offset % LEN + w.reserved >= LEN
  }

  /** The range a step returns starts at the old active number, and covers whatever leaves the window. */
  ghost predicate Retires(w: Window, w': Window, r: Range) {
    && r.from == w.offset < r.to <= w'.offset
    && (forall s <- w.stored :: s in w'.stored || r.from <= s < r.to)
  }

  lemma InsertRetires(w: Window, f: Frame)
    requires WellFormed(w) && WellFormedFrame(f)
    ensures var (w', r) := Insert(w, f);
            match r
            case Failed(_) => w' == w
            case Stored =>
              w'.offset == w.offset && w'.reserved == w.reserved && w'.stored.Keys == w.stored.Keys + {f.sequence}
            case Retiring(range, _) =>
              Retires(w, w', range) && w'.reserved == 0 && w'.stored.Keys <= w.stored.Keys + {f.sequence}
              && f.sequence in w'.stored
  {
    if w.offset <= f.sequence {
      assert f.sequence in Surviving(w.stored, f);
    }
  }

  lemma NextRetires(w: Window)
    requires WellFormed(w)
    ensures var (w', r) := Next(w);
            match r
            case Switched(_, range) =>
              && Retires(w, w', range) && w'.reserved == 0 && w'.stored.Keys <= w.stored.Keys
              && w.offset + w.reserved < w'.offset
            case _ => w' == w && r.Exhausted?
  {
  }

  /** What is stored after a frame: what it does not retire, and its own ID and token under its own number. */
  ghost predicate Records(w: Window, w': Window, f: Frame) {
    && (forall s :: s in w'.stored <==> s == f.sequence || (s in w.stored && f.retirePriorTo <= s))
    && (forall s <- w'.stored :: s != f.sequence ==> w'.stored[s] == w.stored[s])
    && w'.stored[f.sequence] == CidData(f.id, Some(f.token))
  }

  /**
   Which of its results an insert gives, and what each of them means; in particular the token returned is
   that of the number that is now active, which need not be the frame's own.
   */
  lemma InsertTells(w: Window, f: Frame)
    requires WellFormed(w) && WellFormedFrame(f)
    ensures var (w', r) := Insert(w, f);
            var limit := Max(w.offset, f.retirePriorTo) + LEN;
            match r
            case Failed(Retired) => w' == w && f.sequence < w.offset
            case Failed(ExceedsLimit) => w' == w && w.offset <= f.sequence && limit <= f.sequence
            case Stored =>
              && f.retirePriorTo <= w.offset <= f.sequence < limit && Records(w, w', f)
              && w'.offset == w.offset && w'.reserved == w.reserved
            case Retiring(range, token) =>
              && w.offset < f.retirePriorTo <= w'.offset && f.sequence < limit && Records(w, w', f)
              && w'.offset in w'.stored && (forall s <- w'.stored :: w'.offset <= s) && w'.reserved == 0
              && range == Range(w.offset, Min(w'.offset, w.offset + LEN))
              && w'.stored[w'.offset].token == Some(token)
  {
    if w.offset <= f.sequence {
      assert f.sequence in Surviving(w.stored, f);
    }
  }

  /** A switch goes to the first number past the reserved region, and returns that number's token. */
  lemma NextTells(w: Window)
    requires WellFormed(w)
    ensures var (w', r) := Next(w);
            match r
            case Exhausted => w' == w && forall s <- w.stored :: s <= w.offset + w.reserved
            case Switched(token, range) =>
              && w.offset + w.reserved < w'.offset && w'.offset in w.stored && w'.reserved == 0
              && (forall s <- w.stored :: s <= w.offset + w.reserved || w'.offset <= s)
              && (forall s :: s in w'.stored <==> s in w.stored && w'.offset <= s)
              && (forall s <- w'.stored :: w'.stored[s] == w.stored[s])
              && range == Range(w.offset, w'.offset) && w.stored[w'.offset].token == Some(token)
            case OutOfBounds => false
  {
  }

  /** A reservation takes the first number past the reserved region, and changes nothing else. */
  lemma ReserveTells(w: Window)
    requires WellFormed(w)
    ensures var (w', r) := NextReserved(w);
            match r
            case None => w' == w && forall s <- w.stored :: s <= w.offset + w.reserved
            case Some(n) =>
              && w.offset + w.reserved < n && n in w.stored
              && (forall s <- w.stored :: s <= w.offset + w.reserved || n <= s)
              && w' == w.(reserved := n - w.offset)
  {
  }
}
