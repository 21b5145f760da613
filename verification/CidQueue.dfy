/** The five-slot ring buffer that holds the window; every method has exactly the window's effect. */
module CidQueues {
  import opened Common
  import opened CidWindow

  // ---------------------------------------------------------------------------------------------
  // Slots
  // ---------------------------------------------------------------------------------------------

  /** `s % LEN`, the slot of sequence number `s`; `SlotIsMod` says so. Recursive, to keep `%` out of the proofs. */
  function Slot(s: nat): (k: nat)
    ensures k < LEN
  {
    if s < LEN then s else Slot(s - LEN)
  }

  lemma {:induction false} SlotIsMod(s: nat)
    ensures Slot(s) == s % LEN
  {
    if s >= LEN {
      SlotIsMod(s - LEN);
    }
  }

  lemma {:induction false} SlotStep(s: nat, step: nat)
    ensures Slot(Slot(s) + step) == Slot(s + step)
  {
    if s >= LEN {
      SlotStep(s - LEN, step);
    }
  }

  lemma {:induction false} SlotsDistinct(base: nat, s: nat, t: nat)
    requires base <= s < base + LEN && base <= t < base + LEN && Slot(s) == Slot(t)
    ensures s == t
  {
    if base >= LEN {
      SlotsDistinct(base - LEN, s - LEN, t - LEN);
    }
  }

  /** Any number past the window shares its slot with one inside it. */
  lemma {:induction false} SlotWraps(base: nat, s: nat) returns (t: nat)
    requires base <= s
    ensures base <= t < base + LEN && Slot(t) == Slot(s) && (t == s || t + LEN <= s)
  {
    if s < base + LEN {
      t := s;
    } else {
      t := SlotWraps(base, s - LEN);
    }
  }

  /** Steps forward round the ring from slot `c` to slot `r`. */
  function Distance(c: nat, r: nat): (n: nat)
    requires c < LEN && r < LEN
    ensures n < LEN
  {
    if r >= c then r - c else r + LEN - c
  }

  lemma SlotAtDistance(offset: nat, r: nat)
    requires r < LEN
    ensures Slot(offset + Distance(Slot(offset), r)) == r
  {
    SlotStep(offset, Distance(Slot(offset), r));
  }

  /** Stepping on from slot `r` of the window at `offset`. */
  lemma StepFrom(offset: nat, r: nat, step: nat)
    requires r < LEN && Distance(Slot(offset), r) + step < LEN
    ensures Slot(r + step) == Slot(offset + Distance(Slot(offset), r) + step)
    ensures Distance(Slot(offset), Slot(r + step)) == Distance(Slot(offset), r) + step
  {
    var n := Distance(Slot(offset), r);
    SlotAtDistance(offset, r);
    SlotStep(offset + n, step);
    SlotStep(offset, n + step);
  }

  // ---------------------------------------------------------------------------------------------
  // What the slots hold
  // ---------------------------------------------------------------------------------------------

  type Slots = s: seq<Option<CidData>> | |s| == LEN witness [None, None, None, None, None]

  ghost function StoredIn(slots: Slots, offset: nat): map<nat, CidData> {
    map s: nat | offset <= s < offset + LEN && slots[Slot(s)].Some? :: slots[Slot(s)].value
  }

  /** The window held by `slots` whose active number is `offset` and last reserved slot is `r`. */
  ghost function View(slots: Slots, offset: nat, r: nat): Window
    requires r < LEN
  {
    Window(offset, Distance(Slot(offset), r), StoredIn(slots, offset))
  }

  lemma ViewIs(slots: Slots, offset: nat, r: nat)
    requires r < LEN
    ensures View(slots, offset, r).offset == offset && View(slots, offset, r).reserved == Distance(Slot(offset), r)
  {
  }

  /** The slots of `[offset, offset + count)` emptied. */
  ghost predicate Emptied(before: Slots, after: Slots, offset: nat, count: nat) {
    forall s :: offset <= s < offset + LEN ==>
      after[Slot(s)] == if s < offset + count then None else before[Slot(s)]
  }

  /** Emptying what a frame retires, then filling its own slot, is a map update on the window at the new edge. */
  lemma Written(before: Slots, mid: Slots, after: Slots, offset: nat, f: Frame)
    requires offset <= f.sequence && Max(offset, f.retirePriorTo) <= f.sequence < Max(offset, f.retirePriorTo) + LEN
    requires Emptied(before, mid, offset, Min(Max(offset, f.retirePriorTo) - offset, LEN))
    requires after == mid[Slot(f.sequence) := Some(CidData(f.id, Some(f.token)))]
    ensures StoredIn(after, Max(offset, f.retirePriorTo)) == Surviving(StoredIn(before, offset), f)
  {
    var edge := Max(offset, f.retirePriorTo);
    forall s | edge <= s < edge + LEN && s != f.sequence
      ensures after[Slot(s)] == if s < offset + LEN then before[Slot(s)] else None
    {
      if Slot(s) == Slot(f.sequence) { SlotsDistinct(edge, s, f.sequence); }
      var t := SlotWraps(offset, s);
    }
  }

  /** Moving the base of the window past empty slots changes nothing. */
  lemma Shifted(slots: Slots, base: nat, offset: nat)
    requires base <= offset < base + LEN
    requires forall s :: base <= s < offset ==> slots[Slot(s)].None?
    ensures StoredIn(slots, offset) == StoredIn(slots, base)
  {
    forall s | base + LEN <= s < offset + LEN
      ensures slots[Slot(s)].None?
    {
      assert slots[Slot(s - LEN)].None?;
    }
  }

  /** The reserved region emptied and the next filled slot made active: the window's own `Next`. */
  lemma Switch(before: Slots, after: Slots, offset: nat, r: nat, step: nat)
    requires r < LEN && WellFormed(View(before, offset, r))
    requires Successor(View(before, offset, r)) == Some(offset + Distance(Slot(offset), r) + step)
    requires Emptied(before, after, offset, Distance(Slot(offset), r) + 1)
    ensures var n := offset + Distance(Slot(offset), r) + step;
            && Slot(r + step) == Slot(n)
            && before[Slot(n)].Some? && before[Slot(n)].value.token.Some?
            && Next(View(before, offset, r)) ==
               (View(after, n, Slot(n)), Switched(before[Slot(n)].value.token.value, Range(offset, n)))
  {
    var w := View(before, offset, r);
    var n := offset + w.reserved + step;
    StepFrom(offset, r, step);
    forall s | offset <= s < n
      ensures after[Slot(s)].None?
    {
      if offset + w.reserved < s { assert s !in w.stored; }
    }
    Shifted(after, offset, n);
    assert StoredIn(after, n) == Next(w).0.stored;
    assert before[Slot(n)] == Some(w.stored[n]);
  }

  /** The next filled slot reserved: the window's own `NextReserved`. */
  lemma Reserve(slots: Slots, offset: nat, r: nat, step: nat)
    requires r < LEN && WellFormed(View(slots, offset, r))
    requires Successor(View(slots, offset, r)) == Some(offset + Distance(Slot(offset), r) + step)
    ensures View(slots, offset, Slot(r + step)) == NextReserved(View(slots, offset, r)).0
  {
    hide StoredIn, WellFormed, Slot;
    StepFrom(offset, r, step);
  }

  /** As long as nothing wraps, the slots of the active and reserved numbers are contiguous. */
  lemma EmptiedContiguously(before: Slots, after: Slots, offset: nat, reserved: nat)
    requires Slot(offset) + reserved < LEN
    requires forall k :: 0 <= k < LEN ==>
        after[k] == if Slot(offset) <= k <= Slot(offset) + reserved then None else before[k]
    ensures Emptied(before, after, offset, reserved + 1)
  {
    forall s | offset <= s < offset + LEN
      ensures s <= offset + reserved <==> Slot(offset) <= Slot(s) <= Slot(offset) + reserved
    {
      SlotStep(offset, s - offset);
    }
  }

  // ---------------------------------------------------------------------------------------------
  // The ring buffer itself
  // ---------------------------------------------------------------------------------------------

  class CidQueue {
    const buffer: array<Option<CidData>>
    var cursor: nat
    var offset: nat
    var cursorReserved: nat

    /** The window that the ring holds. */
    ghost var window: Window

    ghost predicate Shaped()
      reads this
    {
      && buffer.Length == LEN
      && cursor == Slot(offset)
      && cursorReserved < LEN
    }

    ghost predicate Valid()
      reads this, buffer
    {
      Shaped() && window == View(buffer[..], offset, cursorReserved) && WellFormed(window)
    }

    function ReservedLen(): nat
      requires cursor < LEN && cursorReserved < LEN
      reads this
    {
      Distance(cursor, cursorReserved)
    }

    constructor (id: ConnectionId)
      ensures Valid() && fresh(buffer)
      ensures window == Initial(id)
    {
      buffer := new Option<CidData>[LEN](i => if i == 0 then Some(CidData(id, None)) else None);
      cursor, offset, cursorReserved := 0, 0, 0;
      window := Initial(id);
      new;
      assert StoredIn(buffer[..], 0) == map[0 := CidData(id, None)];
    }

    /** `iter_from_active().next()`, as a step count from `cursor`; `LEN` when every slot is empty. */
    method FirstFromActive(ghost base: nat) returns (step: nat)
      requires buffer.Length == LEN && cursor == Slot(base)
      ensures step <= LEN
      ensures forall s :: base <= s < base + step ==> buffer[Slot(s)].None?
      ensures step < LEN ==> buffer[Slot(base + step)].Some?
    {
      step := 0;
      while step < LEN
        invariant step <= LEN
        invariant forall s :: base <= s < base + step ==> buffer[Slot(s)].None?
      {
        SlotStep(base, step);
        if buffer[Slot(cursor + step)].Some? {
          return;
        }
        step := step + 1;
      }
    }

    /** `iter_from_reserved().nth(1)`, as a step count from `cursorReserved` and the data found there. */
    method SecondFromReserved() returns (r: Option<(nat, CidData)>)
      requires Valid()
      ensures match Successor(window)
              case None => r == None
              case Some(n) => r == Some((n - window.offset - window.reserved, window.stored[n]))
    {
      hide Slot, Distance;
      ghost var base := offset + window.reserved;
      var seen := 0;
      var step := 0;
      while step < LEN - ReservedLen()
        invariant step <= LEN - ReservedLen()
        invariant seen == if step == 0 then 0 else 1
        invariant forall s :: base < s < base + step ==> s !in window.stored
      {
        StepFrom(offset, cursorReserved, step);
        if buffer[Slot(cursorReserved + step)].Some? {
          assert base + step in window.stored;
          if seen == 1 {
            return Some((step, buffer[Slot(cursorReserved + step)].value));
          }
          seen := seen + 1;
        }
        step := step + 1;
      }
      r := None;
    }

    /** Empties the slots of `[offset, offset + count)`. */
    method Discard(count: nat)
      requires Shaped() && count <= LEN
      modifies buffer
      ensures Emptied(old(buffer[..]), buffer[..], offset, count)
    {
      hide Slot;
      ghost var slots := buffer[..];
      var i := 0;
      while i < count
        invariant i <= count
        invariant Emptied(slots, buffer[..], offset, i)
      {
        SlotStep(offset, i);
        buffer[Slot(cursor + i)] := None;
        forall s | offset <= s < offset + LEN && Slot(s) == Slot(offset + i)
          ensures s == offset + i
        {
          SlotsDistinct(offset, s, offset + i);
        }
        i := i + 1;
      }
    }

    /** Discards what the frame retires and records the connection ID that it carries. */
    method Record(f: Frame, retiredCount: nat)
      requires Shaped() && offset <= f.sequence < offset + retiredCount + LEN
      requires offset + retiredCount == Max(offset, f.retirePriorTo) <= f.sequence
      modifies buffer
      ensures StoredIn(buffer[..], offset + retiredCount) ==
              Surviving(StoredIn(old(buffer[..]), offset), f)
    {
      hide StoredIn, Emptied, Slot;
      ghost var before := buffer[..];
      Discard(Min(retiredCount, LEN));
      ghost var mid := buffer[..];
      var index := f.sequence - offset;
      SlotStep(offset, index);
      buffer[Slot(cursor + index)] := Some(CidData(f.id, Some(f.token)));
      Written(before, mid, buffer[..], offset, f);
    }

    /** Makes the first filled slot at or after sequence number `edge` the active one. */
    method Advance(edge: nat) returns (token: Option<ResetToken>)
      requires Shaped() && offset <= edge
      requires FirstStored(StoredIn(buffer[..], edge), edge, edge + LEN).Some?
      modifies `cursor, `offset, `cursorReserved
      ensures Shaped()
      ensures FirstStored(StoredIn(buffer[..], edge), edge, edge + LEN) == Some(offset)
      ensures View(buffer[..], offset, cursorReserved) == Window(offset, 0, StoredIn(buffer[..], edge))
      ensures token == StoredIn(buffer[..], edge)[offset].token
    {
      hide Slot;
      ghost var m := StoredIn(buffer[..], edge);
      SlotStep(offset, edge - offset);
      cursor := Slot(cursor + (edge - offset));
      var step := FirstFromActive(edge);
      SlotStep(edge, step);
      token := buffer[Slot(cursor + step)].value.token;
      cursor := Slot(cursor + step);
      cursorReserved := cursor;
      offset := edge + step;
      Shifted(buffer[..], edge, offset);
      assert offset in m;
    }

    method Insert(f: Frame) returns (r: InsertResult)
      requires Valid() && WellFormedFrame(f)
      modifies this, buffer
      ensures Valid()
      ensures (window, r) == CidWindow.Insert(old(window), f)
      ensures r.Retiring? ==> window.stored[window.offset].token == Some(r.token)
    {
      hide WellFormed, StoredIn, Emptied, Slot, Distance, Records;
      InsertKeepsWellFormed(window, f);
      InsertTells(window, f);
      if f.sequence < offset {
        return Failed(Retired);
      }
      var index := f.sequence - offset;
      var retiredCount := if f.retirePriorTo <= offset then 0 else f.retirePriorTo - offset;
      if index >= LEN + retiredCount {
        return Failed(ExceedsLimit);
      }
      Record(f, retiredCount);
      window := CidWindow.Insert(window, f).0;
      if retiredCount == 0 {
        return Stored;
      }
      assert f.sequence in Surviving(old(window).stored, f);
      var origOffset := offset;
      var token := Advance(f.retirePriorTo);
      r := Retiring(Range(origOffset, Min(offset, origOffset + LEN)), token.value);
    }

    /** The loop of line 113: its index is not wrapped, so the bounds check fails past the last slot. */
    method DiscardUnwrapped(count: nat) returns (inBounds: bool)
      requires Shaped() && 0 < count <= LEN
      modifies buffer
      ensures inBounds <==> offset % LEN + count <= LEN
      ensures inBounds ==> Emptied(old(buffer[..]), buffer[..], offset, count)
    {
      ghost var before := buffer[..];
      var j := 0;
      while j < count
        invariant j <= count && cursor + j <= LEN
        invariant forall k :: 0 <= k < LEN ==> buffer[k] == if cursor <= k < cursor + j then None else before[k]
      {
        if cursor + j >= LEN {
          SlotIsMod(offset);
          return false;
        }
        buffer[cursor + j] := None;
        j := j + 1;
      }
      EmptiedContiguously(before, buffer[..], offset, count - 1);
      SlotIsMod(offset);
      inBounds := true;
    }

    /** Moves to the filled slot `step` past the reserved region, once that region is emptied. */
    method SwitchTo(step: nat, ghost before: Slots) returns (range: Range)
      requires Shaped() && WellFormed(window) && window == View(before, offset, cursorReserved)
      requires Successor(window) == Some(offset + window.reserved + step)
      requires Emptied(before, buffer[..], offset, window.reserved + 1)
      modifies this
      ensures Valid()
      ensures window == CidWindow.Next(old(window)).0
      ensures range == Range(old(window).offset, window.offset)
    {
      hide WellFormed, StoredIn, Emptied, Slot, Distance, Successor;
      NextKeepsWellFormed(window);
      Switch(before, buffer[..], offset, cursorReserved, step);
      range := Range(offset, offset + step + ReservedLen());
      window := CidWindow.Next(window).0;
      offset := offset + step + ReservedLen();
      cursor := Slot(cursorReserved + step);
      cursorReserved := cursor;
    }

    /** The literal code. */
    method Next() returns (r: NextResult)
      requires Valid()
      modifies this, buffer
      ensures r.OutOfBounds? <==> NextOverruns(old(window))
      ensures !r.OutOfBounds? ==> Valid() && (window, r) == CidWindow.Next(old(window))
      ensures r.Switched? ==> window.stored[window.offset].token == Some(r.token)
    {
      hide WellFormed, StoredIn, Emptied, Slot, Distance, Successor;
      NextKeepsWellFormed(window);
      NextTells(window);
      ghost var before := buffer[..];
      var found := SecondFromReserved();
      if found.None? {
        return Exhausted;
      }
      var inBounds := DiscardUnwrapped(ReservedLen() + 1);
      if !inBounds {
        return OutOfBounds;
      }
      var range := SwitchTo(found.value.0, before);
      r := Switched(found.value.1.token.value, range);
    }

    /** The same method with the index wrapped, as every other index into the buffer is. */
    method NextWrapped() returns (r: NextResult)
      requires Valid()
      modifies this, buffer
      ensures Valid() && (window, r) == CidWindow.Next(old(window))
      ensures r.Switched? ==> window.stored[window.offset].token == Some(r.token)
    {
      hide WellFormed, StoredIn, Emptied, Slot, Distance, Successor;
      NextKeepsWellFormed(window);
      NextTells(window);
      ghost var before := buffer[..];
      var found := SecondFromReserved();
      if found.None? {
        return Exhausted;
      }
      Discard(ReservedLen() + 1);
      var range := SwitchTo(found.value.0, before);
      r := Switched(found.value.1.token.value, range);
    }

    method NextReserved() returns (r: Option<ConnectionId>)
      requires Valid()
      modifies `window, `cursorReserved
      ensures Valid() && window == CidWindow.NextReserved(old(window)).0
      ensures r == match CidWindow.NextReserved(old(window)).1
                   case None => None
                   case Some(n) => Some(old(window).stored[n].id)
    {
      hide View, WellFormed, StoredIn, Slot, Distance, Successor;
      NextKeepsWellFormed(window);
      ViewIs(buffer[..], offset, cursorReserved);
      var found := SecondFromReserved();
      if found.None? {
        return None;
      }
      Reserve(buffer[..], offset, cursorReserved, found.value.0);
      window := CidWindow.NextReserved(window).0;
      cursorReserved := Slot(cursorReserved + found.value.0);
      r := Some(found.value.1.id);
    }

    method UpdateInitialCid(id: ConnectionId)
      requires Valid() && offset == 0
      modifies buffer, `window
      ensures Valid() && window == UpdateInitial(old(window), id)
    {
      buffer[cursor] := Some(CidData(id, None));
      window := UpdateInitial(window, id);
      assert StoredIn(buffer[..], 0) == window.stored;
    }
  }
}
