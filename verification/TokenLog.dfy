/**
 The log of used address-validation tokens: two rotating period filters, each an exact set until it
 outgrows its budget and a Bloom filter from then on.
 */
module TokenLogs {
  import opened Common

  /** A Bloom filter's hash functions: the bits that an item sets. */
  type Hashes = nat -> set<nat>

  datatype Filter = Exact(items: set<nat>) | Bloom(bits: set<nat>)

  datatype Token = Token(nonce: nat, issued: int)

  /** One presentation; `outgrown` is whether the hash set then exceeds its budget. */
  datatype Presentation = Presentation(token: Token, outgrown: bool)

  const EMPTY := Exact({})
  const TWO_64 := 0x1_0000_0000_0000_0000

  function Fingerprint(t: Token): nat {
    t.nonce % TWO_64
  }

  // ---------------------------------------------------------------------------------------------
  // Filters
  // ---------------------------------------------------------------------------------------------

  ghost function BitsOf(items: set<nat>, h: Hashes): set<nat> {
    set x, b | x in items && b in h(x) :: b
  }

  /** What a filter answers for a fingerprint that it may hold. */
  ghost predicate Reports(f: Filter, fp: nat, h: Hashes) {
    match f
    case Exact(items) => fp in items
    case Bloom(bits) => h(fp) <= bits
  }

  ghost function Recorded(f: Filter, fp: nat, outgrown: bool, h: Hashes): Filter {
    match f
    case Exact(items) =>
      if fp !in items && outgrown then Bloom(BitsOf(items + {fp}, h)) else Exact(items + {fp})
    case Bloom(bits) => Bloom(bits + h(fp))
  }

  /** `f` stands for exactly the fingerprints `s`. */
  ghost predicate Represents(f: Filter, s: set<nat>, h: Hashes) {
    match f
    case Exact(items) => items == s
    case Bloom(bits) => bits == BitsOf(s, h)
  }

  lemma RecordedRepresents(f: Filter, s: set<nat>, fp: nat, outgrown: bool, h: Hashes)
    requires Represents(f, s, h)
    ensures Represents(Recorded(f, fp, outgrown, h), s + {fp}, h)
  {
    if f.Bloom? {
      assert BitsOf(s + {fp}, h) == BitsOf(s, h) + h(fp);
    }
  }

  // ---------------------------------------------------------------------------------------------
  // The log
  // ---------------------------------------------------------------------------------------------

  datatype Log = Log(start: int, filter1: Filter, filter2: Filter)

  const NEW_LOG := Log(0, EMPTY, EMPTY)

  /** The log turned over far enough for a token that expires at `expiry`, and the filter to use. */
  ghost function TurnedOver(log: Log, expiry: int, lifetime: int): (Log, bool)
    requires lifetime > 0 && log.start <= expiry
  {
    var periods := (expiry - log.start) / lifetime;
    if periods == 0 then (log, true)
    else if periods == 1 then (log, false)
    else if periods == 2 then (Log(log.start + lifetime, log.filter2, EMPTY), false)
    else (Log(expiry, EMPTY, EMPTY), true)
  }

  /** The log afterwards, and whether the token was accepted. */
  ghost function Present(log: Log, p: Presentation, lifetime: int, h: Hashes): (Log, bool)
    requires lifetime >= 0
  {
    var expiry := p.token.issued + lifetime;
    if lifetime == 0 || expiry < log.start then (log, false) else
      var (turned, first) := TurnedOver(log, expiry, lifetime);
      var fp := Fingerprint(p.token);
      var filter := if first then turned.filter1 else turned.filter2;
      var filter' := Recorded(filter, fp, p.outgrown, h);
      (if first then turned.(filter1 := filter') else turned.(filter2 := filter'), !Reports(filter, fp, h))
  }

  class TokenLog {
    var periodStart: int
    var filter1: Filter
    var filter2: Filter
    const hashes: Hashes

    constructor (h: Hashes)
      ensures View() == NEW_LOG && hashes == h
    {
      periodStart, filter1, filter2, hashes := 0, EMPTY, EMPTY, h;
    }

    ghost function View(): Log
      reads this
    {
      Log(periodStart, filter1, filter2)
    }

    /** Copies every item of the hash set into a fresh Bloom filter. */
    method ToBloom(items: set<nat>) returns (bits: set<nat>)
      ensures bits == BitsOf(items, hashes)
    {
      bits := {};
      var rest := items;
      while rest != {}
        invariant rest <= items && bits == BitsOf(items - rest, hashes)
        decreases |rest|
      {
        var item :| item in rest;
        bits := bits + hashes(item);
        assert items - (rest - {item}) == items - rest + {item};
        rest := rest - {item};
      }
      assert items - {} == items;
    }

    method FilterCheckAndInsert(f: Filter, fp: nat, outgrown: bool) returns (f': Filter, ok: bool)
      ensures f' == Recorded(f, fp, outgrown, hashes)
      ensures ok == !Reports(f, fp, hashes)
    {
      match f
      case Exact(items) =>
        if fp in items {
          assert items == items + {fp};
          return f, false;
        }
        if !outgrown {
          return Exact(items + {fp}), true;
        }
        var bits := ToBloom(items + {fp});
        return Bloom(bits), true;
      case Bloom(bits) =>
        return Bloom(bits + hashes(fp)), !(hashes(fp) <= bits);
    }

    method CheckAndInsert(p: Presentation, lifetime: int) returns (ok: bool)
      requires 0 <= lifetime
      modifies this
      ensures (View(), ok) == Present(old(View()), p, lifetime, hashes)
    {
      if lifetime == 0 {
        return false;
      }
      var expiry := p.token.issued + lifetime;
      if expiry < periodStart {
        return false;
      }
      var fp := Fingerprint(p.token);
      var periods := (expiry - periodStart) / lifetime;
      if periods == 0 {
        filter1, ok := FilterCheckAndInsert(filter1, fp, p.outgrown);
      } else if periods == 1 {
        filter2, ok := FilterCheckAndInsert(filter2, fp, p.outgrown);
      } else if periods == 2 {
        filter1, filter2 := filter2, EMPTY;
        periodStart := periodStart + lifetime;
        filter2, ok := FilterCheckAndInsert(filter2, fp, p.outgrown);
      } else {
        filter1, filter2 := EMPTY, EMPTY;
        periodStart := expiry;
        filter1, ok := FilterCheckAndInsert(filter1, fp, p.outgrown);
      }
    }
  }

  // ---------------------------------------------------------------------------------------------
  // Whole runs, with a lifetime that may change from one presentation to the next
  // ---------------------------------------------------------------------------------------------

  lemma DivisionBounds(x: int, d: int)
    requires 0 <= x && 0 < d
    ensures x / d == 0 <==> x < d
    ensures x / d == 1 <==> d <= x < 2 * d
    ensures x / d == 2 <==> 2 * d <= x < 3 * d
  {
    var q := x / d;
    assert x == d * q + x % d;
    if q >= 3 { assert d * q >= d * 3; }
    if q == 2 { assert d * q == d * 2; }
    if q == 1 { assert d * q == d; }
  }

  /** A presentation under the lifetime in force at the time. */
  datatype Use = Use(p: Presentation, lifetime: nat)

  function Expiry(u: Use): int {
    u.p.token.issued + u.lifetime
  }

  function Print(u: Use): nat {
    Fingerprint(u.p.token)
  }

  ghost function Run(us: seq<Use>, h: Hashes): Log {
    if us == [] then NEW_LOG
    else Present(Run(us[..|us| - 1], h), us[|us| - 1].p, us[|us| - 1].lifetime, h).0
  }

  /** Whether presentation number `j` of a run is accepted. */
  ghost predicate Accepted(us: seq<Use>, j: nat, h: Hashes)
    requires j < |us|
  {
    Present(Run(us[..j], h), us[j].p, us[j].lifetime, h).1
  }

  /** The log takes the presentation for one that can still be valid, and records it. */
  predicate Taken(start: int, u: Use) {
    u.lifetime > 0 && start <= Expiry(u)
  }

  /** Where a fingerprint is: in one of the filters, or in neither. */
  datatype Place = First | Second | Nowhere

  /** What a presentation does to the filters before it is recorded. */
  datatype Turn = Keep | Rotate | Reset

  /** In terms of the time of issue: a token issued before the period starts goes to the first filter. */
  function TurnFor(start: int, u: Use): Turn {
    var ahead := u.p.token.issued - start;
    if !Taken(start, u) || ahead < u.lifetime then Keep
    else if ahead < 2 * u.lifetime then Rotate
    else Reset
  }

  function PlaceFor(start: int, u: Use): Place {
    if !Taken(start, u) then Nowhere
    else if u.p.token.issued < start || TurnFor(start, u).Reset? then First
    else Second
  }

  function StartAfter(start: int, u: Use): int {
    match TurnFor(start, u)
    case Keep => start
    case Rotate => start + u.lifetime
    case Reset => Expiry(u)
  }

  function Moved(p: Place, t: Turn): Place {
    match t
    case Keep => p
    case Rotate => if p.Second? then First else Nowhere
    case Reset => Nowhere
  }

  /** Where presentation `i` is after the whole run: a matter of issue times and lifetimes alone. */
  function PlaceOf(us: seq<Use>, i: nat): Place
    requires i < |us|
  {
    var n := |us| - 1;
    if i == n then PlaceFor(Start(us[..n]), us[n]) else Moved(PlaceOf(us[..n], i), TurnFor(Start(us[..n]), us[n]))
  }

  function Start(us: seq<Use>): int {
    if us == [] then 0 else StartAfter(Start(us[..|us| - 1]), us[|us| - 1])
  }

  /** The fingerprints that are at `place`. */
  ghost function At(us: seq<Use>, place: Place): set<nat> {
    set i | 0 <= i < |us| && PlaceOf(us, i) == place :: Print(us[i])
  }

  /** The code's count of periods is the choice by time of issue. */
  lemma PresentByIssue(log: Log, u: Use, h: Hashes)
    ensures var (log', ok) := Present(log, u.p, u.lifetime, h);
            var turned := Turned(log, u);
            var place := PlaceFor(log.start, u);
            && log'.start == StartAfter(log.start, u)
            && match place
               case Nowhere => log' == log && !ok
               case First =>
                 && log'.filter1 == Recorded(turned.filter1, Print(u), u.p.outgrown, h)
                 && log'.filter2 == turned.filter2 && (ok <==> !Reports(turned.filter1, Print(u), h))
               case Second =>
                 && log'.filter2 == Recorded(turned.filter2, Print(u), u.p.outgrown, h)
                 && log'.filter1 == turned.filter1 && (ok <==> !Reports(turned.filter2, Print(u), h))
  {
    if Taken(log.start, u) {
      DivisionBounds(Expiry(u) - log.start, u.lifetime);
    }
    hide Recorded, Reports;
  }

  ghost function Turned(log: Log, u: Use): Log {
    match TurnFor(log.start, u)
    case Keep => log
    case Rotate => Log(StartAfter(log.start, u), log.filter2, EMPTY)
    case Reset => Log(StartAfter(log.start, u), EMPTY, EMPTY)
  }

  /** What is at a place after turning over for one more presentation, which is not recorded yet. */
  ghost function AtOnceTurned(us: seq<Use>, turn: Turn, place: Place): set<nat> {
    set i | 0 <= i < |us| && Moved(PlaceOf(us, i), turn) == place :: Print(us[i])
  }

  ghost predicate Tracks(log: Log, us: seq<Use>, h: Hashes) {
    && log.start == Start(us)
    && Represents(log.filter1, At(us, First), h)
    && Represents(log.filter2, At(us, Second), h)
  }

  lemma TurnKeepsTracks(log: Log, us: seq<Use>, u: Use, h: Hashes)
    requires Tracks(log, us, h)
    ensures var turn := TurnFor(log.start, u);
            && Represents(Turned(log, u).filter1, AtOnceTurned(us, turn, First), h)
            && Represents(Turned(log, u).filter2, AtOnceTurned(us, turn, Second), h)
  {
    hide PlaceOf, TurnFor;
    var turn := TurnFor(log.start, u);
    assert BitsOf({}, h) == {};
    match turn
    case Keep =>
      assert AtOnceTurned(us, turn, First) == At(us, First);
      assert AtOnceTurned(us, turn, Second) == At(us, Second);
    case Rotate =>
      assert AtOnceTurned(us, turn, First) == At(us, Second);
      assert AtOnceTurned(us, turn, Second) == {};
    case Reset =>
      assert AtOnceTurned(us, turn, First) == {};
      assert AtOnceTurned(us, turn, Second) == {};
  }

  lemma AtExtends(us: seq<Use>, u: Use, place: Place)
    ensures var kept := AtOnceTurned(us, TurnFor(Start(us), u), place);
            At(us + [u], place) == if PlaceFor(Start(us), u) == place then kept + {Print(u)} else kept
  {
    var all := us + [u];
    assert all[..|us|] == us && all[|us|] == u;
    assert PlaceOf(all, |us|) == PlaceFor(Start(us), u);
    assert forall i: nat :: i < |us| ==> PlaceOf(all, i) == Moved(PlaceOf(us, i), TurnFor(Start(us), u));
    hide PlaceOf, TurnFor, PlaceFor;
    var kept := AtOnceTurned(us, TurnFor(Start(us), u), place);
    forall x | x in kept
      ensures x in At(all, place)
    {
      var i :| 0 <= i < |us| && Moved(PlaceOf(us, i), TurnFor(Start(us), u)) == place && x == Print(us[i]);
      assert all[i] == us[i] && PlaceOf(all, i) == place;
    }
  }

  lemma PresentKeepsTracks(log: Log, us: seq<Use>, u: Use, h: Hashes)
    requires Tracks(log, us, h)
    ensures Tracks(Present(log, u.p, u.lifetime, h).0, us + [u], h)
  {
    assert (us + [u])[..|us|] == us;
    assert Start(us + [u]) == StartAfter(Start(us), u);
    PresentByIssue(log, u, h);
    TurnKeepsTracks(log, us, u, h);
    AtExtends(us, u, First);
    AtExtends(us, u, Second);
    hide Present, Represents, Recorded, Reports, At, AtOnceTurned, Start, StartAfter;
    var turn := TurnFor(log.start, u);
    match PlaceFor(log.start, u)
    case First =>
      RecordedRepresents(Turned(log, u).filter1, AtOnceTurned(us, turn, First), Print(u), u.p.outgrown, h);
    case Second =>
      RecordedRepresents(Turned(log, u).filter2, AtOnceTurned(us, turn, Second), Print(u), u.p.outgrown, h);
    case Nowhere =>
  }

  /** In every run each filter stands for exactly the presentations that are at its place. */
  lemma {:induction false} RunTracks(us: seq<Use>, h: Hashes)
    ensures Tracks(Run(us, h), us, h)
  {
    if us == [] {
      assert BitsOf({}, h) == {};
    } else {
      var n := |us| - 1;
      RunTracks(us[..n], h);
      PresentKeepsTracks(Run(us[..n], h), us[..n], us[n], h);
      assert us == us[..n] + [us[n]];
    }
  }

  /** The filter that presentation `j` is looked up in, once turned over. */
  ghost function Consulted(us: seq<Use>, j: nat, h: Hashes): Filter
    requires j < |us|
  {
    var turned := Turned(Run(us[..j], h), us[j]);
    if PlaceFor(Start(us[..j]), us[j]).First? then turned.filter1 else turned.filter2
  }

  /**
   The exact verdict of every presentation, whatever the lifetimes: a token past its period is rejected;
   otherwise, while the filter consulted is a set, it is accepted iff no presentation with its fingerprint is
   at that place, and afterwards iff the fingerprints at that place leave one of its bits clear.
   */
  lemma VerdictIsExact(us: seq<Use>, j: nat, h: Hashes)
    requires j < |us|
    ensures var start := Start(us[..j]);
            var there := AtOnceTurned(us[..j], TurnFor(start, us[j]), PlaceFor(start, us[j]));
            Accepted(us, j, h) <==>
              && Taken(start, us[j])
              && match Consulted(us, j, h)
                 case Exact(_) => Print(us[j]) !in there
                 case Bloom(_) => !(h(Print(us[j])) <= BitsOf(there, h))
  {
    var log := Run(us[..j], h);
    RunTracks(us[..j], h);
    PresentByIssue(log, us[j], h);
    TurnKeepsTracks(log, us[..j], us[j], h);
    hide Run, Present, AtOnceTurned, At, TurnFor, Start, BitsOf;
  }

  // ---------------------------------------------------------------------------------------------
  // When a filter is a Bloom filter
  // ---------------------------------------------------------------------------------------------

  function FilterAt(log: Log, place: Place): Filter
    requires !place.Nowhere?
  {
    if place.First? then log.filter1 else log.filter2
  }

  /** Presentation `i` was accepted when the hash set was over its budget. */
  ghost predicate Outgrew(us: seq<Use>, i: nat, h: Hashes) {
    i < |us| && us[i].p.outgrown && Accepted(us, i, h)
  }

  /** Some such presentation is at `place`. */
  ghost predicate Grown(us: seq<Use>, place: Place, h: Hashes) {
    exists i: nat :: Outgrew(us, i, h) && PlaceOf(us, i) == place
  }

  /** Some such presentation is at `place` once turned over. */
  ghost predicate GrownOnceTurned(us: seq<Use>, turn: Turn, place: Place, h: Hashes) {
    exists i: nat :: Outgrew(us, i, h) && Moved(PlaceOf(us, i), turn) == place
  }

  lemma TurnedKind(log: Log, us: seq<Use>, u: Use, place: Place, h: Hashes)
    requires !place.Nowhere? && log.start == Start(us)
    requires log.filter1.Bloom? <==> Grown(us, First, h)
    requires log.filter2.Bloom? <==> Grown(us, Second, h)
    ensures FilterAt(Turned(log, u), place).Bloom? <==> GrownOnceTurned(us, TurnFor(log.start, u), place, h)
  {
    hide PlaceOf, TurnFor, Outgrew, Start;
    assert forall i: nat :: Outgrew(us, i, h) ==> i < |us| by { OutgrewInRange(us, h); }
    match TurnFor(log.start, u)
    case Keep =>
    case Rotate => if place.First? && Grown(us, Second, h) {
      var i: nat :| Outgrew(us, i, h) && PlaceOf(us, i) == Second;
      assert Moved(PlaceOf(us, i), Rotate) == First;
    }
    case Reset =>
  }

  lemma OutgrewInRange(us: seq<Use>, h: Hashes)
    ensures forall i: nat :: Outgrew(us, i, h) ==> i < |us|
  {
  }

  lemma GrownExtends(us: seq<Use>, u: Use, place: Place, h: Hashes)
    ensures Grown(us + [u], place, h) <==>
            || GrownOnceTurned(us, TurnFor(Start(us), u), place, h)
            || (Outgrew(us + [u], |us|, h) && PlaceFor(Start(us), u) == place)
  {
    var all := us + [u];
    assert all[..|us|] == us && all[|us|] == u;
    assert PlaceOf(all, |us|) == PlaceFor(Start(us), u);
    assert forall i: nat :: i < |us| ==> PlaceOf(all, i) == Moved(PlaceOf(us, i), TurnFor(Start(us), u));
    forall i: nat | i < |us|
      ensures Outgrew(all, i, h) <==> Outgrew(us, i, h)
    {
      assert all[..i] == us[..i] && all[i] == us[i];
    }
    hide PlaceOf, TurnFor, PlaceFor, Outgrew, Start;
    assert forall i: nat :: Outgrew(all, i, h) ==> i < |all| by { OutgrewInRange(all, h); }
    assert forall i: nat :: Outgrew(us, i, h) ==> i < |us| by { OutgrewInRange(us, h); }
    if Grown(all, place, h) {
      var i: nat :| Outgrew(all, i, h) && PlaceOf(all, i) == place;
      if i < |us| { assert Outgrew(us, i, h); }
    }
    if GrownOnceTurned(us, TurnFor(Start(us), u), place, h) {
      var i: nat :| Outgrew(us, i, h) && Moved(PlaceOf(us, i), TurnFor(Start(us), u)) == place;
      assert Outgrew(all, i, h);
    }
  }

  lemma RecordedKind(f: Filter, fp: nat, outgrown: bool, h: Hashes)
    ensures Recorded(f, fp, outgrown, h).Bloom? <==> f.Bloom? || (outgrown && !Reports(f, fp, h))
  {
  }

  /** One presentation more: the kinds of both filters, and where an outgrowing one is. */
  lemma PresentKind(log: Log, us: seq<Use>, u: Use, place: Place, h: Hashes)
    requires !place.Nowhere? && Tracks(log, us, h) && log == Run(us, h)
    requires log.filter1.Bloom? <==> Grown(us, First, h)
    requires log.filter2.Bloom? <==> Grown(us, Second, h)
    ensures FilterAt(Present(log, u.p, u.lifetime, h).0, place).Bloom? <==> Grown(us + [u], place, h)
  {
    assert (us + [u])[..|us|] == us;
    assert Outgrew(us + [u], |us|, h) <==> u.p.outgrown && Present(log, u.p, u.lifetime, h).1;
    hide Outgrew, Run, Represents, At;
    PresentByIssue(log, u, h);
    TurnedKind(log, us, u, place, h);
    GrownExtends(us, u, place, h);
    hide Present, Grown, GrownOnceTurned, Recorded, Reports, Start;
    var turned := Turned(log, u);
    RecordedKind(turned.filter1, Print(u), u.p.outgrown, h);
    RecordedKind(turned.filter2, Print(u), u.p.outgrown, h);
  }

  /** In every run, a filter is a Bloom filter exactly when a presentation that is there outgrew the hash set. */
  lemma {:induction false} KindIff(us: seq<Use>, place: Place, h: Hashes)
    requires !place.Nowhere?
    ensures FilterAt(Run(us, h), place).Bloom? <==> Grown(us, place, h)
  {
    if us == [] {
    } else {
      var n := |us| - 1;
      hide Grown, Tracks, Present;
      KindIff(us[..n], First, h);
      KindIff(us[..n], Second, h);
      RunTracks(us[..n], h);
      assert us == us[..n] + [us[n]];
      PresentKind(Run(us[..n], h), us[..n], us[n], place, h);
    }
  }

  /** The nonces agree in their low 64 bits. */
  predicate SameLowBits(a: nat, b: nat) {
    a % 0x1_0000_0000_0000_0000 == b % 0x1_0000_0000_0000_0000
  }

  /**
   The verdict on the nonces themselves, as long as no presentation at the place where the token is looked
   up outgrew the hash set: accepted iff in time and no token with the same low 64 bits is there. So
   distinct nonces below 2^64 are never confused.
   */
  lemma VerdictByNonce(us: seq<Use>, j: nat, h: Hashes)
    requires j < |us|
    requires !GrownOnceTurned(us[..j], TurnFor(Start(us[..j]), us[j]), PlaceFor(Start(us[..j]), us[j]), h)
    ensures Accepted(us, j, h) <==>
            && Taken(Start(us[..j]), us[j])
            && forall i: nat :: i < j && SameLowBits(us[i].p.token.nonce, us[j].p.token.nonce) ==>
                 !LooksWhereItIs(us, i, j)
  {
    var before := us[..j];
    var start := Start(before);
    var turn, place := TurnFor(start, us[j]), PlaceFor(start, us[j]);
    if Taken(start, us[j]) {
      VerdictIsExact(us, j, h);
      KindIff(before, First, h);
      KindIff(before, Second, h);
      RunTracks(before, h);
      TurnedKind(Run(before, h), before, us[j], place, h);
      assert Consulted(us, j, h).Exact?;
    } else {
      VerdictIsExact(us, j, h);
    }
    var there := AtOnceTurned(before, turn, place);
    hide Accepted, Consulted, TurnFor, PlaceFor, Start, PlaceOf, Run, Grown, GrownOnceTurned, Represents;
    forall i: nat | i < j && Print(us[i]) == Print(us[j]) && LooksWhereItIs(us, i, j)
      ensures Print(us[j]) in there
    {
      assert before[i] == us[i];
    }
    if Print(us[j]) in there {
      var i :| 0 <= i < j && Moved(PlaceOf(before, i), turn) == place && Print(before[i]) == Print(us[j]);
      assert before[i] == us[i] && LooksWhereItIs(us, i, j);
    }
  }

  // ---------------------------------------------------------------------------------------------
  // Replays
  // ---------------------------------------------------------------------------------------------

  /** Presentation `j` looks its token up where presentation `i` of it then is. */
  predicate LooksWhereItIs(us: seq<Use>, i: nat, j: nat)
    requires i < j < |us|
  {
    var start := Start(us[..j]);
    Moved(PlaceOf(us[..j], i), TurnFor(start, us[j])) == PlaceFor(start, us[j])
  }

  /** No other token in the run shares the fingerprint of `t`. */
  ghost predicate Uncollided(us: seq<Use>, t: Token) {
    forall u <- us :: Print(u) == Fingerprint(t) ==> u.p.token == t
  }

  /**
   Exactly when a replay is accepted: it is in time, and looked up where no earlier presentation of the
   token is. A filter that has become a Bloom filter may still reject it, and so may a shared fingerprint.
   */
  lemma ReplayAcceptedIff(us: seq<Use>, j: nat, h: Hashes)
    requires j < |us|
    ensures Accepted(us, j, h) ==>
              && Taken(Start(us[..j]), us[j])
              && forall i: nat :: i < j && us[i].p.token == us[j].p.token ==> !LooksWhereItIs(us, i, j)
    ensures Consulted(us, j, h).Exact? && Uncollided(us[..j], us[j].p.token) && Taken(Start(us[..j]), us[j])
            && (forall i: nat :: i < j && us[i].p.token == us[j].p.token ==> !LooksWhereItIs(us, i, j)) ==>
              Accepted(us, j, h)
  {
    VerdictIsExact(us, j, h);
    var before := us[..j];
    var start := Start(before);
    var turn, place := TurnFor(start, us[j]), PlaceFor(start, us[j]);
    var there := AtOnceTurned(before, turn, place);
    hide Accepted, Consulted, TurnFor, PlaceFor, Start, PlaceOf;
    forall i: nat | i < j && us[i].p.token == us[j].p.token && LooksWhereItIs(us, i, j)
      ensures Print(us[j]) in there
    {
      assert before[i] == us[i];
    }
    if Print(us[j]) in there {
      var i :| 0 <= i < j && Moved(PlaceOf(before, i), turn) == place && Print(before[i]) == Print(us[j]);
      assert before[i] in before && before[i] == us[i];
    }
  }

  // ---------------------------------------------------------------------------------------------
  // Lifetimes that never get shorter
  // ---------------------------------------------------------------------------------------------

  ghost predicate NeverShorter(us: seq<Use>) {
    forall i, j :: 0 <= i < j < |us| ==> us[i].lifetime <= us[j].lifetime
  }

  /** The length of the run up to and including its last turnover; 0 if there was none. */
  function LastTurn(us: seq<Use>): (n: nat)
    ensures n <= |us|
  {
    if us == [] then 0
    else if TurnFor(Start(us[..|us| - 1]), us[|us| - 1]).Keep? then LastTurn(us[..|us| - 1])
    else |us|
  }

  /** Presentation `i` was recorded, and a later turnover dropped the tokens issued as early as that. */
  predicate Forgotten(us: seq<Use>, i: nat)
    requires i < |us|
  {
    i < LastTurn(us) && us[i].p.token.issued < Start(us) - us[LastTurn(us) - 1].lifetime
  }

  predicate WasTaken(us: seq<Use>, i: nat)
    requires i < |us|
  {
    Taken(Start(us[..i]), us[i])
  }

  /** Places follow from issue times: the second filter holds what the period issued, the first what came before. */
  ghost predicate InPlace(us: seq<Use>, i: nat)
    requires i < |us|
  {
    var issued := us[i].p.token.issued;
    && issued < Start(us) + us[|us| - 1].lifetime
    && PlaceOf(us, i) == ExpectedPlace(issued, Start(us), Forgotten(us, i))
  }

  function ExpectedPlace(issued: int, start: int, forgotten: bool): Place {
    if issued >= start then Second else if forgotten then Nowhere else First
  }

  /** One more presentation moves what was recorded before to where it is expected. */
  lemma MovedAsExpected(start: int, u: Use, issued: int, forgotten: bool)
    requires issued < start + u.lifetime
    ensures var turn := TurnFor(start, u);
            var start' := StartAfter(start, u);
            && issued < start' + u.lifetime
            && Moved(ExpectedPlace(issued, start, forgotten), turn) ==
                 ExpectedPlace(issued, start', if turn.Keep? then forgotten else issued < start' - u.lifetime)
  {
  }

  lemma PlacedAsExpected(start: int, u: Use)
    requires Taken(start, u)
    ensures var issued := u.p.token.issued;
            var start' := StartAfter(start, u);
            && issued < start' + u.lifetime
            && PlaceFor(start, u) ==
                 ExpectedPlace(issued, start', !TurnFor(start, u).Keep? && issued < start' - u.lifetime)
  {
  }

  lemma ForgottenUnfolds(us: seq<Use>, i: nat)
    requires i < |us|
    ensures var n := |us| - 1;
            var turn := TurnFor(Start(us[..n]), us[n]);
            && Start(us) == StartAfter(Start(us[..n]), us[n])
            && (turn.Keep? ==> Forgotten(us, i) == (i < n && Forgotten(us[..n], i)))
            && (!turn.Keep? ==> Forgotten(us, i) == (us[i].p.token.issued < Start(us) - us[n].lifetime))
  {
    var n := |us| - 1;
    var before := us[..n];
    var turn := TurnFor(Start(before), us[n]);
    assert Start(us) == StartAfter(Start(before), us[n]);
    assert LastTurn(us) == if turn.Keep? then LastTurn(before) else |us|;
    assert turn.Keep? ==> Start(us) == Start(before);
    hide Start, StartAfter, TurnFor, LastTurn;
  }

  lemma {:induction false} GrowingKeepsInPlace(us: seq<Use>, i: nat)
    requires NeverShorter(us) && i < |us| && WasTaken(us, i)
    ensures InPlace(us, i)
  {
    hide TurnFor, StartAfter, Start, Forgotten, PlaceFor, Moved, Taken;
    var n := |us| - 1;
    ForgottenUnfolds(us, i);
    if i == n {
      PlacedAsExpected(Start(us[..n]), us[n]);
    } else {
      assert us[..n][..i] == us[..i];
      GrowingKeepsInPlace(us[..n], i);
      assert us[n - 1].lifetime <= us[n].lifetime;
      MovedAsExpected(Start(us[..n]), us[n], us[i].p.token.issued, Forgotten(us[..n], i));
    }
  }

  /**
   While lifetimes never get shorter, a replay is looked up where the token is unless a turnover has dropped
   it. So the one way to be accepted twice is a lifetime that has grown since that turnover, by enough to
   make a token valid again that was issued more than the older lifetime before the start.
   */
  lemma GrowingReplayIff(us: seq<Use>, i: nat, j: nat)
    requires NeverShorter(us) && i < j < |us| && us[i].p.token == us[j].p.token
    requires WasTaken(us, i) && WasTaken(us, j)
    ensures LooksWhereItIs(us, i, j) <==> !Forgotten(us[..j], i)
    ensures Forgotten(us[..j], i) ==> us[LastTurn(us[..j]) - 1].lifetime < us[j].lifetime
  {
    assert us[..j][..i] == us[..i];
    GrowingKeepsInPlace(us[..j], i);
    assert us[j - 1].lifetime <= us[j].lifetime;
  }

  lemma {:induction false} StartNeverFalls(us: seq<Use>, k: nat)
    requires k <= |us|
    ensures Start(us[..k]) <= Start(us)
  {
    if k == |us| {
      assert us[..k] == us;
    } else {
      StartNeverFalls(us[..|us| - 1], k);
      assert us[..|us| - 1][..k] == us[..k];
    }
  }

  ghost predicate OneLifetime(us: seq<Use>) {
    forall i, j :: 0 <= i < |us| && 0 <= j < |us| ==> us[i].lifetime == us[j].lifetime
  }

  /** With one lifetime, a token presented once, with either verdict, is rejected ever after. */
  lemma ReplayIsRejected(us: seq<Use>, i: nat, j: nat, h: Hashes)
    requires OneLifetime(us) && i < j < |us| && us[i].p.token == us[j].p.token
    ensures !Accepted(us, j, h)
  {
    ReplayAcceptedIff(us, j, h);
    assert us[..j][..i] == us[..i];
    StartNeverFalls(us[..j], i);
    hide Accepted, Start, LooksWhereItIs, Forgotten;
    if WasTaken(us, i) && WasTaken(us, j) {
      GrowingReplayIff(us, i, j);
    }
  }

  // ---------------------------------------------------------------------------------------------
  // Any two lifetimes
  // ---------------------------------------------------------------------------------------------

  /**
   Presented again at once, under any lifetime, a recorded token is accepted iff the second lifetime is
   this short.
   */
  lemma ImmediateReplayIff(log: Log, u: Use, v: Use, h: Hashes)
    requires Taken(log.start, u) && v.p.token == u.p.token && v.lifetime > 0
    ensures var log1 := Present(log, u.p, u.lifetime, h).0;
            && (Present(log1, v.p, v.lifetime, h).1 <==> log1.start + v.lifetime <= u.p.token.issued)
            && (u.lifetime <= v.lifetime ==> !Present(log1, v.p, v.lifetime, h).1)
  {
    var log1 := Present(log, u.p, u.lifetime, h).0;
    PresentByIssue(log, u, h);
    PresentByIssue(log1, v, h);
    hide Present;
  }

  /** A shorter lifetime lets a replay through at once. */
  lemma ShorterLifetimeAcceptsReplay(h: Hashes)
    ensures var p := Presentation(Token(7, 5), false);
            exists us :: us == [Use(p, 10), Use(p, 5)] && Accepted(us, 0, h) && Accepted(us, 1, h)
  {
    var p := Presentation(Token(7, 5), false);
    var us := [Use(p, 10), Use(p, 5)];
    assert us[..0] == [] && us[..1] == [us[0]] && [us[0]][..0] == [];
    assert Accepted(us, 0, h);
    ImmediateReplayIff(NEW_LOG, us[0], us[1], h);
    assert Run(us[..1], h) == Present(NEW_LOG, p, 10, h).0;
  }

  /** A longer one does so after a turnover. */
  lemma LongerLifetimeAcceptsReplay(h: Hashes)
    ensures var p, q := Presentation(Token(7, 5), false), Presentation(Token(8, 25), false);
            exists us :: us == [Use(p, 10), Use(q, 10), Use(p, 40)] && Accepted(us, 0, h) && Accepted(us, 2, h)
  {
    var p, q := Presentation(Token(7, 5), false), Presentation(Token(8, 25), false);
    var us := [Use(p, 10), Use(q, 10), Use(p, 40)];
    assert us[..0] == [] && us[..1] == [us[0]] && us[..2] == [us[0], us[1]];
    assert us[..1][..0] == [] && us[..2][..1] == us[..1];
    assert Run(us[..1], h).start == 0;
    assert Run(us[..2], h) == Present(Run(us[..1], h), q, 10, h).0;
    assert EMPTY.items + {8} == {8};
    assert Run(us[..2], h) == Log(35, Exact({8}), EMPTY);
    hide Run;
    assert Accepted(us, 0, h) && Accepted(us, 2, h);
  }
}
