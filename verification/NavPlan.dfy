/**
 Cold-start acquisition plans: which message fragments a signal still has to
 receive, and when each of them is complete.

 A fragment occupies one slot of a broadcast cycle.  The slots of a signal are a
 table; a plan is built by walking the table in order and adding one fragment a
 slot, as the plan builders of the scheduler do call by call.
 */
module NavPlan {
  import opened Wrappers
  import opened Integers
  import opened SimTime

  datatype SignalId =
    | GpsL1Ca | GpsL1C | GpsL2P | GpsL2C | GpsL5Q
    | QzssL1Ca | QzssL1C | QzssL2C | QzssL5Q
    | GlonassG1 | GlonassG2 | GlonassG3
    | GalileoE1 | GalileoE5A | GalileoE5B | GalileoE6
    | BeidouB1I | BeidouB3I | BeidouB1C | BeidouB2A | BeidouB2B

  datatype Family =
    | GpsLnav | GpsCnav | GpsCnav2
    | QzssLnav | QzssCnav | QzssCnav2
    | GlonassFdma | GlonassL3Oc
    | GalileoInav | GalileoFnav | GalileoCnav
    | BeidouD1D2 | BeidouBcnav1 | BeidouBcnav2 | BeidouBcnav3

  datatype Variant = Default | BeidouD1 | BeidouD2

  /** A 32-bit mask, given as the positions of its one bits: `|` is union, `a & b == b` is `b <= a`. */
  type Mask = set<nat>

  datatype Fragment = Fragment(id: int, maskBit: nat, completion: Time)

  datatype Plan = Plan(
    signal: SignalId,
    family: Family,
    variant: Variant,
    acquisition: Time,
    availability: Time,
    issueData: int,
    requiredMask: Mask,
    fragments: seq<Fragment>)

  const MAX_FRAGMENTS := 12

  function FamilyOf(signal: SignalId): Family {
    match signal
    case GpsL1Ca | GpsL2P => GpsLnav
    case GpsL2C | GpsL5Q => GpsCnav
    case GpsL1C => GpsCnav2
    case QzssL1Ca => QzssLnav
    case QzssL2C | QzssL5Q => QzssCnav
    case QzssL1C => QzssCnav2
    case GlonassG1 | GlonassG2 => GlonassFdma
    case GlonassG3 => GlonassL3Oc
    case GalileoE1 | GalileoE5B => GalileoInav
    case GalileoE5A => GalileoFnav
    case GalileoE6 => GalileoCnav
    case BeidouB1I | BeidouB3I => BeidouD1D2
    case BeidouB1C => BeidouBcnav1
    case BeidouB2A => BeidouBcnav2
    case BeidouB2B => BeidouBcnav3
  }

  // ---------- Slot tables ----------

  // BDT is GPS time less 14 s.

  /** Start and duration are nanoseconds within the cycle. */
  datatype Slot = Slot(start: int, duration: int, id: int)

  /** `offset` is added to GPS time to obtain the time scale the cycle is aligned to. */
  datatype Table = Table(variant: Variant, cycle: int, offset: int, slots: seq<Slot>)

  function Sec(n: int): int { n * 1_000_000_000 }

  function Secs(start: int, duration: int, id: int): Slot { Slot(Sec(start), Sec(duration), id) }

  function CnavSlots(duration: int): seq<Slot> {
    [Secs(0, duration, 10), Secs(duration, duration, 11), Secs(2 * duration, duration, 30)]
  }

  /** Ten consecutive 3 s frames; page p of subframe 1 opens frame p. */
  function D2Slots(): seq<Slot> {
    seq(10, (i: nat) => Slot(i * 3_000_000_000, 600_000_000, i + 1))
  }

  /** The slots a plan for this signal needs, if it has a plan under this variant. */
  function TableFor(signal: SignalId, variant: Variant): Option<Table> {
    if signal.BeidouB1I? || signal.BeidouB3I? then
      if variant.BeidouD2? then Some(Table(BeidouD2, Sec(30), -14_000_000_000, D2Slots()))
      else Some(Table(BeidouD1, Sec(30), -14_000_000_000, [Secs(0, 6, 1), Secs(6, 6, 2), Secs(12, 6, 3)]))
    else if !variant.Default? then None
    else
      match signal
      case GpsL1Ca | GpsL2P | QzssL1Ca =>
        Some(Table(Default, Sec(30), 0, [Secs(0, 6, 1), Secs(6, 6, 2), Secs(12, 6, 3)]))
      case GpsL2C | QzssL2C => Some(Table(Default, Sec(36), 0, CnavSlots(12)))
      case GpsL5Q | QzssL5Q => Some(Table(Default, Sec(18), 0, CnavSlots(6)))
      case GpsL1C | QzssL1C => Some(Table(Default, Sec(18), 0, [Secs(0, 18, 2)]))
      case GlonassG1 | GlonassG2 =>
        Some(Table(Default, Sec(30), 0, [Secs(0, 2, 1), Secs(2, 2, 2), Secs(4, 2, 3), Secs(6, 2, 4)]))
      case GlonassG3 => Some(Table(Default, Sec(18), 0, [Secs(0, 3, 10), Secs(3, 3, 11), Secs(6, 3, 12)]))
      case GalileoE1 =>
        Some(Table(Default, Sec(30), 0, [Secs(1, 2, 2), Secs(3, 2, 4), Secs(21, 2, 1), Secs(23, 2, 3)]))
      case GalileoE5B =>
        Some(Table(Default, Sec(30), 0, [Secs(0, 2, 1), Secs(2, 2, 3), Secs(20, 2, 2), Secs(22, 2, 4)]))
      case GalileoE5A =>
        Some(Table(Default, Sec(50), 0, [Secs(0, 10, 1), Secs(10, 10, 2), Secs(20, 10, 3), Secs(30, 10, 4)]))
      case BeidouB1C => Some(Table(Default, Sec(18), -14_000_000_000, [Secs(0, 18, 2)]))
      case BeidouB2A =>
        Some(Table(Default, Sec(9), -14_000_000_000, [Secs(0, 3, 10), Secs(3, 3, 11), Secs(6, 3, 30)]))
      case BeidouB2B => Some(Table(Default, Sec(2), -14_000_000_000, [Secs(0, 1, 10), Secs(1, 1, 30)]))
      case _ => None
  }

  /** The cycles in use; each of them divides the week (`WeekIsWholeCycles`). */
  predicate CycleDividesWeek(cycle: int) {
    || cycle == Sec(2) || cycle == Sec(9) || cycle == Sec(18)
    || cycle == Sec(30) || cycle == Sec(36) || cycle == Sec(50)
  }

  lemma WeekIsWholeCycles(cycle: int) returns (perWeek: int)
    requires CycleDividesWeek(cycle)
    ensures WEEK == cycle * perWeek
  {
    perWeek :=
      if cycle == Sec(2) then 302_400 else if cycle == Sec(9) then 67_200
      else if cycle == Sec(18) then 33_600 else if cycle == Sec(30) then 20_160
      else if cycle == Sec(36) then 16_800 else 12_096;
  }

  /** What the scheduling theorems rest on: slots in order, inside a cycle that divides the week. */
  ghost predicate WellFormed(table: Table) {
    && CycleDividesWeek(table.cycle)
    && 1 <= |table.slots| <= MAX_FRAGMENTS
    && (forall i :: 0 <= i < |table.slots| ==>
          0 <= table.slots[i].start && 0 < table.slots[i].duration
          && table.slots[i].start + table.slots[i].duration <= table.cycle)
    && (forall i :: 0 <= i < |table.slots| - 1 ==>
          table.slots[i].start + table.slots[i].duration <= table.slots[i + 1].start)
  }

  lemma {:induction false} SlotsInOrder(table: Table, i: nat, j: nat)
    requires WellFormed(table) && i < j < |table.slots|
    ensures table.slots[i].start + table.slots[i].duration <= table.slots[j].start
  {
    if i + 1 < j {
      SlotsInOrder(table, i, j - 1);
    }
  }

  /** The D2 table, and the tables of three or four slots, by their own shapes. */
  lemma D2TableIsWellFormed(table: Table)
    requires table.cycle == Sec(30) && table.slots == D2Slots()
    ensures WellFormed(table)
  {
  }

  lemma ThreeSlotsWellFormed(cycle: int, first: Slot, second: Slot, third: Slot)
    requires CycleDividesWeek(cycle)
    requires 0 <= first.start && 0 < first.duration && 0 < second.duration && 0 < third.duration
    requires first.start + first.duration <= second.start && second.start + second.duration <= third.start
    requires third.start + third.duration <= cycle
    ensures forall v, o :: WellFormed(Table(v, cycle, o, [first, second, third]))
  {
  }

  lemma FourSlotsWellFormed(cycle: int, first: Slot, second: Slot, third: Slot, fourth: Slot)
    requires CycleDividesWeek(cycle)
    requires 0 <= first.start && 0 < first.duration && 0 < second.duration && 0 < third.duration && 0 < fourth.duration
    requires first.start + first.duration <= second.start && second.start + second.duration <= third.start
    requires third.start + third.duration <= fourth.start && fourth.start + fourth.duration <= cycle
    ensures forall v, o :: WellFormed(Table(v, cycle, o, [first, second, third, fourth]))
  {
  }

  lemma D1D2TablesAreWellFormed(variant: Variant)
    ensures WellFormed(TableFor(BeidouB1I, variant).value)
  {
    var table := TableFor(BeidouB1I, variant).value;
    if variant.BeidouD2? {
      D2TableIsWellFormed(table);
    } else {
      ThreeSlotsWellFormed(Sec(30), Secs(0, 6, 1), Secs(6, 6, 2), Secs(12, 6, 3));
    }
  }

  lemma ThreeSlotTablesAreWellFormed(signal: SignalId, table: Table)
    requires !signal.BeidouB1I? && !signal.BeidouB3I? && TableFor(signal, Default) == Some(table) && |table.slots| == 3
    ensures WellFormed(table)
  {
    var s := table.slots;
    assert s == [s[0], s[1], s[2]];
    ThreeSlotsWellFormed(table.cycle, s[0], s[1], s[2]);
  }

  lemma FourSlotTablesAreWellFormed(signal: SignalId, table: Table)
    requires !signal.BeidouB1I? && !signal.BeidouB3I? && TableFor(signal, Default) == Some(table) && |table.slots| == 4
    ensures WellFormed(table)
  {
    var s := table.slots;
    assert s == [s[0], s[1], s[2], s[3]];
    FourSlotsWellFormed(table.cycle, s[0], s[1], s[2], s[3]);
  }

  lemma DefaultTablesAreWellFormed(signal: SignalId)
    requires !signal.BeidouB1I? && !signal.BeidouB3I? && TableFor(signal, Default).Some?
    ensures WellFormed(TableFor(signal, Default).value)
  {
    var table := TableFor(signal, Default).value;
    if |table.slots| == 3 {
      ThreeSlotTablesAreWellFormed(signal, table);
    } else if |table.slots| == 4 {
      FourSlotTablesAreWellFormed(signal, table);
    }
  }

  /** Every table of every signal is well formed. */
  lemma TablesAreWellFormed(signal: SignalId, variant: Variant)
    requires TableFor(signal, variant).Some?
    ensures WellFormed(TableFor(signal, variant).value)
  {
    if signal.BeidouB1I? || signal.BeidouB3I? {
      D1D2TablesAreWellFormed(variant);
      assert TableFor(signal, variant) == TableFor(BeidouB1I, variant);
    } else {
      DefaultTablesAreWellFormed(signal);
    }
  }

  // ---------- One fragment ----------

  /** x reduced into [0, c) by whole cycles. */
  function Phase(x: int, c: int): (r: int)
    requires c > 0
    ensures 0 <= r < c
    decreases x < 0, if x < 0 then -x else x
  {
    if x < 0 then Phase(x + c, c) else if x >= c then Phase(x - c, c) else x
  }

  /** The C++ remainder, which has the sign of the dividend. */
  function TruncMod(a: int, b: int): int
    requires b > 0
  {
    if a >= 0 then a % b else -(-a % b)
  }

  function SetFragment(acquisition: Time, cycle: int, offset: int, slot: Slot, maskBit: nat): Option<Fragment> {
    if cycle <= 0 || slot.start < 0 || slot.start >= cycle || slot.duration <= 0 then None
    else
      var toStart := slot.start - Phase(acquisition.tow + offset, cycle);
      var delta := if toStart < 0 then toStart + cycle else toStart;
      match Add(acquisition, delta + slot.duration)
      case None => None
      case Some(completion) => Some(Fragment(slot.id, maskBit, completion))
  }

  /** A slot occurrence starts at instant `s`. */
  predicate SlotStarts(s: int, cycle: int, offset: int, slot: Slot)
    requires cycle > 0
  {
    Phase(s + offset, cycle) == slot.start
  }

  /** The first occurrence of the slot that starts at or after `from`, on the absolute time line. */
  function NextStart(from: int, cycle: int, offset: int, slot: Slot): (s: int)
    requires cycle > 0
    ensures from <= s < from + cycle
  {
    from + Phase(slot.start - (from + offset), cycle)
  }

  /** An instant is a whole number of cycles and its phase. */
  lemma {:induction false} PhaseQuotient(x: int, c: int) returns (q: int)
    requires c > 0
    ensures x == c * q + Phase(x, c)
    decreases x < 0, if x < 0 then -x else x
  {
    if x < 0 {
      q := PhaseQuotient(x + c, c);
      MulMinus(c, q, 1);
      q := q - 1;
    } else if x >= c {
      q := PhaseQuotient(x - c, c);
      MulMinus(c, q, -1);
      q := q + 1;
    } else {
      q := 0;
    }
  }

  /** The phase is what the code computes: the C++ remainder, moved up by the cycle if negative. */
  lemma PhaseIsPositiveMod(x: int, c: int)
    requires c > 0
    ensures Phase(x, c) == if TruncMod(x, c) < 0 then TruncMod(x, c) + c else TruncMod(x, c)
  {
    var q := PhaseQuotient(x, c);
    if x >= 0 {
      QuotientUnique(x, c, q, Phase(x, c));
    } else if Phase(x, c) == 0 {
      assert -x == c * (-q);
      QuotientUnique(-x, c, -q, 0);
    } else {
      assert -x == c * (-q - 1) + (c - Phase(x, c));
      QuotientUnique(-x, c, -q - 1, c - Phase(x, c));
    }
  }

  lemma PhaseIsUnique(x: int, c: int, q: int, r: int)
    requires c > 0 && 0 <= r < c && x == c * q + r
    ensures Phase(x, c) == r
  {
    var p := PhaseQuotient(x, c);
    MulMinus(c, q, p);
    MultipleBounds(c, q - p);
  }

  /** Two instants differ by their phases and a whole number of cycles. */
  lemma PhasesApart(c: int, x: int, y: int) returns (k: int)
    requires c > 0
    ensures y - x == c * k + (Phase(y, c) - Phase(x, c))
  {
    var p := PhaseQuotient(x, c);
    var q := PhaseQuotient(y, c);
    k := q - p;
    MulMinus(c, q, p);
  }

  /** `NextStart` is an occurrence, and no earlier one starts at or after `from`. */
  lemma NextStartIsFirst(from: int, cycle: int, offset: int, slot: Slot, other: int)
    requires cycle > 0 && 0 <= slot.start < cycle
    ensures SlotStarts(NextStart(from, cycle, offset, slot), cycle, offset, slot)
    ensures from <= other && SlotStarts(other, cycle, offset, slot) ==> NextStart(from, cycle, offset, slot) <= other
  {
    var s := NextStart(from, cycle, offset, slot);
    var q := PhaseQuotient(slot.start - (from + offset), cycle);
    MulMinus(cycle, 0, q);
    PhaseIsUnique(s + offset, cycle, -q, slot.start);
    if SlotStarts(other, cycle, offset, slot) {
      var m := PhasesApart(cycle, s + offset, other + offset);
      MultipleBounds(cycle, m);
    }
  }

  /** The phase in the week is the phase on the time line, because the cycle divides the week. */
  lemma WeekPhase(t: Time, cycle: int, offset: int)
    requires CycleDividesWeek(cycle)
    ensures Phase(t.tow + offset, cycle) == Phase(Abs(t) + offset, cycle)
  {
    var perWeek := WeekIsWholeCycles(cycle);
    var q := PhaseQuotient(t.tow + offset, cycle);
    assert t.week * (cycle * perWeek) == cycle * (t.week * perWeek);
    MulMinus(cycle, q, -(t.week * perWeek));
    PhaseIsUnique(Abs(t) + offset, cycle, q + t.week * perWeek, Phase(t.tow + offset, cycle));
  }

  /** The wait from phase x to phase `start`: the difference of the phases, once around the cycle if negative. */
  lemma WaitIsShift(x: int, cycle: int, start: int)
    requires cycle > 0 && 0 <= start < cycle
    ensures var d := start - Phase(x, cycle);
            Phase(start - x, cycle) == if d < 0 then d + cycle else d
  {
    var d := start - Phase(x, cycle);
    var k := PhaseQuotient(x, cycle);
    MulMinus(cycle, 0, k);
    MulMinus(cycle, -k, 1);
    if d < 0 {
      PhaseIsUnique(start - x, cycle, -k - 1, d + cycle);
    } else {
      PhaseIsUnique(start - x, cycle, -k, d);
    }
  }

  /** The wait computed from the time of week leads to the next occurrence on the time line. */
  lemma WaitLeads(t: Time, cycle: int, offset: int, slot: Slot)
    requires CycleDividesWeek(cycle) && 0 <= slot.start < cycle
    ensures var toStart := slot.start - Phase(t.tow + offset, cycle);
            Abs(t) + (if toStart < 0 then toStart + cycle else toStart) == NextStart(Abs(t), cycle, offset, slot)
  {
    WeekPhase(t, cycle, offset);
    WaitIsShift(Abs(t) + offset, cycle, slot.start);
  }

  lemma FragmentAfter(acquisition: Time, cycle: int, offset: int, slot: Slot, maskBit: nat, delta: int)
    requires Valid(acquisition) && 0 <= slot.start < cycle && 0 < slot.duration
    requires var toStart := slot.start - Phase(acquisition.tow + offset, cycle);
             delta == if toStart < 0 then toStart + cycle else toStart
    ensures var end := Abs(acquisition) + delta + slot.duration;
            var f := SetFragment(acquisition, cycle, offset, slot, maskBit);
            && (f.Some? <==> Representable(end))
            && (f.Some? ==> Valid(f.value.completion) && Abs(f.value.completion) == end
                            && f.value.id == slot.id && f.value.maskBit == maskBit)
  {
    AddExact(acquisition, delta + slot.duration);
  }

  /**
   A fragment completes at the end of the first slot occurrence that starts at or
   after acquisition, across week ends and with a negative offset; it is missing
   only when that end is past the last representable time.
   */
  lemma FragmentCompletesAtNextSlot(acquisition: Time, cycle: int, offset: int, slot: Slot, maskBit: nat)
    requires Valid(acquisition) && CycleDividesWeek(cycle)
    requires 0 <= slot.start < cycle && 0 < slot.duration
    ensures var end := NextStart(Abs(acquisition), cycle, offset, slot) + slot.duration;
            var f := SetFragment(acquisition, cycle, offset, slot, maskBit);
            && (f.Some? <==> Representable(end))
            && (f.Some? ==> Valid(f.value.completion) && Abs(f.value.completion) == end
                            && f.value.id == slot.id && f.value.maskBit == maskBit)
  {
    WaitLeads(acquisition, cycle, offset, slot);
    var toStart := slot.start - Phase(acquisition.tow + offset, cycle);
    var delta := if toStart < 0 then toStart + cycle else toStart;
    FragmentAfter(acquisition, cycle, offset, slot, maskBit, delta);
  }

  // ---------- Whole plans ----------

  /** The mask 2^n - 1. */
  function FullMask(n: nat): (m: Mask)
    ensures forall k: nat :: k in m <==> k < n
  {
    if n == 0 then {} else FullMask(n - 1) + {n - 1}
  }

  /** The fragments of the first n slots, or None if one of them does not fit the time range. */
  function FragmentsOf(acquisition: Time, table: Table, n: nat): (r: Option<seq<Fragment>>)
    requires n <= |table.slots| <= MAX_FRAGMENTS
    ensures r.Some? ==> |r.value| == n
  {
    if n == 0 then Some([])
    else
      match FragmentsOf(acquisition, table, n - 1)
      case None => None
      case Some(fs) =>
        match SetFragment(acquisition, table.cycle, table.offset, table.slots[n - 1], n - 1)
        case None => None
        case Some(f) => Some(fs + [f])
  }

  function Later(a: Time, b: Time): Time { if Compare(a, b) > 0 then a else b }

  /** The last of the completions, or the acquisition time if there are none. */
  function Latest(acquisition: Time, fs: seq<Fragment>): Time {
    if fs == [] then acquisition
    else Later(fs[|fs| - 1].completion, Latest(acquisition, fs[..|fs| - 1]))
  }

  /** The plan that `BuildPlan` returns. */
  function PlanFor(signal: SignalId, variant: Variant, acquisition: Time, issueData: int): Option<Plan> {
    if !Valid(acquisition) then None
    else
      match TableFor(signal, variant)
      case None => None
      case Some(table) =>
        match FragmentsOf(acquisition, table, |table.slots|)
        case None => None
        case Some(fs) =>
          Some(Plan(signal, FamilyOf(signal), table.variant, acquisition, Latest(acquisition, fs), issueData,
                    FullMask(|fs|), fs))
  }

  /** A plan under construction, filled in place. */
  class PlanBuilder {
    const acquisition: Time
    var fragments: seq<Fragment>
    var availability: Time
    var requiredMask: Mask

    constructor (acquisition: Time)
      ensures this.acquisition == acquisition
      ensures fragments == [] && availability == acquisition && requiredMask == {}
    {
      this.acquisition := acquisition;
      fragments, availability, requiredMask := [], acquisition, {};
    }

    method AddPeriodicFragment(cycle: int, offset: int, slot: Slot) returns (ok: bool)
      modifies this
      ensures ok <==> old(|fragments|) < MAX_FRAGMENTS
                      && SetFragment(acquisition, cycle, offset, slot, old(|fragments|)).Some?
      ensures !ok ==> fragments == old(fragments) && availability == old(availability)
                      && requiredMask == old(requiredMask)
      ensures ok ==>
                var f := SetFragment(acquisition, cycle, offset, slot, old(|fragments|)).value;
                && fragments == old(fragments) + [f]
                && availability == Later(f.completion, old(availability))
                && requiredMask == old(requiredMask) + {old(|fragments|)}
    {
      if |fragments| >= MAX_FRAGMENTS {
        return false;
      }
      var maskBit := |fragments|;
      var fragment := SetFragment(acquisition, cycle, offset, slot, maskBit);
      if fragment.None? {
        return false;
      }
      fragments := fragments + [fragment.value];
      if Compare(fragment.value.completion, availability) > 0 {
        availability := fragment.value.completion;
      }
      requiredMask := requiredMask + {maskBit};
      return true;
    }
  }

  lemma OneMoreFragment(acquisition: Time, table: Table, i: nat, fs: seq<Fragment>)
    requires i < |table.slots| <= MAX_FRAGMENTS && FragmentsOf(acquisition, table, i) == Some(fs)
    ensures match SetFragment(acquisition, table.cycle, table.offset, table.slots[i], i)
            case None => FragmentsOf(acquisition, table, i + 1) == None
            case Some(f) =>
              && FragmentsOf(acquisition, table, i + 1) == Some(fs + [f])
              && Latest(acquisition, fs + [f]) == Later(f.completion, Latest(acquisition, fs))
              && FullMask(i + 1) == FullMask(i) + {i}
  {
    match SetFragment(acquisition, table.cycle, table.offset, table.slots[i], i)
    case None =>
    case Some(f) => assert (fs + [f])[..|fs|] == fs;
  }

  /** Place the fragments of a table in order, stopping at the first one that cannot be placed. */
  method PlaceFragments(table: Table, builder: PlanBuilder) returns (ok: bool)
    requires |table.slots| <= MAX_FRAGMENTS
    requires builder.fragments == [] && builder.availability == builder.acquisition && builder.requiredMask == {}
    modifies builder
    ensures ok <==> FragmentsOf(builder.acquisition, table, |table.slots|).Some?
    ensures ok ==> Some(builder.fragments) == FragmentsOf(builder.acquisition, table, |table.slots|)
                   && builder.availability == Latest(builder.acquisition, builder.fragments)
                   && builder.requiredMask == FullMask(|table.slots|)
  {
    ghost var acquisition := builder.acquisition;
    for i := 0 to |table.slots|
      invariant FragmentsOf(acquisition, table, i) == Some(builder.fragments)
      invariant builder.availability == Latest(acquisition, builder.fragments)
      invariant builder.requiredMask == FullMask(i)
    {
      OneMoreFragment(acquisition, table, i, builder.fragments);
      ok := builder.AddPeriodicFragment(table.cycle, table.offset, table.slots[i]);
      if !ok {
        FragmentsOfStopsEarly(acquisition, table, i + 1, |table.slots|);
        return;
      }
    }
    ok := true;
  }

  /** Build the plan of a signal. */
  method BuildPlan(signal: SignalId, variant: Variant, acquisition: Time, issueData: int) returns (r: Option<Plan>)
    ensures r == PlanFor(signal, variant, acquisition, issueData)
  {
    if !Valid(acquisition) {
      return None;
    }
    var table := TableFor(signal, variant);
    if table.None? {
      return None;
    }
    TablesAreWellFormed(signal, variant);
    var builder := new PlanBuilder(acquisition);
    var ok := PlaceFragments(table.value, builder);
    assert 0 in FullMask(|table.value.slots|);
    if !ok || |builder.fragments| <= 0 || builder.requiredMask == {} {
      return None;
    }
    r := Some(Plan(signal, FamilyOf(signal), table.value.variant, acquisition, builder.availability, issueData,
                   builder.requiredMask, builder.fragments));
  }

  lemma FragmentsOfStopsEarly(acquisition: Time, table: Table, m: nat, n: nat)
    requires m <= n <= |table.slots| <= MAX_FRAGMENTS
    requires FragmentsOf(acquisition, table, m).None?
    ensures FragmentsOf(acquisition, table, n).None?
  {
  }

  /** The number whose low `width` bits are the mask. */
  ghost function MaskValue(m: Mask, width: nat): int {
    if width == 0 then 0 else MaskValue(m, width - 1) + if width - 1 in m then Pow2(width - 1) else 0
  }

  /** As a number, `FullMask(n)` is 2^n - 1. */
  lemma {:induction false} FullMaskValue(n: nat, width: nat)
    ensures MaskValue(FullMask(n), width) == Pow2(if n <= width then n else width) - 1
  {
    if width > 0 {
      FullMaskValue(n, width - 1);
    }
  }

  // ---------- What a plan means ----------

  /** The end of the first occurrence of slot i from an instant on. */
  ghost function SlotEnd(from: int, table: Table, i: nat): int
    requires 0 < table.cycle && i < |table.slots|
  {
    NextStart(from, table.cycle, table.offset, table.slots[i]) + table.slots[i].duration
  }

  lemma FragmentsStep(acquisition: Time, table: Table, n: nat)
    requires Valid(acquisition) && WellFormed(table) && 0 < n <= |table.slots|
    ensures FragmentsOf(acquisition, table, n).Some? <==>
            FragmentsOf(acquisition, table, n - 1).Some? && Representable(SlotEnd(Abs(acquisition), table, n - 1))
    ensures FragmentsOf(acquisition, table, n).Some? ==>
              var last := FragmentsOf(acquisition, table, n).value[n - 1];
              && FragmentsOf(acquisition, table, n).value == FragmentsOf(acquisition, table, n - 1).value + [last]
              && Valid(last.completion) && Abs(last.completion) == SlotEnd(Abs(acquisition), table, n - 1)
              && last.maskBit == n - 1
  {
    FragmentCompletesAtNextSlot(acquisition, table.cycle, table.offset, table.slots[n - 1], n - 1);
  }

  /** The fragment of slot i, as the plan must hold it. */
  ghost predicate CompletesAt(f: Fragment, i: nat, end: int) {
    f.maskBit == i && Valid(f.completion) && Abs(f.completion) == end
  }

  lemma {:induction false} FragmentAt(acquisition: Time, table: Table, n: nat, i: nat)
    requires Valid(acquisition) && WellFormed(table) && i < n <= |table.slots|
    requires FragmentsOf(acquisition, table, n).Some?
    ensures CompletesAt(FragmentsOf(acquisition, table, n).value[i], i, SlotEnd(Abs(acquisition), table, i))
    ensures Representable(SlotEnd(Abs(acquisition), table, i))
  {
    FragmentsStep(acquisition, table, n);
    if i < n - 1 {
      FragmentAt(acquisition, table, n - 1, i);
    }
  }

  /** If the fragments do not all exist, some slot ends past the representable times. */
  lemma {:induction false} UnrepresentableSlot(acquisition: Time, table: Table, n: nat) returns (i: nat)
    requires Valid(acquisition) && WellFormed(table) && n <= |table.slots|
    requires FragmentsOf(acquisition, table, n).None?
    ensures i < n && !Representable(SlotEnd(Abs(acquisition), table, i))
  {
    FragmentsStep(acquisition, table, n);
    if FragmentsOf(acquisition, table, n - 1).None? {
      i := UnrepresentableSlot(acquisition, table, n - 1);
    } else {
      i := n - 1;
    }
  }

  lemma FragmentsComplete(acquisition: Time, table: Table, n: nat)
    requires Valid(acquisition) && WellFormed(table) && n <= |table.slots|
    ensures FragmentsOf(acquisition, table, n).Some? <==>
            forall i :: 0 <= i < n ==> Representable(SlotEnd(Abs(acquisition), table, i))
    ensures FragmentsOf(acquisition, table, n).Some? ==>
              forall i :: 0 <= i < n ==>
                CompletesAt(FragmentsOf(acquisition, table, n).value[i], i, SlotEnd(Abs(acquisition), table, i))
  {
    if FragmentsOf(acquisition, table, n).Some? {
      forall i | 0 <= i < n
        ensures Representable(SlotEnd(Abs(acquisition), table, i))
        ensures CompletesAt(FragmentsOf(acquisition, table, n).value[i], i, SlotEnd(Abs(acquisition), table, i))
      {
        FragmentAt(acquisition, table, n, i);
      }
    } else {
      var i := UnrepresentableSlot(acquisition, table, n);
    }
  }

  lemma {:induction false} LatestIsMax(acquisition: Time, fs: seq<Fragment>)
    requires Valid(acquisition) && forall i :: 0 <= i < |fs| ==> Valid(fs[i].completion)
    ensures Valid(Latest(acquisition, fs)) && Abs(acquisition) <= Abs(Latest(acquisition, fs))
    ensures forall i :: 0 <= i < |fs| ==> Abs(fs[i].completion) <= Abs(Latest(acquisition, fs))
    ensures Latest(acquisition, fs) == acquisition ||
            exists i :: 0 <= i < |fs| && fs[i].completion == Latest(acquisition, fs)
  {
    if fs != [] {
      var init := fs[..|fs| - 1];
      LatestIsMax(acquisition, init);
      CompareIsOrder(fs[|fs| - 1].completion, Latest(acquisition, init));
    }
  }

  /**
   The plan follows its table: one fragment a slot, each with a bit of its own and
   complete at the end of the slot; the mask 2^n - 1; available when the last of
   its fragments is complete.
   */
  ghost predicate Follows(p: Plan, table: Table) {
    && WellFormed(table)
    && Valid(p.acquisition) && Valid(p.availability) && Abs(p.acquisition) <= Abs(p.availability)
    && |p.fragments| == |table.slots|
    && p.requiredMask == FullMask(|table.slots|)
    && (forall i :: 0 <= i < |table.slots| ==> CompletesAt(p.fragments[i], i, SlotEnd(Abs(p.acquisition), table, i)))
    && AllHeardAt(table, Abs(p.acquisition), Abs(p.availability))
  }

  /** Every slot of the table has come round once since an instant, and the last of them ends then. */
  ghost predicate AllHeardAt(table: Table, from: int, at: int)
    requires 0 < table.cycle
  {
    && (forall i :: 0 <= i < |table.slots| ==> SlotEnd(from, table, i) <= at)
    && exists i :: 0 <= i < |table.slots| && SlotEnd(from, table, i) == at
  }

  lemma AssembledPlanFollows(p: Plan, table: Table)
    requires WellFormed(table) && Valid(p.acquisition)
    requires FragmentsOf(p.acquisition, table, |table.slots|) == Some(p.fragments)
    requires p.availability == Latest(p.acquisition, p.fragments) && p.requiredMask == FullMask(|table.slots|)
    ensures Follows(p, table)
  {
    FragmentsComplete(p.acquisition, table, |table.slots|);
    var fs := p.fragments;
    assert forall i :: 0 <= i < |fs| ==> CompletesAt(fs[i], i, SlotEnd(Abs(p.acquisition), table, i));
    LatestIsMax(p.acquisition, fs);
    assert Abs(p.acquisition) < SlotEnd(Abs(p.acquisition), table, 0);
  }

  lemma {:induction false} FragmentIds(acquisition: Time, table: Table, n: nat, i: nat)
    requires i < n <= |table.slots| <= MAX_FRAGMENTS && FragmentsOf(acquisition, table, n).Some?
    ensures FragmentsOf(acquisition, table, n).value[i].id == table.slots[i].id
  {
    if i < n - 1 {
      FragmentIds(acquisition, table, n - 1, i);
    }
  }

  /** The plan names its signal, the message family of the signal, the variant, and the slots it was made from. */
  predicate Labelled(p: Plan, signal: SignalId, table: Table) {
    && p.signal == signal && p.family == FamilyOf(signal) && p.variant == table.variant
    && |p.fragments| == |table.slots|
    && forall i :: 0 <= i < |table.slots| ==> p.fragments[i].id == table.slots[i].id
  }

  lemma PlanLabelled(signal: SignalId, variant: Variant, acquisition: Time, issueData: int)
    requires TableFor(signal, variant).Some? && PlanFor(signal, variant, acquisition, issueData).Some?
    requires |TableFor(signal, variant).value.slots| <= MAX_FRAGMENTS
    ensures Labelled(PlanFor(signal, variant, acquisition, issueData).value, signal, TableFor(signal, variant).value)
  {
    var table := TableFor(signal, variant).value;
    var p := PlanFor(signal, variant, acquisition, issueData).value;
    forall i | 0 <= i < |table.slots|
      ensures p.fragments[i].id == table.slots[i].id
    {
      FragmentIds(acquisition, table, |table.slots|, i);
    }
  }

  /**
   A plan exists exactly when the signal has a table and every slot end is
   representable; it then follows the table, is labelled by it, and carries the
   issue of data it was asked for.
   */
  lemma PlanMeaning(signal: SignalId, variant: Variant, acquisition: Time, issueData: int)
    requires Valid(acquisition) && TableFor(signal, variant).Some?
    ensures var table := TableFor(signal, variant).value;
            var p := PlanFor(signal, variant, acquisition, issueData);
            && WellFormed(table)
            && (p.Some? <==> forall i :: 0 <= i < |table.slots| ==> Representable(SlotEnd(Abs(acquisition), table, i)))
            && (p.Some? ==> Follows(p.value, table) && p.value.acquisition == acquisition
                            && p.value.issueData == issueData && Labelled(p.value, signal, table))
  {
    TablesAreWellFormed(signal, variant);
    var table := TableFor(signal, variant).value;
    FragmentsComplete(acquisition, table, |table.slots|);
    var p := PlanFor(signal, variant, acquisition, issueData);
    if p.Some? {
      AssembledPlanFollows(p.value, table);
      PlanLabelled(signal, variant, acquisition, issueData);
    }
  }

  /** Acquiring later never makes a plan available earlier. */
  lemma AvailabilityIsMonotone(p: Plan, q: Plan, table: Table)
    requires Follows(p, table) && Follows(q, table) && Abs(p.acquisition) <= Abs(q.acquisition)
    ensures Abs(p.availability) <= Abs(q.availability)
  {
    var i :| 0 <= i < |table.slots| && SlotEnd(Abs(p.acquisition), table, i) == Abs(p.availability);
    var slot := table.slots[i];
    var later := NextStart(Abs(q.acquisition), table.cycle, table.offset, slot);
    NextStartIsFirst(Abs(q.acquisition), table.cycle, table.offset, slot, later);
    NextStartIsFirst(Abs(p.acquisition), table.cycle, table.offset, slot, later);
    assert SlotEnd(Abs(q.acquisition), table, i) <= Abs(q.availability);
  }

  // ---------- Completion by mask and completion by time agree ----------

  /** The mask after looking at the first n fragments. */
  function ReceivedUpTo(fs: seq<Fragment>, now: Time, n: nat): Mask
    requires n <= |fs|
  {
    if n == 0 then {}
    else
      var m := ReceivedUpTo(fs, now, n - 1);
      if Compare(fs[n - 1].completion, now) <= 0 then m + {fs[n - 1].maskBit} else m
  }

  function ReceivedMask(plan: Plan, now: Time): Mask {
    if !Valid(now) || Compare(now, plan.acquisition) < 0 then {}
    else ReceivedUpTo(plan.fragments, now, |plan.fragments|)
  }

  method ComputeReceivedMask(plan: Plan, now: Time) returns (mask: Mask)
    ensures mask == ReceivedMask(plan, now)
  {
    if !Valid(now) || Compare(now, plan.acquisition) < 0 {
      return {};
    }
    mask := {};
    for i := 0 to |plan.fragments|
      invariant mask == ReceivedUpTo(plan.fragments, now, i)
    {
      if Compare(plan.fragments[i].completion, now) <= 0 {
        mask := mask + {plan.fragments[i].maskBit};
      }
    }
  }

  predicate Complete(plan: Plan, now: Time) {
    plan.requiredMask != {} && plan.requiredMask <= ReceivedMask(plan, now)
  }

  /** The bits set are those of the complete fragments. */
  lemma {:induction false} ReceivedBits(fs: seq<Fragment>, now: Time, n: nat)
    requires n <= |fs|
    requires forall i :: 0 <= i < |fs| ==> fs[i].maskBit == i
    ensures forall k: nat :: k in ReceivedUpTo(fs, now, n) <==> k < n && Compare(fs[k].completion, now) <= 0
  {
    if n > 0 {
      ReceivedBits(fs, now, n - 1);
    }
  }

  /** In a built plan, the bits received are those of the slots that have ended. */
  lemma PlanBits(p: Plan, table: Table, now: Time)
    requires Follows(p, table) && Valid(now)
    ensures forall k: nat :: k in ReceivedMask(p, now) <==>
              k < |table.slots| && SlotEnd(Abs(p.acquisition), table, k) <= Abs(now)
  {
    CompareIsOrder(now, p.acquisition);
    forall i: nat | i < |p.fragments|
      ensures Compare(p.fragments[i].completion, now) <= 0 <==> SlotEnd(Abs(p.acquisition), table, i) <= Abs(now)
      ensures p.fragments[i].maskBit == i
    {
      assert CompletesAt(p.fragments[i], i, SlotEnd(Abs(p.acquisition), table, i));
      CompareIsOrder(p.fragments[i].completion, now);
    }
    ReceivedBits(p.fragments, now, |p.fragments|);
  }

  /** A built plan is complete by its masks exactly from its availability time on. */
  lemma CompleteIffAvailable(p: Plan, table: Table, now: Time)
    requires Follows(p, table) && Valid(now)
    ensures Complete(p, now) <==> Abs(p.availability) <= Abs(now)
  {
    PlanBits(p, table, now);
    assert 0 in p.requiredMask;
    var i: nat :| i < |table.slots| && SlotEnd(Abs(p.acquisition), table, i) == Abs(p.availability);
    assert i in p.requiredMask;
  }

  /** A fragment once received stays received, and nothing outside the required mask is. */
  lemma ReceivedMaskGrows(p: Plan, table: Table, t1: Time, t2: Time)
    requires Follows(p, table) && Valid(t1) && Valid(t2) && Abs(t1) <= Abs(t2)
    ensures ReceivedMask(p, t1) <= ReceivedMask(p, t2) <= p.requiredMask
  {
    PlanBits(p, table, t1);
    PlanBits(p, table, t2);
  }

  /** Every plan the builder returns: complete exactly from its availability time on, with the full mask required. */
  lemma BuiltPlanCompletes(signal: SignalId, variant: Variant, acquisition: Time, issueData: int, now: Time)
    requires Valid(acquisition) && Valid(now) && PlanFor(signal, variant, acquisition, issueData).Some?
    ensures var p := PlanFor(signal, variant, acquisition, issueData).value;
            && (Complete(p, now) <==> Compare(now, p.availability) >= 0)
            && p.requiredMask == FullMask(|p.fragments|)
            && Compare(p.availability, acquisition) > 0
  {
    PlanMeaning(signal, variant, acquisition, issueData);
    var p := PlanFor(signal, variant, acquisition, issueData).value;
    var table := TableFor(signal, variant).value;
    CompleteIffAvailable(p, table, now);
    CompareIsOrder(now, p.availability);
    CompareIsOrder(p.availability, acquisition);
    assert Abs(acquisition) < SlotEnd(Abs(acquisition), table, 0);
  }

  /** Of two plans of one message, the one acquired later is available no earlier. */
  lemma LaterPlanIsNoEarlier(
    signal: SignalId, variant: Variant, first: Time, second: Time, firstIssue: int, secondIssue: int)
    requires Valid(first) && Valid(second) && Compare(first, second) <= 0
    requires PlanFor(signal, variant, first, firstIssue).Some? && PlanFor(signal, variant, second, secondIssue).Some?
    ensures Compare(PlanFor(signal, variant, first, firstIssue).value.availability,
                    PlanFor(signal, variant, second, secondIssue).value.availability) <= 0
  {
    PlanMeaning(signal, variant, first, firstIssue);
    PlanMeaning(signal, variant, second, secondIssue);
    var p := PlanFor(signal, variant, first, firstIssue).value;
    var q := PlanFor(signal, variant, second, secondIssue).value;
    CompareIsOrder(first, second);
    AvailabilityIsMonotone(p, q, TableFor(signal, variant).value);
    CompareIsOrder(p.availability, q.availability);
  }

  // ---------- How long a plan takes ----------

  ghost function TotalDuration(slots: seq<Slot>): int {
    if slots == [] then 0 else TotalDuration(slots[..|slots| - 1]) + slots[|slots| - 1].duration
  }

  ghost function LongestDuration(slots: seq<Slot>): int {
    if slots == [] then 0
    else
      var rest := LongestDuration(slots[..|slots| - 1]);
      if slots[|slots| - 1].duration > rest then slots[|slots| - 1].duration else rest
  }

  lemma {:induction false} LongestIsMax(slots: seq<Slot>)
    ensures forall i :: 0 <= i < |slots| ==> slots[i].duration <= LongestDuration(slots)
  {
    if slots != [] {
      LongestIsMax(slots[..|slots| - 1]);
    }
  }

  /** Next occurrences of two different slots of one table never overlap. */
  lemma NextSlotsDisjoint(from: int, table: Table, i: nat, j: nat)
    requires WellFormed(table) && i < j < |table.slots|
    ensures var a := NextStart(from, table.cycle, table.offset, table.slots[i]);
            var b := NextStart(from, table.cycle, table.offset, table.slots[j]);
            a + table.slots[i].duration <= b || b + table.slots[j].duration <= a
  {
    SlotsInOrder(table, i, j);
    var a := NextStart(from, table.cycle, table.offset, table.slots[i]);
    var b := NextStart(from, table.cycle, table.offset, table.slots[j]);
    NextStartIsFirst(from, table.cycle, table.offset, table.slots[i], a);
    NextStartIsFirst(from, table.cycle, table.offset, table.slots[j], b);
    var k := PhasesApart(table.cycle, a + table.offset, b + table.offset);
    MultipleBounds(table.cycle, k);
  }

  datatype Span = Span(start: int, duration: int)

  ghost function SpanTotal(spans: seq<Span>): int {
    if spans == [] then 0 else SpanTotal(spans[..|spans| - 1]) + spans[|spans| - 1].duration
  }

  ghost predicate Packed(spans: seq<Span>, from: int) {
    && (forall i :: 0 <= i < |spans| ==> from <= spans[i].start && 0 < spans[i].duration)
    && (forall i, j :: 0 <= i < j < |spans| ==>
          spans[i].start + spans[i].duration <= spans[j].start || spans[j].start + spans[j].duration <= spans[i].start)
  }

  lemma {:induction false} SpanTotalWithout(spans: seq<Span>, m: nat)
    requires m < |spans|
    ensures SpanTotal(spans[..m] + spans[m + 1..]) == SpanTotal(spans) - spans[m].duration
  {
    if m == |spans| - 1 {
      assert spans[..m] + spans[m + 1..] == spans[..|spans| - 1];
    } else {
      var init := spans[..|spans| - 1];
      SpanTotalWithout(init, m);
      var rest := spans[..m] + spans[m + 1..];
      assert rest[..|rest| - 1] == init[..m] + init[m + 1..];
    }
  }

  lemma {:induction false} LastSpan(spans: seq<Span>) returns (m: nat)
    requires spans != []
    ensures m < |spans|
    ensures forall i :: 0 <= i < |spans| ==> spans[i].start + spans[i].duration <= spans[m].start + spans[m].duration
  {
    if |spans| == 1 {
      m := 0;
    } else {
      m := LastSpan(spans[..|spans| - 1]);
      var last := |spans| - 1;
      if spans[m].start + spans[m].duration < spans[last].start + spans[last].duration {
        m := last;
      }
    }
  }

  /** Disjoint spans that start at or after an instant need at least their total duration. */
  lemma {:induction false} Packing(spans: seq<Span>, from: int) returns (m: nat)
    requires spans != [] && Packed(spans, from)
    ensures m < |spans| && from + SpanTotal(spans) <= spans[m].start + spans[m].duration
    decreases |spans|
  {
    m := LastSpan(spans);
    if |spans| == 1 {
      assert SpanTotal(spans[..0]) == 0;
    } else {
      var rest := spans[..m] + spans[m + 1..];
      SpanTotalWithout(spans, m);
      var k := Packing(rest, from);
      var orig := if k < m then k else k + 1;
      assert rest[k] == spans[orig];
    }
  }

  ghost function NextSpans(from: int, table: Table): seq<Span>
    requires 0 < table.cycle
  {
    seq(|table.slots|, i requires 0 <= i < |table.slots| =>
      Span(NextStart(from, table.cycle, table.offset, table.slots[i]), table.slots[i].duration))
  }

  lemma {:induction false} SpanTotalIsDuration(spans: seq<Span>, slots: seq<Slot>)
    requires |spans| == |slots| && forall i :: 0 <= i < |slots| ==> spans[i].duration == slots[i].duration
    ensures SpanTotal(spans) == TotalDuration(slots)
  {
    if slots != [] {
      SpanTotalIsDuration(spans[..|spans| - 1], slots[..|slots| - 1]);
    }
  }

  /** A plan takes at least the sum of its fragments, and less than a cycle and its longest fragment. */
  lemma WaitBounds(p: Plan, table: Table)
    requires Follows(p, table)
    ensures TotalDuration(table.slots) <= Abs(p.availability) - Abs(p.acquisition)
    ensures Abs(p.availability) - Abs(p.acquisition) < table.cycle + LongestDuration(table.slots)
  {
    LongestIsMax(table.slots);
    SlotsNeedTotalDuration(Abs(p.acquisition), table);
  }

  /** Some slot of the table ends no earlier than the sum of all durations after the instant. */
  lemma SlotsNeedTotalDuration(from: int, table: Table)
    requires WellFormed(table)
    ensures exists m: nat ::
              m < |table.slots| && from + TotalDuration(table.slots) <= SlotEnd(from, table, m)
  {
    var spans := NextSpans(from, table);
    forall i, j | 0 <= i < j < |spans|
      ensures spans[i].start + spans[i].duration <= spans[j].start ||
                spans[j].start + spans[j].duration <= spans[i].start
    {
      NextSlotsDisjoint(from, table, i, j);
    }
    var m := Packing(spans, from);
    SpanTotalIsDuration(spans, table.slots);
    assert SlotEnd(from, table, m) == spans[m].start + spans[m].duration;
  }
}
