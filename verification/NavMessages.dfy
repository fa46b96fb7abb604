/**
 What the broadcast messages look like: at which second of its frame, in the time scale of its system, each part of a
 message ends.  The slot tables of `NavPlan` are compared with this.
 */
module NavMessages {
  import opened Wrappers
  import opened SimTime
  import opened NavPlan
  import opened NavStore
  import opened NavDelivery
  import opened NavDeliveryTheorems

  /** Milliseconds: the frame, the length of each part, and the end of the part with an identifier in the frame. */
  datatype Layout = Layout(frame: int, part: int, ends: map<int, int>)

  /** Subframes of 6 s, the first three of five. */
  const SUBFRAMES := Layout(30_000, 6_000, map[1 := 6_000, 2 := 12_000, 3 := 18_000])

  /** BeiDou D2: ten pages of subframe 1, each at the beginning of a frame of 3 s. */
  const D2_PAGES := Layout(30_000, 600, map page | 1 <= page <= 10 :: page * 3_000 - 2_400)

  /** Three messages in turn. */
  function InTurn(part: int, first: int, second: int, third: int): Layout {
    Layout(3 * part, part, map[first := part, second := 2 * part, third := 3 * part])
  }

  /** The message of a signal; `geo` is a geostationary BeiDou satellite. */
  function LayoutOf(signal: SignalId, geo: bool): Option<Layout> {
    match signal
    case GpsL1Ca | GpsL2P | QzssL1Ca => Some(SUBFRAMES)
    case GpsL2C | QzssL2C => Some(InTurn(12_000, 10, 11, 30))
    case GpsL5Q | QzssL5Q => Some(InTurn(6_000, 10, 11, 30))
    case GpsL1C | QzssL1C | BeidouB1C => Some(Layout(18_000, 18_000, map[2 := 18_000]))
    case GlonassG1 | GlonassG2 => Some(Layout(30_000, 2_000, map[1 := 2_000, 2 := 4_000, 3 := 6_000, 4 := 8_000]))
    case GlonassG3 => Some(Layout(18_000, 3_000, map[10 := 3_000, 11 := 6_000, 12 := 9_000]))
    case GalileoE1 => Some(Layout(30_000, 2_000, map[2 := 3_000, 4 := 5_000, 1 := 23_000, 3 := 25_000]))
    case GalileoE5B => Some(Layout(30_000, 2_000, map[1 := 2_000, 3 := 4_000, 2 := 22_000, 4 := 24_000]))
    case GalileoE5A => Some(Layout(50_000, 10_000, map[1 := 10_000, 2 := 20_000, 3 := 30_000, 4 := 40_000]))
    case GalileoE6 => None
    case BeidouB1I | BeidouB3I => Some(if geo then D2_PAGES else SUBFRAMES)
    case BeidouB2A => Some(InTurn(3_000, 10, 11, 30))
    case BeidouB2B => Some(Layout(2_000, 1_000, map[10 := 1_000, 30 := 2_000]))
  }

  predicate Beidou(signal: SignalId) {
    signal.BeidouB1I? || signal.BeidouB3I? || signal.BeidouB1C? || signal.BeidouB2A? || signal.BeidouB2B?
  }

  /** An instant of GPS time in the scale of the signal's own system: BeiDou time is 14 s behind. */
  function OwnTime(signal: SignalId, instant: int): int {
    if Beidou(signal) then instant - 14_000_000_000 else instant
  }

  /** An instant that lies so far into a frame. */
  ghost predicate InFrame(instant: int, frame: int, end: int) { exists n: int :: instant == frame * n + end }

  /** The slot is that of a part of the message. */
  predicate IsPart(slot: Slot, layout: Layout) {
    && slot.duration == layout.part * 1_000_000 && slot.id in layout.ends
    && slot.start + slot.duration == layout.ends[slot.id] * 1_000_000
  }

  /** The table is that of the message: a slot for each of its parts. */
  ghost predicate Tabulates(table: Table, signal: SignalId, layout: Layout) {
    && table.cycle == layout.frame * 1_000_000
    && (forall t :: OwnTime(signal, t) == t + table.offset)
    && (forall i :: 0 <= i < |table.slots| ==> IsPart(table.slots[i], layout))
    && (forall i, j :: 0 <= i < j < |table.slots| ==> table.slots[i].id != table.slots[j].id)
    && forall id :: id in layout.ends ==> exists i :: 0 <= i < |table.slots| && table.slots[i].id == id
  }

  lemma OnePart(table: Table, signal: SignalId, layout: Layout, a: Slot)
    requires table.cycle == layout.frame * 1_000_000 && forall t :: OwnTime(signal, t) == t + table.offset
    requires table.slots == [a] && IsPart(a, layout) && layout.ends.Keys == {a.id}
    ensures Tabulates(table, signal, layout)
  {
    assert table.slots[0] == a;
  }

  lemma TwoParts(table: Table, signal: SignalId, layout: Layout, a: Slot, b: Slot)
    requires table.cycle == layout.frame * 1_000_000 && forall t :: OwnTime(signal, t) == t + table.offset
    requires table.slots == [a, b] && IsPart(a, layout) && IsPart(b, layout)
    requires layout.ends.Keys == {a.id, b.id} && a.id != b.id
    ensures Tabulates(table, signal, layout)
  {
    assert table.slots[0] == a && table.slots[1] == b;
  }

  lemma ThreeParts(table: Table, signal: SignalId, layout: Layout, a: Slot, b: Slot, c: Slot)
    requires table.cycle == layout.frame * 1_000_000 && forall t :: OwnTime(signal, t) == t + table.offset
    requires table.slots == [a, b, c] && IsPart(a, layout) && IsPart(b, layout) && IsPart(c, layout)
    requires layout.ends.Keys == {a.id, b.id, c.id} && a.id != b.id && b.id != c.id && a.id != c.id
    ensures Tabulates(table, signal, layout)
  {
    assert table.slots[0] == a && table.slots[1] == b && table.slots[2] == c;
  }

  lemma FourParts(table: Table, signal: SignalId, layout: Layout, a: Slot, b: Slot, c: Slot, d: Slot)
    requires table.cycle == layout.frame * 1_000_000 && forall t :: OwnTime(signal, t) == t + table.offset
    requires table.slots == [a, b, c, d] && IsPart(a, layout) && IsPart(b, layout) && IsPart(c, layout)
    requires IsPart(d, layout) && layout.ends.Keys == {a.id, b.id, c.id, d.id}
    requires a.id != b.id && a.id != c.id && a.id != d.id && b.id != c.id && b.id != d.id && c.id != d.id
    ensures Tabulates(table, signal, layout)
  {
    assert table.slots[0] == a && table.slots[1] == b && table.slots[2] == c && table.slots[3] == d;
  }

  lemma D2IsPages(table: Table, signal: SignalId)
    requires table.cycle == 30_000_000_000 && forall t :: OwnTime(signal, t) == t + table.offset
    requires table.slots == D2Slots()
    ensures Tabulates(table, signal, D2_PAGES)
  {
    forall id | id in D2_PAGES.ends
      ensures exists i :: 0 <= i < |table.slots| && table.slots[i].id == id
    {
      assert table.slots[id - 1].id == id;
    }
  }

  lemma D2Table(signal: SignalId)
    requires signal.BeidouB1I? || signal.BeidouB3I?
    ensures TableFor(signal, BeidouD2).Some?
    ensures Tabulates(TableFor(signal, BeidouD2).value, signal, D2_PAGES)
  {
    D2IsPages(TableFor(signal, BeidouD2).value, signal);
  }

  lemma D1Table(signal: SignalId, variant: Variant)
    requires (signal.BeidouB1I? || signal.BeidouB3I?) && !variant.BeidouD2?
    ensures TableFor(signal, variant).Some?
    ensures Tabulates(TableFor(signal, variant).value, signal, SUBFRAMES)
  {
    SubframeTable(TableFor(signal, variant).value, signal);
  }

  lemma SubframeTable(table: Table, signal: SignalId)
    requires table.cycle == 30_000_000_000 && forall t :: OwnTime(signal, t) == t + table.offset
    requires table.slots == [Secs(0, 6, 1), Secs(6, 6, 2), Secs(12, 6, 3)]
    ensures Tabulates(table, signal, SUBFRAMES)
  {
    ThreeParts(table, signal, SUBFRAMES, Secs(0, 6, 1), Secs(6, 6, 2), Secs(12, 6, 3));
  }

  lemma LnavTables(signal: SignalId)
    requires signal.GpsL1Ca? || signal.GpsL2P? || signal.QzssL1Ca?
    ensures TableFor(signal, Default).Some?
    ensures Tabulates(TableFor(signal, Default).value, signal, SUBFRAMES)
  {
    SubframeTable(TableFor(signal, Default).value, signal);
  }

  lemma L3ocTable()
    ensures TableFor(GlonassG3, Default).Some?
    ensures Tabulates(TableFor(GlonassG3, Default).value, GlonassG3, LayoutOf(GlonassG3, false).value)
  {
    var table := TableFor(GlonassG3, Default).value;
    ThreeParts(table, GlonassG3, LayoutOf(GlonassG3, false).value, Secs(0, 3, 10), Secs(3, 3, 11), Secs(6, 3, 12));
  }

  lemma LongTurnTables(signal: SignalId)
    requires signal.GpsL2C? || signal.QzssL2C?
    ensures TableFor(signal, Default).Some?
    ensures Tabulates(TableFor(signal, Default).value, signal, LayoutOf(signal, false).value)
  {
    var table := TableFor(signal, Default).value;
    ThreeParts(table, signal, LayoutOf(signal, false).value, table.slots[0], table.slots[1], table.slots[2]);
  }

  lemma ShortTurnTables(signal: SignalId)
    requires signal.GpsL5Q? || signal.QzssL5Q? || signal.BeidouB2A?
    ensures TableFor(signal, Default).Some?
    ensures Tabulates(TableFor(signal, Default).value, signal, LayoutOf(signal, false).value)
  {
    var table := TableFor(signal, Default).value;
    ThreeParts(table, signal, LayoutOf(signal, false).value, table.slots[0], table.slots[1], table.slots[2]);
  }

  lemma FourStringTables(signal: SignalId)
    requires signal.GlonassG1? || signal.GlonassG2?
    ensures TableFor(signal, Default).Some?
    ensures Tabulates(TableFor(signal, Default).value, signal, LayoutOf(signal, false).value)
  {
    var table := TableFor(signal, Default).value;
    var s := table.slots;
    FourParts(table, signal, LayoutOf(signal, false).value, s[0], s[1], s[2], s[3]);
  }

  lemma FnavTable()
    ensures TableFor(GalileoE5A, Default).Some?
    ensures Tabulates(TableFor(GalileoE5A, Default).value, GalileoE5A, LayoutOf(GalileoE5A, false).value)
  {
    var table := TableFor(GalileoE5A, Default).value;
    var s := table.slots;
    FourParts(table, GalileoE5A, LayoutOf(GalileoE5A, false).value, s[0], s[1], s[2], s[3]);
  }

  lemma InavE1Table()
    ensures TableFor(GalileoE1, Default).Some?
    ensures Tabulates(TableFor(GalileoE1, Default).value, GalileoE1, LayoutOf(GalileoE1, false).value)
  {
    FourParts(TableFor(GalileoE1, Default).value, GalileoE1, LayoutOf(GalileoE1, false).value,
              Secs(1, 2, 2), Secs(3, 2, 4), Secs(21, 2, 1), Secs(23, 2, 3));
  }

  lemma InavE5bTable()
    ensures TableFor(GalileoE5B, Default).Some?
    ensures Tabulates(TableFor(GalileoE5B, Default).value, GalileoE5B, LayoutOf(GalileoE5B, false).value)
  {
    FourParts(TableFor(GalileoE5B, Default).value, GalileoE5B, LayoutOf(GalileoE5B, false).value,
              Secs(0, 2, 1), Secs(2, 2, 3), Secs(20, 2, 2), Secs(22, 2, 4));
  }

  lemma ShortTables(signal: SignalId)
    requires signal.GpsL1C? || signal.QzssL1C? || signal.BeidouB1C? || signal.BeidouB2B?
    ensures TableFor(signal, Default).Some?
    ensures Tabulates(TableFor(signal, Default).value, signal, LayoutOf(signal, false).value)
  {
    var table := TableFor(signal, Default).value;
    if signal.BeidouB2B? {
      TwoParts(table, signal, LayoutOf(signal, false).value, table.slots[0], table.slots[1]);
    } else {
      OnePart(table, signal, LayoutOf(signal, false).value, table.slots[0]);
    }
  }

  /** Every slot table is that of the signal's message; a signal has a table exactly if it has a message. */
  lemma TablesAreMessages(signal: SignalId, variant: Variant)
    ensures TableFor(signal, variant).Some? <==>
            LayoutOf(signal, false).Some? && (signal.BeidouB1I? || signal.BeidouB3I? || variant.Default?)
    ensures TableFor(signal, variant).Some? ==>
              && LayoutOf(signal, variant.BeidouD2?).Some?
              && Tabulates(TableFor(signal, variant).value, signal, LayoutOf(signal, variant.BeidouD2?).value)
  {
    if signal.BeidouB1I? || signal.BeidouB3I? {
      if variant.BeidouD2? {
        D2Table(signal);
      } else {
        D1Table(signal, variant);
      }
    } else if variant.Default? {
      match signal
      case GpsL1Ca | GpsL2P | QzssL1Ca => LnavTables(signal);
      case GlonassG3 => L3ocTable();
      case GpsL2C | QzssL2C => LongTurnTables(signal);
      case GpsL5Q | QzssL5Q | BeidouB2A => ShortTurnTables(signal);
      case GlonassG1 | GlonassG2 => FourStringTables(signal);
      case GalileoE1 => InavE1Table();
      case GalileoE5B => InavE5bTable();
      case GalileoE5A => FnavTable();
      case GpsL1C | QzssL1C | BeidouB1C | BeidouB2B => ShortTables(signal);
      case _ =>
    }
  }

  // ---------- What a plan waits for ----------

  /** The part ends where it belongs in a frame, and is the first of its kind heard from its beginning. */
  ghost predicate FirstHeard(signal: SignalId, layout: Layout, acquisition: int, id: int, completion: int) {
    && id in layout.ends
    && InFrame(OwnTime(signal, completion), layout.frame * 1_000_000, layout.ends[id] * 1_000_000)
    && acquisition <= completion - layout.part * 1_000_000 < acquisition + layout.frame * 1_000_000
  }

  lemma EndInFrame(from: int, table: Table, i: nat)
    requires WellFormed(table) && i < |table.slots|
    ensures InFrame(SlotEnd(from, table, i) + table.offset, table.cycle,
                    table.slots[i].start + table.slots[i].duration)
    ensures from <= SlotEnd(from, table, i) - table.slots[i].duration < from + table.cycle
  {
    var slot := table.slots[i];
    var s := NextStart(from, table.cycle, table.offset, slot);
    NextStartIsFirst(from, table.cycle, table.offset, slot, s);
    var q := PhaseQuotient(s + table.offset, table.cycle);
    assert SlotEnd(from, table, i) + table.offset == table.cycle * q + (slot.start + slot.duration);
  }

  /** One fragment for each part of the message, each the first of its kind that is heard from the beginning. */
  ghost predicate HearsMessage(signal: SignalId, layout: Layout, acquisition: int, fs: seq<Fragment>) {
    && (forall i :: 0 <= i < |fs| ==> FirstHeard(signal, layout, acquisition, fs[i].id, Abs(fs[i].completion)))
    && (forall i, j :: 0 <= i < j < |fs| ==> fs[i].id != fs[j].id)
    && forall id :: id in layout.ends ==> exists i :: 0 <= i < |fs| && fs[i].id == id
  }

  lemma SlotFirstHeard(table: Table, signal: SignalId, layout: Layout, from: int, i: nat)
    requires WellFormed(table) && i < |table.slots|
    requires table.cycle == layout.frame * 1_000_000 && IsPart(table.slots[i], layout)
    requires forall t :: OwnTime(signal, t) == t + table.offset
    ensures FirstHeard(signal, layout, from, table.slots[i].id, SlotEnd(from, table, i))
  {
    EndInFrame(from, table, i);
  }

  lemma FollowedHears(p: Plan, table: Table, signal: SignalId, layout: Layout)
    requires Follows(p, table) && Labelled(p, signal, table) && Tabulates(table, signal, layout)
    ensures HearsMessage(signal, layout, Abs(p.acquisition), p.fragments)
  {
    var fs := p.fragments;
    forall i: nat | i < |fs|
      ensures FirstHeard(signal, layout, Abs(p.acquisition), fs[i].id, Abs(fs[i].completion))
    {
      SlotFirstHeard(table, signal, layout, Abs(p.acquisition), i);
      assert CompletesAt(fs[i], i, SlotEnd(Abs(p.acquisition), table, i));
    }
    forall id | id in layout.ends
      ensures exists i :: 0 <= i < |fs| && fs[i].id == id
    {
      var i :| 0 <= i < |table.slots| && table.slots[i].id == id;
      assert fs[i].id == id;
    }
  }

  /**
   A plan holds one fragment for each part of its signal's message, complete at the end of the first of its kind
   that is heard from the beginning: at that second of a frame of the system's own time scale.
   */
  lemma PlanHearsMessage(signal: SignalId, variant: Variant, acquisition: Time, issueData: int)
    requires Valid(acquisition) && PlanFor(signal, variant, acquisition, issueData).Some?
    ensures LayoutOf(signal, variant.BeidouD2?).Some?
    ensures HearsMessage(signal, LayoutOf(signal, variant.BeidouD2?).value, Abs(acquisition),
                         PlanFor(signal, variant, acquisition, issueData).value.fragments)
  {
    PlanMeaning(signal, variant, acquisition, issueData);
    TablesAreMessages(signal, variant);
    FollowedHears(PlanFor(signal, variant, acquisition, issueData).value, TableFor(signal, variant).value, signal,
                  LayoutOf(signal, variant.BeidouD2?).value);
  }

  /** A BeiDou D1D2 target of the first five numbers, which are geostationary, is heard as D2 pages, others as D1. */
  lemma CandidateHearsMessage(setup: Setup, v: Signal, key: Key, target: nat)
    requires GoodSetup(setup) && target < Count(setup.truth) && key.Pair? && KeyOf(setup, target) == key
    requires Candidate(setup, v, key, target).Some?
    ensures LayoutOf(v.id, InfoOf(RecordAt(setup.truth, target)).prn <= 5).Some?
    ensures HearsMessage(v.id, LayoutOf(v.id, InfoOf(RecordAt(setup.truth, target)).prn <= 5).value,
                         ListensFrom(setup, v, target), Candidate(setup, v, key, target).value.fragments)
  {
    var transmit := Transmit(setup.truth, target);
    var acquisition := if Compare(v.trackingStart, transmit) > 0 then v.trackingStart else transmit;
    CompareIsOrder(v.trackingStart, transmit);
    PlanHearsMessage(v.id, VariantFor(setup, key, target), acquisition, InfoOf(RecordAt(setup.truth, target)).iode);
    SameLayout(v.id, VariantFor(setup, key, target).BeidouD2?, InfoOf(RecordAt(setup.truth, target)).prn <= 5);
  }

  /** Only the D1D2 message depends on the satellite. */
  lemma SameLayout(signal: SignalId, a: bool, b: bool)
    requires a == b || !FamilyOf(signal).BeidouD1D2?
    ensures LayoutOf(signal, a) == LayoutOf(signal, b)
  {
  }
}
