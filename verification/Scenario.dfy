/**
 The scenario engine: a receiver that is always on, one whose signal comes and goes (REA), or one that is
 switched on and off (TTFF), sampled epoch by epoch, and the counters of a simulation run.

 Both durations are positive and their sum is assumed to fit int64, which the code does not check.
 */
module Scenario {
  import opened Integers
  import opened Wrappers
  import opened SimTime

  datatype Config = Steady | Rea(on: int, off: int) | Ttff(on: int, off: int)

  predicate ValidConfig(c: Config) { c.Steady? || (c.on > 0 && c.off > 0 && Int64(c.on + c.off)) }

  datatype EpochState = EpochState(
    time: Time, powered: bool, available: bool, powerOn: bool, powerOff: bool, signalOn: bool, signalOff: bool,
    cycle: int, phase: int)

  /** What the engine remembers; `have` says whether there was an epoch before. */
  datatype Memory = Memory(lastTime: Time, have: bool, lastPowered: bool, lastAvailable: bool)

  function Computed(c: Config, start: Time, now: Time): Option<EpochState>
    requires ValidConfig(c)
  {
    var elapsed := Difference(now, start);
    if elapsed == None || elapsed.value < 0 then None
    else
      var e := elapsed.value;
      var blank := EpochState(now, true, true, false, false, false, false, 0, e);
      match c
      case Steady => Some(blank)
      case Rea(on, off) =>
        Some(blank.(cycle := e / (on + off), phase := e % (on + off), available := e % (on + off) < on))
      case Ttff(on, off) =>
        Some(blank.(cycle := e / (on + off), phase := e % (on + off), powered := e % (on + off) < on,
                    available := e % (on + off) < on))
  }

  function WithTransitions(m: Memory, s: EpochState): EpochState {
    if !m.have then s.(powerOn := s.powered, signalOn := s.available)
    else s.(powerOn := !m.lastPowered && s.powered, powerOff := m.lastPowered && !s.powered,
            signalOn := !m.lastAvailable && s.available, signalOff := m.lastAvailable && !s.available)
  }

  function Remembered(s: EpochState): Memory { Memory(s.time, true, s.powered, s.available) }

  function Updated(c: Config, start: Time, m: Memory, now: Time): Option<EpochState>
    requires ValidConfig(c)
  {
    if !Valid(now) || Compare(now, start) < 0 || (m.have && Compare(now, m.lastTime) < 0) then None
    else match Computed(c, start, now)
      case None => None
      case Some(s) => Some(WithTransitions(m, s))
  }

  class Engine {
    const config: Config
    const start: Time
    var lastTime: Time
    var have: bool
    var lastPowered: bool
    var lastAvailable: bool

    function View(): Memory
      reads this
    {
      Memory(lastTime, have, lastPowered, lastAvailable)
    }

    constructor (c: Config, t: Time)
      ensures config == c && start == t && View() == Memory(t, false, false, false)
    {
      config, start, lastTime, have, lastPowered, lastAvailable := c, t, t, false, false, false;
    }

    method Update(now: Time) returns (state: Option<EpochState>)
      requires ValidConfig(config)
      modifies this
      ensures state == Updated(config, start, old(View()), now)
      ensures View() == if state == None then old(View()) else Remembered(state.value)
    {
      if !Valid(now) || Compare(now, start) < 0 || (have && Compare(now, lastTime) < 0) {
        return None;
      }
      state := Computed(config, start, now);
      if state == None {
        return;
      }
      var s := state.value;
      if !have {
        s := s.(powerOn := s.powered, signalOn := s.available);
      } else {
        s := s.(powerOn := !lastPowered && s.powered, powerOff := lastPowered && !s.powered,
                signalOn := !lastAvailable && s.available, signalOff := lastAvailable && !s.available);
      }
      lastTime, lastPowered, lastAvailable, have := now, s.powered, s.available, true;
      state := Some(s);
    }
  }

  // ---------- The counters of a run ----------

  datatype Counters = Counters(
    powerOn: nat, powerOff: nat, signalOn: nat, signalOff: nat, powered: nat, onEpochs: nat, offEpochs: nat,
    range: nat, psrpos: nat, psrvel: nat, bestpos: nat)

  const NO_COUNTS: Counters := Counters(0, 0, 0, 0, 0, 0, 0, 0, 0, 0, 0)

  /** How the work of an epoch ends: power-on failed, or so many of the four logs were written. */
  datatype Work = PowerOnFails | Logs(written: nat)

  function One(b: bool): nat { if b then 1 else 0 }

  /** A run after some epochs: what is remembered and counted, and whether it is still going. */
  datatype Running = Running(memory: Memory, counts: Counters, ok: bool)

  function Transitions(n: Counters, s: EpochState): Counters {
    n.(powerOn := n.powerOn + One(s.powerOn), powerOff := n.powerOff + One(s.powerOff),
       signalOn := n.signalOn + One(s.signalOn), signalOff := n.signalOff + One(s.signalOff))
  }

  function Worked(n: Counters, s: EpochState, logs: nat): Counters {
    n.(powered := n.powered + 1,
       onEpochs := n.onEpochs + One(s.available), offEpochs := n.offEpochs + One(!s.available),
       range := n.range + One(logs >= 1), psrpos := n.psrpos + One(logs >= 2), psrvel := n.psrvel + One(logs >= 3),
       bestpos := n.bestpos + One(logs >= 4))
  }

  function Epoch(c: Config, start: Time, r: Running, now: Time, work: Work): Running
    requires ValidConfig(c)
  {
    if !r.ok then r
    else match Updated(c, start, r.memory, now)
      case None => r.(ok := false)
      case Some(s) =>
        if s.powerOn && work.PowerOnFails? then
          Running(Remembered(s), r.counts.(powerOn := r.counts.powerOn + 1), false)
        else if !s.powered then Running(Remembered(s), Transitions(r.counts, s), true)
        else
          var logs := if work.Logs? then work.written else 4;
          Running(Remembered(s), Worked(Transitions(r.counts, s), s, logs), logs >= 4)
  }

  function RunOf(c: Config, start: Time, times: seq<Time>, work: seq<Work>): Running
    requires ValidConfig(c) && |work| == |times|
    decreases |times|
  {
    if |times| == 0 then Running(Memory(start, false, false, false), NO_COUNTS, true)
    else
      var last := |times| - 1;
      Epoch(c, start, RunOf(c, start, times[..last], work[..last]), times[last], work[last])
  }

  /** One epoch of the loop. */
  method RunEpoch(engine: Engine, counts: Counters, now: Time, work: Work) returns (after: Counters, ok: bool)
    requires ValidConfig(engine.config)
    modifies engine
    ensures Running(engine.View(), after, ok) ==
            Epoch(engine.config, engine.start, Running(old(engine.View()), counts, true), now, work)
  {
    var state := engine.Update(now);
    if state == None {
      return counts, false;
    }
    var s := state.value;
    if s.powerOn && work.PowerOnFails? {
      return counts.(powerOn := counts.powerOn + 1), false;
    }
    after := Transitions(counts, s);
    if !s.powered {
      return after, true;
    }
    var logs := if work.Logs? then work.written else 4;
    after, ok := Worked(after, s, logs), logs >= 4;
  }

  lemma RunOfMore(c: Config, start: Time, times: seq<Time>, work: seq<Work>, k: nat)
    requires ValidConfig(c) && |work| == |times| && k < |times|
    ensures RunOf(c, start, times[..k + 1], work[..k + 1]) ==
            Epoch(c, start, RunOf(c, start, times[..k], work[..k]), times[k], work[k])
  {
    assert times[..k + 1][..k] == times[..k] && work[..k + 1][..k] == work[..k];
  }

  /** The epoch loop, which stops at the first failure. */
  method RunEpochs(c: Config, start: Time, times: seq<Time>, work: seq<Work>) returns (counts: Counters, ok: bool)
    requires ValidConfig(c) && |work| == |times|
    ensures counts == RunOf(c, start, times, work).counts && ok == RunOf(c, start, times, work).ok
  {
    var engine := new Engine(c, start);
    counts, ok := NO_COUNTS, true;
    var k := 0;
    while k < |times| && ok
      invariant k <= |times| && engine.config == c && engine.start == start
      invariant RunOf(c, start, times[..k], work[..k]) == Running(engine.View(), counts, ok)
    {
      RunOfMore(c, start, times, work, k);
      counts, ok := RunEpoch(engine, counts, times[k], work[k]);
      k := k + 1;
    }
    if k == |times| {
      assert times[..k] == times && work[..k] == work;
    } else {
      StoppedRun(c, start, times, work, k);
    }
  }

  /** A run that has stopped stays as it is. */
  lemma {:induction false} StoppedRun(c: Config, start: Time, times: seq<Time>, work: seq<Work>, k: nat)
    requires ValidConfig(c) && |work| == |times| && k <= |times| && !RunOf(c, start, times[..k], work[..k]).ok
    ensures RunOf(c, start, times, work) == RunOf(c, start, times[..k], work[..k])
    decreases |times|
  {
    if k < |times| {
      var last := |times| - 1;
      assert times[..last][..k] == times[..k] && work[..last][..k] == work[..k];
      StoppedRun(c, start, times[..last], work[..last], k);
    } else {
      assert times[..k] == times && work[..k] == work;
    }
  }

  /** Every powered epoch has each log once, and signal-on and signal-off epochs add up to them. */
  predicate Balanced(n: Counters) {
    n.powered == n.onEpochs + n.offEpochs == n.range == n.psrpos == n.psrvel == n.bestpos
  }

  lemma EpochBalances(c: Config, start: Time, r: Running, now: Time, work: Work)
    requires ValidConfig(c) && Balanced(r.counts) && Epoch(c, start, r, now, work).ok
    ensures Balanced(Epoch(c, start, r, now, work).counts)
  {
  }

  /** They do on every successful run. */
  lemma {:induction false} LogsBalance(c: Config, start: Time, times: seq<Time>, work: seq<Work>)
    requires ValidConfig(c) && |work| == |times| && RunOf(c, start, times, work).ok
    ensures Balanced(RunOf(c, start, times, work).counts)
    decreases |times|
  {
    if |times| > 0 {
      var last := |times| - 1;
      var before := RunOf(c, start, times[..last], work[..last]);
      LogsBalance(c, start, times[..last], work[..last]);
      EpochBalances(c, start, before, times[last], work[last]);
    }
  }

  // ---------- Cycles ----------

  /** Moving on by less than a whole period enters the next cycle at most once. */
  lemma CycleStep(e: int, gap: int, p: int)
    requires p > 0 && e >= 0 && gap >= 0 && e % p + gap < 2 * p
    ensures if e % p + gap < p then (e + gap) / p == e / p && (e + gap) % p == e % p + gap
            else (e + gap) / p == e / p + 1 && (e + gap) % p == e % p + gap - p
  {
    var (q, r) := (e / p, e % p);
    assert e == p * q + r;
    if r + gap < p {
      QuotientUnique(e + gap, p, q, r + gap);
    } else {
      assert p * (q + 1) == p * q + p;
      QuotientUnique(e + gap, p, q + 1, r + gap - p);
    }
  }

  lemma MoreThanOnce(p: int, d: int)
    requires p > 0 && p * d > p
    ensures d >= 2
  {
  }

  /** Skipping two period ends skips a cycle. */
  lemma CyclesSkipped(e: int, gap: int, p: int)
    requires p > 0 && e >= 0 && gap >= 0 && e % p + gap >= 2 * p
    ensures (e + gap) / p >= e / p + 2
  {
    var (q, r) := ((e + gap) / p, (e + gap) % p);
    var d := q - e / p;
    assert e == p * (e / p) + e % p && e + gap == p * q + r;
    assert p * d == e % p + gap - r;
    MoreThanOnce(p, d);
  }

  /** Sampling instants from the start, as elapsed nanoseconds. */
  predicate Sampling(es: seq<int>) {
    && (|es| > 0 ==> es[0] == 0)
    && (forall k, l :: 0 <= k < |es| - 1 && l == k + 1 ==> es[k] <= es[l])
  }

  /** The cycle of an instant, by taking off one period after the other. */
  function CycleAt(period: int, e: int): int
    requires period > 0
    decreases e
  {
    if e < period then 0 else CycleAt(period, e - period) + 1
  }

  /** What is left then. */
  function PhaseAt(period: int, e: int): int
    requires period > 0
    decreases e
  {
    if e < period then e else PhaseAt(period, e - period)
  }

  /** They are the quotient and the remainder that the engine computes. */
  lemma {:induction false} CycleIsQuotient(period: int, e: int)
    requires period > 0 && e >= 0
    ensures CycleAt(period, e) == e / period && PhaseAt(period, e) == e % period
    ensures 0 <= PhaseAt(period, e) < period
    decreases e
  {
    if e < period {
      QuotientUnique(e, period, 0, e);
    } else {
      CycleIsQuotient(period, e - period);
      var (q, r) := (CycleAt(period, e - period), PhaseAt(period, e - period));
      assert e - period == period * q + r;
      assert period * (q + 1) == period * q + period;
      QuotientUnique(e, period, q + 1, r);
    }
  }

  predicate IsOn(on: int, off: int, e: int)
    requires on > 0 && off > 0
  {
    PhaseAt(on + off, e) < on
  }

  /** Whether each sample finds the on part of the cycle. */
  function Ons(on: int, off: int, es: seq<int>): seq<bool>
    requires on > 0 && off > 0
  {
    seq(|es|, k requires 0 <= k < |es| => IsOn(on, off, es[k]))
  }

  /** The samples at which the state has become on, the first one included. */
  function OnEvents(ons: seq<bool>): nat
    decreases |ons|
  {
    if |ons| == 0 then 0
    else
      var last := |ons| - 1;
      OnEvents(ons[..last]) + One(ons[last] && (last == 0 || !ons[last - 1]))
  }

  function OffEvents(ons: seq<bool>): nat
    decreases |ons|
  {
    if |ons| == 0 then 0
    else
      var last := |ons| - 1;
      OffEvents(ons[..last]) + One(last > 0 && !ons[last] && ons[last - 1])
  }

  predicate CountedAs(ons: seq<bool>, cycle: int) {
    |ons| > 0 && OnEvents(ons) == cycle + 1 && OnEvents(ons) - OffEvents(ons) == One(ons[|ons| - 1])
  }

  /** Every cycle so far has been seen to begin, and to end unless its on part lasts. */
  predicate Counted(on: int, off: int, es: seq<int>)
    requires on > 0 && off > 0 && |es| > 0
  {
    CountedAs(Ons(on, off, es), CycleAt(on + off, es[|es| - 1]))
  }

  lemma StartIsOn(on: int, off: int)
    requires on > 0 && off > 0
    ensures IsOn(on, off, 0) && CycleAt(on + off, 0) == 0
  {
  }

  /** What an update says of the state at a time, which decides alone whether power and signal are there. */
  ghost predicate StateAt(c: Config, s: EpochState, e: int)
    requires ValidConfig(c)
  {
    match c
    case Steady => s.powered && s.available && s.cycle == 0 && s.phase == e
    case Rea(on, off) =>
      s.powered && (s.available <==> IsOn(on, off, e)) && s.cycle == CycleAt(on + off, e)
      && s.phase == PhaseAt(on + off, e)
    case Ttff(on, off) =>
      (s.powered <==> IsOn(on, off, e)) && (s.available <==> IsOn(on, off, e)) && s.cycle == CycleAt(on + off, e)
      && s.phase == PhaseAt(on + off, e)
  }

  /**
   A time is accepted exactly if it is not before the start nor the last one, and its distance from the start can be
   computed.  An event is announced where the state differs from the last one, and what is on at first counts as new.
   */
  lemma UpdateMeaning(c: Config, start: Time, m: Memory, now: Time)
    requires ValidConfig(c) && Valid(start) && (m.have ==> Valid(m.lastTime))
    ensures Updated(c, start, m, now).Some? <==>
            && Valid(now) && Abs(start) <= Abs(now) && (m.have ==> Abs(m.lastTime) <= Abs(now))
            && Difference(now, start).Some?
    ensures Updated(c, start, m, now).Some? ==>
              var s := Updated(c, start, m, now).value;
              && s.time == now && StateAt(c, s, Abs(now) - Abs(start))
              && (s.powerOn <==> s.powered && !(m.have && m.lastPowered))
              && (s.powerOff <==> !s.powered && m.have && m.lastPowered)
              && (s.signalOn <==> s.available && !(m.have && m.lastAvailable))
              && (s.signalOff <==> !s.available && m.have && m.lastAvailable)
  {
    if Valid(now) {
      CompareIsOrder(now, start);
      DifferenceExact(now, start);
      if m.have {
        CompareIsOrder(now, m.lastTime);
      }
      if !c.Steady? && Abs(start) <= Abs(now) {
        CycleIsQuotient(c.on + c.off, Abs(now) - Abs(start));
      }
    }
  }

  lemma EventsOfMore(ons: seq<bool>, b: bool)
    ensures OnEvents(ons + [b]) == OnEvents(ons) + One(b && (|ons| == 0 || !ons[|ons| - 1]))
    ensures OffEvents(ons + [b]) == OffEvents(ons) + One(|ons| > 0 && !b && ons[|ons| - 1])
  {
    assert (ons + [b])[..|ons|] == ons;
  }

  lemma OnsOfMore(on: int, off: int, es: seq<int>, e: int)
    requires on > 0 && off > 0
    ensures Ons(on, off, es + [e]) == Ons(on, off, es) + [IsOn(on, off, e)]
  {
  }

  /** A step from an on part over the whole off part, or from an off part over the whole next on part. */
  predicate StepsOver(on: int, off: int, before: int, e: int)
    requires on > 0 && off > 0
  {
    PhaseAt(on + off, before) + (e - before) >= if IsOn(on, off, before) then on + off else on + off + on
  }

  /** A cycle is entered exactly where the state becomes on, unless the step is over a part. */
  lemma CycleBeginsIff(on: int, off: int, before: int, e: int)
    requires on > 0 && off > 0 && 0 <= before <= e
    ensures CycleAt(on + off, e) == CycleAt(on + off, before) + One(IsOn(on, off, e) && !IsOn(on, off, before))
        <==> !StepsOver(on, off, before, e)
  {
    var p := on + off;
    CycleIsQuotient(p, before);
    CycleIsQuotient(p, e);
    if before % p + (e - before) < 2 * p {
      CycleStep(before, e - before, p);
    } else {
      CyclesSkipped(before, e - before, p);
    }
  }

  lemma {:induction false} EventsBalance(ons: seq<bool>)
    requires |ons| > 0
    ensures OnEvents(ons) - OffEvents(ons) == One(ons[|ons| - 1])
    decreases |ons|
  {
    if |ons| > 1 {
      EventsBalance(ons[..|ons| - 1]);
    }
  }

  lemma CountedStepIff(ons: seq<bool>, cycle: int, b: bool, next: int)
    requires CountedAs(ons, cycle)
    ensures CountedAs(ons + [b], next) <==> next == cycle + One(b && !ons[|ons| - 1])
  {
    EventsOfMore(ons, b);
    EventsBalance(ons + [b]);
  }

  /** One more sample keeps the count exactly unless the step to it is over a part. */
  lemma CountedMoreIff(on: int, off: int, es: seq<int>, e: int)
    requires on > 0 && off > 0 && |es| > 0 && 0 <= es[|es| - 1] <= e && Counted(on, off, es)
    ensures Counted(on, off, es + [e]) <==> !StepsOver(on, off, es[|es| - 1], e)
  {
    var before := es[|es| - 1];
    CycleBeginsIff(on, off, before, e);
    OnsOfMore(on, off, es, e);
    CountedStepIff(Ons(on, off, es), CycleAt(on + off, before), IsOn(on, off, e), CycleAt(on + off, e));
  }

  lemma FirstIsCounted(on: int, off: int)
    requires on > 0 && off > 0
    ensures Counted(on, off, [0])
  {
    StartIsOn(on, off);
    EventsOfMore([], true);
    assert Ons(on, off, [0]) == [] + [true];
  }

  /** No cycle is missed at any sample. */
  predicate NoneMissed(on: int, off: int, es: seq<int>)
    requires on > 0 && off > 0
  {
    forall m :: 0 < m <= |es| ==> Counted(on, off, es[..m])
  }

  predicate NoStepOver(on: int, off: int, es: seq<int>)
    requires on > 0 && off > 0
  {
    forall k, l :: 0 <= k < |es| - 1 && l == k + 1 ==> !StepsOver(on, off, es[k], es[l])
  }

  lemma {:induction false} SamplesRise(es: seq<int>, k: nat)
    requires Sampling(es) && k < |es|
    ensures es[k] >= 0
  {
    if k > 0 {
      SamplesRise(es, k - 1);
    }
  }

  lemma NoneMissedOfMore(on: int, off: int, es: seq<int>, last: nat)
    requires on > 0 && off > 0 && |es| == last + 1
    ensures NoneMissed(on, off, es) <==> NoneMissed(on, off, es[..last]) && Counted(on, off, es)
  {
    assert es[..|es|] == es;
    assert forall m :: 0 < m <= last ==> es[..last][..m] == es[..m];
    if NoneMissed(on, off, es) {
      forall m | 0 < m <= last
        ensures Counted(on, off, es[..last][..m])
      {
        assert Counted(on, off, es[..m]);
      }
    }
  }

  lemma LastSample(on: int, off: int, es: seq<int>, last: nat)
    requires on > 0 && off > 0 && Sampling(es) && |es| == last + 1 > 1 && NoneMissed(on, off, es[..last])
    ensures Counted(on, off, es) <==> !StepsOver(on, off, es[last - 1], es[last])
  {
    var front := es[..last];
    assert front[..last] == front && front + [es[last]] == es;
    SamplesRise(es, last - 1);
    CountedMoreIff(on, off, front, es[last]);
  }

  /** Whatever the sampling, no cycle is missed exactly when no step is over a part. */
  lemma {:induction false} NoneMissedIff(on: int, off: int, es: seq<int>)
    requires on > 0 && off > 0 && Sampling(es)
    ensures NoneMissed(on, off, es) <==> NoStepOver(on, off, es)
    decreases |es|
  {
    if |es| == 1 {
      FirstIsCounted(on, off);
      assert es == [0] && es[..1] == [0];
    } else if |es| > 1 {
      var last := |es| - 1;
      var front := es[..last];
      NoneMissedIff(on, off, front);
      NoneMissedOfMore(on, off, es, last);
      StepsOfMore(on, off, es, last);
      if NoneMissed(on, off, front) {
        LastSample(on, off, es, last);
      }
    }
  }

  lemma StepsOfMore(on: int, off: int, es: seq<int>, last: nat)
    requires on > 0 && off > 0 && |es| == last + 1 > 1
    ensures NoStepOver(on, off, es) <==> NoStepOver(on, off, es[..last]) && !StepsOver(on, off, es[last - 1], es[last])
  {
    if NoStepOver(on, off, es) {
      forall k, l | 0 <= k < last - 1 && l == k + 1
        ensures !StepsOver(on, off, es[..last][k], es[..last][l])
      {
        assert !StepsOver(on, off, es[k], es[l]);
      }
    } else {
      var k, l :| 0 <= k < |es| - 1 && l == k + 1 && StepsOver(on, off, es[k], es[l]);
      assert l < last ==> es[..last][k] == es[k] && es[..last][l] == es[l];
    }
  }

  lemma ShortStep(on: int, off: int, before: int, e: int)
    requires on > 0 && off > 0 && before >= 0 && e - before <= on && e - before <= off
    ensures !StepsOver(on, off, before, e)
  {
    CycleIsQuotient(on + off, before);
  }

  /** With gaps no longer than the on and the off part, no cycle is missed, whatever the sampling. */
  lemma CyclesAreCounted(on: int, off: int, es: seq<int>)
    requires on > 0 && off > 0 && Sampling(es)
    requires forall k, l :: 0 <= k < |es| - 1 && l == k + 1 ==> es[l] - es[k] <= on && es[l] - es[k] <= off
    ensures NoneMissed(on, off, es)
  {
    forall k, l | 0 <= k < |es| - 1 && l == k + 1
      ensures !StepsOver(on, off, es[k], es[l])
    {
      SamplesRise(es, k);
      ShortStep(on, off, es[k], es[l]);
    }
    NoneMissedIff(on, off, es);
  }

  // ---------- The uniform grid ----------

  /** The first n samples of the epoch clock. */
  function Grid(interval: int, n: nat): seq<int> { seq(n, k => k * interval) }

  lemma NextSample(k: nat, interval: int)
    requires interval > 0
    ensures (k + 1) * interval == k * interval + interval && k * interval >= 0
  {
  }

  lemma GridIsSampling(interval: int, n: nat)
    requires interval > 0
    ensures Sampling(Grid(interval, n))
  {
    forall k, l | 0 <= k < n - 1 && l == k + 1
      ensures Grid(interval, n)[k] <= Grid(interval, n)[l]
    {
      NextSample(k, interval);
    }
  }

  /**
   The interval is at most the off part, and exceeds the on part by less than the common divisor of the
   interval and the period, in steps of which the samples move through the cycle.
   */
  predicate GridFits(on: int, off: int, interval: int)
    requires on > 0 && off > 0 && interval > 0
  {
    interval <= off && interval < on + Euclid(interval, on + off)
  }

  /** The interval is x and the period y of their common divisors: the phases of the samples repeat after y. */
  predicate InDivisors(interval: nat, period: nat, x: nat, y: nat) {
    interval == Euclid(interval, period) * x && period == Euclid(interval, period) * y
  }

  lemma MultipleBelow(g: int, m: int, y: int)
    requires g > 0 && g * m < g * y
    ensures g * m <= g * y - g
  {
    assert g * (m - y) < 0;
    if m >= y {
      MultipleBounds(g, m - y);
    }
    assert g * (y - 1 - m) == g * y - g - g * m;
    MultipleBounds(g, y - 1 - m);
  }

  lemma DifferenceOfMultiples(g: int, x: int, y: int, k: int, q: int, interval: int, period: int)
    requires interval == g * x && period == g * y
    ensures k * interval - period * q == g * (k * x - y * q)
  {
    assert k * (g * x) == g * (k * x);
    assert (g * y) * q == g * (y * q);
  }

  /** Every sample lies a whole number of common divisors into its cycle. */
  lemma GridPhase(interval: int, period: int, k: nat)
    requires interval > 0 && period > 0
    ensures 0 < Euclid(interval, period) <= interval && (k * interval) % period <= period - Euclid(interval, period)
  {
    var x, y := EuclidDivides(interval, period);
    DivisorPhase(Euclid(interval, period), x, y, k * interval, k, interval, period);
  }

  lemma DivisorPhase(g: int, x: int, y: int, e: int, k: int, interval: int, period: int)
    requires g > 0 && x > 0 && interval == g * x && period == g * y && period > 0 && e == k * interval
    ensures g <= interval && e % period <= period - g
  {
    var q := e / period;
    MultipleBounds(g, x);
    DifferenceOfMultiples(g, x, y, k, q, interval, period);
    assert e % period == e - period * q;
    MultipleBelow(g, k * x - y * q, y);
  }

  lemma FitsFrom(on: int, off: int, interval: int, g: int, before: int, e: int)
    requires on > 0 && off > 0 && 0 < interval <= off && interval < on + g
    requires e == before + interval && PhaseAt(on + off, before) <= on + off - g
    ensures !StepsOver(on, off, before, e)
  {
  }

  lemma FittingStep(on: int, off: int, interval: int, k: nat)
    requires on > 0 && off > 0 && interval > 0 && GridFits(on, off, interval)
    ensures !StepsOver(on, off, k * interval, (k + 1) * interval)
  {
    var e := k * interval;
    GridPhase(interval, on + off, k);
    NextSample(k, interval);
    CycleIsQuotient(on + off, e);
    FitsFrom(on, off, interval, Euclid(interval, on + off), e, (k + 1) * interval);
  }

  /** On a clock whose interval fits, no cycle is missed, however long it runs. */
  lemma FittingGridIsCounted(on: int, off: int, interval: int, n: nat)
    requires on > 0 && off > 0 && interval > 0 && GridFits(on, off, interval)
    ensures NoneMissed(on, off, Grid(interval, n))
  {
    var es := Grid(interval, n);
    forall k, l | 0 <= k < n - 1 && l == k + 1
      ensures !StepsOver(on, off, es[k], es[l])
    {
      FittingStep(on, off, interval, k);
    }
    GridIsSampling(interval, n);
    NoneMissedIff(on, off, es);
  }

  /** After y samples the first phase comes back; the sample before lies one interval before it. */
  lemma BeforeRepeat(g: int, x: int, y: int, interval: int, period: int)
    requires interval == g * x && period == g * y
    ensures (y - 1) * interval == period * (x - 1) + (period - interval)
  {
    assert y * (g * x) == (g * y) * x;
    assert (y - 1) * interval == y * interval - interval;
    assert period * (x - 1) == period * x - period;
  }

  lemma PositiveFactor(g: int, y: nat, period: int)
    requires period > 0 && period == g * y
    ensures y > 0
  {
  }

  /** From the last interval of a cycle that lies in its on part, the off part is stepped over. */
  lemma OverOff(on: int, off: int, interval: int, before: int, q: int)
    requires on > 0 && off > 0 && off < interval < on + off && before >= 0
    requires before == (on + off) * q + (on + off - interval)
    ensures StepsOver(on, off, before, before + interval)
  {
    QuotientUnique(before, on + off, q, on + off - interval);
    CycleIsQuotient(on + off, before);
  }

  /** An interval longer than the off part steps over one, at the latest on the way to the first repeated phase. */
  lemma StepsOverOff(on: int, off: int, interval: int, x: nat, y: nat) returns (k: nat)
    requires on > 0 && off > 0 && interval > off && InDivisors(interval, on + off, x, y)
    ensures k < y && StepsOver(on, off, k * interval, (k + 1) * interval)
  {
    var p, g := on + off, Euclid(interval, on + off);
    PositiveFactor(g, y, p);
    if interval >= p {
      k := 0;
      StartIsOn(on, off);
    } else {
      k := y - 1;
      NextSample(k, interval);
      BeforeRepeat(g, x, y, interval, p);
      OverOff(on, off, interval, k * interval, x - 1);
    }
  }

  lemma LastPhase(x: int, y: int, u: int, v: int, k: int, t: int)
    requires x * u + y * v == 1 && -u == y * t + k
    ensures k * x == y * (v - t * x) - 1
  {
    assert (-u) * x == (y * t) * x + k * x;
    assert y * (v - t * x) == y * v - (y * t) * x;
  }

  lemma DivideThrough(g: int, x: int, y: int, u: int, v: int)
    requires g > 0 && g == (g * x) * u + (g * y) * v
    ensures x * u + y * v == 1
  {
    var one := x * u + y * v;
    assert g * one == g;
    MultipleBounds(g, one - 1);
    assert g * (one - 1) == 0;
  }

  /** Some sample before the phases repeat lies one common divisor before the end of a cycle. */
  lemma ReachesLastPhase(g: int, x: nat, y: nat, u: int, v: int, interval: int, period: int) returns (k: nat, q: int)
    requires g > 0 && y > 0 && interval == g * x && period == g * y && g == interval * u + period * v
    ensures k < y && k * interval == period * q + (period - g)
  {
    k := (-u) % y;
    var t := (-u) / y;
    DivideThrough(g, x, y, u, v);
    LastPhase(x, y, u, v, k, t);
    q := v - t * x - 1;
    Rescale(g, x, y, k, q + 1, interval, period);
  }

  lemma Rescale(g: int, x: int, y: int, k: int, r: int, interval: int, period: int)
    requires interval == g * x && period == g * y && k * x == y * r - 1
    ensures k * interval == period * (r - 1) + (period - g)
  {
    assert k * (g * x) == g * (k * x);
    assert (g * y) * r == g * (y * r);
    assert period * (r - 1) == period * r - period;
  }

  /** An interval too long for the on part steps over one, from one common divisor before the end of a cycle. */
  lemma StepsOverOn(on: int, off: int, interval: int, x: nat, y: nat) returns (k: nat)
    requires on > 0 && off > 0 && 0 < interval <= off && interval >= on + Euclid(interval, on + off)
    requires InDivisors(interval, on + off, x, y)
    ensures k < y && StepsOver(on, off, k * interval, (k + 1) * interval)
  {
    var p, g := on + off, Euclid(interval, on + off);
    GridPhase(interval, p, 0);
    var u, v := Bezout(interval, p);
    PositiveFactor(g, y, p);
    var q;
    k, q := ReachesLastPhase(g, x, y, u, v, interval, p);
    NextSample(k, interval);
    QuotientUnique(k * interval, p, q, p - g);
    CycleIsQuotient(p, k * interval);
  }

  /**
   On an epoch clock that runs past the first repeated phase, no cycle is missed exactly when the interval fits
   both parts of the cycle.
   */
  lemma NeverMissesIff(on: int, off: int, interval: int, x: nat, y: nat, n: nat)
    requires on > 0 && off > 0 && interval > 0 && InDivisors(interval, on + off, x, y) && n > y
    ensures NoneMissed(on, off, Grid(interval, n)) <==> GridFits(on, off, interval)
  {
    if GridFits(on, off, interval) {
      FittingGridIsCounted(on, off, interval, n);
    } else {
      var k;
      if interval > off {
        k := StepsOverOff(on, off, interval, x, y);
      } else {
        k := StepsOverOn(on, off, interval, x, y);
      }
      var es := Grid(interval, n);
      assert es[k] == k * interval && es[k + 1] == (k + 1) * interval;
      GridIsSampling(interval, n);
      NoneMissedIff(on, off, es);
    }
  }

  // ---------- The counters count the events ----------

  function Elapsed(start: Time, times: seq<Time>): seq<int> {
    seq(|times|, k requires 0 <= k < |times| => Abs(times[k]) - Abs(start))
  }

  /** What a run remembers and has counted, in terms of the states it has sampled. */
  predicate CountsEvents(c: Config, r: Running, ons: seq<bool>) {
    var (m, n) := (r.memory, r.counts);
    && m.have == (|ons| > 0)
    && (|ons| > 0 ==> m.lastAvailable == ons[|ons| - 1])
    && (|ons| > 0 ==> m.lastPowered == (c.Rea? || m.lastAvailable))
    && n.signalOn == OnEvents(ons) && n.signalOff == OffEvents(ons)
    && n.powerOn == (if c.Ttff? then n.signalOn else One(|ons| > 0))
    && n.powerOff == (if c.Ttff? then n.signalOff else 0)
  }

  /** The state of an epoch, for a scenario with cycles. */
  predicate StateIs(c: Config, m: Memory, s: EpochState, isOn: bool) {
    && s.available == isOn && s.powered == (c.Rea? || isOn)
    && s.signalOn == (isOn && (!m.have || !m.lastAvailable))
    && s.signalOff == (m.have && m.lastAvailable && !isOn)
    && s.powerOn == (s.powered && (!m.have || !m.lastPowered))
    && s.powerOff == (m.have && m.lastPowered && !s.powered)
  }

  lemma StateOfEpoch(c: Config, start: Time, m: Memory, now: Time)
    requires ValidConfig(c) && !c.Steady? && Valid(start) && Updated(c, start, m, now).Some?
    ensures StateIs(c, m, Updated(c, start, m, now).value, IsOn(c.on, c.off, Abs(now) - Abs(start)))
  {
    DifferenceExact(now, start);
    CycleIsQuotient(c.on + c.off, Abs(now) - Abs(start));
  }

  lemma EpochCounts(c: Config, start: Time, r: Running, ons: seq<bool>, now: Time, work: Work, isOn: bool)
    requires ValidConfig(c) && !c.Steady? && Valid(start) && Epoch(c, start, r, now, work).ok
    requires isOn == IsOn(c.on, c.off, Abs(now) - Abs(start)) && r.ok && CountsEvents(c, r, ons)
    ensures CountsEvents(c, Epoch(c, start, r, now, work), ons + [isOn])
  {
    StateOfEpoch(c, start, r.memory, now);
    EventsOfMore(ons, isOn);
  }

  /** The states sampled at a list of times. */
  function Sampled(c: Config, start: Time, times: seq<Time>): seq<bool>
    requires ValidConfig(c) && !c.Steady?
  {
    Ons(c.on, c.off, Elapsed(start, times))
  }

  lemma SampledMore(c: Config, start: Time, times: seq<Time>, last: nat)
    requires ValidConfig(c) && !c.Steady? && |times| == last + 1
    ensures Sampled(c, start, times)
         == Sampled(c, start, times[..last]) + [IsOn(c.on, c.off, Abs(times[last]) - Abs(start))]
  {
    assert Elapsed(start, times) == Elapsed(start, times[..last]) + [Abs(times[last]) - Abs(start)];
    OnsOfMore(c.on, c.off, Elapsed(start, times[..last]), Abs(times[last]) - Abs(start));
  }

  lemma RunStep(c: Config, start: Time, times: seq<Time>, work: seq<Work>)
    requires ValidConfig(c) && |work| == |times| && |times| > 0 && RunOf(c, start, times, work).ok
    ensures var last := |times| - 1;
            && RunOf(c, start, times[..last], work[..last]).ok
            && RunOf(c, start, times, work)
            == Epoch(c, start, RunOf(c, start, times[..last], work[..last]), times[last], work[last])
  {
  }

  /** The events counted in a successful run are those of the states it has sampled. */
  lemma {:induction false} CountersAreEvents(c: Config, start: Time, times: seq<Time>, work: seq<Work>, r: Running)
    requires ValidConfig(c) && !c.Steady? && |work| == |times| && Valid(start)
    requires r == RunOf(c, start, times, work) && r.ok
    ensures CountsEvents(c, r, Sampled(c, start, times))
    decreases |times|
  {
    if |times| > 0 {
      var last := |times| - 1;
      RunStep(c, start, times, work);
      var before := RunOf(c, start, times[..last], work[..last]);
      CountersAreEvents(c, start, times[..last], work[..last], before);
      SampledMore(c, start, times, last);
      EpochCounts(c, start, before, Sampled(c, start, times[..last]), times[last], work[last],
                  IsOn(c.on, c.off, Abs(times[last]) - Abs(start)));
    }
  }

  /** Times that advance by one interval from the start. */
  predicate OnClock(start: Time, interval: int, times: seq<Time>) {
    Elapsed(start, times) == Grid(interval, |times|)
  }

  /** The epochs of the simulator, at any of its sampling rates, are such times. */
  lemma EpochsAreOnClock(start: Time, rateHz: int, times: seq<Time>, interval: int)
    requires Valid(start) && SamplingInterval(rateHz) == Some(interval)
    requires forall k: nat :: k < |times| ==> EpochTime(start, rateHz, k) == Some(times[k])
    ensures interval > 0 && OnClock(start, interval, times)
  {
    forall k: nat | k < |times|
      ensures Elapsed(start, times)[k] == k * interval
    {
      assert EpochTime(start, rateHz, k) == Some(times[k]);
      AddExact(start, k * interval);
    }
  }

  /** The signal has come on once in each cycle begun, and has gone off as often, but for the one that is on. */
  predicate SeesEveryCycle(c: Config, n: Counters, elapsed: int)
    requires ValidConfig(c) && !c.Steady?
  {
    && n.signalOn == CycleAt(c.on + c.off, elapsed) + 1
    && n.signalOn - n.signalOff == One(IsOn(c.on, c.off, elapsed))
    && (c.Ttff? ==> n.powerOn == n.signalOn && n.powerOff == n.signalOff)
  }

  lemma SeenIffCounted(c: Config, r: Running, es: seq<int>)
    requires ValidConfig(c) && !c.Steady? && CountsEvents(c, r, Ons(c.on, c.off, es)) && |es| > 0
    ensures SeesEveryCycle(c, r.counts, es[|es| - 1]) <==> Counted(c.on, c.off, es)
  {
  }

  /** The counters of a run have seen every cycle, at each of its epochs. */
  predicate RunSees(c: Config, start: Time, times: seq<Time>, work: seq<Work>)
    requires ValidConfig(c) && !c.Steady? && |work| == |times|
  {
    var es := Elapsed(start, times);
    forall m :: 0 < m <= |times| ==> SeesEveryCycle(c, RunOf(c, start, times[..m], work[..m]).counts, es[m - 1])
  }

  lemma {:induction false} PrefixSucceeds(c: Config, start: Time, times: seq<Time>, work: seq<Work>, m: nat)
    requires ValidConfig(c) && |work| == |times| && m <= |times| && RunOf(c, start, times, work).ok
    ensures RunOf(c, start, times[..m], work[..m]).ok
    decreases |times|
  {
    if m < |times| {
      var last := |times| - 1;
      RunStep(c, start, times, work);
      assert times[..last][..m] == times[..m] && work[..last][..m] == work[..m];
      PrefixSucceeds(c, start, times[..last], work[..last], m);
    } else {
      assert times[..m] == times && work[..m] == work;
    }
  }

  lemma ElapsedOfPrefix(start: Time, times: seq<Time>, m: nat)
    requires m <= |times|
    ensures Elapsed(start, times[..m]) == Elapsed(start, times)[..m]
  {
  }

  lemma SeenAtIff(c: Config, r: Running, es: seq<int>, m: nat)
    requires ValidConfig(c) && !c.Steady? && 0 < m <= |es| && CountsEvents(c, r, Ons(c.on, c.off, es[..m]))
    ensures SeesEveryCycle(c, r.counts, es[m - 1]) <==> Counted(c.on, c.off, es[..m])
  {
    SeenIffCounted(c, r, es[..m]);
  }

  /** After each of its epochs a successful run has seen every cycle exactly when its samples have. */
  lemma RunSeesIff(c: Config, start: Time, times: seq<Time>, work: seq<Work>, es: seq<int>, m: nat)
    requires ValidConfig(c) && !c.Steady? && |work| == |times| && Valid(start) && 0 < m <= |times|
    requires RunOf(c, start, times, work).ok && es == Elapsed(start, times)
    ensures SeesEveryCycle(c, RunOf(c, start, times[..m], work[..m]).counts, es[m - 1])
        <==> Counted(c.on, c.off, es[..m])
  {
    PrefixSucceeds(c, start, times, work, m);
    ElapsedOfPrefix(start, times, m);
    var r := RunOf(c, start, times[..m], work[..m]);
    CountersAreEvents(c, start, times[..m], work[..m], r);
    SeenAtIff(c, r, es, m);
  }

  lemma RunSeesEach(c: Config, start: Time, times: seq<Time>, work: seq<Work>, es: seq<int>)
    requires ValidConfig(c) && !c.Steady? && |work| == |times| && Valid(start) && RunOf(c, start, times, work).ok
    requires es == Elapsed(start, times)
    ensures RunSees(c, start, times, work) <==> NoneMissed(c.on, c.off, es)
  {
    forall m: nat | 0 < m <= |times|
      ensures SeesEveryCycle(c, RunOf(c, start, times[..m], work[..m]).counts, es[m - 1])
          <==> Counted(c.on, c.off, es[..m])
    {
      RunSeesIff(c, start, times, work, es, m);
    }
  }

  /** A successful run misses no cycle exactly when no two epochs in a row step over a part of the cycle. */
  lemma RunSeesUnlessStepsOver(c: Config, start: Time, times: seq<Time>, work: seq<Work>)
    requires ValidConfig(c) && !c.Steady? && |work| == |times| && Valid(start) && RunOf(c, start, times, work).ok
    requires Sampling(Elapsed(start, times))
    ensures RunSees(c, start, times, work) <==> NoStepOver(c.on, c.off, Elapsed(start, times))
  {
    RunSeesEach(c, start, times, work, Elapsed(start, times));
    NoneMissedIff(c.on, c.off, Elapsed(start, times));
  }

  lemma ClockSeesEach(c: Config, start: Time, interval: int, times: seq<Time>, work: seq<Work>)
    requires ValidConfig(c) && !c.Steady? && |work| == |times| && Valid(start) && RunOf(c, start, times, work).ok
    requires OnClock(start, interval, times)
    ensures RunSees(c, start, times, work) <==> NoneMissed(c.on, c.off, Grid(interval, |times|))
  {
    RunSeesEach(c, start, times, work, Grid(interval, |times|));
  }

  /** A successful run on a clock whose interval fits the cycle misses no cycle. */
  lemma EveryCycleIsSeen(c: Config, start: Time, interval: int, times: seq<Time>, work: seq<Work>)
    requires ValidConfig(c) && !c.Steady? && |work| == |times| && Valid(start) && RunOf(c, start, times, work).ok
    requires interval > 0 && OnClock(start, interval, times) && GridFits(c.on, c.off, interval)
    ensures RunSees(c, start, times, work)
  {
    FittingGridIsCounted(c.on, c.off, interval, |times|);
    ClockSeesEach(c, start, interval, times, work);
  }

  /** After how many samples their phases repeat: how often the period holds its common divisor with the interval. */
  function PhaseCount(interval: int, period: int): int
    requires interval > 0 && period > 0
  {
    EuclidPositive(interval, period);
    CycleAt(Euclid(interval, period), period)
  }

  lemma LongClockIff(on: int, off: int, interval: int, n: nat)
    requires on > 0 && off > 0 && interval > 0 && n > PhaseCount(interval, on + off)
    ensures NoneMissed(on, off, Grid(interval, n)) <==> GridFits(on, off, interval)
  {
    var x, y := EuclidDivides(interval, on + off);
    var g := Euclid(interval, on + off);
    CycleIsQuotient(g, on + off);
    QuotientUnique(on + off, g, y, 0);
    NeverMissesIff(on, off, interval, x, y, n);
  }

  /** For a run that goes on past the first repeated phase that is the only way. */
  lemma LongRunSeesIff(c: Config, start: Time, interval: int, times: seq<Time>, work: seq<Work>)
    requires ValidConfig(c) && !c.Steady? && |work| == |times| && Valid(start) && RunOf(c, start, times, work).ok
    requires interval > 0 && OnClock(start, interval, times)
    requires |times| > PhaseCount(interval, c.on + c.off)
    ensures RunSees(c, start, times, work) <==> GridFits(c.on, c.off, interval)
  {
    LongClockIff(c.on, c.off, interval, |times|);
    ClockSeesEach(c, start, interval, times, work);
  }

  /** Times that do not go back, none of them too late for its difference from the start. */
  predicate InReach(start: Time, times: seq<Time>) {
    && Valid(start)
    && (forall k :: 0 <= k < |times| ==>
          Valid(times[k]) && Abs(start) <= Abs(times[k]) && times[k].week - start.week <= 15249)
    && (forall k, l :: 0 <= k < |times| - 1 && l == k + 1 ==> Abs(times[k]) <= Abs(times[l]))
  }

  predicate AllLogged(work: seq<Work>) { forall k :: 0 <= k < |work| ==> work[k].Logs? && work[k].written >= 4 }

  lemma InReachDifference(start: Time, now: Time)
    requires Valid(start) && Valid(now) && Abs(start) <= Abs(now) && now.week - start.week <= 15249
    ensures Difference(now, start).Some? && Difference(now, start).value >= 0 && Compare(now, start) >= 0
  {
    CompareIsOrder(now, start);
    LaterDifference(now, start);
  }

  lemma EpochSucceeds(c: Config, start: Time, r: Running, now: Time, work: Work)
    requires ValidConfig(c) && Valid(start) && Valid(now) && Abs(start) <= Abs(now) && now.week - start.week <= 15249
    requires r.ok && (r.memory.have ==> Valid(r.memory.lastTime) && Abs(r.memory.lastTime) <= Abs(now))
    requires work.Logs? && work.written >= 4
    ensures var next := Epoch(c, start, r, now, work);
            next.ok && next.memory.have && next.memory.lastTime == now
  {
    InReachDifference(start, now);
    if r.memory.have {
      CompareIsOrder(now, r.memory.lastTime);
    }
  }

  /** A run whose epochs are in reach and all logged does not fail. */
  lemma {:induction false} RunSucceeds(c: Config, start: Time, times: seq<Time>, work: seq<Work>)
    requires ValidConfig(c) && |work| == |times| && InReach(start, times) && AllLogged(work)
    ensures RunOf(c, start, times, work).ok
    ensures |times| > 0 ==> RunOf(c, start, times, work).memory.lastTime == times[|times| - 1]
    ensures RunOf(c, start, times, work).memory.have == (|times| > 0)
    decreases |times|
  {
    if |times| > 0 {
      var last := |times| - 1;
      RunSucceeds(c, start, times[..last], work[..last]);
      EpochSucceeds(c, start, RunOf(c, start, times[..last], work[..last]), times[last], work[last]);
    }
  }

  const FOUR_SECONDS: seq<int> := [0, 1_000_000_000, 2_000_000_000, 3_000_000_000]

  /** The first four epochs at 1 Hz are such times, from any start that leaves room for them. */
  lemma FourEpochs(start: Time, times: seq<Time>)
    requires Valid(start) && |times| == 4 && forall k: nat :: k < 4 ==> EpochTime(start, 1, k) == Some(times[k])
    ensures InReach(start, times) && Elapsed(start, times) == FOUR_SECONDS
  {
    forall k: nat | k < 4
      ensures Valid(times[k]) && Abs(times[k]) == Abs(start) + k * 1_000_000_000
      ensures times[k].week - start.week <= 15249
    {
      assert EpochTime(start, 1, k) == Some(times[k]);
      AddExact(start, k * 1_000_000_000);
      assert (times[k].week - start.week) * WEEK + (times[k].tow - start.tow) == k * 1_000_000_000;
    }
  }

  lemma MissesAt(c: Config, start: Time, times: seq<Time>, work: seq<Work>, es: seq<int>, k: nat)
    requires ValidConfig(c) && !c.Steady? && |work| == |times| && Valid(start) && RunOf(c, start, times, work).ok
    requires es == Elapsed(start, times) && Sampling(es) && k + 1 < |es| && StepsOver(c.on, c.off, es[k], es[k + 1])
    ensures !RunSees(c, start, times, work)
  {
    NoneMissedIff(c.on, c.off, es);
    RunSeesEach(c, start, times, work, es);
  }

  lemma OverOnPart()
    ensures StepsOver(400_000_000, 2_000_000_000, FOUR_SECONDS[2], FOUR_SECONDS[3]) && Sampling(FOUR_SECONDS)
  {
  }

  /**
   Four epochs a second apart, of a signal that is on for 0.4 s and off for 2 s: the run succeeds, and the
   second cycle goes by unseen.
   */
  lemma ShortCycleMissed(c: Config, start: Time, times: seq<Time>, work: seq<Work>)
    requires c == Rea(400_000_000, 2_000_000_000) && |times| == |work| && AllLogged(work)
    requires InReach(start, times) && Elapsed(start, times) == FOUR_SECONDS
    ensures RunOf(c, start, times, work).ok && !RunSees(c, start, times, work)
  {
    RunSucceeds(c, start, times, work);
    OverOnPart();
    MissesAt(c, start, times, work, FOUR_SECONDS, 2);
  }
}
