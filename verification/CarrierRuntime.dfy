/**
 The carrier tracker driven by receiver epochs: each epoch is cut into steps no longer than the coherent
 integration time, one Gaussian sample is drawn for each, and every loss of phase lock starts a new phase
 segment with another ambiguity.

 The generator of a signal is the sequence of samples it produces, of which `drawn` have been used, and
 the 64-bit mixing that picks an ambiguity is a parameter.
 */
module CarrierRuntime {
  import opened Wrappers
  import opened SimTime
  import opened Decibel
  import opened Carrier
  import opened RealSums
  import opened Reals

  /** Machine epsilon, 2 to the power -52: a rest below it ends an epoch. */
  const EPSILON: real := 1.0 / 4503599627370496.0

  function NormalizedCn0(cn0: Cn0): Option<real> {
    match cn0
    case NegativeInfinity => Some(-120.0)
    case Finite(value) => Some(value)
    case NotUsable => None
  }

  /** What stays fixed for one signal. */
  datatype Setting = Setting(core: Config, filter: Filter, samples: nat -> real, mix: nat -> nat)

  datatype View = View(
    tracking: State, drawn: nat, lastTime: Time, phaseSegment: nat, offset: int, timeKnown: bool)

  datatype Outcome = Outcome(report: Report, phaseSegment: nat, offset: int, slip: bool)

  datatype Call = Call(time: Time, codeTracking: bool, cn0: Cn0, wavelength: real)

  /** The ambiguity of a phase segment: zero for the first one only, at most 100000 cycles either way. */
  function CycleOffset(mix: nat -> nat, segment: nat): (offset: int)
    ensures -100000 <= offset <= 100000
    ensures offset == 0 <==> segment == 0
  {
    if segment == 0 then 0
    else var offset := mix(segment) % 200001 - 100000; if offset == 0 then 1 else offset
  }

  /** Any later segment has the ambiguity its mixed number gives, spread over all of them, but one cycle for zero. */
  lemma OffsetOfMix(mix: nat -> nat, segment: nat, cycles: int)
    requires segment > 0 && -100000 <= cycles <= 100000
    ensures CycleOffset(mix, segment) == cycles <==>
            || (cycles != 0 && mix(segment) % 200001 == cycles + 100000)
            || (cycles == 1 && mix(segment) % 200001 == 100000)
  {
  }

  function UnlockedReport(v: View): Report {
    Report(Unlocked, NoPhase, 0.0, 0.0, 0.0, 0.0, v.tracking.segment, false, false, false, false)
  }

  function OutcomeOf(v: View, report: Report, slip: bool): Outcome {
    Outcome(report, v.phaseSegment, v.offset, slip)
  }

  const START: View := View(RESET, 0, Time(0, 0), 0, 0, false)

  /** A reset keeps the generator where it is. */
  function Restarted(v: View): View { START.(drawn := v.drawn) }

  // ---------- Cutting an epoch into steps ----------

  lemma Quotient(a: real, b: real, q: real)
    requires b > 0.0 && q * b == a
    ensures a / b == q
  {
    assert (a / b - q) * b == 0.0;
  }

  lemma FloorDrops(step: real, remaining: real)
    requires step > 0.0 && remaining >= step
    ensures ((remaining - step) / step).Floor == (remaining / step).Floor - 1
    ensures (remaining / step).Floor >= 1
  {
    var q := remaining / step;
    assert (q - 1.0) * step == remaining - step;
    Quotient(remaining - step, step, q - 1.0);
    assert remaining / step >= 1.0;
  }

  function StepCount(step: real, remaining: real): int
    requires step > 0.0
  {
    if remaining <= 0.0 then 0 else 1 + (remaining / step).Floor
  }

  function Rest(step: real, remaining: real): real {
    var left := remaining - Smaller(remaining, step);
    if left < EPSILON then 0.0 else left
  }

  lemma RestShrinks(step: real, remaining: real)
    requires step > 0.0 && remaining > 0.0
    ensures 0 <= StepCount(step, Rest(step, remaining)) < StepCount(step, remaining)
    ensures 0.0 <= Rest(step, remaining) < remaining
  {
    assert remaining / step >= 0.0;
    if Rest(step, remaining) > 0.0 {
      assert Rest(step, remaining) == remaining - step;
      FloorDrops(step, remaining);
      assert (remaining - step) / step >= 0.0;
    }
  }

  /** The time steps of an epoch. */
  function SubSteps(step: real, remaining: real): seq<real>
    requires step > 0.0
    decreases StepCount(step, remaining)
  {
    if remaining <= 0.0 then []
    else
      RestShrinks(step, remaining);
      assert StepCount(step, remaining) > 0;
      [Smaller(remaining, step)] + SubSteps(step, Rest(step, remaining))
  }

  function Sum(steps: seq<real>): real { if |steps| == 0 then 0.0 else steps[0] + Sum(steps[1..]) }

  /** The steps are positive, no longer than allowed, and lose less than machine epsilon of the epoch. */
  lemma {:induction false} SubStepsCover(step: real, remaining: real)
    requires step > 0.0 && remaining >= 0.0
    ensures forall dt <- SubSteps(step, remaining) :: 0.0 < dt <= step
    ensures Sum(SubSteps(step, remaining)) <= remaining < Sum(SubSteps(step, remaining)) + EPSILON
    decreases StepCount(step, remaining)
  {
    if remaining > 0.0 {
      RestShrinks(step, remaining);
      SubStepsCover(step, Rest(step, remaining));
      var rest := SubSteps(step, Rest(step, remaining));
      assert SubSteps(step, remaining)[1..] == rest;
    }
  }

  /** Cutting at a whole number of steps does not change the steps. */
  lemma {:induction false} SubStepsSplit(step: real, k: nat, later: real)
    requires step >= EPSILON && later >= EPSILON
    ensures SubSteps(step, Multiple(k, step) + later) == SubSteps(step, Multiple(k, step)) + SubSteps(step, later)
  {
    if k > 0 {
      MultipleGrows(k - 1, step);
      SubStepsSplit(step, k - 1, later);
      assert Rest(step, Multiple(k, step) + later) == Multiple(k - 1, step) + later;
      assert Rest(step, Multiple(k, step)) == Multiple(k - 1, step);
    }
  }

  /** Before a later part, every whole step of an earlier one is taken, however short the step. */
  lemma {:induction false} LeadingSteps(step: real, k: nat, later: real)
    requires step > 0.0 && later >= EPSILON
    ensures |SubSteps(step, Multiple(k, step) + later)| == k + |SubSteps(step, later)|
  {
    if k > 0 {
      MultipleGrows(k - 1, step);
      LeadingSteps(step, k - 1, later);
      assert Rest(step, Multiple(k, step) + later) == Multiple(k - 1, step) + later;
    }
  }

  /** By themselves, two or more steps shorter than machine epsilon lose at least one. */
  lemma {:induction false} TrailingStepsMerge(step: real, k: nat)
    requires 0.0 < step < EPSILON && k >= 2
    ensures |SubSteps(step, Multiple(k, step))| < k
  {
    MultipleGrows(k - 1, step);
    assert Multiple(k, step) == Multiple(k - 1, step) + step;
    if k == 2 {
      assert Multiple(1, step) == Multiple(0, step) + step;
      assert Rest(step, Multiple(2, step)) == 0.0;
      assert SubSteps(step, 0.0) == [];
    } else if Multiple(k - 1, step) >= EPSILON {
      TrailingStepsMerge(step, k - 1);
      assert Rest(step, Multiple(k, step)) == Multiple(k - 1, step);
    } else {
      assert Rest(step, Multiple(k, step)) == 0.0;
      assert SubSteps(step, 0.0) == [];
    }
  }

  /** A whole span takes as many steps as its parts exactly when the step is at least machine epsilon. */
  lemma StepCountsSplitIff(step: real, k: nat, e1: int, e2: int)
    requires step > 0.0 && e1 > 0 && e2 > 0 && Seconds(e1) == Multiple(k, step)
    ensures |SubSteps(step, Seconds(e1 + e2))| == |SubSteps(step, Seconds(e1))| + |SubSteps(step, Seconds(e2))|
        <==> step >= EPSILON
  {
    assert Seconds(e1 + e2) == Seconds(e1) + Seconds(e2);
    assert Seconds(e1) >= EPSILON && Seconds(e2) >= EPSILON;
    LeadingSteps(step, k, Seconds(e2));
    if step >= EPSILON {
      SubStepsSplit(step, k, Seconds(e2));
    } else {
      assert k >= 2 by {
        assert Multiple(0, step) == 0.0 && Multiple(1, step) == Multiple(0, step) + step;
      }
      TrailingStepsMerge(step, k);
    }
  }

  // ---------- One epoch ----------

  datatype Progress = Progress(view: View, report: Report, slip: bool, ok: bool)

  function SubStep(g: Setting, cn0: real, wavelength: real, p: Progress, dt: real): Progress {
    if !p.ok then p
    else
      var tick := Tick(true, cn0, dt);
      var v := p.view.(drawn := p.view.drawn + 1);
      var moved := Moved(g.core, v.tracking, tick);
      match Filtered(g.filter, moved, tick, wavelength, g.samples(p.view.drawn))
      case None => p.(view := v.(tracking := moved), ok := false)
      case Some(s) =>
        var lost := v.tracking.mode.Pll? && !s.mode.Pll?;
        var segment := if lost then v.phaseSegment + 1 else v.phaseSegment;
        Progress(v.(tracking := s, phaseSegment := segment,
                    offset := if lost then CycleOffset(g.mix, segment) else v.offset),
                 ReportOf(g.core, v.tracking.mode, s, wavelength), p.slip || lost, true)
  }

  function Batch(g: Setting, cn0: real, wavelength: real, p: Progress, steps: seq<real>): Progress
    decreases |steps|
  {
    if |steps| == 0 then p else Batch(g, cn0, wavelength, SubStep(g, cn0, wavelength, p, steps[0]), steps[1..])
  }

  datatype After = After(view: View, outcome: Option<Outcome>)

  function Epoch(g: Setting, cn0: real, v: View, wavelength: real, elapsed: int): Progress
    requires g.core.coherent > 0.0
  {
    Batch(g, cn0, wavelength, Progress(v, UnlockedReport(v), false, true), SubSteps(g.core.coherent, Seconds(elapsed)))
  }

  predicate Accepts(g: Setting, call: Call) {
    ValidConfig(g.core) && call.wavelength > 0.0 && NormalizedCn0(call.cn0).Some?
  }

  function Finished(p: Progress, time: Time): After {
    if !p.ok then After(p.view, None)
    else
      var w := p.view.(lastTime := time);
      After(w, Some(OutcomeOf(w, p.report, p.slip)))
  }

  function Updated(g: Setting, v: View, call: Call): After {
    if !Accepts(g, call) then After(v, None)
    else if !call.codeTracking then
      var w := Restarted(v);
      After(w, Some(OutcomeOf(w, UnlockedReport(w), false)))
    else if !v.timeKnown then
      var w := v.(lastTime := call.time, timeKnown := true);
      After(w, Some(OutcomeOf(w, UnlockedReport(w), false)))
    else
      var elapsed := Difference(call.time, v.lastTime);
      if elapsed == None || elapsed.value <= 0 then After(v, None)
      else
        Finished(Epoch(g, NormalizedCn0(call.cn0).value, v, call.wavelength, elapsed.value), call.time)
  }

  /** The runtime state of one signal. */
  class Runtime {
    const tracker: Tracker
    var drawn: nat
    var lastTime: Time
    var phaseSegment: nat
    var offset: int
    var timeKnown: bool

    function Contents(): View
      reads this, tracker
    {
      View(tracker.View(), drawn, lastTime, phaseSegment, offset, timeKnown)
    }

    constructor ()
      ensures Contents() == START && fresh(tracker)
    {
      tracker := new Tracker();
      drawn, lastTime, phaseSegment, offset, timeKnown := 0, Time(0, 0), 0, 0, false;
    }

    method Restart()
      modifies this, tracker
      ensures Contents() == Restarted(old(Contents()))
    {
      tracker.Reset();
      lastTime, phaseSegment, offset, timeKnown := Time(0, 0), 0, 0, false;
    }

    /** One step: a sample, the tracker, and a new phase segment when phase lock was lost. */
    method Step(g: Setting, cn0: real, wavelength: real, dt: real, ghost p: Progress)
      returns (report: Option<Report>, lost: bool)
      requires ValidConfig(g.core) && wavelength > 0.0 && dt > 0.0
      requires p.ok && p.view == Contents()
      modifies this, tracker
      ensures SubStep(g, cn0, wavelength, p, dt) ==
              if report == None then Progress(Contents(), p.report, p.slip, false)
              else Progress(Contents(), report.value, p.slip || lost, true)
    {
      var wasPll := tracker.mode.Pll?;
      var sample := g.samples(drawn);
      drawn := drawn + 1;
      report := tracker.Update(g.core, g.filter, Tick(true, cn0, dt), wavelength, sample);
      if report == None {
        return None, false;
      }
      lost := wasPll && !report.value.mode.Pll?;
      if lost {
        phaseSegment := phaseSegment + 1;
        offset := CycleOffset(g.mix, phaseSegment);
      }
    }

    method Advance(g: Setting, cn0: real, wavelength: real, elapsed: int)
      returns (report: Report, slip: bool, ok: bool)
      requires ValidConfig(g.core) && wavelength > 0.0 && elapsed > 0
      modifies this, tracker
      ensures Epoch(g, cn0, old(Contents()), wavelength, elapsed) == Progress(Contents(), report, slip, ok)
    {
      var remaining := Seconds(elapsed);
      report, slip, ok := UnlockedReport(Contents()), false, true;
      ghost var goal := Epoch(g, cn0, Contents(), wavelength, elapsed);
      while remaining > 0.0
        invariant ok
        invariant Batch(g, cn0, wavelength, Progress(Contents(), report, slip, ok),
                        SubSteps(g.core.coherent, remaining)) == goal
        decreases StepCount(g.core.coherent, remaining)
      {
        RestShrinks(g.core.coherent, remaining);
        ghost var steps := SubSteps(g.core.coherent, remaining);
        var dt := Smaller(remaining, g.core.coherent);
        assert steps[0] == dt && steps[1..] == SubSteps(g.core.coherent, Rest(g.core.coherent, remaining));
        var update, lost := Step(g, cn0, wavelength, dt, Progress(Contents(), report, slip, ok));
        if update == None {
          ok := false;
          StoppedStays(g, cn0, wavelength, Progress(Contents(), report, slip, false), steps[1..]);
          return;
        }
        report := update.value;
        slip := slip || lost;
        remaining := remaining - dt;
        if remaining < EPSILON {
          remaining := 0.0;
        }
      }
    }

    method Update(g: Setting, call: Call) returns (outcome: Option<Outcome>)
      modifies this, tracker
      ensures After(Contents(), outcome) == Updated(g, old(Contents()), call)
    {
      if !Accepts(g, call) {
        return None;
      }
      if !call.codeTracking {
        Restart();
        return Some(OutcomeOf(Contents(), UnlockedReport(Contents()), false));
      }
      if !timeKnown {
        lastTime, timeKnown := call.time, true;
        return Some(OutcomeOf(Contents(), UnlockedReport(Contents()), false));
      }
      var elapsed := Difference(call.time, lastTime);
      if elapsed == None || elapsed.value <= 0 {
        return None;
      }
      var report, slip, ok := Advance(g, NormalizedCn0(call.cn0).value, call.wavelength, elapsed.value);
      if !ok {
        return None;
      }
      lastTime := call.time;
      outcome := Some(OutcomeOf(Contents(), report, slip));
    }
  }

  // ---------- Batches ----------

  lemma {:induction false} StoppedStays(g: Setting, cn0: real, wavelength: real, p: Progress, steps: seq<real>)
    requires !p.ok
    ensures Batch(g, cn0, wavelength, p, steps) == p
    decreases |steps|
  {
    if |steps| > 0 {
      StoppedStays(g, cn0, wavelength, p, steps[1..]);
    }
  }

  lemma {:induction false} BatchConcat(
    g: Setting, cn0: real, wavelength: real, p: Progress, first: seq<real>, second: seq<real>)
    ensures Batch(g, cn0, wavelength, p, first + second)
         == Batch(g, cn0, wavelength, Batch(g, cn0, wavelength, p, first), second)
    decreases |first|
  {
    if |first| == 0 {
      assert first + second == second;
    } else {
      assert (first + second)[1..] == first[1..] + second;
      BatchConcat(g, cn0, wavelength, SubStep(g, cn0, wavelength, p, first[0]), first[1..], second);
    }
  }

  /** The report, the slip flag and the time stamp a batch starts from have no effect on the rest of its result. */
  lemma {:induction false} BatchStart(g: Setting, cn0: real, wavelength: real, p: Progress, q: Progress,
                                      steps: seq<real>)
    requires p.ok && q.ok && p.view == q.view.(lastTime := p.view.lastTime) && !q.slip
    ensures var (x, y) := (Batch(g, cn0, wavelength, p, steps), Batch(g, cn0, wavelength, q, steps));
            x.view == y.view.(lastTime := p.view.lastTime) && x.ok == y.ok
            && (x.ok ==> x.slip == (p.slip || y.slip))
            && (|steps| > 0 && x.ok ==> x.report == y.report)
    decreases |steps|
  {
    if |steps| > 0 {
      var (a, b) := (SubStep(g, cn0, wavelength, p, steps[0]), SubStep(g, cn0, wavelength, q, steps[0]));
      if a.ok {
        BatchStart(g, cn0, wavelength, a, b.(slip := false), steps[1..]);
        BatchStart(g, cn0, wavelength, b, b.(slip := false), steps[1..]);
        if |steps| == 1 {
          assert Batch(g, cn0, wavelength, a, steps[1..]) == a && Batch(g, cn0, wavelength, b, steps[1..]) == b;
        }
      } else {
        StoppedStays(g, cn0, wavelength, a, steps[1..]);
        StoppedStays(g, cn0, wavelength, b, steps[1..]);
      }
    }
  }

  lemma KeepsTime(g: Setting, cn0: real, wavelength: real, p: Progress, steps: seq<real>)
    ensures Batch(g, cn0, wavelength, p, steps).view.lastTime == p.view.lastTime
    decreases |steps|
  {
  }

  /** An epoch of two parts, the first a whole number of steps, is the two parts one after the other. */
  lemma EpochSplits(g: Setting, cn0: real, wavelength: real, v: View, w: View, k: nat, e1: int, e2: int)
    requires g.core.coherent >= EPSILON && e1 > 0 && e2 > 0 && Seconds(e1) == Multiple(k, g.core.coherent)
    requires w == Epoch(g, cn0, v, wavelength, e1).view.(lastTime := w.lastTime)
    ensures var whole := Epoch(g, cn0, v, wavelength, e1 + e2);
            var first := Epoch(g, cn0, v, wavelength, e1);
            if !first.ok then whole == first
            else
              var second := Epoch(g, cn0, w, wavelength, e2);
              && whole.view == second.view.(lastTime := v.lastTime)
              && whole.ok == second.ok
              && (whole.ok ==> whole.report == second.report && whole.slip == (first.slip || second.slip))
  {
    var step := g.core.coherent;
    var start := Progress(v, UnlockedReport(v), false, true);
    var head, tail := SubSteps(step, Seconds(e1)), SubSteps(step, Seconds(e2));
    assert Seconds(e1 + e2) == Seconds(e1) + Seconds(e2);
    SubStepsSplit(step, k, Seconds(e2));
    BatchConcat(g, cn0, wavelength, start, head, tail);
    var middle := Batch(g, cn0, wavelength, start, head);
    KeepsTime(g, cn0, wavelength, start, head);
    assert |tail| > 0;
    if middle.ok {
      BatchStart(g, cn0, wavelength, middle, Progress(w, UnlockedReport(w), false, true), tail);
    } else {
      StoppedStays(g, cn0, wavelength, middle, tail);
    }
  }

  /** `once` is `part` followed by `rest`, with the slip flags joined. */
  predicate Joins(once: After, part: After, rest: After) {
    && (once.outcome == None <==> rest.outcome == None)
    && (once.outcome.Some? && part.outcome.Some? && rest.outcome.Some? ==>
          && once.view == rest.view
          && once.outcome.value == rest.outcome.value.(slip := part.outcome.value.slip || rest.outcome.value.slip))
  }

  lemma UpdateIsEpoch(g: Setting, v: View, call: Call, elapsed: int)
    requires Accepts(g, call) && call.codeTracking && v.timeKnown
    requires Difference(call.time, v.lastTime) == Some(elapsed) && elapsed > 0
    ensures Updated(g, v, call) ==
            Finished(Epoch(g, NormalizedCn0(call.cn0).value, v, call.wavelength, elapsed), call.time)
  {
  }

  lemma ElapsedAdds(start: Time, middle: Time, end: Time)
    requires Difference(middle, start).Some? && Difference(end, middle).Some? && Difference(end, start).Some?
    ensures Difference(end, start).value == Difference(middle, start).value + Difference(end, middle).value
  {
    DifferenceExact(middle, start);
    DifferenceExact(end, middle);
    DifferenceExact(end, start);
  }

  lemma EpochKeepsTimeKnown(g: Setting, cn0: real, wavelength: real, p: Progress, steps: seq<real>)
    ensures Batch(g, cn0, wavelength, p, steps).view.timeKnown == p.view.timeKnown
    decreases |steps|
  {
  }

  /**
   One update over a span, or two over its parts: the same tracker, the same samples drawn, the same phase
   segment and report, and a slip exactly when one of the parts slips.  The first part must be a whole
   number of steps.
   */
  lemma BatchIndependence(g: Setting, v: View, first: Call, whole: Call, k: nat, e1: int, e2: int)
    requires Accepts(g, whole) && whole.codeTracking && first == whole.(time := first.time) && v.timeKnown
    requires g.core.coherent >= EPSILON
    requires Difference(whole.time, v.lastTime).Some?
    requires Difference(first.time, v.lastTime) == Some(e1) && e1 > 0
    requires Difference(whole.time, first.time) == Some(e2) && e2 > 0
    requires Seconds(e1) == Multiple(k, g.core.coherent)
    ensures var part := Updated(g, v, first);
            if part.outcome == None then Updated(g, v, whole) == part
            else Joins(Updated(g, v, whole), part, Updated(g, part.view, whole))
  {
    ElapsedAdds(v.lastTime, first.time, whole.time);
    UpdateIsEpoch(g, v, first, e1);
    UpdateIsEpoch(g, v, whole, e1 + e2);
    var cn0 := NormalizedCn0(whole.cn0).value;
    var p := Epoch(g, cn0, v, whole.wavelength, e1);
    if p.ok {
      var w := p.view.(lastTime := first.time);
      EpochKeepsTimeKnown(g, cn0, whole.wavelength, Progress(v, UnlockedReport(v), false, true),
                          SubSteps(g.core.coherent, Seconds(e1)));
      UpdateIsEpoch(g, w, whole, e2);
      EpochSplits(g, cn0, whole.wavelength, v, w, k, e1, e2);
    } else {
      EpochSplits(g, cn0, whole.wavelength, v, p.view, k, e1, e2);
    }
  }

  lemma {:induction false} BatchDraws(g: Setting, cn0: real, wavelength: real, p: Progress, steps: seq<real>)
    requires Batch(g, cn0, wavelength, p, steps).ok
    ensures p.ok && Batch(g, cn0, wavelength, p, steps).view.drawn == p.view.drawn + |steps|
    decreases |steps|
  {
    if |steps| > 0 {
      var q := SubStep(g, cn0, wavelength, p, steps[0]);
      BatchDraws(g, cn0, wavelength, q, steps[1..]);
    }
  }

  /** A successful update that moves the tracker on draws one sample for each of its steps. */
  lemma UpdateDraws(g: Setting, v: View, call: Call, elapsed: int)
    requires Accepts(g, call) && call.codeTracking && v.timeKnown
    requires Difference(call.time, v.lastTime) == Some(elapsed) && elapsed > 0
    requires Updated(g, v, call).outcome.Some?
    ensures Updated(g, v, call).view.drawn == v.drawn + |SubSteps(g.core.coherent, Seconds(elapsed))|
    ensures Updated(g, v, call).view.timeKnown && Updated(g, v, call).view.lastTime == call.time
  {
    UpdateIsEpoch(g, v, call, elapsed);
    var start := Progress(v, UnlockedReport(v), false, true);
    var steps := SubSteps(g.core.coherent, Seconds(elapsed));
    BatchDraws(g, NormalizedCn0(call.cn0).value, call.wavelength, start, steps);
    EpochKeepsTimeKnown(g, NormalizedCn0(call.cn0).value, call.wavelength, start, steps);
  }

  /**
   One update over a span and two over its parts, the first a whole number of steps: where all of them succeed
   they agree exactly when the coherent interval is at least machine epsilon.  Below it they already differ in
   the number of samples drawn.
   */
  lemma BatchIndependenceIff(g: Setting, v: View, first: Call, whole: Call, k: nat, e1: int, e2: int)
    requires Accepts(g, whole) && whole.codeTracking && first == whole.(time := first.time) && v.timeKnown
    requires Difference(whole.time, v.lastTime).Some?
    requires Difference(first.time, v.lastTime) == Some(e1) && e1 > 0
    requires Difference(whole.time, first.time) == Some(e2) && e2 > 0
    requires Seconds(e1) == Multiple(k, g.core.coherent)
    requires Updated(g, v, whole).outcome.Some? && Updated(g, v, first).outcome.Some?
    requires Updated(g, Updated(g, v, first).view, whole).outcome.Some?
    ensures Updated(g, v, whole).view.drawn == Updated(g, Updated(g, v, first).view, whole).view.drawn
        <==> g.core.coherent >= EPSILON
    ensures Joins(Updated(g, v, whole), Updated(g, v, first), Updated(g, Updated(g, v, first).view, whole))
        <==> g.core.coherent >= EPSILON
  {
    ElapsedAdds(v.lastTime, first.time, whole.time);
    UpdateDraws(g, v, first, e1);
    UpdateDraws(g, v, whole, e1 + e2);
    UpdateDraws(g, Updated(g, v, first).view, whole, e2);
    StepCountsSplitIff(g.core.coherent, k, e1, e2);
    if g.core.coherent >= EPSILON {
      BatchIndependence(g, v, first, whole, k, e1, e2);
    }
  }

  // ---------- Updates that cannot fail ----------

  ghost predicate NeverFails(filter: Filter) {
    forall m, p, a, b, c, d, e :: filter(m, p, a, b, c, d, e).Some?
  }

  lemma {:induction false} BatchSucceeds(g: Setting, cn0: real, wavelength: real, p: Progress, steps: seq<real>)
    requires NeverFails(g.filter) && p.ok
    ensures Batch(g, cn0, wavelength, p, steps).ok
    decreases |steps|
  {
    if |steps| > 0 {
      BatchSucceeds(g, cn0, wavelength, SubStep(g, cn0, wavelength, p, steps[0]), steps[1..]);
    }
  }

  /** A call that moves the tracker on comes later than the stored time. */
  predicate Advances(v: View, call: Call) {
    call.codeTracking && v.timeKnown ==>
      Difference(call.time, v.lastTime).Some? && Difference(call.time, v.lastTime).value > 0
  }

  lemma UpdateSucceeds(g: Setting, v: View, call: Call)
    requires Accepts(g, call) && NeverFails(g.filter) && Advances(v, call)
    ensures Updated(g, v, call).outcome.Some?
  {
    if call.codeTracking && v.timeKnown {
      var elapsed := Difference(call.time, v.lastTime).value;
      UpdateIsEpoch(g, v, call, elapsed);
      BatchSucceeds(g, NormalizedCn0(call.cn0).value, call.wavelength, Progress(v, UnlockedReport(v), false, true),
                    SubSteps(g.core.coherent, Seconds(elapsed)));
    }
  }

  /** The default configuration but for its coherent interval. */
  function WithCoherent(step: real): Config {
    Config(step, 5.0, 4.0, 8.0, 0.5, 30.0, 27.0, 1.0, 0.3, 22.0, 18.0, 0.2, 0.5, 0.2, 1.0)
  }

  lemma ShortStep(k: nat, step: real)
    requires k >= 10_000_000 && (k as real) * step == Seconds(1)
    ensures 0.0 < step < EPSILON
  {
    if step <= 0.0 {
      NonNegative(k as real, -step, (k as real) * -step);
    } else if step >= EPSILON {
      NonNegative(k as real - 10000000.0, step - EPSILON, (k as real - 10000000.0) * (step - EPSILON));
    }
  }

  /** One nanosecond cut into equal steps shorter than machine epsilon. */
  lemma NanosecondInSteps(k: nat) returns (step: real)
    requires k >= 10_000_000
    ensures 0.0 < step < EPSILON && Seconds(1) == Multiple(k, step)
  {
    step := Seconds(1) / (k as real);
    assert (k as real) * step == Seconds(1);
    MultipleIsProduct(k, step);
    ShortStep(k, step);
  }

  /** Where the noise filter never fails, steps shorter than machine epsilon make two updates differ from one. */
  lemma ShortStepsDiffer(g: Setting, v: View, first: Call, whole: Call, k: nat, e1: int, e2: int)
    requires Accepts(g, whole) && whole.codeTracking && first == whole.(time := first.time) && v.timeKnown
    requires Difference(whole.time, v.lastTime) == Some(e1 + e2) && e1 > 0 && e2 > 0
    requires Difference(first.time, v.lastTime) == Some(e1) && Difference(whole.time, first.time) == Some(e2)
    requires Seconds(e1) == Multiple(k, g.core.coherent) && g.core.coherent < EPSILON && NeverFails(g.filter)
    ensures Updated(g, v, whole).outcome.Some? && Updated(g, v, first).outcome.Some?
    ensures Updated(g, Updated(g, v, first).view, whole).outcome.Some?
    ensures Updated(g, v, whole).view.drawn != Updated(g, Updated(g, v, first).view, whole).view.drawn
  {
    UpdateSucceeds(g, v, first);
    UpdateSucceeds(g, v, whole);
    UpdateDraws(g, v, first, e1);
    UpdateSucceeds(g, Updated(g, v, first).view, whole);
    BatchIndependenceIff(g, v, first, whole, k, e1, e2);
  }

  lemma TwoNanoseconds()
    ensures Difference(Time(0, 1), Time(0, 0)) == Some(1) && Difference(Time(0, 2), Time(0, 1)) == Some(1)
    ensures Difference(Time(0, 2), Time(0, 0)) == Some(2)
  {
  }

  /** Configurations with shorter steps pass the validation, and two epochs of one nanosecond tell them apart. */
  lemma TinyStepsDiffer(k: nat, step: real, g: Setting, v: View, first: Call, whole: Call)
    requires 0.0 < step < EPSILON && Seconds(1) == Multiple(k, step)
    requires g.core == WithCoherent(step) && NeverFails(g.filter)
    requires v == START.(timeKnown := true) && whole == Call(Time(0, 2), true, Finite(40.0), 0.2)
    requires first == whole.(time := Time(0, 1))
    ensures Accepts(g, whole) && Updated(g, v, whole).outcome.Some?
    ensures Updated(g, v, first).outcome.Some? && Updated(g, Updated(g, v, first).view, whole).outcome.Some?
    ensures Updated(g, v, whole).view.drawn != Updated(g, Updated(g, v, first).view, whole).view.drawn
  {
    TwoNanoseconds();
    ShortStepsDiffer(g, v, first, whole, k, 1, 1);
  }

  // ---------- Whole runs ----------

  /** The number of losses of phase lock in a run of the tracker. */
  function Exits(c: Config, s: State, ticks: seq<Tick>): nat
    decreases |ticks|
  {
    if |ticks| == 0 then 0
    else
      var last := |ticks| - 1;
      Exits(c, s, ticks[..last])
      + if Run(c, s, ticks[..last]).mode.Pll? && !Run(c, s, ticks).mode.Pll? then 1 else 0
  }

  function Ticks(cn0: real, steps: seq<real>): (ticks: seq<Tick>)
    ensures |ticks| == |steps|
  {
    seq(|steps|, k requires 0 <= k < |steps| => Tick(true, cn0, steps[k]))
  }

  /** A tracker state without its noise. */
  function Core(s: State): State { s.(error := 0.0) }

  /** The transitions do not look at the noise. */
  lemma MovedCore(c: Config, s: State, tick: Tick)
    ensures Core(Moved(c, s, tick)) == Core(Moved(c, Core(s), tick))
  {
  }

  /** A runtime state agrees with the ticks since the last restart. */
  predicate Agrees(g: Setting, v: View, past: seq<Tick>) {
    && Core(v.tracking) == Core(Run(g.core, RESET, past))
    && v.phaseSegment == Exits(g.core, RESET, past)
    && v.offset == CycleOffset(g.mix, v.phaseSegment)
  }

  lemma SubStepAgrees(g: Setting, cn0: real, wavelength: real, p: Progress, dt: real, past: seq<Tick>)
    requires p.ok && Agrees(g, p.view, past) && SubStep(g, cn0, wavelength, p, dt).ok
    ensures var q := SubStep(g, cn0, wavelength, p, dt);
            var now := past + [Tick(true, cn0, dt)];
            && Agrees(g, q.view, now)
            && (q.slip <==> p.slip || Exits(g.core, RESET, past) < Exits(g.core, RESET, now))
            && Exits(g.core, RESET, past) <= Exits(g.core, RESET, now)
            && q.view.drawn == p.view.drawn + 1
  {
    var tick := Tick(true, cn0, dt);
    var now := past + [tick];
    assert now[..|now| - 1] == past;
    MovedCore(g.core, p.view.tracking, tick);
    MovedCore(g.core, Run(g.core, RESET, past), tick);
  }

  lemma {:induction false} BatchAgrees(
    g: Setting, cn0: real, wavelength: real, p: Progress, steps: seq<real>, past: seq<Tick>)
    requires p.ok && Agrees(g, p.view, past) && Batch(g, cn0, wavelength, p, steps).ok
    ensures var q := Batch(g, cn0, wavelength, p, steps);
            var now := past + Ticks(cn0, steps);
            && Agrees(g, q.view, now)
            && (q.slip <==> p.slip || Exits(g.core, RESET, past) < Exits(g.core, RESET, now))
            && Exits(g.core, RESET, past) <= Exits(g.core, RESET, now)
            && q.view.drawn == p.view.drawn + |steps|
    decreases |steps|
  {
    if |steps| == 0 {
      assert past + Ticks(cn0, steps) == past;
    } else {
      var q := SubStep(g, cn0, wavelength, p, steps[0]);
      var rest := steps[1..];
      if q.ok {
        var before := past + [Tick(true, cn0, steps[0])];
        var now := past + Ticks(cn0, steps);
        assert before + Ticks(cn0, rest) == now;
        SubStepAgrees(g, cn0, wavelength, p, steps[0], past);
        BatchAgrees(g, cn0, wavelength, q, rest, before);
        assert Batch(g, cn0, wavelength, p, steps) == Batch(g, cn0, wavelength, q, rest);
      } else {
        StoppedStays(g, cn0, wavelength, q, rest);
      }
    }
  }

  /** What is known of the time since code tracking last began: the ticks seen, and the nanoseconds passed. */
  datatype History = History(ticks: seq<Tick>, ns: int)

  function Extended(g: Setting, v: View, call: Call, past: History): History
    requires Updated(g, v, call).outcome.Some?
  {
    if !call.codeTracking then History([], 0)
    else if !v.timeKnown then past
    else
      var elapsed := Difference(call.time, v.lastTime).value;
      History(past.ticks + Ticks(NormalizedCn0(call.cn0).value, SubSteps(g.core.coherent, Seconds(elapsed))),
              past.ns + elapsed)
  }

  /** A runtime with the history of its code tracking. */
  datatype Running = Running(view: View, past: History)

  function Next(g: Setting, r: Running, call: Call): Option<Running> {
    var after := Updated(g, r.view, call);
    if after.outcome == None then None else Some(Running(after.view, Extended(g, r.view, call, r.past)))
  }

  /** All the calls, each of which must succeed. */
  function RunCalls(g: Setting, calls: seq<Call>): Option<Running>
    decreases |calls|
  {
    if |calls| == 0 then Some(Running(START, History([], 0)))
    else
      var last := |calls| - 1;
      match RunCalls(g, calls[..last])
      case None => None
      case Some(r) => Next(g, r, calls[last])
  }

  lemma {:induction false} TotalTicks(past: seq<Tick>, cn0: real, steps: seq<real>)
    ensures Total(past + Ticks(cn0, steps)) == Total(past) + Sum(steps)
    decreases |steps|
  {
    if |steps| == 0 {
      assert past + Ticks(cn0, steps) == past;
    } else {
      var now := past + [Tick(true, cn0, steps[0])];
      assert now[..|now| - 1] == past;
      TotalTicks(now, cn0, steps[1..]);
      assert now + Ticks(cn0, steps[1..]) == past + Ticks(cn0, steps);
    }
  }

  predicate Tracks(past: History) {
    Available(past.ticks) && Positive(past.ticks) && Total(past.ticks) <= Seconds(past.ns)
  }

  /** One successful update keeps the agreement; it reports a slip exactly when phase lock was lost in it. */
  lemma CallAgrees(g: Setting, v: View, call: Call, past: History)
    requires Agrees(g, v, past.ticks) && Updated(g, v, call).outcome.Some?
    ensures Agrees(g, Updated(g, v, call).view, Extended(g, v, call, past).ticks)
    ensures Updated(g, v, call).outcome.value.slip ==
            (call.codeTracking
             && Exits(g.core, RESET, past.ticks) < Exits(g.core, RESET, Extended(g, v, call, past).ticks))
  {
    if call.codeTracking && v.timeKnown {
      var elapsed := Difference(call.time, v.lastTime).value;
      BatchAgrees(g, NormalizedCn0(call.cn0).value, call.wavelength, Progress(v, UnlockedReport(v), false, true),
                  SubSteps(g.core.coherent, Seconds(elapsed)), past.ticks);
    }
  }

  lemma TicksTrack(past: History, cn0: real, step: real, elapsed: int)
    requires Tracks(past) && step > 0.0 && elapsed > 0
    ensures Tracks(History(past.ticks + Ticks(cn0, SubSteps(step, Seconds(elapsed))), past.ns + elapsed))
  {
    var steps := SubSteps(step, Seconds(elapsed));
    SubStepsCover(step, Seconds(elapsed));
    TotalTicks(past.ticks, cn0, steps);
    assert Seconds(past.ns + elapsed) == Seconds(past.ns) + Seconds(elapsed);
    assert forall k :: 0 <= k < |steps| ==> steps[k] in steps;
  }

  lemma CallTracks(g: Setting, v: View, call: Call, past: History)
    requires Tracks(past) && Updated(g, v, call).outcome.Some?
    ensures Tracks(Extended(g, v, call, past))
  {
    if call.codeTracking && v.timeKnown {
      TicksTrack(past, NormalizedCn0(call.cn0).value, g.core.coherent, Difference(call.time, v.lastTime).value);
    }
  }

  predicate Sound(g: Setting, r: Running) { Agrees(g, r.view, r.past.ticks) && Tracks(r.past) }

  lemma NextSound(g: Setting, r: Running, call: Call)
    requires Sound(g, r) && Next(g, r, call).Some?
    ensures Sound(g, Next(g, r, call).value)
  {
    CallAgrees(g, r.view, call, r.past);
    CallTracks(g, r.view, call, r.past);
  }

  /** The runtime is the bare tracker run over the ticks since its restart, and counts the losses of phase lock. */
  lemma {:induction false} RuntimeHistory(g: Setting, calls: seq<Call>)
    requires RunCalls(g, calls).Some?
    ensures Sound(g, RunCalls(g, calls).value)
    decreases |calls|
  {
    if |calls| > 0 {
      var last := |calls| - 1;
      RuntimeHistory(g, calls[..last]);
      NextSound(g, RunCalls(g, calls[..last]).value, calls[last]);
    }
  }

  /** Each loss of phase lock takes a way in and a way out: two mode changes, and one more before the first. */
  lemma {:induction false} ExitsNeedChanges(c: Config, ticks: seq<Tick>)
    ensures var n := Exits(c, RESET, ticks);
            var changes := Changes(c, RESET, ticks);
            match Run(c, RESET, ticks).mode
            case Unlocked => changes >= if n == 0 then 0 else 2 * n + 1
            case Fll => changes >= 2 * n + 1
            case Pll => changes >= 2 * n + 2
    decreases |ticks|
  {
    if |ticks| > 0 {
      ExitsNeedChanges(c, ticks[..|ticks| - 1]);
    }
  }

  lemma SlipsCost(c: Config, past: History, n: nat)
    requires Tracks(past) && n == Exits(c, RESET, past.ticks) && n > 0
    ensures Multiple(2 * n + 1, ShortestHold(c) - TOLERANCE) <= Seconds(past.ns)
  {
    CostFromReset(c, RESET, past.ticks);
    ExitsNeedChanges(c, past.ticks);
    TotalNonNegative(past.ticks);
    FewerWithin(2 * n + 1, Changes(c, RESET, past.ticks), ShortestHold(c) - TOLERANCE, Seconds(past.ns));
  }

  lemma CallsCost(g: Setting, calls: seq<Call>, n: nat)
    requires RunCalls(g, calls).Some? && n == RunCalls(g, calls).value.view.phaseSegment && n > 0
    ensures Multiple(2 * n + 1, ShortestHold(g.core) - TOLERANCE) <= Seconds(RunCalls(g, calls).value.past.ns)
  {
    RuntimeHistory(g, calls);
    SlipsCost(g.core, RunCalls(g, calls).value.past, n);
  }

  /**
   Cycle slips are rare: the phase segment number n of a signal in continuous code tracking is reached only
   after 2n + 1 times the shortest persistence less the tolerance, whatever the C/N0 does and however the
   epochs are spaced.
   */
  lemma SlipsTakeTime(g: Setting, calls: seq<Call>, n: nat, unit: real)
    requires RunCalls(g, calls).Some? && n == RunCalls(g, calls).value.view.phaseSegment && n > 0
    requires unit == ShortestHold(g.core) - TOLERANCE
    ensures TimesWithin(2 * n + 1, unit, Seconds(RunCalls(g, calls).value.past.ns))
  {
    var time := Seconds(RunCalls(g, calls).value.past.ns);
    assert Multiple(2 * n + 1, unit) <= time by { CallsCost(g, calls, n); }
    ProductWithin(2 * n + 1, unit, time);
  }

  lemma {:induction false} TotalNonNegative(ticks: seq<Tick>)
    requires Positive(ticks)
    ensures Total(ticks) >= 0.0
    decreases |ticks|
  {
    if |ticks| > 0 {
      TotalNonNegative(ticks[..|ticks| - 1]);
    }
  }

  // ---------- The next update ----------

  /** The stored time is that of an earlier call. */
  lemma LastTimeIsACall(g: Setting, calls: seq<Call>)
    requires RunCalls(g, calls).Some?
    ensures var v := RunCalls(g, calls).value.view;
            v.timeKnown ==> exists k :: 0 <= k < |calls| && calls[k].time == v.lastTime
  {
    if |calls| > 0 {
      var last := |calls| - 1;
      if RunCalls(g, calls).value.view.timeKnown {
        CallKeepsTime(g, RunCalls(g, calls[..last]).value.view, calls[last]);
      }
    }
  }

  lemma CallKeepsTime(g: Setting, v: View, call: Call)
    requires Updated(g, v, call).outcome.Some? && Updated(g, v, call).view.timeKnown
    ensures Updated(g, v, call).view.lastTime == call.time
  {
  }

  /** A call is accepted with any usable C/N0; no signal at all counts as one of -120 dB-Hz. */
  lemma FaintCalls(g: Setting, v: View, call: Call)
    ensures Accepts(g, call) <==> ValidConfig(g.core) && call.wavelength > 0.0 && !call.cn0.NotUsable?
    ensures call.cn0.NegativeInfinity? ==> Updated(g, v, call) == Updated(g, v, call.(cn0 := Finite(-120.0)))
  {
  }

  /** Later than every earlier call, by at most 15249 weeks. */
  predicate Follows(calls: seq<Call>, time: Time) {
    && Valid(time)
    && forall k :: 0 <= k < |calls| ==>
         Valid(calls[k].time) && Abs(calls[k].time) < Abs(time) && time.week - calls[k].time.week <= 15249
  }

  /** After any successful calls, an accepted call at a later time can only fail through the noise filter. */
  lemma NextCallSucceeds(g: Setting, calls: seq<Call>, call: Call)
    requires RunCalls(g, calls).Some? && Accepts(g, call) && Follows(calls, call.time)
    requires NeverFails(g.filter)
    ensures RunCalls(g, calls + [call]).Some?
  {
    var v := RunCalls(g, calls).value.view;
    LastTimeIsACall(g, calls);
    if call.codeTracking && v.timeKnown {
      LaterDifference(call.time, v.lastTime);
    }
    UpdateSucceeds(g, v, call);
    assert (calls + [call])[..|calls|] == calls;
  }
}
