/**
 The environmental carrier phase of one signal: unwrapping from epoch to epoch, range rate, and the check
 that an epoch and its carrier result belong together.

 The argument of a phasor and the wavelength of a signal are parameters.
 */
module PhaseUnwrap {
  import opened Wrappers
  import opened SimTime
  import opened RealSums
  import opened Decibel
  import opened Reals

  /** Two pi, as the code's constant. */
  const TURN: real := 6.283185307179586476925286766559

  function Turns(k: int): real { (k as real) * TURN }

  function RoundHalfEven(x: real): int {
    var floor := x.Floor;
    var rest := x - floor as real;
    if rest < 0.5 || (rest == 0.5 && floor % 2 == 0) then floor else floor + 1
  }

  /** The IEEE remainder by one turn. */
  function Remainder(x: real): real { x - Turns(RoundHalfEven(x / TURN)) }

  datatype Setting = Setting(arg: Complex -> real, wavelength: (int, int) -> Option<real>)

  /** What the carrier needs of a tracking epoch. */
  datatype Epoch = Epoch(
    tracking: bool, rootValid: bool, correlationValid: bool, phasor: Complex, adrValid: bool, continuityValid: bool,
    reacquired: bool, lockTime: int)

  datatype Call = Call(signal: int, fcn: int, now: Time, epoch: Epoch)

  datatype State = State(
    signal: int, fcn: int, previousTime: Time, previousWrapped: real, unwrapped: real, previousBias: real,
    configured: bool, active: bool, everLocked: bool)

  const INITIAL: State := State(0, 0, Time(0, 0), 0.0, 0.0, 0.0, false, false, false)

  datatype Report = Report(
    wavelength: real, wrapped: real, unwrapped: real, bias: real, rate: real,
    lockValid: bool, adrValid: bool, continuityValid: bool, rateValid: bool, slip: bool)

  /** A state, and the report unless the update failed. */
  datatype After = After(state: State, report: Option<Report>)

  predicate PhasorAvailable(e: Epoch) { e.tracking && e.rootValid && e.correlationValid }

  function Bias(phase: real, wavelength: real): real { -phase * wavelength / TURN }

  function Segment(g: Setting, s: State, call: Call, wavelength: real): After {
    if call.epoch.phasor == ZERO then After(s, None)
    else
      var phase := g.arg(call.epoch.phasor);
      var bias := Bias(phase, wavelength);
      After(State(call.signal, call.fcn, call.now, phase, phase, bias, true, true, true),
            Some(Report(wavelength, phase, phase, bias, 0.0, true, call.epoch.adrValid && call.epoch.continuityValid,
                        true, false, call.epoch.reacquired || s.everLocked)))
  }

  function Continued(g: Setting, s: State, call: Call, wavelength: real, elapsed: int): After
    requires elapsed > 0
  {
    if call.epoch.phasor == ZERO then After(s, None)
    else
      var wrapped := g.arg(call.epoch.phasor);
      var unwrapped := s.unwrapped + Remainder(wrapped - s.previousWrapped);
      var bias := Bias(unwrapped, wavelength);
      After(s.(previousTime := call.now, previousWrapped := wrapped, unwrapped := unwrapped, previousBias := bias),
            Some(Report(wavelength, wrapped, unwrapped, bias, (bias - s.previousBias) / Seconds(elapsed), true,
                        call.epoch.adrValid && call.epoch.continuityValid, true, true, false)))
  }

  function Slipped(a: After): After {
    match a.report
    case None => a
    case Some(r) => After(a.state, Some(r.(slip := true)))
  }

  function Updated(g: Setting, s: State, call: Call): After {
    var wavelength := g.wavelength(call.signal, call.fcn);
    if !Valid(call.now) || wavelength == None || wavelength.value <= 0.0
       || (s.configured && (s.signal != call.signal || s.fcn != call.fcn)) then After(s, None)
    else if !PhasorAvailable(call.epoch) then
      After(s.(active := false),
            Some(Report(wavelength.value, 0.0, 0.0, 0.0, 0.0, false, false, false, false, s.active)))
    else if !s.active || call.epoch.reacquired then Segment(g, s, call, wavelength.value)
    else
      var elapsed := Difference(call.now, s.previousTime);
      if elapsed == None || elapsed.value <= 0 then After(s, None)
      else if 0 <= call.epoch.lockTime < elapsed.value then
        Slipped(Segment(g, s.(active := false), call, wavelength.value))
      else Continued(g, s, call, wavelength.value, elapsed.value)
  }

  class Unwrapper {
    var signal: int
    var fcn: int
    var previousTime: Time
    var previousWrapped: real
    var unwrapped: real
    var previousBias: real
    var configured: bool
    var active: bool
    var everLocked: bool

    function View(): State
      reads this
    {
      State(signal, fcn, previousTime, previousWrapped, unwrapped, previousBias, configured, active, everLocked)
    }

    constructor ()
      ensures View() == INITIAL
    {
      signal, fcn, previousTime, previousWrapped, unwrapped, previousBias := 0, 0, Time(0, 0), 0.0, 0.0, 0.0;
      configured, active, everLocked := false, false, false;
    }

    method Reset()
      modifies this
      ensures View() == INITIAL
    {
      signal, fcn, previousTime, previousWrapped, unwrapped, previousBias := 0, 0, Time(0, 0), 0.0, 0.0, 0.0;
      configured, active, everLocked := false, false, false;
    }

    method StartSegment(g: Setting, call: Call, wavelength: real) returns (r: Option<Report>)
      modifies this
      ensures After(View(), r) == Segment(g, old(View()), call, wavelength)
    {
      if call.epoch.phasor == ZERO {
        return None;
      }
      var phase := g.arg(call.epoch.phasor);
      var bias := Bias(phase, wavelength);
      var again := everLocked;
      signal, fcn, previousTime, previousWrapped := call.signal, call.fcn, call.now, phase;
      unwrapped, previousBias, configured, active, everLocked := phase, bias, true, true, true;
      r := Some(Report(wavelength, phase, phase, bias, 0.0, true, call.epoch.adrValid && call.epoch.continuityValid,
                       true, false, call.epoch.reacquired || again));
    }

    method Continue(g: Setting, call: Call, wavelength: real, elapsed: int) returns (r: Option<Report>)
      requires elapsed > 0
      modifies this
      ensures After(View(), r) == Continued(g, old(View()), call, wavelength, elapsed)
    {
      if call.epoch.phasor == ZERO {
        return None;
      }
      var wrapped := g.arg(call.epoch.phasor);
      var phase := unwrapped + Remainder(wrapped - previousWrapped);
      var bias := Bias(phase, wavelength);
      var rate := (bias - previousBias) / Seconds(elapsed);
      previousTime, previousWrapped, unwrapped, previousBias := call.now, wrapped, phase, bias;
      r := Some(Report(wavelength, wrapped, phase, bias, rate, true, call.epoch.adrValid && call.epoch.continuityValid,
                       true, true, false));
    }

    method Update(g: Setting, call: Call) returns (r: Option<Report>)
      modifies this
      ensures After(View(), r) == Updated(g, old(View()), call)
    {
      var wavelength := g.wavelength(call.signal, call.fcn);
      if !Valid(call.now) || wavelength == None || wavelength.value <= 0.0 {
        return None;
      }
      if configured && (signal != call.signal || fcn != call.fcn) {
        return None;
      }
      if !PhasorAvailable(call.epoch) {
        var slip := active;
        active := false;
        return Some(Report(wavelength.value, 0.0, 0.0, 0.0, 0.0, false, false, false, false, slip));
      }
      if !active || call.epoch.reacquired {
        r := StartSegment(g, call, wavelength.value);
        return;
      }
      var elapsed := Difference(call.now, previousTime);
      if elapsed == None || elapsed.value <= 0 {
        return None;
      }
      if 0 <= call.epoch.lockTime < elapsed.value {
        active := false;
        r := StartSegment(g, call, wavelength.value);
        if r.Some? {
          r := Some(r.value.(slip := true));
        }
        return;
      }
      r := Continue(g, call, wavelength.value, elapsed.value);
    }
  }

  // ---------- When a segment continues ----------

  /** The current lock began after the previous sample: whatever was tracked then has been lost in between. */
  predicate YoungerThanGap(s: State, call: Call) {
    0 <= call.epoch.lockTime && Abs(call.now) - call.epoch.lockTime > Abs(s.previousTime)
  }

  /** An active segment goes on. */
  predicate GoesOn(s: State, call: Call) {
    s.active && PhasorAvailable(call.epoch) && !call.epoch.reacquired && !YoungerThanGap(s, call)
  }

  /** A lock of exactly the gap began at the previous sample, and is not younger. */
  lemma YoungIsShort(s: State, call: Call)
    requires Difference(call.now, s.previousTime).Some?
    ensures 0 <= call.epoch.lockTime < Difference(call.now, s.previousTime).value <==> YoungerThanGap(s, call)
    ensures Difference(call.now, s.previousTime).value > 0 <==> Abs(call.now) > Abs(s.previousTime)
  {
    DifferenceExact(call.now, s.previousTime);
  }

  /**
   An update gives a range rate exactly when an active segment goes on.  It reports a slip exactly when an active
   segment is lost, restarted by a reacquisition, or found broken by a lock younger than the gap, and when tracking
   resumes after an earlier segment.
   */
  lemma ContinuesIff(g: Setting, s: State, call: Call)
    requires Updated(g, s, call).report.Some?
    ensures var r := Updated(g, s, call).report.value;
            && (r.rateValid <==> GoesOn(s, call))
            && (r.slip <==>
                || (s.active && !PhasorAvailable(call.epoch))
                || (PhasorAvailable(call.epoch) && call.epoch.reacquired)
                || (PhasorAvailable(call.epoch) && s.active && YoungerThanGap(s, call))
                || (PhasorAvailable(call.epoch) && !s.active && s.everLocked))
            && (Updated(g, s, call).state.active <==> PhasorAvailable(call.epoch))
            && (r.lockValid <==> call.epoch.tracking && call.epoch.rootValid && call.epoch.correlationValid)
            && (r.continuityValid <==> r.lockValid)
            && (r.adrValid <==> PhasorAvailable(call.epoch) && call.epoch.adrValid && call.epoch.continuityValid)
  {
    if s.active && PhasorAvailable(call.epoch) && !call.epoch.reacquired {
      YoungIsShort(s, call);
    }
  }

  /** An update that tracks but does not continue starts from the wrapped phase, with no rate. */
  lemma RestartsAtWrapped(g: Setting, s: State, call: Call)
    requires Updated(g, s, call).report.Some? && PhasorAvailable(call.epoch) && !GoesOn(s, call)
    ensures var (t, r) := (Updated(g, s, call).state, Updated(g, s, call).report.value);
            && t.unwrapped == g.arg(call.epoch.phasor) == t.previousWrapped == r.unwrapped == r.wrapped
            && t.previousTime == call.now && t.everLocked && t.configured && r.rate == 0.0
            && r.bias == t.previousBias == Bias(r.unwrapped, r.wavelength)
  {
    if s.active && !call.epoch.reacquired {
      YoungIsShort(s, call);
    }
  }

  /**
   An update fails exactly for an invalid time, a signal without a wavelength or not the one configured, a phasor of
   zero, and for a segment that would go on over a gap that is not forward in time, or too long to subtract.
   */
  lemma UpdatesIff(g: Setting, s: State, call: Call)
    ensures Updated(g, s, call).report.Some? <==>
            && Valid(call.now)
            && g.wavelength(call.signal, call.fcn).Some? && g.wavelength(call.signal, call.fcn).value > 0.0
            && (s.configured ==> s.signal == call.signal && s.fcn == call.fcn)
            && (PhasorAvailable(call.epoch) ==> call.epoch.phasor != ZERO)
            && (s.active && PhasorAvailable(call.epoch) && !call.epoch.reacquired ==>
                  Difference(call.now, s.previousTime).Some? && Abs(call.now) > Abs(s.previousTime))
  {
    if Difference(call.now, s.previousTime).Some? {
      YoungIsShort(s, call);
    }
  }

  // ---------- The remainder ----------

  /** The remainder differs by whole turns and is at most half a turn. */
  lemma RemainderBounds(x: real)
    ensures exists k: int :: Remainder(x) == x + Turns(k)
    ensures -TURN / 2.0 <= Remainder(x) <= TURN / 2.0
  {
    var k := RoundHalfEven(x / TURN);
    assert Remainder(x) == x + Turns(-k);
  }

  /** Half way between two whole numbers of turns it is taken from the even one. */
  lemma HalfTurnsGoToEven(k: int)
    ensures var half := k as real + 0.5;
            RoundHalfEven(half) % 2 == 0 && -0.5 <= half - RoundHalfEven(half) as real <= 0.5
  {
    assert (k as real + 0.5).Floor == k;
  }

  /** It is the only such value strictly within half a turn. */
  lemma RemainderUnique(x: real, k: int, r: real)
    requires r == x + Turns(k) && -TURN / 2.0 < r < TURN / 2.0
    ensures Remainder(x) == r
  {
    var q := x / TURN;
    assert -k as real - 0.5 < q < -k as real + 0.5;
    assert RoundHalfEven(q) == -k;
  }

  ghost predicate SameAngle(a: real, b: real) { exists k: int :: a == b + Turns(k) }

  lemma SameAngleAdds(a: real, b: real, c: real, d: real)
    requires SameAngle(a, b) && SameAngle(c, d)
    ensures SameAngle(a + c, b + d) && SameAngle(a - c, b - d)
  {
    var k :| a == b + Turns(k);
    var l :| c == d + Turns(l);
    assert a + c == b + d + Turns(k + l);
    assert a - c == b - d + Turns(k - l);
  }

  // ---------- Runs ----------

  /** A run of successful updates. */
  predicate IsRun(g: Setting, calls: seq<Call>, states: seq<State>, reports: seq<Report>) {
    && |states| == |calls| + 1 && |reports| == |calls|
    && states[0] == INITIAL
    && forall k :: 0 <= k < |calls| ==> Updated(g, states[k], calls[k]) == After(states[k + 1], Some(reports[k]))
  }

  /** The unwrapped phase is the last wrapped one up to whole turns, and the bias belongs to it. */
  ghost predicate Coherent(g: Setting, s: State) {
    && (s.active ==> s.configured && s.everLocked)
    && (s.active ==> SameAngle(s.unwrapped, s.previousWrapped))
    && (s.active ==> g.wavelength(s.signal, s.fcn).Some?
                     && s.previousBias == Bias(s.unwrapped, g.wavelength(s.signal, s.fcn).value))
  }

  lemma ContinuedCoherent(g: Setting, s: State, call: Call, wavelength: real, elapsed: int)
    requires elapsed > 0 && s.active && Coherent(g, s) && call.epoch.phasor != ZERO
    requires s.signal == call.signal && s.fcn == call.fcn && g.wavelength(call.signal, call.fcn) == Some(wavelength)
    ensures Coherent(g, Continued(g, s, call, wavelength, elapsed).state)
  {
    var wrapped := g.arg(call.epoch.phasor);
    var step := wrapped - s.previousWrapped;
    RemainderBounds(step);
    SameAngleAdds(s.unwrapped, s.previousWrapped, Remainder(step), step);
  }

  lemma SegmentCoherent(g: Setting, s: State, call: Call, wavelength: real)
    requires call.epoch.phasor != ZERO && g.wavelength(call.signal, call.fcn) == Some(wavelength)
    ensures Coherent(g, Segment(g, s, call, wavelength).state)
  {
    var phase := g.arg(call.epoch.phasor);
    assert phase == phase + Turns(0);
  }

  lemma UpdatedCoherent(g: Setting, s: State, call: Call)
    requires Coherent(g, s) && Updated(g, s, call).report.Some?
    ensures Coherent(g, Updated(g, s, call).state)
  {
    var wavelength := g.wavelength(call.signal, call.fcn).value;
    if PhasorAvailable(call.epoch) {
      if s.active && !call.epoch.reacquired {
        var elapsed := Difference(call.now, s.previousTime).value;
        if 0 <= call.epoch.lockTime < elapsed {
          SegmentCoherent(g, s.(active := false), call, wavelength);
        } else {
          ContinuedCoherent(g, s, call, wavelength, elapsed);
        }
      } else {
        SegmentCoherent(g, s, call, wavelength);
      }
    }
  }

  lemma {:induction false} RunCoherent(g: Setting, calls: seq<Call>, states: seq<State>, reports: seq<Report>, n: nat)
    requires IsRun(g, calls, states, reports) && n <= |calls|
    ensures Coherent(g, states[n])
  {
    if n > 0 {
      var last := n - 1;
      RunCoherent(g, calls, states, reports, last);
      assert Updated(g, states[last], calls[last]) == After(states[last + 1], Some(reports[last]));
      UpdatedCoherent(g, states[last], calls[last]);
    }
  }

  // ---------- A continued segment ----------

  /** What a valid range rate says about the update that produced it. */
  ghost predicate Continues(g: Setting, s: State, call: Call, t: State, r: Report) {
    && s.active && t.active
    && Difference(call.now, s.previousTime).Some? && t.previousTime == call.now
    && (var elapsed := Difference(call.now, s.previousTime).value;
        && elapsed > 0
        && !(0 <= call.epoch.lockTime < elapsed)
        && r.rate * Seconds(elapsed) == t.previousBias - s.previousBias)
    && r.bias == t.previousBias && r.unwrapped == t.unwrapped && r.wrapped == t.previousWrapped
    && t.unwrapped == s.unwrapped + Remainder(t.previousWrapped - s.previousWrapped)
    && -TURN / 2.0 <= t.unwrapped - s.unwrapped <= TURN / 2.0
  }

  lemma RateIsQuotient(change: real, dt: real, rate: real)
    requires dt > 0.0 && rate == change / dt
    ensures rate * dt == change
  {
  }

  /** Only a continued segment has a valid rate. */
  lemma RateMeansContinued(g: Setting, s: State, call: Call) returns (wavelength: real, elapsed: int)
    requires Updated(g, s, call).report.Some? && Updated(g, s, call).report.value.rateValid
    ensures elapsed > 0 && Difference(call.now, s.previousTime) == Some(elapsed)
    ensures s.active && !(0 <= call.epoch.lockTime < elapsed) && call.epoch.phasor != ZERO
    ensures Updated(g, s, call) == Continued(g, s, call, wavelength, elapsed)
  {
    wavelength := g.wavelength(call.signal, call.fcn).value;
    elapsed := Difference(call.now, s.previousTime).value;
  }

  lemma ContinuedContinues(g: Setting, s: State, call: Call, wavelength: real, elapsed: int)
    requires elapsed > 0 && Difference(call.now, s.previousTime) == Some(elapsed)
    requires s.active && !(0 <= call.epoch.lockTime < elapsed) && call.epoch.phasor != ZERO
    ensures var after := Continued(g, s, call, wavelength, elapsed);
            Continues(g, s, call, after.state, after.report.value)
  {
    var after := Continued(g, s, call, wavelength, elapsed);
    RateIsQuotient(after.state.previousBias - s.previousBias, Seconds(elapsed), after.report.value.rate);
    RemainderBounds(after.state.previousWrapped - s.previousWrapped);
  }

  lemma ValidRateContinues(g: Setting, s: State, call: Call)
    requires Updated(g, s, call).report.Some? && Updated(g, s, call).report.value.rateValid
    ensures Continues(g, s, call, Updated(g, s, call).state, Updated(g, s, call).report.value)
  {
    var wavelength, elapsed := RateMeansContinued(g, s, call);
    ContinuedContinues(g, s, call, wavelength, elapsed);
  }

  /** A valid rate was formed within one lock: tracking began no later than the previous sample. */
  lemma RateWithinOneLock(g: Setting, s: State, call: Call, trackingStart: int)
    requires Updated(g, s, call).report.Some? && Updated(g, s, call).report.value.rateValid
    requires Valid(s.previousTime) && call.epoch.lockTime == Abs(call.now) - trackingStart && call.epoch.lockTime >= 0
    ensures trackingStart <= Abs(s.previousTime) < Abs(call.now)
  {
    ValidRateContinues(g, s, call);
    DifferenceExact(call.now, s.previousTime);
  }

  /** The range one update adds. */
  function Added(calls: seq<Call>, states: seq<State>, reports: seq<Report>, k: nat): real
    requires k < |calls| && |states| == |calls| + 1 && |reports| == |calls|
  {
    var elapsed := Difference(calls[k].now, states[k].previousTime);
    if elapsed.Some? then reports[k].rate * Seconds(elapsed.value) else 0.0
  }

  /** The range travelled according to the valid rates of updates i to j. */
  function Travelled(calls: seq<Call>, states: seq<State>, reports: seq<Report>, i: nat, j: nat): real
    requires i <= j <= |calls| && |states| == |calls| + 1 && |reports| == |calls|
    decreases j
  {
    if i == j then 0.0
    else
      var last := j - 1;
      Travelled(calls, states, reports, i, last) + Added(calls, states, reports, last)
  }

  lemma ContinuesAt(g: Setting, calls: seq<Call>, states: seq<State>, reports: seq<Report>, k: nat)
    requires IsRun(g, calls, states, reports) && k < |calls| && reports[k].rateValid
    ensures Continues(g, states[k], calls[k], states[k + 1], reports[k])
  {
    assert Updated(g, states[k], calls[k]) == After(states[k + 1], Some(reports[k]));
    ValidRateContinues(g, states[k], calls[k]);
  }

  lemma AddedIsChange(g: Setting, calls: seq<Call>, states: seq<State>, reports: seq<Report>, k: nat)
    requires IsRun(g, calls, states, reports) && k < |calls| && reports[k].rateValid
    ensures Added(calls, states, reports, k) == states[k + 1].previousBias - states[k].previousBias
  {
    ContinuesAt(g, calls, states, reports, k);
  }

  lemma {:induction false} ChangesAddUp(calls: seq<Call>, states: seq<State>, reports: seq<Report>, i: nat, j: nat)
    requires |states| == |calls| + 1 && |reports| == |calls| && i <= j <= |calls|
    requires forall k: nat :: i <= k < j ==>
               Added(calls, states, reports, k) == states[k + 1].previousBias - states[k].previousBias
    ensures Travelled(calls, states, reports, i, j) == states[j].previousBias - states[i].previousBias
    decreases j
  {
    if i < j {
      var last := j - 1;
      ChangesAddUp(calls, states, reports, i, last);
      assert Added(calls, states, reports, last) == states[last + 1].previousBias - states[last].previousBias;
    }
  }

  /** Consecutive valid rates add up to the change of the carrier range, with nothing lost between epochs. */
  lemma RatesTelescope(g: Setting, calls: seq<Call>, states: seq<State>, reports: seq<Report>, i: nat, j: nat)
    requires IsRun(g, calls, states, reports) && i <= j <= |calls|
    requires forall k :: i <= k < j ==> reports[k].rateValid
    ensures Travelled(calls, states, reports, i, j) == states[j].previousBias - states[i].previousBias
  {
    forall k: nat | i <= k < j
      ensures Added(calls, states, reports, k) == states[k + 1].previousBias - states[k].previousBias
    {
      AddedIsChange(g, calls, states, reports, k);
    }
    ChangesAddUp(calls, states, reports, i, j);
  }

  /** The remainder of the wrapped step is the true step, if that is less than half a turn. */
  lemma RemainderIsStep(before: real, after: real, from: real, to: real)
    requires SameAngle(before, from) && SameAngle(after, to) && -TURN / 2.0 < to - from < TURN / 2.0
    ensures Remainder(after - before) == to - from
  {
    SameAngleAdds(after, to, before, from);
    var (x, r) := (after - before, to - from);
    var k :| x == r + Turns(k);
    assert r == x + Turns(-k);
    RemainderUnique(x, -k, r);
  }

  lemma StepIsTrue(g: Setting, calls: seq<Call>, states: seq<State>, reports: seq<Report>, k: nat, from: real, to: real)
    requires IsRun(g, calls, states, reports) && k < |calls| && reports[k].rateValid
    requires SameAngle(states[k].previousWrapped, from) && SameAngle(states[k + 1].previousWrapped, to)
    requires -TURN / 2.0 < to - from < TURN / 2.0 && states[k].unwrapped == from
    ensures states[k + 1].unwrapped == to
  {
    ContinuesAt(g, calls, states, reports, k);
    RemainderIsStep(states[k].previousWrapped, states[k + 1].previousWrapped, from, to);
  }

  /**
   Unwrapping recovers the true phase: if it moves by less than half a turn from epoch to epoch, and the
   wrapped phases are its values up to whole turns, the unwrapped phase follows it exactly.
   */
  lemma {:induction false} UnwrappingIsTrue(g: Setting, calls: seq<Call>, states: seq<State>, reports: seq<Report>,
                                            i: nat, j: nat, truth: int -> real)
    requires IsRun(g, calls, states, reports) && i <= j <= |calls|
    requires forall k :: i <= k < j ==> reports[k].rateValid
    requires forall k :: i <= k <= j ==> SameAngle(states[k].previousWrapped, truth(k))
    requires forall k, l :: i <= k < j && l == k + 1 ==> -TURN / 2.0 < truth(l) - truth(k) < TURN / 2.0
    requires states[i].unwrapped == truth(i)
    ensures states[j].unwrapped == truth(j)
    decreases j
  {
    if i < j {
      var last := j - 1;
      UnwrappingIsTrue(g, calls, states, reports, i, last, truth);
      StepIsTrue(g, calls, states, reports, last, truth(last), truth(j));
    }
  }

  // ---------- Applying the effects ----------

  datatype Observation = Observation(
    wavelength: real, pseudorange: real, rangeRate: real, doppler: real, adr: real, cn0: Cn0, lockTime: int,
    available: bool, psrValid: bool, dopplerValid: bool, adrValid: bool)

  /** The measured side of an epoch. */
  datatype Measured = Measured(codeBias: real, cn0: Cn0, available: bool, psrValid: bool, dopplerValid: bool)

  datatype ApplyError = InvalidArguments | Inconsistent

  predicate WavelengthMatches(a: real, b: real) {
    a > 0.0 && b > 0.0 && AbsReal(a - b) <= 0.000000000001 * a + 0.000000000000001
  }

  predicate Inconsistently(e: Epoch, r: Report) {
    || r.lockValid != PhasorAvailable(e)
    || (r.continuityValid && !r.lockValid)
    || (r.rateValid && !r.continuityValid)
    || (r.adrValid && !r.continuityValid)
  }

  function Applied(e: Epoch, m: Measured, r: Report, o: Observation): Result<Observation, ApplyError> {
    if !WavelengthMatches(o.wavelength, r.wavelength) || m.cn0.NotUsable? || e.lockTime < 0 then Err(InvalidArguments)
    else if Inconsistently(e, r) then Err(Inconsistent)
    else
      var available := o.available && m.available && r.lockValid;
      Ok(o.(pseudorange := if e.rootValid then o.pseudorange + m.codeBias else o.pseudorange,
            rangeRate := if r.rateValid then o.rangeRate + r.rate else o.rangeRate,
            doppler := if r.rateValid then o.doppler - r.rate / o.wavelength else o.doppler,
            adr := if r.continuityValid then o.adr + r.bias / o.wavelength else o.adr,
            cn0 := m.cn0, lockTime := e.lockTime, available := available,
            psrValid := available && o.psrValid && m.psrValid && e.rootValid,
            dopplerValid := available && o.dopplerValid && m.dopplerValid && r.rateValid,
            adrValid := available && o.adrValid && e.adrValid && r.adrValid))
  }

  method Apply(e: Epoch, m: Measured, r: Report, observation: Observation)
    returns (result: Result<Observation, ApplyError>)
    ensures result == Applied(e, m, r, observation)
  {
    if !WavelengthMatches(observation.wavelength, r.wavelength) || m.cn0.NotUsable? || e.lockTime < 0 {
      return Err(InvalidArguments);
    }
    if Inconsistently(e, r) {
      return Err(Inconsistent);
    }
    var output := observation;
    if e.rootValid {
      output := output.(pseudorange := output.pseudorange + m.codeBias);
    }
    if r.rateValid {
      output := output.(rangeRate := output.rangeRate + r.rate, doppler := output.doppler - r.rate / output.wavelength);
    }
    if r.continuityValid {
      output := output.(adr := output.adr + r.bias / output.wavelength);
    }
    output := output.(cn0 := m.cn0, lockTime := e.lockTime);
    output := output.(available := output.available && m.available && r.lockValid,
                      psrValid := output.psrValid && m.psrValid && e.rootValid,
                      dopplerValid := output.dopplerValid && m.dopplerValid && r.rateValid,
                      adrValid := output.adrValid && e.adrValid && r.adrValid);
    if !output.available {
      output := output.(psrValid := false, dopplerValid := false, adrValid := false);
    }
    result := Ok(output);
  }

  /** Every report the unwrapper makes is consistent with its epoch: the check downstream cannot fail. */
  lemma NeverInconsistent(g: Setting, s: State, call: Call, m: Measured, o: Observation)
    requires Updated(g, s, call).report.Some?
    ensures Applied(call.epoch, m, Updated(g, s, call).report.value, o) != Err(Inconsistent)
  {
  }

  /** With the wavelength of the report, the carrier observation moves by the unwrapped phase in cycles. */
  lemma CyclesFollowPhase(g: Setting, s: State, call: Call, m: Measured, o: Observation)
    requires Updated(g, s, call).report.Some? && Updated(g, s, call).report.value.continuityValid
    requires Applied(call.epoch, m, Updated(g, s, call).report.value, o).Ok?
    requires o.wavelength == Updated(g, s, call).report.value.wavelength
    ensures var r := Updated(g, s, call).report.value;
            Applied(call.epoch, m, r, o).value.adr == o.adr - r.unwrapped / TURN
  {
    var r := Updated(g, s, call).report.value;
    assert r.bias == Bias(r.unwrapped, r.wavelength);
    CyclesOfBias(r.unwrapped, r.wavelength, r.bias);
  }

  /**
   The pseudorange moves by the code bias if there is a root.  Range rate and Doppler move oppositely, the one in
   metres and the other in cycles, and only with a valid rate.
   */
  lemma RatesOppose(e: Epoch, m: Measured, r: Report, o: Observation)
    requires Applied(e, m, r, o).Ok?
    ensures var p := Applied(e, m, r, o).value;
            && p.pseudorange - o.pseudorange == (if e.rootValid then m.codeBias else 0.0)
            && p.rangeRate - o.rangeRate == (if r.rateValid then r.rate else 0.0)
            && (p.doppler - o.doppler) * o.wavelength == -(p.rangeRate - o.rangeRate)
            && (!r.continuityValid ==> p.adr == o.adr)
            && p.wavelength == o.wavelength && p.cn0 == m.cn0 && p.lockTime == e.lockTime
  {
    if r.rateValid {
      var cycles := r.rate / o.wavelength;
      assert cycles * o.wavelength == r.rate;
    }
  }

  /** A measurement is valid exactly where every side that has a say says so; none is without the observation. */
  lemma ValidIff(e: Epoch, m: Measured, r: Report, o: Observation)
    requires Applied(e, m, r, o).Ok?
    ensures var p := Applied(e, m, r, o).value;
            && (p.available <==> o.available && m.available && e.tracking && e.rootValid && e.correlationValid)
            && (p.psrValid <==> p.available && o.psrValid && m.psrValid)
            && (p.dopplerValid <==> p.available && o.dopplerValid && m.dopplerValid && r.rateValid)
            && (p.adrValid <==> p.available && o.adrValid && e.adrValid && r.adrValid)
  {
  }

  lemma CyclesOfBias(phase: real, wavelength: real, bias: real)
    requires wavelength > 0.0 && bias == Bias(phase, wavelength)
    ensures bias / wavelength == -(phase / TURN)
  {
    var cycles := -(phase / TURN);
    assert cycles * wavelength == bias;
    assert bias / wavelength == cycles;
  }
}
