/**
 The code tracker of one signal in the urban model: acquisition, lock, loss and reacquisition, with C/N0
 persistence and continuity of the code-discriminator root.

 C/N0, code phases and powers are reals.  The delays of a schedule come as quantiles of the generator, and
 the estimate of the open-sky C/N0, which may fail, as a parameter.
 */
module UrbanTracker {
  import opened Wrappers
  import opened Integers
  import opened SimTime
  import opened Decibel
  import opened Reals
  import opened RootSelection

  datatype Phase = SignalOff | Searching | Acquiring | Tracking

  datatype Context = Hot | Warm | Cold | Reacquisition

  datatype Sky = Los | LosMultipath | NlosTracked | Blocked

  datatype LossReason = NoLoss | SignalUnavailable | LowCn0 | NoStableRoot | AbruptRootSwitch

  /** A distribution of delays, in nanoseconds. */
  datatype Delays = Delays(minimum: int, p50: int, p95: int, maximum: int)

  /** One distribution for each band of C/N0. */
  datatype Bands = Bands(strong: Delays, good: Delays, fair: Delays, weak: Delays)

  datatype Config = Config(
    hotStartup: Delays, warmStartup: Delays, warmSearch: Delays, hotBands: Bands, reacquisitionBands: Bands,
    psrDelay: int, dopplerDelay: int, adrDelay: int,
    minimumTracking: real, acquisitionThreshold: real, acquisitionHold: int, lossHold: int,
    jumpThreshold: real, multipathCn0Delta: real, multipathCodeBias: real)

  predicate ValidDelays(d: Delays) { 0 <= d.minimum <= d.p50 <= d.p95 <= d.maximum }

  predicate ValidBands(b: Bands) {
    ValidDelays(b.strong) && ValidDelays(b.good) && ValidDelays(b.fair) && ValidDelays(b.weak)
  }

  predicate ValidConfig(c: Config) {
    && ValidDelays(c.hotStartup) && ValidDelays(c.warmStartup) && ValidDelays(c.warmSearch)
    && ValidBands(c.hotBands) && ValidBands(c.reacquisitionBands)
    && c.psrDelay >= 0 && c.dopplerDelay >= 0 && c.adrDelay >= 0
    && c.acquisitionThreshold > c.minimumTracking
    && c.acquisitionHold >= 0 && c.lossHold >= 0
    && c.jumpThreshold > 0.0 && c.multipathCn0Delta >= 0.0 && c.multipathCodeBias >= 0.0
  }

  datatype Input = Input(available: bool, direct: bool, openCn0: real, cn0: Cn0, roots: seq<Root>)

  /** Which measurements are valid. */
  datatype Validity = Validity(
    lockTime: int, psr: bool, doppler: bool, adr: bool, observation: bool, carrierContinuity: bool)

  const NO_VALIDITY: Validity := Validity(0, false, false, false, false, false)

  /** The roots of the previous and the current epoch. */
  datatype Continuity = Continuity(
    previousValid: bool, currentValid: bool, previousSec: real, previousChips: real,
    currentSec: real, currentChips: real, currentPower: real)

  const NO_ROOT: Continuity := Continuity(false, false, 0.0, 0.0, 0.0, 0.0, 0.0)

  /** Since when the C/N0 has been above the acquisition threshold, and below the tracking threshold. */
  datatype Persistence = Persistence(above: bool, aboveSince: Time, below: bool, belowSince: Time)

  datatype Timing = Timing(
    searchReady: Time, acquisitionComplete: Time, trackingStart: Time, psr: Time, doppler: Time, adr: Time)

  datatype State = State(
    phase: Phase, context: Context, since: Time, timing: Timing, cn0: Cn0, scheduled: bool, validity: Validity,
    sky: Sky, loss: LossReason, hold: Persistence, lock: bool, dll: Continuity, pending: bool, event: bool)

  function ResetAt(t: Time): State {
    State(SignalOff, Hot, t, Timing(t, t, t, t, t, t), Finite(0.0), false, NO_VALIDITY, Blocked, NoLoss,
          Persistence(false, t, false, t), false, NO_ROOT, false, false)
  }

  // ---------- Scheduling ----------

  /** The upper half of a 32-bit draw of the generator. */
  type Quantile = q: nat | q < 65536

  function Interpolate(lower: int, upper: int, numerator: nat, denominator: nat): int {
    if upper <= lower || denominator == 0 then lower else lower + (upper - lower) * numerator / denominator
  }

  /** The delay at a quantile of 65536. */
  function SampleDelay(d: Delays, quantile: Quantile): int {
    if quantile < 32768 then Interpolate(d.minimum, d.p50, quantile, 32768)
    else if quantile < 62259 then Interpolate(d.p50, d.p95, quantile - 32768, 29491)
    else Interpolate(d.p95, d.maximum, quantile - 62259, 3277)
  }

  lemma InterpolateWithin(lower: int, upper: int, numerator: nat, denominator: nat)
    requires lower <= upper && numerator <= denominator && denominator > 0
    ensures lower <= Interpolate(lower, upper, numerator, denominator) <= upper
  {
    if lower < upper {
      var span := upper - lower;
      assert 0 <= span * numerator <= span * denominator;
      QuotientWithin(span * numerator, span, denominator);
    }
  }

  lemma QuotientWithin(product: int, span: int, denominator: nat)
    requires 0 <= product <= span * denominator && denominator > 0
    ensures 0 <= product / denominator <= span
  {
    var quotient := product / denominator;
    assert quotient * denominator <= product;
    assert !((quotient - span - 1) * denominator >= 0 && quotient > span);
  }

  /** A sampled delay lies in the part of its distribution that the draw falls in. */
  lemma SampleBetween(d: Delays, quantile: Quantile)
    requires ValidDelays(d)
    ensures quantile < 32768 ==> d.minimum <= SampleDelay(d, quantile) <= d.p50
    ensures 32768 <= quantile < 62259 ==> d.p50 <= SampleDelay(d, quantile) <= d.p95
    ensures 62259 <= quantile ==> d.p95 <= SampleDelay(d, quantile) <= d.maximum
  {
    if quantile < 32768 {
      InterpolateWithin(d.minimum, d.p50, quantile, 32768);
    } else if quantile < 62259 {
      InterpolateWithin(d.p50, d.p95, quantile - 32768, 29491);
    } else {
      InterpolateWithin(d.p95, d.maximum, quantile - 62259, 3277);
    }
  }

  /** A sampled delay lies between the extremes of its distribution. */
  lemma SampleWithin(d: Delays, quantile: Quantile)
    requires ValidDelays(d)
    ensures d.minimum <= SampleDelay(d, quantile) <= d.maximum
  {
    SampleBetween(d, quantile);
  }

  lemma InterpolateGrows(lower: int, upper: int, p: nat, q: nat, denominator: nat)
    requires lower <= upper && p <= q && denominator > 0
    ensures Interpolate(lower, upper, p, denominator) <= Interpolate(lower, upper, q, denominator)
  {
    if lower < upper {
      ProductGrows(upper - lower, p, q);
      QuotientGrows((upper - lower) * p, (upper - lower) * q, denominator);
    }
  }

  lemma DivisionRest(x: int, denominator: int, quotient: int)
    requires denominator > 0 && quotient == x / denominator
    ensures 0 <= x - denominator * quotient < denominator
  {
    assert x == denominator * (x / denominator) + x % denominator;
  }

  lemma QuotientGrows(x: int, y: int, denominator: int)
    requires 0 <= x <= y && denominator > 0
    ensures x / denominator <= y / denominator
  {
    var (a, b) := (x / denominator, y / denominator);
    DivisionRest(x, denominator, a);
    DivisionRest(y, denominator, b);
    MulMinus(denominator, a, b);
    MultipleBounds(denominator, a - b);
  }

  /** A later draw never samples a shorter delay, and half and 95 percent of the scale give the two quantiles. */
  lemma SampleGrows(d: Delays, p: Quantile, q: Quantile)
    requires ValidDelays(d) && p <= q
    ensures SampleDelay(d, p) <= SampleDelay(d, q)
    ensures SampleDelay(d, 0) == d.minimum && SampleDelay(d, 32768) == d.p50 && SampleDelay(d, 62259) == d.p95
  {
    SampleBetween(d, p);
    SampleBetween(d, q);
    if q < 32768 {
      InterpolateGrows(d.minimum, d.p50, p, q, 32768);
    } else if 32768 <= p && q < 62259 {
      InterpolateGrows(d.p50, d.p95, p - 32768, q - 32768, 29491);
    } else if 62259 <= p {
      InterpolateGrows(d.p95, d.maximum, p - 62259, q - 62259, 3277);
    }
  }

  // ---------- The width of the interpolation ----------

  /** The product that interpolation forms before it divides. */
  function SampleProduct(d: Delays, quantile: Quantile): int {
    if quantile < 32768 then (d.p50 - d.minimum) * quantile
    else if quantile < 62259 then (d.p95 - d.p50) * (quantile - 32768)
    else (d.maximum - d.p95) * (quantile - 62259)
  }

  /** Spans of at most about 2.8e14, 3.1e14 and 2.8e15 nanoseconds. */
  predicate SpansFit(d: Delays) {
    && d.p50 - d.minimum <= INT64_MAX / 32767
    && d.p95 - d.p50 <= INT64_MAX / 29490
    && d.maximum - d.p95 <= INT64_MAX / 3276
  }

  lemma ProductGrows(span: int, numerator: nat, most: nat)
    requires 0 <= span && numerator <= most
    ensures 0 <= span * numerator <= span * most
  {
  }

  /** The products of a validated distribution fit 64 bits at every draw exactly when its spans are so bounded. */
  lemma SampleFitsIff(d: Delays)
    requires ValidDelays(d)
    ensures (forall quantile: Quantile :: Int64(SampleProduct(d, quantile))) <==> SpansFit(d)
  {
    if SpansFit(d) {
      forall quantile: Quantile
        ensures Int64(SampleProduct(d, quantile))
      {
        if quantile < 32768 {
          ProductGrows(d.p50 - d.minimum, quantile, 32767);
        } else if quantile < 62259 {
          ProductGrows(d.p95 - d.p50, quantile - 32768, 29490);
        } else {
          ProductGrows(d.maximum - d.p95, quantile - 62259, 3276);
        }
      }
    } else {
      assert !Int64(SampleProduct(d, 32767)) || !Int64(SampleProduct(d, 62258)) || !Int64(SampleProduct(d, 65535));
    }
  }

  /** A validated distribution, and a draw whose product leaves 64 bits: a span of 3.5 days. */
  lemma LongSpanOverflows(d: Delays)
    requires d == Delays(0, 300_000_000_000_000, 300_000_000_000_000, 300_000_000_000_000)
    ensures ValidDelays(d) && !Int64(SampleProduct(d, 32767))
  {
  }

  function Millis(minimum: int, p50: int, p95: int, maximum: int): Delays {
    Delays(minimum * 1_000_000, p50 * 1_000_000, p95 * 1_000_000, maximum * 1_000_000)
  }

  /** The configuration that the simulator runs with. */
  const DEFAULTS: Config := Config(
    Millis(400, 800, 1500, 2000), Millis(400, 800, 1500, 2000), Millis(2000, 5000, 15_000, 25_000),
    Bands(Millis(200, 350, 550, 700), Millis(300, 600, 950, 1200), Millis(600, 1100, 1900, 2400),
          Millis(1000, 2200, 3600, 4000)),
    Bands(Millis(80, 300, 800, 1100), Millis(100, 500, 1100, 1500), Millis(200, 850, 1600, 2000),
          Millis(500, 1300, 2200, 3000)),
    100_000_000, 150_000_000, 500_000_000, 10.0, 18.0, 200_000_000, 500_000_000, 0.25, 0.5, 0.02)

  predicate BandsFit(b: Bands) { SpansFit(b.strong) && SpansFit(b.good) && SpansFit(b.fair) && SpansFit(b.weak) }

  /** It is valid, and none of its products leaves 64 bits. */
  lemma DefaultsFit()
    ensures ValidConfig(DEFAULTS)
    ensures SpansFit(DEFAULTS.hotStartup) && SpansFit(DEFAULTS.warmStartup) && SpansFit(DEFAULTS.warmSearch)
    ensures BandsFit(DEFAULTS.hotBands) && BandsFit(DEFAULTS.reacquisitionBands)
  {
  }

  function AddDelay(t: Time, delay: int): Option<Time> { if delay < 0 then None else Add(t, delay) }

  /** An order to acquire, with the estimated C/N0, if there is one, and the draw of the generator. */
  datatype Request = Request(context: Context, on: Time, ready: Time, estimate: Option<real>, quantile: Quantile)

  function BandOf(b: Bands, cn0: real): Delays {
    if cn0 >= 40.0 then b.strong else if cn0 >= 35.0 then b.good else if cn0 >= 30.0 then b.fair else b.weak
  }

  function AcquisitionDelay(c: Config, r: Request): int
    requires r.estimate.Some?
  {
    SampleDelay(BandOf(if r.context.Reacquisition? then c.reacquisitionBands else c.hotBands, r.estimate.value),
                r.quantile)
  }

  function Prepared(s: State): State {
    s.(phase := Searching, validity := NO_VALIDITY, hold := s.hold.(above := false, below := false), lock := false,
       dll := s.dll.(previousValid := false, currentValid := false), pending := false, event := false)
  }

  function Scheduled(c: Config, s: State, r: Request): Option<State> {
    if !Valid(r.on) || !Valid(r.ready) || Compare(r.ready, r.on) < 0 || !ValidConfig(c) || r.estimate == None then None
    else
      var complete := AddDelay(r.ready, AcquisitionDelay(c, r));
      if complete == None then None
      else
        var psr := AddDelay(complete.value, c.psrDelay);
        var doppler := AddDelay(complete.value, c.dopplerDelay);
        var adr := AddDelay(complete.value, c.adrDelay);
        if psr == None || doppler == None || adr == None then None
        else
          Some(Prepared(s).(
            context := r.context, since := r.on, cn0 := Finite(r.estimate.value), scheduled := true,
            timing := Timing(r.ready, complete.value, complete.value, psr.value, doppler.value, adr.value)))
  }

  /** The distribution that a request draws from: by context, and by the band of the estimated C/N0. */
  predicate DrawsFrom(c: Config, r: Request, d: Delays) {
    && r.estimate.Some?
    && var bands := if r.context.Reacquisition? then c.reacquisitionBands else c.hotBands;
       var cn0 := r.estimate.value;
       || (cn0 >= 40.0 && d == bands.strong)
       || (35.0 <= cn0 < 40.0 && d == bands.good)
       || (30.0 <= cn0 < 35.0 && d == bands.fair)
       || (cn0 < 30.0 && d == bands.weak)
  }

  /** An order books the end of acquisition a sampled delay after the ready time, and gives up any lock. */
  lemma ScheduledMeaning(c: Config, s: State, r: Request, d: Delays)
    requires Scheduled(c, s, r).Some? && DrawsFrom(c, r, d)
    ensures var t := Scheduled(c, s, r).value;
            && t.scheduled && !t.lock && !t.pending && t.phase.Searching? && t.context == r.context
            && t.timing.searchReady == r.ready && Valid(t.timing.acquisitionComplete)
            && Abs(t.timing.acquisitionComplete) == Abs(r.ready) + SampleDelay(d, r.quantile)
            && d.minimum <= SampleDelay(d, r.quantile) <= d.maximum
  {
    AddExact(r.ready, SampleDelay(d, r.quantile));
    SampleWithin(d, r.quantile);
  }

  /** An order is refused exactly for bad times, a bad configuration, or an end or delay out of the range of times. */
  lemma SchedulesIff(c: Config, s: State, r: Request, d: Delays)
    requires DrawsFrom(c, r, d)
    ensures Scheduled(c, s, r).Some? <==>
            && Valid(r.on) && Valid(r.ready) && Abs(r.on) <= Abs(r.ready) && ValidConfig(c)
            && var end := Abs(r.ready) + SampleDelay(d, r.quantile);
               && Representable(end) && Representable(end + c.psrDelay)
               && Representable(end + c.dopplerDelay) && Representable(end + c.adrDelay)
  {
    if Valid(r.on) && Valid(r.ready) && ValidConfig(c) {
      CompareIsOrder(r.ready, r.on);
      SampleWithin(d, r.quantile);
      AddExact(r.ready, SampleDelay(d, r.quantile));
      var complete := Add(r.ready, SampleDelay(d, r.quantile));
      if complete.Some? {
        AddExact(complete.value, c.psrDelay);
        AddExact(complete.value, c.dopplerDelay);
        AddExact(complete.value, c.adrDelay);
      }
    }
  }

  /** The signal goes off by the receiver, outside the urban update. */
  function SwitchedOff(s: State, now: Time): State {
    s.(phase := SignalOff, since := now, scheduled := false, lock := false, validity := NO_VALIDITY, cn0 := Finite(0.0))
  }

  // ---------- One urban update, by value ----------

  /** A state, and whether the operation that led to it succeeded. */
  datatype Step = Step(state: State, ok: bool)

  function ElapsedAtLeast(now: Time, start: Time, required: int): Option<bool> {
    var elapsed := Difference(now, start);
    if elapsed == None || elapsed.value < 0 then None else Some(elapsed.value >= required)
  }

  predicate Held(s: State) { s.phase.Tracking? && s.lock }

  function Classified(c: Config, s: State, input: Input): State {
    if !input.direct then s.(sky := if Held(s) then NlosTracked else Blocked)
    else
      var bias := if s.dll.currentValid then AbsReal(s.dll.currentChips) else 0.0;
      var far := !input.cn0.Finite? || AbsReal(input.cn0.value - input.openCn0) >= c.multipathCn0Delta;
      s.(sky := if far || bias >= c.multipathCodeBias then LosMultipath else Los)
  }

  /** No schedule, no lock, and nothing remembered of the signal. */
  function Released(s: State): State {
    s.(scheduled := false, lock := false, hold := s.hold.(above := false, below := false), validity := NO_VALIDITY,
       dll := NO_ROOT)
  }

  function Lost(s: State, now: Time, reason: LossReason): State {
    Released(s).(phase := Searching, context := Reacquisition, since := now, timing := s.timing.(searchReady := now),
                 pending := true, event := false, loss := reason)
  }

  function Locked(s: State, now: Time): State {
    s.(phase := Tracking, since := now, lock := true, validity := NO_VALIDITY, event := s.context.Reacquisition?,
       pending := false, hold := s.hold.(above := false, below := false))
  }

  function Entered(c: Config, s: State, now: Time, root: Root): Step {
    var psr, doppler, adr := Add(now, c.psrDelay), Add(now, c.dopplerDelay), Add(now, c.adrDelay);
    if psr == None || doppler == None || adr == None then Step(s, false)
    else
      Step(Locked(s, now).(
             timing := s.timing.(trackingStart := now, psr := psr.value, doppler := doppler.value, adr := adr.value),
             dll := Continuity(true, true, root.phaseSec, root.phaseChips, root.phaseSec, root.phaseChips, root.power)),
           true)
  }

  function Observed(s: State, root: Root): State {
    s.(dll := s.dll.(currentValid := true, currentSec := root.phaseSec, currentChips := root.phaseChips,
                     currentPower := root.power))
  }

  function Carried(s: State, root: Root): State {
    s.(dll := s.dll.(previousValid := true, previousSec := root.phaseSec, previousChips := root.phaseChips))
  }

  function AboveMarked(c: Config, s: State, now: Time, cn0: Cn0): State {
    if Below(cn0, c.acquisitionThreshold) then s.(hold := s.hold.(above := false))
    else if s.hold.above then s
    else s.(hold := s.hold.(above := true, aboveSince := now))
  }

  /** Whether the C/N0 has been above the acquisition threshold for long enough; nothing when time is not comparable. */
  function Qualified(c: Config, s: State, now: Time, cn0: Cn0): Option<bool> {
    if Below(cn0, c.acquisitionThreshold) then Some(false)
    else ElapsedAtLeast(now, s.hold.aboveSince, c.acquisitionHold)
  }

  function BelowMarked(c: Config, s: State, now: Time, cn0: Cn0): State {
    if !Below(cn0, c.minimumTracking) then s.(hold := s.hold.(below := false))
    else if s.hold.below then s
    else s.(hold := s.hold.(below := true, belowSince := now))
  }

  function Tired(c: Config, s: State, now: Time, cn0: Cn0): Option<bool> {
    if !Below(cn0, c.minimumTracking) then Some(false) else ElapsedAtLeast(now, s.hold.belowSince, c.lossHold)
  }

  function Validated(s: State, now: Time): Step {
    var lockTime := Difference(now, s.timing.trackingStart);
    if lockTime == None || lockTime.value < 0 then Step(s, false)
    else
      var psr, adr := Compare(now, s.timing.psr) >= 0, Compare(now, s.timing.adr) >= 0;
      Step(s.(validity := Validity(lockTime.value, psr, Compare(now, s.timing.doppler) >= 0, adr, psr, adr)), true)
  }

  function Unavailable(s: State, now: Time): State {
    Released(s).(phase := SignalOff, since := now, pending := false,
                 loss := if Held(s) then SignalUnavailable else s.loss)
  }

  function Acquired(c: Config, s0: State, now: Time, input: Input): Step {
    var s := AboveMarked(c, s0.(phase := Acquiring), now, input.cn0);
    var qualified := Qualified(c, s, now, input.cn0);
    if qualified == None then Step(s, false)
    else
      match Selection(Acquisition, input.roots)
      case None => Step(s.(validity := NO_VALIDITY), true)
      case Some(i) =>
        var seen := Observed(s, input.roots[i]);
        if qualified.value && Compare(now, s.timing.acquisitionComplete) >= 0 then Entered(c, seen, now, input.roots[i])
        else Step(seen.(validity := NO_VALIDITY), true)
  }

  function Kept(c: Config, s0: State, now: Time, input: Input): Step {
    match Selection(Tracked(s0.dll.previousSec), input.roots)
    case None => Step(Lost(s0, now, NoStableRoot), true)
    case Some(i) =>
      var root := input.roots[i];
      var seen := Observed(s0, root);
      if s0.dll.previousValid && AbsReal(root.phaseChips - s0.dll.previousChips) > c.jumpThreshold
      then Step(Lost(seen, now, AbruptRootSwitch), true)
      else
        var s := BelowMarked(c, seen, now, input.cn0);
        var tired := Tired(c, s, now, input.cn0);
        if tired == None then Step(s, false)
        else if tired.value then Step(Lost(s, now, LowCn0), true)
        else Validated(Carried(s, root), now)
  }

  function Advanced(c: Config, s: State, now: Time, input: Input): Step {
    if !input.available then Step(Unavailable(s, now), true)
    else if !s.scheduled then
      if !s.pending then Step(s, false) else Step(s.(phase := Searching, validity := NO_VALIDITY), true)
    else if !Held(s) then
      if Compare(now, s.timing.searchReady) < 0
      then Step(s.(phase := Searching, hold := s.hold.(above := false), validity := NO_VALIDITY), true)
      else Acquired(c, s, now, input)
    else Kept(c, s, now, input)
  }

  function Started(s: State, input: Input): State {
    s.(event := false, cn0 := input.cn0, dll := s.dll.(currentValid := false))
  }

  function Updated(c: Config, s: State, now: Time, input: Input): Step {
    if !Valid(now) || input.cn0.NotUsable? || !ValidConfig(c) || Compare(now, s.since) < 0 then Step(s, false)
    else
      var step := Advanced(c, Started(s, input), now, input);
      if step.ok then Step(Classified(c, step.state, input), true) else step
  }

  /** What a successful update reports of the sky: a direct path, a disturbed one, tracking without sight, or none. */
  lemma SkyMeaning(c: Config, s: State, now: Time, input: Input)
    requires Updated(c, s, now, input).ok
    ensures var t := Updated(c, s, now, input).state;
            var level := input.cn0.Finite? && AbsReal(input.cn0.value - input.openCn0) < c.multipathCn0Delta;
            var straight := t.dll.currentValid ==> AbsReal(t.dll.currentChips) < c.multipathCodeBias;
            && (t.sky.Los? <==> input.direct && level && straight && c.multipathCodeBias > 0.0)
            && (t.sky.LosMultipath? <==> input.direct && !(level && straight && c.multipathCodeBias > 0.0))
            && (t.sky.NlosTracked? <==> !input.direct && Held(t))
            && (t.sky.Blocked? <==> !input.direct && !Held(t))
            && t.cn0 == input.cn0
  {
    CarriesCn0(c, Started(s, input), now, input);
  }

  lemma CarriesCn0(c: Config, s: State, now: Time, input: Input)
    ensures Advanced(c, s, now, input).state.cn0 == s.cn0
  {
    AcquiredCarriesCn0(c, s, now, input);
    KeptCarriesCn0(c, s, now, input);
  }

  lemma AcquiredCarriesCn0(c: Config, s: State, now: Time, input: Input)
    ensures Acquired(c, s, now, input).state.cn0 == s.cn0
  {
    var marked := AboveMarked(c, s.(phase := Acquiring), now, input.cn0);
    match Selection(Acquisition, input.roots)
    case None =>
    case Some(i) => EnteredCarriesCn0(c, Observed(marked, input.roots[i]), now, input.roots[i]);
  }

  lemma EnteredCarriesCn0(c: Config, s: State, now: Time, root: Root)
    ensures Entered(c, s, now, root).state.cn0 == s.cn0
  {
  }

  lemma KeptCarriesCn0(c: Config, s: State, now: Time, input: Input)
    ensures Kept(c, s, now, input).state.cn0 == s.cn0
  {
  }

  // ---------- The tracker ----------

  class SignalTracker {
    var phase: Phase
    var context: Context
    var since: Time
    var timing: Timing
    var cn0: Cn0
    var scheduled: bool
    var validity: Validity
    var sky: Sky
    var loss: LossReason
    var hold: Persistence
    var lock: bool
    var dll: Continuity
    var pending: bool
    var event: bool

    function View(): State
      reads this
    {
      State(phase, context, since, timing, cn0, scheduled, validity, sky, loss, hold, lock, dll, pending, event)
    }

    constructor (t: Time)
      ensures View() == ResetAt(t)
    {
      phase, context, since, timing, cn0 := SignalOff, Hot, t, Timing(t, t, t, t, t, t), Finite(0.0);
      scheduled, validity, sky, loss := false, NO_VALIDITY, Blocked, NoLoss;
      hold, lock, dll, pending, event := Persistence(false, t, false, t), false, NO_ROOT, false, false;
    }

    method ResetOverlay(t: Time)
      modifies this
      ensures View() == old(View()).(sky := Blocked, loss := NoLoss, hold := Persistence(false, t, false, t),
                                     lock := false, dll := NO_ROOT, pending := false, event := false)
    {
      sky, loss, hold, lock := Blocked, NoLoss, Persistence(false, t, false, t), false;
      dll, pending, event := NO_ROOT, false, false;
    }

    method Reset(t: Time)
      modifies this
      ensures View() == ResetAt(t)
    {
      phase, context, since, timing, cn0 := SignalOff, Hot, t, Timing(t, t, t, t, t, t), Finite(0.0);
      scheduled, validity := false, NO_VALIDITY;
      ResetOverlay(t);
    }

    method SwitchOff(now: Time)
      modifies this
      ensures View() == SwitchedOff(old(View()), now)
    {
      phase, since, scheduled, lock, validity, cn0 := SignalOff, now, false, false, NO_VALIDITY, Finite(0.0);
    }

    method Prepare()
      modifies this
      ensures View() == Prepared(old(View()))
    {
      phase, validity, lock, pending, event := Searching, NO_VALIDITY, false, false, false;
      hold, dll := hold.(above := false, below := false), dll.(previousValid := false, currentValid := false);
    }

    method Book(r: Request, t: Timing)
      requires r.estimate.Some?
      modifies this
      ensures View() == old(View()).(context := r.context, since := r.on, cn0 := Finite(r.estimate.value),
                                     scheduled := true, timing := t)
    {
      context, since, cn0, scheduled, timing := r.context, r.on, Finite(r.estimate.value), true, t;
    }

    method Schedule(c: Config, r: Request) returns (ok: bool)
      modifies this
      ensures ok <==> Scheduled(c, old(View()), r).Some?
      ensures View() == if ok then Scheduled(c, old(View()), r).value else old(View())
    {
      if !Valid(r.on) || !Valid(r.ready) || Compare(r.ready, r.on) < 0 || !ValidConfig(c) || r.estimate == None {
        return false;
      }
      var complete := AddDelay(r.ready, AcquisitionDelay(c, r));
      if complete == None {
        return false;
      }
      var psr := AddDelay(complete.value, c.psrDelay);
      var doppler := AddDelay(complete.value, c.dopplerDelay);
      var adr := AddDelay(complete.value, c.adrDelay);
      if psr == None || doppler == None || adr == None {
        return false;
      }
      Prepare();
      Book(r, Timing(r.ready, complete.value, complete.value, psr.value, doppler.value, adr.value));
      return true;
    }

    method Classify(c: Config, input: Input)
      modifies this`sky
      ensures View() == Classified(c, old(View()), input)
    {
      if !input.direct {
        sky := if phase.Tracking? && lock then NlosTracked else Blocked;
        return;
      }
      var bias := if dll.currentValid then AbsReal(dll.currentChips) else 0.0;
      var far := !input.cn0.Finite? || AbsReal(input.cn0.value - input.openCn0) >= c.multipathCn0Delta;
      if far || bias >= c.multipathCodeBias {
        sky := LosMultipath;
      } else {
        sky := Los;
      }
    }

    method Release()
      modifies this
      ensures View() == Released(old(View()))
    {
      scheduled, lock, validity, dll := false, false, NO_VALIDITY, NO_ROOT;
      hold := hold.(above := false, below := false);
    }

    method BeginLoss(now: Time, reason: LossReason)
      modifies this
      ensures View() == Lost(old(View()), now, reason)
    {
      Release();
      phase, context, since, timing := Searching, Reacquisition, now, timing.(searchReady := now);
      pending, event, loss := true, false, reason;
    }

    method TakeLock(now: Time)
      modifies this
      ensures View() == Locked(old(View()), now)
    {
      phase, since, lock, validity := Tracking, now, true, NO_VALIDITY;
      event, pending, hold := context.Reacquisition?, false, hold.(above := false, below := false);
    }

    method EnterTracking(c: Config, now: Time, root: Root) returns (ok: bool)
      modifies this
      ensures Step(View(), ok) == Entered(c, old(View()), now, root)
    {
      var psr, doppler, adr := Add(now, c.psrDelay), Add(now, c.dopplerDelay), Add(now, c.adrDelay);
      if psr == None || doppler == None || adr == None {
        return false;
      }
      timing := timing.(trackingStart := now, psr := psr.value, doppler := doppler.value, adr := adr.value);
      dll := Continuity(true, true, root.phaseSec, root.phaseChips, root.phaseSec, root.phaseChips, root.power);
      TakeLock(now);
      return true;
    }

    method UpdateQualification(c: Config, now: Time, value: Cn0) returns (qualified: Option<bool>)
      modifies this
      ensures View() == AboveMarked(c, old(View()), now, value)
      ensures qualified == Qualified(c, View(), now, value)
    {
      if Below(value, c.acquisitionThreshold) {
        hold := hold.(above := false);
        return Some(false);
      }
      if !hold.above {
        hold := hold.(above := true, aboveSince := now);
      }
      qualified := ElapsedAtLeast(now, hold.aboveSince, c.acquisitionHold);
    }

    method UpdateValidity(now: Time) returns (ok: bool)
      modifies this
      ensures Step(View(), ok) == Validated(old(View()), now)
    {
      var lockTime := Difference(now, timing.trackingStart);
      if lockTime == None || lockTime.value < 0 {
        return false;
      }
      var psr := Compare(now, timing.psr) >= 0;
      var adr := Compare(now, timing.adr) >= 0;
      validity := Validity(lockTime.value, psr, Compare(now, timing.doppler) >= 0, adr, psr, adr);
      return true;
    }

    method Observe(root: Root)
      modifies this
      ensures View() == Observed(old(View()), root)
    {
      dll := dll.(currentValid := true, currentSec := root.phaseSec, currentChips := root.phaseChips,
                  currentPower := root.power);
    }

    /** The part of an update for a signal that is scheduled but not in lock. */
    method Acquire(c: Config, now: Time, input: Input) returns (ok: bool)
      modifies this
      ensures Step(View(), ok) == Acquired(c, old(View()), now, input)
    {
      phase := Acquiring;
      var qualified := UpdateQualification(c, now, input.cn0);
      if qualified == None {
        return false;
      }
      var selected := SelectRoot(input.roots, Acquisition);
      if selected.Some? {
        Observe(input.roots[selected.value]);
      }
      if qualified.value && selected.Some? && Compare(now, timing.acquisitionComplete) >= 0 {
        ok := EnterTracking(c, now, input.roots[selected.value]);
      } else {
        validity := NO_VALIDITY;
        ok := true;
      }
    }

    /** Low C/N0 while in lock: whether it has lasted long enough to lose the lock. */
    method UpdateLoss(c: Config, now: Time, value: Cn0) returns (tired: Option<bool>)
      modifies this
      ensures View() == BelowMarked(c, old(View()), now, value)
      ensures tired == Tired(c, View(), now, value)
    {
      if Below(value, c.minimumTracking) {
        if !hold.below {
          hold := hold.(below := true, belowSince := now);
        }
        tired := ElapsedAtLeast(now, hold.belowSince, c.lossHold);
      } else {
        hold := hold.(below := false);
        tired := Some(false);
      }
    }

    /** The part of an update for a signal in lock. */
    method Keep(c: Config, now: Time, input: Input) returns (ok: bool)
      modifies this
      ensures Step(View(), ok) == Kept(c, old(View()), now, input)
    {
      var selected := SelectRoot(input.roots, Tracked(dll.previousSec));
      if selected == None {
        BeginLoss(now, NoStableRoot);
        return true;
      }
      var root := input.roots[selected.value];
      Observe(root);
      if dll.previousValid && AbsReal(root.phaseChips - dll.previousChips) > c.jumpThreshold {
        BeginLoss(now, AbruptRootSwitch);
        return true;
      }
      var tired := UpdateLoss(c, now, input.cn0);
      if tired == None {
        return false;
      }
      if tired.value {
        BeginLoss(now, LowCn0);
        return true;
      }
      dll := dll.(previousValid := true, previousSec := root.phaseSec, previousChips := root.phaseChips);
      ok := UpdateValidity(now);
    }

    method GoUnavailable(now: Time)
      modifies this
      ensures View() == Unavailable(old(View()), now)
    {
      var hadLock := phase.Tracking? && lock;
      Release();
      phase, since, pending := SignalOff, now, false;
      if hadLock {
        loss := SignalUnavailable;
      }
    }

    method Advance(c: Config, now: Time, input: Input) returns (ok: bool)
      modifies this
      ensures Step(View(), ok) == Advanced(c, old(View()), now, input)
    {
      if !input.available {
        GoUnavailable(now);
        return true;
      }
      if !scheduled {
        if !pending {
          return false;
        }
        phase, validity := Searching, NO_VALIDITY;
        return true;
      }
      if phase.Tracking? && lock {
        ok := Keep(c, now, input);
      } else if Compare(now, timing.searchReady) < 0 {
        phase, hold, validity := Searching, hold.(above := false), NO_VALIDITY;
        ok := true;
      } else {
        ok := Acquire(c, now, input);
      }
    }

    method Update(c: Config, now: Time, input: Input) returns (ok: bool)
      modifies this
      ensures Step(View(), ok) == Updated(c, old(View()), now, input)
    {
      if !Valid(now) || input.cn0.NotUsable? || !ValidConfig(c) || Compare(now, since) < 0 {
        return false;
      }
      event, cn0, dll := false, input.cn0, dll.(currentValid := false);
      ok := Advance(c, now, input);
      if ok {
        Classify(c, input);
      }
    }
  }
}
