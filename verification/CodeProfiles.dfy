/**
 The correlation of each supported kind of spreading code, from its validated profile.

 The square root that turns a power fraction into an amplitude is a parameter.
 */
module CodeProfiles {
  import opened Integers
  import opened Wrappers
  import opened RealSums
  import opened ComplexMeans
  import opened Reals
  import opened CodeCorrelation

  datatype Model = Unsupported | Bpsk | Tmboc | Cboc | Qmboc

  datatype PhaseOf = NotApplicable | InPhase | AntiPhase | PositiveQuadrature | NegativeQuadrature

  datatype Profile = Profile(
    model: Model, chipRate: real, primaryRate: real, secondaryRate: real, fraction: real, phase: PhaseOf)

  predicate CompositeRates(p: Profile) {
    p.chipRate > 0.0 && p.primaryRate > 0.0 && p.secondaryRate > p.primaryRate && 0.0 < p.fraction < 1.0
  }

  predicate ValidProfile(p: Profile) {
    match p.model
    case Unsupported =>
      p.chipRate == 0.0 && p.primaryRate == 0.0 && p.secondaryRate == 0.0 && p.fraction == 0.0 && p.phase.NotApplicable?
    case Bpsk =>
      p.chipRate > 0.0 && p.primaryRate == 0.0 && p.secondaryRate == 0.0 && p.fraction == 0.0 && p.phase.NotApplicable?
    case Tmboc => CompositeRates(p) && p.phase.NotApplicable?
    case Cboc => CompositeRates(p) && (p.phase.InPhase? || p.phase.AntiPhase?)
    case Qmboc => CompositeRates(p) && (p.phase.PositiveQuadrature? || p.phase.NegativeQuadrature?)
  }

  // ---------- Whole multiples ----------

  /** The subcarrier rate as a whole number of chip rates, at most 64. */
  function BocMultiple(rate: real, chipRate: real): (multiple: Option<nat>)
    ensures multiple.Some? ==> 1 <= multiple.value <= 64
  {
    if rate <= 0.0 || chipRate <= 0.0 then None
    else
      var ratio := rate / chipRate;
      var rounded := (ratio + 0.5).Floor;
      if rounded < 1 || rounded > 64 || AbsReal(ratio - rounded as real) > 0.0000000001 then None else Some(rounded)
  }

  method Gcd(lhs: nat, rhs: nat) returns (g: nat)
    ensures g == Euclid(lhs, rhs)
  {
    var (a, b) := (lhs, rhs);
    while b != 0
      invariant Euclid(a, b) == Euclid(lhs, rhs)
    {
      var remainder := a % b;
      a := b;
      b := remainder;
    }
    g := a;
  }

  function CommonMultiple(p: nat, s: nat): int
    requires p > 0
  {
    var g := Euclid(p, s);
    if g == 0 then 0 else p / g * s
  }

  /** The segments of a composite waveform: whole half cycles of both subcarriers. */
  lemma CommonIsMultiple(p: nat, s: nat) returns (x: nat, y: nat)
    requires p > 0 && s > 0
    ensures x > 0 && y > 0 && CommonMultiple(p, s) == s * x == p * y
  {
    x, y := EuclidDivides(p, s);
    var g := Euclid(p, s);
    QuotientUnique(p, g, x, 0);
    assert x * (g * y) == (g * x) * y;
    assert y > 0;
  }

  lemma SegmentsDivide(p: nat, s: nat)
    requires p > 0 && s > 0
    ensures var count := 2 * CommonMultiple(p, s);
            count > 0 && count % (2 * p) == 0 && count % (2 * s) == 0
  {
    var x, y := CommonIsMultiple(p, s);
    var count := 2 * CommonMultiple(p, s);
    assert count == (2 * p) * y && count == (2 * s) * x;
    MultipleBounds(2 * s, x);
    QuotientUnique(count, 2 * p, y, 0);
    QuotientUnique(count, 2 * s, x, 0);
  }

  // ---------- Subcarriers ----------

  function SubcarrierValue(multiple: int, segment: int, count: int): Option<real> {
    if multiple <= 0 || count <= 0 || segment < 0 || segment >= count || count % (2 * multiple) != 0 then None
    else
      var perHalf := count / (2 * multiple);
      if perHalf == 0 then None
      else if (segment / perHalf) % 2 == 0 then Some(1.0) else Some(-1.0)
  }

  lemma HalfCyclePositive(multiple: int, count: int)
    requires multiple > 0 && count > 0 && count % (2 * multiple) == 0
    ensures count / (2 * multiple) > 0
  {
    var c := 2 * multiple;
    assert count == c * (count / c);
    MultipleBounds(c, count / c);
  }

  /** The lookup succeeds on every segment of a waveform with whole half cycles. */
  lemma LookupSucceeds(multiple: int, segment: int, count: int)
    requires multiple > 0 && 0 <= segment < count && count % (2 * multiple) == 0
    ensures SubcarrierValue(multiple, segment, count).Some?
    ensures SubcarrierValue(multiple, segment, count).value in {1.0, -1.0}
  {
    HalfCyclePositive(multiple, count);
  }

  function Value(multiple: int, segment: int, count: int): real {
    match SubcarrierValue(multiple, segment, count)
    case None => 0.0
    case Some(v) => v
  }

  function Factor(phase: PhaseOf): Option<Complex> {
    match phase
    case InPhase => Some(Complex(1.0, 0.0))
    case AntiPhase => Some(Complex(-1.0, 0.0))
    case PositiveQuadrature => Some(Complex(0.0, 1.0))
    case NegativeQuadrature => Some(Complex(0.0, -1.0))
    case NotApplicable => None
  }

  /** How a segment combines the values of the two subcarriers. */
  type Mixer = (real, real) -> Complex

  function Mix(factor: Complex, primaryWeight: real, secondaryWeight: real): Mixer {
    (primary, secondary) => Complex(primaryWeight * primary + factor.re * (secondaryWeight * secondary),
                                    factor.im * (secondaryWeight * secondary))
  }

  function BocWaveform(multiple: nat): Waveform {
    seq(2 * multiple, i => Complex(Value(multiple, i, 2 * multiple), 0.0))
  }

  function Segments(p: nat, s: nat, count: nat, mix: Mixer): Waveform {
    seq(count, i => mix(Value(p, i, count), Value(s, i, count)))
  }

  /** Whole half cycles of a subcarrier. */
  predicate WholeHalfCycles(multiple: nat, count: nat) { multiple > 0 && count > 0 && count % (2 * multiple) == 0 }

  /** The waveform of a composite subcarrier, segment by segment; its lookups cannot fail. */
  method BuildSegments(p: nat, s: nat, count: nat, mix: Mixer) returns (w: Option<Waveform>)
    requires WholeHalfCycles(p, count) && WholeHalfCycles(s, count)
    ensures w == Some(Segments(p, s, count, mix))
  {
    var waveform := [];
    for segment := 0 to count
      invariant waveform == Segments(p, s, count, mix)[..segment]
    {
      LookupSucceeds(p, segment, count);
      LookupSucceeds(s, segment, count);
      var primary, secondary := SubcarrierValue(p, segment, count), SubcarrierValue(s, segment, count);
      if primary == None || secondary == None {
        return None;
      }
      assert Value(p, segment, count) == primary.value && Value(s, segment, count) == secondary.value;
      waveform := waveform + [mix(primary.value, secondary.value)];
    }
    assert Segments(p, s, count, mix)[..count] == Segments(p, s, count, mix);
    w := Some(waveform);
  }

  function CompositeWaveform(p: nat, s: nat, mix: Mixer): Waveform
    requires p > 0
  {
    var count := 2 * CommonMultiple(p, s);
    if count < 0 then [] else Segments(p, s, count, mix)
  }

  method BuildComposite(p: nat, s: nat, mix: Mixer) returns (w: Option<Waveform>)
    requires p > 0 && s > 0
    ensures w == Some(CompositeWaveform(p, s, mix))
  {
    var g := Gcd(p, s);
    ghost var x, y := EuclidDivides(p, s);
    var common := p / g * s;
    assert common == CommonMultiple(p, s);
    SegmentsDivide(p, s);
    w := BuildSegments(p, s, 2 * common, mix);
  }

  /** The correlation at a delay in chips, or nothing where the code reports an error. */
  function Ideal(profile: Profile, root: real -> real, delay: real): Option<Complex> {
    if !ValidProfile(profile) || profile.model.Unsupported? then None
    else if profile.model.Bpsk? then
      Some(Complex(if AbsReal(delay) < 1.0 then 1.0 - AbsReal(delay) else 0.0, 0.0))
    else
      var p := BocMultiple(profile.primaryRate, profile.chipRate);
      var s := BocMultiple(profile.secondaryRate, profile.chipRate);
      if p == None || s == None then None
      else if profile.model.Tmboc? then
        Some(Blend(profile.fraction, Autocorrelation(BocWaveform(p.value), delay),
                   Autocorrelation(BocWaveform(s.value), delay)))
      else
        var common := CommonMultiple(p.value, s.value);
        if common <= 0 || common > 64 || Factor(profile.phase) == None then None
        else Some(Autocorrelation(Composite(profile, root, p.value, s.value), delay))
  }

  function Composite(profile: Profile, root: real -> real, p: nat, s: nat): Waveform
    requires p > 0 && Factor(profile.phase).Some?
  {
    CompositeWaveform(p, s, Mix(Factor(profile.phase).value, root(1.0 - profile.fraction), root(profile.fraction)))
  }

  // ---------- Every supported code ----------

  lemma TriangleAtMostOne(v: real)
    requires 0.0 <= v <= 1.0
    ensures Norm(Complex(v, 0.0)) <= 1.0
  {
    MultiplyBoth(v, 1.0, v);
    assert v * v <= v;
  }

  /** The correlation of every supported code is at most one in magnitude, and zero from one chip on. */
  lemma IdealIsBounded(profile: Profile, root: real -> real, delay: real)
    requires Ideal(profile, root, delay).Some?
    ensures Norm(Ideal(profile, root, delay).value) <= 1.0
    ensures AbsReal(delay) >= 1.0 ==> Ideal(profile, root, delay).value == ZERO
  {
    if profile.model.Bpsk? {
      TriangleAtMostOne(Ideal(profile, root, delay).value.re);
    } else {
      var p := BocMultiple(profile.primaryRate, profile.chipRate).value;
      var s := BocMultiple(profile.secondaryRate, profile.chipRate).value;
      if profile.model.Tmboc? {
        BoundedBlend(profile.fraction, BocWaveform(p), BocWaveform(s), delay);
      } else {
        BoundedWaveform(Composite(profile, root, p, s), delay);
      }
    }
  }

  lemma BoundedWaveform(w: Waveform, delay: real)
    requires |w| > 0
    ensures Norm(Autocorrelation(w, delay)) <= 1.0
    ensures AbsReal(delay) >= 1.0 ==> Autocorrelation(w, delay) == ZERO
  {
    AtMostOne(w, delay);
    if AbsReal(delay) >= 1.0 {
      ZeroBeyondOneChip(w, delay);
    }
  }

  lemma BoundedBlend(share: real, v: Waveform, w: Waveform, delay: real)
    requires 0.0 < share < 1.0 && |v| > 0 && |w| > 0
    ensures Norm(Blend(share, Autocorrelation(v, delay), Autocorrelation(w, delay))) <= 1.0
    ensures AbsReal(delay) >= 1.0 ==> Blend(share, Autocorrelation(v, delay), Autocorrelation(w, delay)) == ZERO
  {
    BoundedWaveform(v, delay);
    BoundedWaveform(w, delay);
    BlendAtMostOne(share, Autocorrelation(v, delay), Autocorrelation(w, delay));
    BlendOfZeros(share);
  }

  /** Reversing the delay conjugates the correlation, for every code. */
  lemma IdealConjugates(profile: Profile, root: real -> real, delay: real)
    requires delay > 0.0 && Ideal(profile, root, delay).Some?
    ensures Ideal(profile, root, -delay) == Some(Conj(Ideal(profile, root, delay).value))
  {
    if profile.model.Tmboc? {
      var p := BocMultiple(profile.primaryRate, profile.chipRate).value;
      var s := BocMultiple(profile.secondaryRate, profile.chipRate).value;
      BlendConj(profile.fraction, Autocorrelation(BocWaveform(p), delay), Autocorrelation(BocWaveform(s), delay));
    }
  }

  // ---------- The value at no delay ----------

  ghost predicate IsRoot(root: real -> real) { forall x :: x >= 0.0 ==> root(x) >= 0.0 && root(x) * root(x) == x }

  lemma {:induction false} SumPositive(f: int -> real, n: nat, at: int)
    requires forall i :: 0 <= i < n ==> f(i) >= 0.0
    ensures Single(f, n) >= 0.0
    ensures 0 <= at < n && f(at) > 0.0 ==> Single(f, n) > 0.0
  {
    if n > 0 {
      SumPositive(f, n - 1, at);
    }
  }

  /** A waveform with one step that is not zero has energy. */
  lemma EnergyPositive(w: Waveform, at: int)
    requires 0 <= at < |w| && Norm(w[at]) > 0.0
    ensures Energy(w) > 0.0
  {
    PowersNonNegative(w);
    SumPositive(StepPower(w), |w|, at);
    DividePositive(Single(StepPower(w), |w|), |w| as real);
  }

  lemma DividePositive(a: real, b: real)
    requires a > 0.0 && b > 0.0
    ensures a / b > 0.0
  {
  }

  lemma BocAtZero(multiple: nat)
    requires multiple > 0
    ensures Autocorrelation(BocWaveform(multiple), 0.0) == Complex(1.0, 0.0)
  {
    var w := BocWaveform(multiple);
    QuotientUnique(2 * multiple, 2 * multiple, 1, 0);
    LookupSucceeds(multiple, 0, 2 * multiple);
    assert w[0].re == 1.0 || w[0].re == -1.0;
    EnergyPositive(w, 0);
    OneAtZero(w);
  }

  /** Two subcarriers of the same rate and the same power in opposite phase cancel. */
  predicate Cancels(p: nat, s: nat, profile: Profile) {
    p == s && profile.phase.AntiPhase? && profile.fraction == 0.5
  }

  lemma QuadratureStep(factor: Complex, a: real, b: real)
    requires factor.re == 0.0 && (factor.im == 1.0 || factor.im == -1.0) && a > 0.0
    ensures Norm(Mix(factor, a, b)(1.0, 1.0)) > 0.0
  {
    NormPositive(Mix(factor, a, b)(1.0, 1.0), Norm(Mix(factor, a, b)(1.0, 1.0)));
  }

  lemma InLineStep(factor: Complex, a: real, b: real, secondary: real)
    requires factor == Complex(1.0, 0.0) || factor == Complex(-1.0, 0.0)
    requires secondary in {1.0, -1.0} && a > 0.0 && b > 0.0
    requires a == b ==> factor.re == secondary
    ensures Norm(Mix(factor, a, b)(1.0, secondary)) > 0.0
  {
    NormPositive(Mix(factor, a, b)(1.0, secondary), Norm(Mix(factor, a, b)(1.0, secondary)));
  }

  /** The first segment of a subcarrier is positive; with whole half cycles its second half cycle is negative. */
  lemma FirstHalfCycles(multiple: int, count: int, segment: int)
    requires multiple > 0 && 0 <= segment < count && count % (2 * multiple) == 0
    ensures segment < count / (2 * multiple) ==> Value(multiple, segment, count) == 1.0
    ensures segment == count / (2 * multiple) ==> Value(multiple, segment, count) == -1.0
  {
    HalfCyclePositive(multiple, count);
    var half := count / (2 * multiple);
    if segment == half {
      QuotientUnique(segment, half, 1, 0);
    } else if segment < half {
      QuotientUnique(segment, half, 0, segment);
    }
  }

  /** Where the faster subcarrier first turns negative, the slower one is still positive. */
  lemma Disagree(p: nat, s: nat)
    requires 0 < p < s
    ensures var count := 2 * CommonMultiple(p, s);
            var at := count / (2 * s);
            0 <= at < count && Value(p, at, count) == 1.0 && Value(s, at, count) == -1.0
  {
    var count := 2 * CommonMultiple(p, s);
    SegmentsDivide(p, s);
    var x, y := CommonIsMultiple(p, s);
    QuotientUnique(count, 2 * s, x, 0);
    QuotientUnique(count, 2 * p, y, 0);
    Faster(p, s, x, y);
    MultipleBounds(x, 2 * s - 2);
    assert count == x + x + x * (2 * s - 2);
    FirstHalfCycles(p, count, x);
    FirstHalfCycles(s, count, x);
  }

  lemma Faster(p: int, s: int, x: int, y: int)
    requires 0 < p < s && x > 0 && s * x == p * y
    ensures x < y
  {
    assert (s - p) * x == p * (y - x);
    MultipleBounds(x, s - p);
    MultipleBounds(p, y - x);
  }

  lemma CompositeLength(p: nat, s: nat, mix: Mixer)
    requires p > 0 && s > 0
    ensures |CompositeWaveform(p, s, mix)| == 2 * CommonMultiple(p, s) > 0
  {
    SegmentsDivide(p, s);
  }

  lemma SegmentsEnergy(p: nat, s: nat, count: nat, mix: Mixer, at: nat)
    requires at < count && Norm(mix(Value(p, at, count), Value(s, at, count))) > 0.0
    ensures Autocorrelation(Segments(p, s, count, mix), 0.0) == Complex(1.0, 0.0)
  {
    EnergyPositive(Segments(p, s, count, mix), at);
    OneAtZero(Segments(p, s, count, mix));
  }

  lemma CompositeEnergy(p: nat, s: nat, mix: Mixer, at: nat)
    requires p > 0 && s > 0 && at < 2 * CommonMultiple(p, s)
    requires var count := 2 * CommonMultiple(p, s); Norm(mix(Value(p, at, count), Value(s, at, count))) > 0.0
    ensures |CompositeWaveform(p, s, mix)| > 0
    ensures Autocorrelation(CompositeWaveform(p, s, mix), 0.0) == Complex(1.0, 0.0)
  {
    CompositeLength(p, s, mix);
    SegmentsEnergy(p, s, 2 * CommonMultiple(p, s), mix, at);
  }

  lemma ValuesAreSigns(p: nat, s: nat, at: nat)
    requires p > 0 && s > 0 && at < 2 * CommonMultiple(p, s)
    ensures var count := 2 * CommonMultiple(p, s);
            Value(p, at, count) in {1.0, -1.0} && Value(s, at, count) in {1.0, -1.0}
    ensures at == 0 ==> Value(p, 0, 2 * CommonMultiple(p, s)) == 1.0 && Value(s, 0, 2 * CommonMultiple(p, s)) == 1.0
  {
    SegmentsDivide(p, s);
    var count := 2 * CommonMultiple(p, s);
    LookupSucceeds(p, at, count);
    LookupSucceeds(s, at, count);
    HalfCyclePositive(p, count);
    HalfCyclePositive(s, count);
    FirstHalfCycles(p, count, 0);
    FirstHalfCycles(s, count, 0);
  }

  lemma RootsOfShares(root: real -> real, share: real)
    requires IsRoot(root) && 0.0 < share < 1.0
    ensures root(share) > 0.0 && root(1.0 - share) > 0.0
    ensures root(1.0 - share) == root(share) <==> share == 0.5
  {
    var (a, b) := (root(1.0 - share), root(share));
    assert a * a == 1.0 - share && b * b == share;
    RootPositive(a, 1.0 - share);
    RootPositive(b, share);
    EqualSquares(a, b);
  }

  lemma RootPositive(a: real, square: real)
    requires a >= 0.0 && a * a == square && square > 0.0
    ensures a > 0.0
  {
    if a == 0.0 {
      Same(a, a, 0.0);
    }
  }

  lemma EqualSquares(a: real, b: real)
    requires a > 0.0 && b > 0.0
    ensures a == b <==> a * a == b * b
  {
    assert a * a - b * b == (a - b) * (a + b);
    if a > b {
      assert (a - b) * (a + b) > 0.0;
    } else if a < b {
      assert (b - a) * (a + b) > 0.0;
    }
  }

  /** A composite waveform that does not cancel has a segment that is not zero. */
  lemma CompositeAtZero(p: nat, s: nat, profile: Profile, factor: Complex, a: real, b: real, mix: Mixer)
    requires 0 < p <= s && Factor(profile.phase) == Some(factor) && !Cancels(p, s, profile)
    requires a > 0.0 && b > 0.0 && (a == b <==> profile.fraction == 0.5) && mix == Mix(factor, a, b)
    ensures |CompositeWaveform(p, s, mix)| > 0
    ensures Autocorrelation(CompositeWaveform(p, s, mix), 0.0) == Complex(1.0, 0.0)
  {
    CompositeLength(p, s, mix);
    ValuesAreSigns(p, s, 0);
    if factor.re == 0.0 {
      QuadratureStep(factor, a, b);
      CompositeEnergy(p, s, mix, 0);
    } else if factor.re == 1.0 || a != b {
      InLineStep(factor, a, b, 1.0);
      CompositeEnergy(p, s, mix, 0);
    } else {
      Disagree(p, s);
      InLineStep(factor, a, b, -1.0);
      CompositeEnergy(p, s, mix, 2 * CommonMultiple(p, s) / (2 * s));
    }
  }

  lemma NormOfZero()
    ensures Norm(ZERO) == 0.0
  {
  }

  lemma MixCancels(a: real, value: real)
    ensures Norm(Mix(Complex(-1.0, 0.0), a, a)(value, value)) == 0.0
  {
    assert Mix(Complex(-1.0, 0.0), a, a)(value, value) == ZERO;
    NormOfZero();
  }

  lemma ZeroQuotient(a: real, b: real)
    requires a == 0.0 && b > 0.0
    ensures a / b == 0.0
  {
  }

  lemma ZeroEnergy(w: Waveform)
    requires |w| > 0 && forall i :: 0 <= i < |w| ==> Norm(w[i]) == 0.0
    ensures Energy(w) == 0.0
  {
    ConstantSum(StepPower(w), 0.0, |w|);
    ZeroQuotient(Single(StepPower(w), |w|), |w| as real);
  }

  lemma ZeroWaveform(w: Waveform, delay: real)
    requires |w| > 0 && forall i :: 0 <= i < |w| ==> Norm(w[i]) == 0.0
    ensures Autocorrelation(w, delay) == ZERO
    decreases delay < 0.0
  {
    if delay < 0.0 {
      ZeroWaveform(w, -delay);
    } else {
      ZeroEnergy(w);
    }
  }

  lemma SegmentsCancel(p: nat, count: nat, mix: Mixer, delay: real)
    requires count > 0 && forall v :: Norm(mix(v, v)) == 0.0
    ensures Autocorrelation(Segments(p, p, count, mix), delay) == ZERO
  {
    ZeroWaveform(Segments(p, p, count, mix), delay);
  }

  /** A composite waveform that cancels is zero throughout. */
  lemma CancelledWaveform(p: nat, a: real, delay: real)
    requires p > 0
    ensures |CompositeWaveform(p, p, Mix(Complex(-1.0, 0.0), a, a))| > 0
    ensures Autocorrelation(CompositeWaveform(p, p, Mix(Complex(-1.0, 0.0), a, a)), delay) == ZERO
  {
    CompositeLength(p, p, Mix(Complex(-1.0, 0.0), a, a));
    forall v
      ensures Norm(Mix(Complex(-1.0, 0.0), a, a)(v, v)) == 0.0
    {
      MixCancels(a, v);
    }
    SegmentsCancel(p, 2 * CommonMultiple(p, p), Mix(Complex(-1.0, 0.0), a, a), delay);
  }

  lemma QuotientOrder(slow: real, fast: real, rate: real)
    requires slow < fast && rate > 0.0
    ensures slow / rate <= fast / rate
  {
    assert fast / rate - slow / rate == (fast - slow) / rate;
  }

  lemma MultipleGrows(slow: real, fast: real, chipRate: real)
    requires 0.0 < slow < fast && BocMultiple(slow, chipRate).Some? && BocMultiple(fast, chipRate).Some?
    ensures BocMultiple(slow, chipRate).value <= BocMultiple(fast, chipRate).value
  {
    QuotientOrder(slow, fast, chipRate);
  }

  lemma CancelledCase(profile: Profile, root: real -> real, p: nat, delay: real)
    requires IsRoot(root) && 0.0 < profile.fraction < 1.0 && p > 0 && Cancels(p, p, profile)
    ensures |Composite(profile, root, p, p)| > 0
    ensures Autocorrelation(Composite(profile, root, p, p), delay) == ZERO
  {
    RootsOfShares(root, profile.fraction);
    var a := root(profile.fraction);
    assert Composite(profile, root, p, p) == CompositeWaveform(p, p, Mix(Complex(-1.0, 0.0), a, a));
    CancelledWaveform(p, a, delay);
  }

  lemma PlainCase(profile: Profile, root: real -> real, p: nat, s: nat)
    requires IsRoot(root) && 0.0 < profile.fraction < 1.0 && Factor(profile.phase).Some? && 0 < p <= s
    requires !Cancels(p, s, profile)
    ensures |Composite(profile, root, p, s)| > 0
    ensures Autocorrelation(Composite(profile, root, p, s), 0.0) == Complex(1.0, 0.0)
  {
    RootsOfShares(root, profile.fraction);
    var (a, b) := (root(1.0 - profile.fraction), root(profile.fraction));
    var factor := Factor(profile.phase).value;
    CompositeAtZero(p, s, profile, factor, a, b, Mix(factor, a, b));
  }

  predicate SubcarriersCancel(profile: Profile) {
    var p := BocMultiple(profile.primaryRate, profile.chipRate);
    var s := BocMultiple(profile.secondaryRate, profile.chipRate);
    (profile.model.Cboc? || profile.model.Qmboc?) && p.Some? && s.Some? && Cancels(p.value, s.value, profile)
  }

  /**
   Every supported code has correlation one at no delay, unless its two subcarriers have the same multiple
   and the same power in opposite phase; then it is zero at every delay.
   */
  lemma OneUnlessCancelled(profile: Profile, root: real -> real, delay: real)
    requires IsRoot(root) && Ideal(profile, root, 0.0).Some?
    ensures if SubcarriersCancel(profile) then Ideal(profile, root, delay) == Some(ZERO)
            else Ideal(profile, root, 0.0) == Some(Complex(1.0, 0.0))
  {
    if !profile.model.Bpsk? {
      var p := BocMultiple(profile.primaryRate, profile.chipRate).value;
      var s := BocMultiple(profile.secondaryRate, profile.chipRate).value;
      if profile.model.Tmboc? {
        BocAtZero(p);
        BocAtZero(s);
        BlendOfOnes(profile.fraction);
      } else {
        MultipleGrows(profile.primaryRate, profile.secondaryRate, profile.chipRate);
        if Cancels(p, s, profile) {
          CancelledCase(profile, root, p, delay);
        } else {
          PlainCase(profile, root, p, s);
        }
      }
    }
  }

  /** Such a profile passes the validation: the two rates differ by less than their multiples are rounded. */
  lemma CancellingProfile() returns (profile: Profile)
    ensures ValidProfile(profile) && SubcarriersCancel(profile)
    ensures forall root: real -> real, delay: real :: IsRoot(root) ==> Ideal(profile, root, delay) == Some(ZERO)
  {
    profile := Profile(Cboc, 1.0, 1.0, 1.00000000005, 0.5, AntiPhase);
    assert BocMultiple(1.0, 1.0) == Some(1) && BocMultiple(1.00000000005, 1.0) == Some(1);
    assert CommonMultiple(1, 1) == 1;
    forall root: real -> real, delay: real | IsRoot(root)
      ensures Ideal(profile, root, delay) == Some(ZERO)
    {
      OneUnlessCancelled(profile, root, delay);
    }
  }

  // ---------- What the waveforms are ----------

  /** The multiple is the whole number that the ratio of the rates is, to 1e-10, if that is from 1 to 64. */
  lemma MultipleIff(rate: real, chipRate: real, ratio: real, m: nat)
    requires rate > 0.0 && chipRate > 0.0 && ratio == rate / chipRate
    ensures BocMultiple(rate, chipRate) == Some(m) <==> 1 <= m <= 64 && AbsReal(ratio - m as real) <= 0.0000000001
  {
    var rounded := (ratio + 0.5).Floor;
    if AbsReal(ratio - m as real) <= 0.0000000001 {
      assert rounded == m;
    }
  }

  /** A subcarrier starts positive and changes sign every half cycle. */
  lemma SubcarrierAlternates(multiple: int, segment: int, count: int)
    requires multiple > 0 && 0 <= segment < count && count % (2 * multiple) == 0
    ensures var half := count / (2 * multiple);
            && half > 0
            && (segment < half ==> Value(multiple, segment, count) == 1.0)
            && (segment + half < count ==> Value(multiple, segment + half, count) == -Value(multiple, segment, count))
  {
    HalfCyclePositive(multiple, count);
    var half := count / (2 * multiple);
    FirstHalfCycles(multiple, count, segment);
    var (q, r) := (segment / half, segment % half);
    assert segment == half * q + r;
    assert half * (q + 1) == half * q + half;
    QuotientUnique(segment + half, half, q + 1, r);
  }

  lemma SignedRoot(weight: real, power: real, value: real, part: real)
    requires weight > 0.0 && weight * weight == power && (value == 1.0 || value == -1.0) && part == weight * value
    ensures part * part == power && (part > 0.0 <==> value == 1.0) && part != 0.0
  {
  }

  /** The values of both subcarriers on a segment of a composite waveform. */
  lemma BothSigns(p: nat, s: nat, i: nat, count: nat)
    requires p > 0 && s > 0 && count == 2 * CommonMultiple(p, s) && i < count
    ensures (Value(p, i, count) == 1.0 || Value(p, i, count) == -1.0)
         && (Value(s, i, count) == 1.0 || Value(s, i, count) == -1.0)
  {
    SegmentsDivide(p, s);
    LookupSucceeds(p, i, count);
    LookupSucceeds(s, i, count);
  }

  /** A part of a composite: so much power, with the sign of its subcarrier. */
  predicate PartOf(part: real, power: real, positive: bool) {
    part * part == power && part != 0.0 && (part > 0.0 <==> positive)
  }

  lemma MixedParts(factor: Complex, a: real, b: real, f: real, primary: real, secondary: real, x: real, y: real)
    requires a > 0.0 && a * a == 1.0 - f && b > 0.0 && b * b == f
    requires (primary == 1.0 || primary == -1.0) && (secondary == 1.0 || secondary == -1.0)
    requires factor.re in {0.0, 1.0, -1.0} && factor.im in {0.0, 1.0, -1.0} && (factor.re == 0.0 <==> factor.im != 0.0)
    requires x == a * primary && y == (factor.re + factor.im) * (b * secondary)
    ensures PartOf(x, 1.0 - f, primary == 1.0)
    ensures PartOf(y, f, (secondary == 1.0) == (factor.re + factor.im == 1.0))
    ensures Mix(factor, a, b)(primary, secondary) == if factor.im == 0.0 then Complex(x + y, 0.0) else Complex(x, y)
  {
    SignedRoot(a, 1.0 - f, primary, x);
    SignedRoot(b, f, if factor.re + factor.im == 1.0 then secondary else -secondary, y);
  }

  lemma CompositeAt(p: nat, s: nat, mix: Mixer, i: nat)
    requires p > 0 && s > 0 && i < 2 * CommonMultiple(p, s)
    ensures |CompositeWaveform(p, s, mix)| == 2 * CommonMultiple(p, s)
    ensures CompositeWaveform(p, s, mix)[i]
            == mix(Value(p, i, 2 * CommonMultiple(p, s)), Value(s, i, 2 * CommonMultiple(p, s)))
  {
    CompositeLength(p, s, mix);
  }

  lemma SharesAreSquares(root: real -> real, share: real, a: real, b: real)
    requires IsRoot(root) && 0.0 < share < 1.0 && a == root(1.0 - share) && b == root(share)
    ensures a > 0.0 && a * a == 1.0 - share && b > 0.0 && b * b == share
  {
    RootsOfShares(root, share);
  }

  /** In line or at right angles, on the one side or the other. */
  lemma FactorSides(profile: Profile, factor: Complex)
    requires ValidProfile(profile) && (profile.model.Cboc? || profile.model.Qmboc?)
    requires Factor(profile.phase) == Some(factor)
    ensures factor.re in {0.0, 1.0, -1.0} && factor.im in {0.0, 1.0, -1.0} && (factor.re == 0.0 <==> factor.im != 0.0)
    ensures profile.model.Cboc? <==> factor.im == 0.0
    ensures factor.re + factor.im == 1.0 <==> profile.phase.InPhase? || profile.phase.PositiveQuadrature?
  {
  }

  /**
   Each segment of a composite waveform has the fraction of its power in the secondary subcarrier and the rest in the
   primary.  CBOC adds them in line, in phase or in opposite phase; QMBOC sets them at right angles, on either side.
   */
  lemma CompositeParts(profile: Profile, root: real -> real, p: nat, s: nat, i: nat, primary: real, secondary: real)
    returns (x: real, y: real)
    requires ValidProfile(profile) && IsRoot(root) && (profile.model.Cboc? || profile.model.Qmboc?)
    requires p > 0 && s > 0 && i < 2 * CommonMultiple(p, s)
    requires primary == Value(p, i, 2 * CommonMultiple(p, s)) && secondary == Value(s, i, 2 * CommonMultiple(p, s))
    ensures PartOf(x, 1.0 - profile.fraction, primary == 1.0)
    ensures PartOf(y, profile.fraction,
                   (secondary == 1.0) == (profile.phase.InPhase? || profile.phase.PositiveQuadrature?))
    ensures i < |Composite(profile, root, p, s)|
    ensures Composite(profile, root, p, s)[i] == if profile.model.Cboc? then Complex(x + y, 0.0) else Complex(x, y)
  {
    var factor := Factor(profile.phase).value;
    var (a, b) := (root(1.0 - profile.fraction), root(profile.fraction));
    BothSigns(p, s, i, 2 * CommonMultiple(p, s));
    FactorSides(profile, factor);
    SharesAreSquares(root, profile.fraction, a, b);
    x, y := a * primary, (factor.re + factor.im) * (b * secondary);
    MixedParts(factor, a, b, profile.fraction, primary, secondary, x, y);
    CompositeAt(p, s, Mix(factor, a, b), i);
  }

  /** From one number to another, by this share of the way. */
  predicate PartWay(share: real, a: Complex, b: Complex, r: Complex) {
    r.re - a.re == share * (b.re - a.re) && r.im - a.im == share * (b.im - a.im)
  }

  lemma BlendIsPartWay(share: real, a: Complex, b: Complex, r: Complex)
    requires r == Blend(share, a, b)
    ensures PartWay(share, a, b, r)
  {
  }

  /** TMBOC correlates like its subcarriers in turn: for the fraction of the time like the secondary. */
  lemma TmbocMixes(profile: Profile, root: real -> real, delay: real, p: nat, s: nat, slow: Complex, fast: Complex)
    requires ValidProfile(profile) && profile.model.Tmboc?
    requires BocMultiple(profile.primaryRate, profile.chipRate) == Some(p)
    requires BocMultiple(profile.secondaryRate, profile.chipRate) == Some(s)
    requires slow == Autocorrelation(BocWaveform(p), delay) && fast == Autocorrelation(BocWaveform(s), delay)
    ensures Ideal(profile, root, delay).Some?
    ensures PartWay(profile.fraction, slow, fast, Ideal(profile, root, delay).value)
  {
    BlendIsPartWay(profile.fraction, slow, fast, Ideal(profile, root, delay).value);
  }
}
