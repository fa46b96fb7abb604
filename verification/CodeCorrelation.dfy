/**
 The ideal correlation of a spreading code with itself: a chip is a step waveform, and the correlation at a
 delay sums the products of overlapping steps.
 */
module CodeCorrelation {
  import opened RealSums
  import opened Reals

  type Waveform = seq<Complex>

  function Step(w: Waveform, i: int): Complex { if 0 <= i < |w| then w[i] else ZERO }

  function StepPower(w: Waveform): int -> real { i => Norm(Step(w, i)) }

  /** The length of the intersection of the intervals from a to c and from b to d. */
  function Gap(a: real, b: real, c: real, d: real): real {
    var start, end := Larger(a, b), Smaller(c, d);
    if end > start then end - start else 0.0
  }

  /** How long the step at x and the delayed step at y coincide, the steps having the given width. */
  function OverlapAt(x: real, y: real, delay: real, width: real): real {
    Gap(x * width, delay + y * width, (x + 1.0) * width, delay + (y + 1.0) * width)
  }

  /** How long step i of the waveform and step j of the delayed waveform coincide, in chips. */
  function Overlaps(width: real, delay: real): Term { (i, j) => OverlapAt(i as real, j as real, delay, width) }

  function Width(w: Waveform): real
    requires |w| > 0
  {
    1.0 / (|w| as real)
  }

  function Product(w: Waveform, i: int, j: int): Complex { Times(Step(w, i), Conj(Step(w, j))) }

  function RealPart(w: Waveform): Term { (i, j) => Product(w, i, j).re }

  function ImaginaryPart(w: Waveform): Term { (i, j) => Product(w, i, j).im }

  function Energy(w: Waveform): real
    requires |w| > 0
  {
    Single(StepPower(w), |w|) / (|w| as real)
  }

  function Autocorrelation(w: Waveform, delay: real): Complex
    requires |w| > 0
    decreases delay < 0.0
  {
    if delay < 0.0 then Conj(Autocorrelation(w, -delay))
    else if delay >= 1.0 || Energy(w) <= 0.0 then ZERO
    else Quotients(RealPart(w), ImaginaryPart(w), Overlaps(Width(w), delay), |w|, Energy(w))
  }

  method ComputeEnergy(w: Waveform) returns (energy: real)
    requires |w| > 0
    ensures energy == Energy(w)
  {
    energy := 0.0;
    for i := 0 to |w|
      invariant energy == Single(StepPower(w), i)
    {
      energy := energy + Norm(w[i]);
    }
    energy := energy / (|w| as real);
  }

  /** The inner loop: the terms of one row, each times its overlap, are added. */
  method AddRow(re: Term, im: Term, t: Term, first: nat, n: nat, before: Complex) returns (sum: Complex)
    requires forall j :: 0 <= j < n ==> t(first, j) >= 0.0
    ensures sum == Complex(before.re + Row(Weighted(re, t), first, n), before.im + Row(Weighted(im, t), first, n))
  {
    sum := before;
    for second := 0 to n
      invariant sum == Complex(before.re + Row(Weighted(re, t), first, second),
                               before.im + Row(Weighted(im, t), first, second))
    {
      var overlap := t(first, second);
      if overlap > 0.0 {
        sum := Plus(sum, Complex(re(first, second) * overlap, im(first, second) * overlap));
      } else {
        assert Weighted(re, t)(first, second) == 0.0 && Weighted(im, t)(first, second) == 0.0;
      }
    }
  }

  method ComputeAutocorrelation(w: Waveform, delay: real) returns (r: Complex)
    requires |w| > 0
    ensures r == Autocorrelation(w, delay)
    decreases delay < 0.0
  {
    if delay < 0.0 {
      r := ComputeAutocorrelation(w, -delay);
      return Conj(r);
    }
    if delay >= 1.0 {
      return ZERO;
    }
    var energy := ComputeEnergy(w);
    if energy <= 0.0 {
      return ZERO;
    }
    var sum := ZERO;
    for first := 0 to |w|
      invariant sum == Complex(Double(Weighted(RealPart(w), Overlaps(Width(w), delay)), first, |w|),
                               Double(Weighted(ImaginaryPart(w), Overlaps(Width(w), delay)), first, |w|))
    {
      sum := AddRow(RealPart(w), ImaginaryPart(w), Overlaps(Width(w), delay), first, |w|, sum);
    }
    r := Complex(sum.re / energy, sum.im / energy);
  }

  // ---------- Overlaps ----------

  /** The overlap of two unit steps at a distance. */
  function Triangle(x: real): real { Larger(0.0, 1.0 - AbsReal(x)) }

  function Shift(distance: real): Term { (i, j) => Triangle(i as real - j as real - distance) }

  lemma Stretched(a: real, width: real, n: real)
    requires width * n == 1.0
    ensures (a * width) * n == a
  {
    assert a * (width * n - 1.0) == 0.0;
  }

  lemma StretchedDelay(a: real, delay: real, width: real, n: real, distance: real)
    requires width * n == 1.0 && distance == delay * n
    ensures (delay + a * width) * n == distance + a
  {
    Stretched(a, width, n);
    assert (delay + a * width) * n == delay * n + (a * width) * n;
  }

  lemma StretchedOrder(a: real, b: real, n: real)
    requires n > 0.0
    ensures a > b <==> a * n > b * n
    ensures (a - b) * n == a * n - b * n
  {
    if a > b {
      assert (a - b) * n > 0.0;
    } else {
      assert (b - a) * n >= 0.0;
    }
  }

  lemma StretchedEnds(a: real, b: real, n: real)
    requires n > 0.0
    ensures Larger(a, b) * n == Larger(a * n, b * n) && Smaller(a, b) * n == Smaller(a * n, b * n)
  {
    StretchedOrder(a, b, n);
  }

  lemma StretchedLength(start: real, end: real, n: real, from: real, to: real)
    requires n > 0.0 && start * n == from && end * n == to
    ensures n * (if end > start then end - start else 0.0) == if to > from then to - from else 0.0
  {
    StretchedOrder(end, start, n);
  }

  lemma StretchedGap(a: real, b: real, c: real, d: real, n: real, x: real, y: real)
    requires n > 0.0 && a * n == x && b * n == y && c * n == x + 1.0 && d * n == y + 1.0
    ensures IsTimes(Triangle(x - y), n, Gap(a, b, c, d))
  {
    StretchedEnds(a, b, n);
    StretchedEnds(c, d, n);
    StretchedLength(Larger(a, b), Smaller(c, d), n, Larger(x, y), Smaller(x + 1.0, y + 1.0));
    assert n * Gap(a, b, c, d) == Gap(x, y, x + 1.0, y + 1.0);
  }

  lemma StretchedStep(x: real, width: real, n: real, start: real, end: real)
    requires width * n == 1.0 && start == x * width && end == (x + 1.0) * width
    ensures start * n == x && end * n == x + 1.0
  {
    Stretched(x, width, n);
    Stretched(x + 1.0, width, n);
  }

  lemma StretchedDelayed(y: real, delay: real, width: real, n: real, distance: real, start: real, end: real)
    requires width * n == 1.0 && distance == delay * n
    requires start == delay + y * width && end == delay + (y + 1.0) * width
    ensures start * n == distance + y && end * n == distance + y + 1.0
  {
    StretchedDelay(y, delay, width, n, distance);
    StretchedDelay(y + 1.0, delay, width, n, distance);
  }

  /** The ends of two steps, scaled to unit steps. */
  lemma StretchedSteps(x: real, y: real, delay: real, width: real, n: real, distance: real)
    returns (a: real, b: real, c: real, d: real)
    requires width * n == 1.0 && distance == delay * n
    ensures OverlapAt(x, y, delay, width) == Gap(a, b, c, d)
    ensures a * n == x && b * n == distance + y && c * n == x + 1.0 && d * n == distance + y + 1.0
  {
    a, b, c, d := x * width, delay + y * width, (x + 1.0) * width, delay + (y + 1.0) * width;
    StretchedStep(x, width, n, a, c);
    StretchedDelayed(y, delay, width, n, distance, b, d);
  }

  lemma OverlapOf(x: real, y: real, delay: real, width: real, n: real, distance: real)
    requires n > 0.0 && width * n == 1.0 && distance == delay * n
    ensures IsTimes(Triangle(x - y - distance), n, OverlapAt(x, y, delay, width))
  {
    var a, b, c, d := StretchedSteps(x, y, delay, width, n, distance);
    StretchedGap(a, b, c, d, n, x, distance + y);
    assert x - (distance + y) == x - y - distance;
  }

  lemma WidthIs(w: Waveform, k: real)
    requires |w| > 0 && k == |w| as real
    ensures Width(w) * k == 1.0
  {
  }

  /** In units of one step, the overlap is a triangle of the distance. */
  lemma OverlapsScaled(n: nat, delay: real, width: real, k: real, distance: real)
    requires k > 0.0 && width * k == 1.0 && distance == delay * k
    ensures Scaled(Shift(distance), Overlaps(width, delay), k, n)
  {
    var (s, t) := (Shift(distance), Overlaps(width, delay));
    forall i, j | 0 <= i < n && 0 <= j < n
      ensures IsTimes(s(i, j), k, t(i, j))
    {
      OverlapsAt(i, j, s(i, j), t(i, j), delay, width, k, distance);
    }
  }

  lemma OverlapsAt(i: int, j: int, shift: real, overlap: real, delay: real, width: real, k: real, distance: real)
    requires k > 0.0 && width * k == 1.0 && distance == delay * k
    requires shift == Shift(distance)(i, j) && overlap == Overlaps(width, delay)(i, j)
    ensures IsTimes(shift, k, overlap)
  {
    OverlapOf(i as real, j as real, delay, width, k, distance);
  }

  function Trapezoid(n: nat, x: real): real {
    if n == 0 then 0.0 else Larger(0.0, Smaller(Smaller(x + 1.0, 1.0), n as real - x))
  }

  /** Triangles at consecutive integers add up to a trapezoid of height one. */
  lemma {:induction false} RowIsTrapezoid(distance: real, i: int, m: nat)
    ensures Row(Shift(distance), i, m) == Trapezoid(m, i as real - distance)
  {
    if m > 0 {
      RowIsTrapezoid(distance, i, m - 1);
    }
  }

  lemma ShiftRow(distance: real, i: int, n: nat)
    ensures Row(Shift(distance), i, n) <= 1.0
  {
    RowIsTrapezoid(distance, i, n);
  }

  lemma ShiftTransposes(distance: real, back: real, i: int, j: int)
    requires back == -distance
    ensures Shift(distance)(i, j) >= 0.0 && Shift(distance)(i, j) == Shift(back)(j, i)
  {
  }

  lemma ShiftIsSubUnit(distance: real, back: real, n: nat)
    requires back == -distance
    ensures SubUnit(Shift(distance), Shift(back), n)
  {
    var (s, transposed) := (Shift(distance), Shift(back));
    forall i, j | 0 <= i < n && 0 <= j < n
      ensures s(i, j) >= 0.0 && s(i, j) == transposed(j, i)
    {
      ShiftTransposes(distance, back, i, j);
    }
    forall i | 0 <= i < n
      ensures Row(s, i, n) <= 1.0 && Row(transposed, i, n) <= 1.0
    {
      ShiftRow(distance, i, n);
      ShiftRow(back, i, n);
    }
  }

  // ---------- The correlation is normalized ----------

  function FirstPower(w: Waveform): Term { (i, j) => Norm(Step(w, i)) }

  function SecondPower(w: Waveform): Term { (i, j) => Norm(Step(w, j)) }

  lemma HalfSquares(x: real, y: real, product: real, xx: real, yy: real)
    requires product == x * y && xx == x * x && yy == y * y
    ensures product <= 0.5 * (xx + yy)
  {
    var square := (x - y) * (x - y);
    Square(x - y, square);
    assert square == xx - 2.0 * product + yy;
  }

  /** For complex numbers c, a and b: twice the real part of conj(c) a conj(b) is at most |c a|^2 + |b|^2. */
  lemma ProductBound(u: real, v: real, c: real, a: Complex, b: Complex)
    requires c == u * u + v * v
    ensures var p := Times(a, Conj(b)); Bounded(u, v, c, p.re, p.im, Norm(a), Norm(b))
  {
    var (f, g, h, k) := (a.re, a.im, b.re, b.im);
    var (x, y) := (u * f + v * g, u * g - v * f);
    HalfSquares(x, h, x * h, x * x, h * h);
    HalfSquares(y, k, y * k, y * y, k * k);
    SquaresOfProduct(u, v, f, g, x, y);
    RealOfProduct(u, v, f, g, h, k, x, y);
  }

  /** |c a|^2 is |c|^2 |a|^2. */
  lemma SquaresOfProduct(u: real, v: real, f: real, g: real, x: real, y: real)
    requires x == u * f + v * g && y == u * g - v * f
    ensures x * x + y * y == (u * u + v * v) * (f * f + g * g)
  {
  }

  lemma RealOfProduct(u: real, v: real, f: real, g: real, h: real, k: real, x: real, y: real)
    requires x == u * f + v * g && y == u * g - v * f
    ensures u * (f * h + g * k) + v * (g * h - f * k) == x * h + y * k
  {
    assert x * h == u * f * h + v * g * h;
    assert y * k == u * g * k - v * f * k;
  }

  lemma PartsBounded(w: Waveform, u: real, v: real, c: real)
    requires c == u * u + v * v
    ensures Dominated(u, v, c, RealPart(w), ImaginaryPart(w), FirstPower(w), SecondPower(w), |w|)
  {
    forall i, j | 0 <= i < |w| && 0 <= j < |w|
      ensures Bounded(u, v, c, RealPart(w)(i, j), ImaginaryPart(w)(i, j), FirstPower(w)(i, j), SecondPower(w)(i, j))
    {
      ProductBound(u, v, c, Step(w, i), Step(w, j));
    }
  }

  lemma PowersNonNegative(w: Waveform)
    ensures Powers(FirstPower(w), SecondPower(w), StepPower(w), |w|)
  {
    forall i | 0 <= i < |w|
      ensures StepPower(w)(i) >= 0.0
    {
      NormNonNegative(Step(w, i));
    }
  }

  lemma NormOfConj(a: Complex)
    ensures Norm(Conj(a)) == Norm(a)
  {
  }

  lemma SumsAtMostOne(w: Waveform, t: Term, k: real, distance: real, energy: real, r: Complex, norm: real)
    requires Scaled(Shift(distance), t, k, |w|) && norm == Norm(r)
    requires k > 0.0 && energy == Single(StepPower(w), |w|) / k && energy > 0.0
    requires r == Quotients(RealPart(w), ImaginaryPart(w), t, |w|, energy)
    ensures norm <= 1.0
  {
    var (s, transposed, weight) := (Shift(distance), Shift(-distance), StepPower(w));
    PartsBounded(w, r.re, r.im, norm);
    PowersNonNegative(w);
    ShiftIsSubUnit(distance, -distance, |w|);
    QuotientsAtMostOne(RealPart(w), ImaginaryPart(w), FirstPower(w), SecondPower(w), weight,
                       t, s, transposed, k, |w|, energy, norm, r);
  }

  /** The magnitude of the correlation never exceeds one. */
  lemma AtMostOne(w: Waveform, delay: real)
    requires |w| > 0
    ensures Norm(Autocorrelation(w, delay)) <= 1.0
    decreases delay < 0.0
  {
    if delay < 0.0 {
      AtMostOne(w, -delay);
      NormOfConj(Autocorrelation(w, -delay));
    } else if delay < 1.0 && Energy(w) > 0.0 {
      var k := |w| as real;
      var r := Autocorrelation(w, delay);
      WidthIs(w, k);
      OverlapsScaled(|w|, delay, Width(w), k, delay * k);
      SumsAtMostOne(w, Overlaps(Width(w), delay), k, delay * k, Energy(w), r, Norm(r));
    }
  }

  /** Different chips are uncorrelated. */
  lemma ZeroBeyondOneChip(w: Waveform, delay: real)
    requires |w| > 0 && (delay >= 1.0 || delay <= -1.0)
    ensures Autocorrelation(w, delay) == ZERO
  {
  }

  lemma DiagonalParts(w: Waveform, zero: int -> real)
    requires forall i :: zero(i) == 0.0
    ensures PowerOnDiagonal(RealPart(w), ImaginaryPart(w), StepPower(w), zero, |w|)
  {
  }

  lemma ShiftZero(n: nat)
    ensures Diagonal(Shift(0.0), n)
  {
    forall i, j | 0 <= i < n && 0 <= j < n
      ensures Shift(0.0)(i, j) == if i == j then 1.0 else 0.0
    {
    }
  }

  lemma SumsOneAtZero(w: Waveform, t: Term, k: real, r: Complex)
    requires Scaled(Shift(0.0), t, k, |w|)
    requires k > 0.0 && Single(StepPower(w), |w|) / k > 0.0
    requires r == Quotients(RealPart(w), ImaginaryPart(w), t, |w|, Single(StepPower(w), |w|) / k)
    ensures r == Complex(1.0, 0.0)
  {
    var zero := (i: int) => 0.0;
    DiagonalParts(w, zero);
    ShiftZero(|w|);
    QuotientsOfDiagonal(RealPart(w), ImaginaryPart(w), StepPower(w), zero, t, Shift(0.0), k, |w|, r);
  }

  /** At no delay the correlation of a waveform that is not zero is one. */
  lemma OneAtZero(w: Waveform)
    requires |w| > 0 && Energy(w) > 0.0
    ensures Autocorrelation(w, 0.0) == Complex(1.0, 0.0)
  {
    var k := |w| as real;
    WidthIs(w, k);
    OverlapsScaled(|w|, 0.0, Width(w), k, 0.0);
    SumsOneAtZero(w, Overlaps(Width(w), 0.0), k, Autocorrelation(w, 0.0));
  }

  // ---------- Negative delays ----------

  lemma GapSwaps(x: real, y: real, delay: real, width: real)
    ensures OverlapAt(x, y, -delay, width) == OverlapAt(y, x, delay, width)
  {
  }

  lemma ProductSwaps(a: Complex, b: Complex)
    ensures Times(a, Conj(b)) == Conj(Times(b, Conj(a)))
  {
  }

  lemma PartsSwap(w: Waveform)
    ensures forall i, j :: 0 <= i < |w| && 0 <= j < |w| ==> RealPart(w)(i, j) == RealPart(w)(j, i)
    ensures forall i, j :: 0 <= i < |w| && 0 <= j < |w| ==> ImaginaryPart(w)(i, j) == -ImaginaryPart(w)(j, i)
  {
    forall i, j | 0 <= i < |w| && 0 <= j < |w|
      ensures RealPart(w)(i, j) == RealPart(w)(j, i) && ImaginaryPart(w)(i, j) == -ImaginaryPart(w)(j, i)
    {
      ProductSwaps(Step(w, i), Step(w, j));
    }
  }

  /**
   The rule that answers a negative delay by the conjugate of the positive one gives what the double sum
   itself gives at the negative delay.
   */
  lemma ConjugateRule(w: Waveform, delay: real)
    requires |w| > 0 && Energy(w) > 0.0 && 0.0 < delay < 1.0
    ensures Autocorrelation(w, -delay)
         == Quotients(RealPart(w), ImaginaryPart(w), Overlaps(Width(w), -delay), |w|, Energy(w))
  {
    forall i, j | 0 <= i < |w| && 0 <= j < |w|
      ensures Overlaps(Width(w), -delay)(i, j) == Overlaps(Width(w), delay)(j, i)
    {
      GapSwaps(i as real, j as real, delay, Width(w));
    }
    PartsSwap(w);
    ConjugateQuotients(RealPart(w), ImaginaryPart(w), Overlaps(Width(w), -delay), Overlaps(Width(w), delay), |w|,
                       Energy(w));
  }

  lemma ConjugateQuotients(p: Term, q: Term, t: Term, s: Term, n: nat, scale: real)
    requires scale != 0.0
    requires forall i, j :: 0 <= i < n && 0 <= j < n ==> t(i, j) == s(j, i)
    requires forall i, j :: 0 <= i < n && 0 <= j < n ==> p(i, j) == p(j, i)
    requires forall i, j :: 0 <= i < n && 0 <= j < n ==> q(i, j) == -q(j, i)
    ensures Quotients(p, q, t, n, scale) == Conj(Quotients(p, q, s, n, scale))
  {
    SumsConjugate(p, q, t, s, n);
    NegativeQuotient(Double(Weighted(q, s), n, n), scale);
  }

  lemma NegativeQuotient(a: real, b: real)
    requires b != 0.0
    ensures (-a) / b == -(a / b)
  {
    assert (-a) / b + a / b == 0.0;
  }

  // ---------- A code without subcarrier ----------

  predicate Constant(w: Waveform, value: Complex) { forall i :: 0 <= i < |w| ==> w[i] == value }

  lemma {:induction false} ShiftSum(distance: real, n: nat, m: nat)
    requires n <= m && distance >= 0.0
    ensures Double(Shift(distance), n, m) == Larger(0.0, n as real - distance)
  {
    if n > 0 {
      ShiftSum(distance, n - 1, m);
      RowIsTrapezoid(distance, n - 1, m);
    }
  }

  lemma ConstantParts(w: Waveform, value: Complex, power: real)
    requires Constant(w, value) && power == Norm(value)
    ensures AllEqual(RealPart(w), ImaginaryPart(w), StepPower(w), power, |w|)
  {
  }

  lemma RestWithin(delay: real, k: real, distance: real)
    requires 0.0 <= delay < 1.0 && k > 0.0 && distance == delay * k
    ensures 0.0 <= distance && k - distance == (1.0 - delay) * k && k - distance >= 0.0
  {
    assert (1.0 - delay) * k >= 0.0;
  }

  lemma ConstantSums(w: Waveform, value: Complex, power: real, t: Term, k: real, distance: real, share: real,
                     r: Complex)
    requires Constant(w, value) && power == Norm(value) && Scaled(Shift(distance), t, k, |w|)
    requires k == |w| as real && k > 0.0 && Single(StepPower(w), |w|) / k > 0.0
    requires r == Quotients(RealPart(w), ImaginaryPart(w), t, |w|, Single(StepPower(w), |w|) / k)
    requires 0.0 <= distance <= k && k - distance == share * k
    ensures r == Complex(share, 0.0)
  {
    ConstantParts(w, value, power);
    ShiftSum(distance, |w|, |w|);
    QuotientsOfConstant(RealPart(w), ImaginaryPart(w), StepPower(w), power, t, Shift(distance), k, |w|, share, r);
  }

  /** A constant waveform, as of a code without subcarrier, has the triangular correlation. */
  lemma ConstantIsTriangle(w: Waveform, value: Complex, delay: real)
    requires |w| > 0 && Constant(w, value) && Energy(w) > 0.0 && 0.0 <= delay < 1.0
    ensures Autocorrelation(w, delay) == Complex(1.0 - delay, 0.0)
  {
    var k := |w| as real;
    WidthIs(w, k);
    OverlapsScaled(|w|, delay, Width(w), k, delay * k);
    RestWithin(delay, k, delay * k);
    ConstantSums(w, value, Norm(value), Overlaps(Width(w), delay), k, delay * k, 1.0 - delay,
                 Autocorrelation(w, delay));
  }
}
