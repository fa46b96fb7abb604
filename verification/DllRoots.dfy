/**
 Finding the zeros of the code discriminator: a scan for sign changes, a bisection of each, and the removal
 of near duplicates.

 The discriminator and the prompt power are arbitrary functions of the code phase in chips.
 */
module DllRoots {
  import opened Integers
  import opened Wrappers
  import opened Reals
  import opened RealSums
  import opened RootSelection

  /** A bisection ends at this width, or after this many halvings. */
  const ROOT_TOLERANCE_CHIPS: real := 0.00000000001
  const BISECTIONS: nat := 80

  /** Roots no farther apart than this are one. */
  const DEDUP_TOLERANCE_CHIPS: real := 0.0000001

  const SLOPE_PROBE_CHIPS: real := 0.00001

  const MAX_ROOTS: nat := 64

  type Curve = real -> real

  datatype DllError = InvalidArguments | SpanTooLong | RefineFailed | CapacityExceeded | NoRoots

  predicate Opposite(x: real, y: real) { (x < 0.0 && y > 0.0) || (x > 0.0 && y < 0.0) }

  predicate SameSign(x: real, y: real) { (x < 0.0 && y < 0.0) || (x > 0.0 && y > 0.0) }

  // ---------- Bisection ----------

  function Middle(a: real, b: real): real { 0.5 * (a + b) }

  /** At most n halvings of an interval, of which `fa` is the value at the left end. */
  function Bisect(d: Curve, a: real, b: real, fa: real, n: nat): real
    decreases n
  {
    var middle := Middle(a, b);
    if n == 0 || b - a <= ROOT_TOLERANCE_CHIPS || d(middle) == 0.0 then middle
    else if SameSign(fa, d(middle)) then Bisect(d, middle, b, d(middle), n - 1)
    else Bisect(d, a, middle, fa, n - 1)
  }

  method Refine(d: Curve, left: real, right: real, leftValue: real, rightValue: real) returns (root: Option<real>)
    ensures root == if left < right && Opposite(leftValue, rightValue)
                    then Some(Bisect(d, left, right, leftValue, BISECTIONS)) else None
  {
    OppositeIffProduct(leftValue, rightValue, leftValue * rightValue);
    if left >= right || leftValue * rightValue >= 0.0 {
      return None;
    }
    var a, b, fa := left, right, leftValue;
    for iteration := 0 to BISECTIONS
      invariant Bisect(d, a, b, fa, BISECTIONS - iteration) == Bisect(d, left, right, leftValue, BISECTIONS)
    {
      var middle := Middle(a, b);
      var fm := d(middle);
      if b - a <= ROOT_TOLERANCE_CHIPS || fm == 0.0 {
        return Some(middle);
      }
      if SameSign(fa, fm) {
        a, fa := middle, fm;
      } else {
        b := middle;
      }
    }
    root := Some(Middle(a, b));
  }

  /** The product test of the code is a test of opposite signs. */
  lemma OppositeIffProduct(x: real, y: real, product: real)
    requires product == x * y
    ensures product < 0.0 <==> Opposite(x, y)
  {
    if x > 0.0 && y > 0.0 {
      BothPositive(x, y, product);
    } else if x < 0.0 && y < 0.0 {
      BothNegative(x, y, product);
    } else if x > 0.0 && y < 0.0 {
      BothPositive(x, -y, -product);
    } else if x < 0.0 && y > 0.0 {
      BothPositive(-x, y, -product);
    }
  }

  function Halved(width: real, n: nat): real
    decreases n
  {
    if n == 0 then width else Halved(width / 2.0, n - 1)
  }

  /** Halving n times divides by the n-th power of two. */
  lemma {:induction false} HalvedIsQuotient(width: real, n: nat)
    ensures Halved(width, n) * (Pow2(n) as real) == width
    decreases n
  {
    if n > 0 {
      var (half, power) := (width / 2.0, Pow2(n - 1) as real);
      HalvedIsQuotient(half, n - 1);
      assert Pow2(n) as real == 2.0 * power;
      assert Halved(width, n) * (2.0 * power) == 2.0 * (Halved(half, n - 1) * power);
    }
  }

  /** A zero of the curve, or the middle of a short interval over which the curve changes sign. */
  ghost predicate Brackets(d: Curve, a: real, b: real, root: real, tolerance: real) {
    && a < b && root == Middle(a, b)
    && (d(root) == 0.0 || (Opposite(d(a), d(b)) && b - a <= tolerance))
  }

  /** Bisection ends in such an interval, inside the one it started from. */
  lemma {:induction false} BisectBrackets(d: Curve, a: real, b: real, n: nat) returns (lower: real, upper: real)
    requires a < b && Opposite(d(a), d(b))
    ensures a <= lower && upper <= b
    ensures Brackets(d, lower, upper, Bisect(d, a, b, d(a), n), Larger(ROOT_TOLERANCE_CHIPS, Halved(b - a, n)))
    decreases n
  {
    var middle := Middle(a, b);
    if n == 0 || b - a <= ROOT_TOLERANCE_CHIPS || d(middle) == 0.0 {
      lower, upper := a, b;
    } else if SameSign(d(a), d(middle)) {
      lower, upper := BisectBrackets(d, middle, b, n - 1);
    } else {
      lower, upper := BisectBrackets(d, a, middle, n - 1);
    }
  }

  // ---------- The scan ----------

  /** A sign change between two neighbours among the retained samples. */
  datatype Change = Change(left: real, right: real)

  /** The samples whose value is not taken for zero. */
  function Retained(d: Curve, tolerance: real, xs: seq<real>): seq<real>
    decreases |xs|
  {
    if |xs| == 0 then []
    else
      var last := |xs| - 1;
      var before := Retained(d, tolerance, xs[..last]);
      if AbsReal(d(xs[last])) <= tolerance then before else before + [xs[last]]
  }

  function Changes(d: Curve, ys: seq<real>): seq<Change>
    decreases |ys|
  {
    if |ys| < 2 then []
    else
      var last := |ys| - 1;
      var before := Changes(d, ys[..last]);
      if Opposite(d(ys[last - 1]), d(ys[last])) then before + [Change(ys[last - 1], ys[last])] else before
  }

  /** How a root is made from its code phase in chips. */
  type Maker = real -> Root

  function Slope(d: Curve, chips: real): real {
    (d(chips + SLOPE_PROBE_CHIPS) - d(chips - SLOPE_PROBE_CHIPS)) / (2.0 * SLOPE_PROBE_CHIPS)
  }

  function MakerOf(d: Curve, prompt: Curve, rate: real, stableSlope: real): Maker
    requires rate > 0.0
  {
    chips => Root(chips / rate, chips, d(chips), Slope(d, chips), prompt(chips), Slope(d, chips) > stableSlope)
  }

  lemma QuotientTimes(x: real, y: real)
    requires y > 0.0
    ensures x / y * y == x
  {
  }

  /**
   A root says of itself what is measured at its code phase, which it gives in seconds and in chips.  It is stable
   exactly when the curve rises enough from 1e-5 chips before it to 1e-5 chips after it.
   */
  ghost predicate Measured(d: Curve, prompt: Curve, rate: real, stableSlope: real, r: Root) {
    && r.phaseSec * rate == r.phaseChips
    && r.discriminator == d(r.phaseChips) && r.power == prompt(r.phaseChips)
    && r.slope * 0.00002 == d(r.phaseChips + 0.00001) - d(r.phaseChips - 0.00001)
    && (r.stable <==> r.slope > stableSlope)
    && (r.stable ==> d(r.phaseChips - 0.00001) < d(r.phaseChips + 0.00001))
  }

  lemma MadeIsMeasured(d: Curve, prompt: Curve, rate: real, stableSlope: real, r: Root)
    requires rate > 0.0 && stableSlope > 0.0 && r == MakerOf(d, prompt, rate, stableSlope)(r.phaseChips)
    ensures Measured(d, prompt, rate, stableSlope, r)
  {
    QuotientTimes(r.phaseChips, rate);
  }

  /** A root too near the last one is dropped; at most 64 are kept, or fewer when the buffer is smaller. */
  function Appended(make: Maker, capacity: nat, roots: seq<Root>, chips: real): Result<seq<Root>, DllError> {
    if |roots| > 0 && AbsReal(chips - roots[|roots| - 1].phaseChips) <= DEDUP_TOLERANCE_CHIPS then Ok(roots)
    else if |roots| >= capacity || |roots| >= MAX_ROOTS then Err(CapacityExceeded)
    else Ok(roots + [make(chips)])
  }

  function Collected(make: Maker, capacity: nat, chips: seq<real>): Result<seq<Root>, DllError>
    decreases |chips|
  {
    if |chips| == 0 then Ok([])
    else
      var last := |chips| - 1;
      match Collected(make, capacity, chips[..last])
      case Err(e) => Err(e)
      case Ok(roots) => Appended(make, capacity, roots, chips[last])
  }

  function Refined(d: Curve, change: Change): real { Bisect(d, change.left, change.right, d(change.left), BISECTIONS) }

  function AllRefined(d: Curve, changes: seq<Change>): seq<real> {
    seq(|changes|, i requires 0 <= i < |changes| => Refined(d, changes[i]))
  }

  /** The code phases at which the scanned curve is taken to be zero. */
  function Zeros(d: Curve, tolerance: real, xs: seq<real>): seq<real> {
    AllRefined(d, Changes(d, Retained(d, tolerance, xs)))
  }

  function Found(d: Curve, make: Maker, capacity: nat, tolerance: real, xs: seq<real>): Result<seq<Root>, DllError> {
    match Collected(make, capacity, Zeros(d, tolerance, xs))
    case Err(e) => Err(e)
    case Ok(roots) => if |roots| == 0 then Err(NoRoots) else Ok(roots)
  }

  predicate Increasing(xs: seq<real>) { forall i, j :: 0 <= i < j < |xs| ==> xs[i] < xs[j] }

  // ---------- The scan loop ----------

  function Sample(lower: real, width: real, n: nat, k: int): real
    requires n > 0
  {
    lower + ((k as real) / (n as real)) * width
  }

  function Samples(lower: real, width: real, n: nat): seq<real>
    requires n > 0
  {
    seq(n + 1, k => Sample(lower, width, n, k))
  }

  lemma FractionGrows(j: real, k: real, n: real, p: real, q: real)
    requires j < k && n > 0.0 && p == j / n && q == k / n
    ensures p < q
  {
    assert (q - p) * n == k - j;
    if q <= p {
      NonNegative(p - q, n, (p - q) * n);
    }
  }

  lemma ScaledGrows(p: real, q: real, width: real)
    requires p < q && width > 0.0
    ensures p * width < q * width
  {
    BothPositive(q - p, width, (q - p) * width);
  }

  lemma SamplesIncrease(lower: real, width: real, n: nat)
    requires n > 0 && width > 0.0
    ensures Increasing(Samples(lower, width, n))
  {
    forall i, j | 0 <= i < j < n + 1
      ensures Sample(lower, width, n, i) < Sample(lower, width, n, j)
    {
      FractionGrows(i as real, j as real, n as real, (i as real) / (n as real), (j as real) / (n as real));
      ScaledGrows((i as real) / (n as real), (j as real) / (n as real), width);
    }
  }

  lemma SampleEnds(lower: real, width: real, n: nat)
    requires n > 0
    ensures Samples(lower, width, n)[0] == lower && Samples(lower, width, n)[n] == lower + width
  {
    assert (n as real) / (n as real) == 1.0;
  }

  lemma StepWidth(width: real, n: real, k: real, p: real, q: real)
    requires n > 0.0 && width * 512.0 <= n && p == k / n && q == (k + 1.0) / n
    ensures q * width - p * width <= 1.0 / 512.0
  {
    var step := q - p;
    assert step * n == 1.0;
    assert step > 0.0;
    NonNegative(step, n - width * 512.0, step * (n - width * 512.0));
    assert step * (width * 512.0) <= 1.0;
  }

  /** Enough parts are at most 1/512 wide. */
  lemma SampleGap(lower: real, width: real, n: nat, k: nat)
    requires n > 0 && width * 512.0 <= n as real && k < n
    ensures Samples(lower, width, n)[k + 1] - Samples(lower, width, n)[k] <= 1.0 / 512.0
  {
    var (p, q) := ((k as real) / (n as real), ((k + 1) as real) / (n as real));
    StepWidth(width, n as real, k as real, p, q);
    assert Sample(lower, width, n, k) == lower + p * width && Sample(lower, width, n, k + 1) == lower + q * width;
  }

  lemma {:induction false} RetainedIncreases(d: Curve, tolerance: real, xs: seq<real>)
    requires Increasing(xs)
    ensures Increasing(Retained(d, tolerance, xs))
    ensures forall i :: 0 <= i < |Retained(d, tolerance, xs)| ==> Retained(d, tolerance, xs)[i] <= xs[|xs| - 1]
    decreases |xs|
  {
    if |xs| > 0 {
      var last := |xs| - 1;
      RetainedIncreases(d, tolerance, xs[..last]);
      assert last > 0 ==> xs[last - 1] < xs[last];
    }
  }

  /** The samples retained are those of which the value is above the tolerance, either way. */
  lemma {:induction false} RetainedIff(d: Curve, tolerance: real, xs: seq<real>, x: real)
    ensures x in Retained(d, tolerance, xs) <==> x in xs && (d(x) > tolerance || -d(x) > tolerance)
    decreases |xs|
  {
    if |xs| > 0 {
      var last := |xs| - 1;
      RetainedIff(d, tolerance, xs[..last], x);
      assert xs == xs[..last] + [xs[last]];
    }
  }

  /** One more sample adds the change to it, if there is one. */
  lemma ChangesOfMore(d: Curve, ys: seq<real>, last: nat)
    requires |ys| == last + 1 >= 2
    ensures Changes(d, ys) == Changes(d, ys[..last])
                              + if Opposite(d(ys[last - 1]), d(ys[last])) then [Change(ys[last - 1], ys[last])] else []
  {
  }

  lemma {:induction false} ChangesAlternate(d: Curve, ys: seq<real>, c: Change)
    requires Increasing(ys) && c in Changes(d, ys)
    ensures c.left < c.right && Opposite(d(c.left), d(c.right))
    ensures c.left in ys && c.right in ys && |ys| > 0 && c.right <= ys[|ys| - 1]
    decreases |ys|
  {
    var last := |ys| - 1;
    ChangesOfMore(d, ys, last);
    if c in Changes(d, ys[..last]) {
      ChangesAlternate(d, ys[..last], c);
      assert ys[..last][last - 1] == ys[last - 1] < ys[last];
    } else {
      assert ys[last - 1] in ys && ys[last] in ys;
    }
  }

  lemma {:induction false} AlternationsAreChanges(d: Curve, ys: seq<real>, i: nat)
    requires i + 1 < |ys| && Opposite(d(ys[i]), d(ys[i + 1]))
    ensures Change(ys[i], ys[i + 1]) in Changes(d, ys)
    decreases |ys|
  {
    var last := |ys| - 1;
    ChangesOfMore(d, ys, last);
    if i + 1 < last {
      AlternationsAreChanges(d, ys[..last], i);
    }
  }

  lemma {:induction false} ChangesInOrder(d: Curve, ys: seq<real>, i: nat, j: nat)
    requires Increasing(ys) && i < j < |Changes(d, ys)|
    ensures Changes(d, ys)[i].right <= Changes(d, ys)[j].left
    decreases |ys|
  {
    var last := |ys| - 1;
    var front := ys[..last];
    ChangesOfMore(d, ys, last);
    if j < |Changes(d, front)| {
      ChangesInOrder(d, front, i, j);
    } else {
      ChangesAlternate(d, front, Changes(d, front)[i]);
    }
  }

  /** Every retained neighbour pair with a sign change, and no other, is a change; they come in order. */
  lemma ChangesAreAlternations(d: Curve, ys: seq<real>)
    requires Increasing(ys)
    ensures forall c <- Changes(d, ys) :: c.left < c.right && Opposite(d(c.left), d(c.right))
    ensures forall i :: 0 <= i < |ys| - 1 ==>
              (Opposite(d(ys[i]), d(ys[i + 1])) <==> Change(ys[i], ys[i + 1]) in Changes(d, ys))
    ensures forall c <- Changes(d, ys) :: c.left in ys && c.right in ys
    ensures |ys| > 0 ==> forall c <- Changes(d, ys) :: c.right <= ys[|ys| - 1]
    ensures forall i, j :: 0 <= i < j < |Changes(d, ys)| ==> Changes(d, ys)[i].right <= Changes(d, ys)[j].left
  {
    forall c <- Changes(d, ys)
      ensures c.left < c.right && Opposite(d(c.left), d(c.right)) && c.left in ys && c.right in ys
      ensures |ys| > 0 && c.right <= ys[|ys| - 1]
    {
      ChangesAlternate(d, ys, c);
    }
    forall i: nat | i + 1 < |ys| && Opposite(d(ys[i]), d(ys[i + 1]))
      ensures Change(ys[i], ys[i + 1]) in Changes(d, ys)
    {
      AlternationsAreChanges(d, ys, i);
    }
    forall i: nat, j: nat | i < j < |Changes(d, ys)|
      ensures Changes(d, ys)[i].right <= Changes(d, ys)[j].left
    {
      ChangesInOrder(d, ys, i, j);
    }
  }

  lemma {:induction false} CollectedFails(make: Maker, capacity: nat, chips: seq<real>, n: nat)
    requires n <= |chips| && Collected(make, capacity, chips[..n]).Err?
    ensures Collected(make, capacity, chips) == Collected(make, capacity, chips[..n])
    decreases |chips|
  {
    if n < |chips| {
      var last := |chips| - 1;
      assert chips[..last][..n] == chips[..n];
      CollectedFails(make, capacity, chips[..last], n);
    } else {
      assert chips[..n] == chips;
    }
  }

  /** One more sample adds at most one zero. */
  lemma ZerosStep(d: Curve, tolerance: real, xs: seq<real>, k: nat)
    requires k < |xs| && Increasing(xs)
    ensures var (ys, x) := (Retained(d, tolerance, xs[..k]), xs[k]);
            if AbsReal(d(x)) <= tolerance then
              && Retained(d, tolerance, xs[..k + 1]) == ys
              && Zeros(d, tolerance, xs[..k + 1]) == Zeros(d, tolerance, xs[..k])
            else
              && Retained(d, tolerance, xs[..k + 1]) == ys + [x]
              && (|ys| > 0 ==> ys[|ys| - 1] < x)
              && Zeros(d, tolerance, xs[..k + 1])
              == Zeros(d, tolerance, xs[..k])
                 + if |ys| > 0 && Opposite(d(ys[|ys| - 1]), d(x)) then [Refined(d, Change(ys[|ys| - 1], x))] else []
  {
    assert xs[..k + 1][..k] == xs[..k];
    var (ys, x) := (Retained(d, tolerance, xs[..k]), xs[k]);
    assert (ys + [x])[..|ys|] == ys;
    RetainedIncreases(d, tolerance, xs[..k]);
  }

  lemma {:induction false} ZerosPrefix(d: Curve, tolerance: real, xs: seq<real>, k: nat)
    requires k <= |xs| && Increasing(xs)
    ensures Zeros(d, tolerance, xs[..k]) <= Zeros(d, tolerance, xs)
    decreases |xs| - k
  {
    if k < |xs| {
      ZerosStep(d, tolerance, xs, k);
      ZerosPrefix(d, tolerance, xs, k + 1);
    } else {
      assert xs[..k] == xs;
    }
  }

  /** The last retained sample, while the scan runs. */
  datatype Last = Nothing | Seen(x: real, value: real)

  predicate LastOf(d: Curve, ys: seq<real>, last: Last) {
    if |ys| == 0 then last == Nothing else last == Seen(ys[|ys| - 1], d(ys[|ys| - 1]))
  }

  method Append(make: Maker, capacity: nat, roots: seq<Root>, chips: real) returns (r: Result<seq<Root>, DllError>)
    ensures r == Appended(make, capacity, roots, chips)
  {
    if |roots| > 0 && AbsReal(chips - roots[|roots| - 1].phaseChips) <= DEDUP_TOLERANCE_CHIPS {
      return Ok(roots);
    }
    if |roots| >= capacity || |roots| >= MAX_ROOTS {
      return Err(CapacityExceeded);
    }
    r := Ok(roots + [make(chips)]);
  }

  lemma CollectedMore(make: Maker, capacity: nat, zeros: seq<real>, zero: real)
    requires Collected(make, capacity, zeros).Ok?
    ensures Collected(make, capacity, zeros + [zero]) ==
            Appended(make, capacity, Collected(make, capacity, zeros).value, zero)
  {
    assert (zeros + [zero])[..|zeros|] == zeros;
  }

  /** One sample of the scan. */
  method ScanSample(d: Curve, make: Maker, capacity: nat, tolerance: real, ghost xs: seq<real>, ghost k: nat,
                    x: real, last: Last, roots: seq<Root>)
    returns (next: Last, r: Result<seq<Root>, DllError>)
    requires k < |xs| && Increasing(xs) && x == xs[k]
    requires LastOf(d, Retained(d, tolerance, xs[..k]), last)
    requires Collected(make, capacity, Zeros(d, tolerance, xs[..k])) == Ok(roots)
    ensures r == Collected(make, capacity, Zeros(d, tolerance, xs[..k + 1]))
    ensures r.Ok? ==> LastOf(d, Retained(d, tolerance, xs[..k + 1]), next)
  {
    ZerosStep(d, tolerance, xs, k);
    next, r := last, Ok(roots);
    var value := d(x);
    if AbsReal(value) > tolerance {
      if last.Seen? && Opposite(last.value, value) {
        var root := Refine(d, last.x, x, last.value, value);
        if root == None {
          return last, Err(RefineFailed);
        }
        CollectedMore(make, capacity, Zeros(d, tolerance, xs[..k]), root.value);
        r := Append(make, capacity, roots, root.value);
      }
      next := Seen(x, value);
    }
  }

  /** The scan over the samples of a grid. */
  method ScanGrid(d: Curve, make: Maker, capacity: nat, tolerance: real, grid: int -> real, n: nat, ghost xs: seq<real>)
    returns (r: Result<seq<Root>, DllError>)
    requires |xs| == n && Increasing(xs) && forall k :: 0 <= k < n ==> xs[k] == grid(k)
    ensures r == Found(d, make, capacity, tolerance, xs)
  {
    var last, roots := Nothing, [];
    for k := 0 to n
      invariant LastOf(d, Retained(d, tolerance, xs[..k]), last)
      invariant Collected(make, capacity, Zeros(d, tolerance, xs[..k])) == Ok(roots)
    {
      var step;
      last, step := ScanSample(d, make, capacity, tolerance, xs, k, grid(k), last, roots);
      if step.Err? {
        ScanFails(d, make, capacity, tolerance, xs, k + 1);
        return step;
      }
      roots := step.value;
    }
    assert xs[..n] == xs;
    if |roots| == 0 {
      return Err(NoRoots);
    }
    r := Ok(roots);
  }

  lemma ScanFails(d: Curve, make: Maker, capacity: nat, tolerance: real, xs: seq<real>, k: nat)
    requires k <= |xs| && Increasing(xs) && Collected(make, capacity, Zeros(d, tolerance, xs[..k])).Err?
    ensures Collected(make, capacity, Zeros(d, tolerance, xs)) ==
            Collected(make, capacity, Zeros(d, tolerance, xs[..k]))
  {
    ZerosPrefix(d, tolerance, xs, k);
    var (part, zeros) := (Zeros(d, tolerance, xs[..k]), Zeros(d, tolerance, xs));
    assert zeros[..|part|] == part;
    CollectedFails(make, capacity, zeros, |part|);
  }

  /** The scan of an interval cut into n equal parts. */
  method Scan(d: Curve, make: Maker, capacity: nat, tolerance: real, lower: real, width: real, n: nat)
    returns (r: Result<seq<Root>, DllError>)
    requires n > 0 && width > 0.0
    ensures r == Found(d, make, capacity, tolerance, Samples(lower, width, n))
  {
    SamplesIncrease(lower, width, n);
    r := ScanGrid(d, make, capacity, tolerance, k => Sample(lower, width, n, k), n + 1, Samples(lower, width, n));
  }

  // ---------- What the reported roots are ----------

  /** A maker that keeps the code phase it is given. */
  ghost predicate Faithful(make: Maker) { forall c :: make(c).phaseChips == c }

  /** Roots in increasing order, more than the merging distance apart. */
  predicate Separated(roots: seq<Root>) {
    forall i, j :: 0 <= i < j < |roots| ==> roots[j].phaseChips - roots[i].phaseChips > DEDUP_TOLERANCE_CHIPS
  }

  predicate IsZero(chips: seq<real>, x: real) { x in chips }

  predicate NearRoot(roots: seq<Root>, x: real) {
    exists i :: 0 <= i < |roots| && 0.0 <= x - roots[i].phaseChips <= DEDUP_TOLERANCE_CHIPS
  }

  /** Each reported root is at one of the zeros, and each zero is at or just above a reported root. */
  predicate Represents(chips: seq<real>, roots: seq<Root>) {
    && (forall i :: 0 <= i < |roots| ==> IsZero(chips, roots[i].phaseChips))
    && (forall j :: 0 <= j < |chips| ==> NearRoot(roots, chips[j]))
  }

  lemma NearRootStays(before: seq<Root>, roots: seq<Root>, x: real)
    requires NearRoot(before, x) && before <= roots
    ensures NearRoot(roots, x)
  {
    var i :| 0 <= i < |before| && 0.0 <= x - before[i].phaseChips <= DEDUP_TOLERANCE_CHIPS;
    assert roots[i] == before[i];
  }

  /** What appending a zero does, when it succeeds. */
  lemma AppendedIs(make: Maker, capacity: nat, before: seq<Root>, x: real, after: seq<Root>)
    requires Faithful(make) && Appended(make, capacity, before, x) == Ok(after)
    ensures before <= after && |after| <= |before| + 1 && |after| > 0
    ensures |after| > |before| ==> after == before + [make(x)] && make(x).phaseChips == x
    ensures |after| > |before| > 0 ==> AbsReal(x - before[|before| - 1].phaseChips) > DEDUP_TOLERANCE_CHIPS
    ensures |after| == |before| ==> AbsReal(x - before[|before| - 1].phaseChips) <= DEDUP_TOLERANCE_CHIPS
  {
  }

  lemma CollectedStep(make: Maker, capacity: nat, chips: seq<real>, after: seq<Root>) returns (before: seq<Root>)
    requires |chips| > 0 && Collected(make, capacity, chips) == Ok(after)
    ensures Collected(make, capacity, chips[..|chips| - 1]) == Ok(before)
    ensures Appended(make, capacity, before, chips[|chips| - 1]) == Ok(after)
  {
    before := Collected(make, capacity, chips[..|chips| - 1]).value;
  }

  lemma AddedSeparated(before: seq<Root>, root: Root)
    requires Separated(before)
    requires |before| > 0 ==> root.phaseChips - before[|before| - 1].phaseChips > DEDUP_TOLERANCE_CHIPS
    ensures Separated(before + [root])
  {
    var (roots, n) := (before + [root], |before|);
    forall i, j | 0 <= i < j < |roots|
      ensures roots[j].phaseChips - roots[i].phaseChips > DEDUP_TOLERANCE_CHIPS
    {
      if j == n && i < n - 1 {
        assert before[n - 1].phaseChips - before[i].phaseChips > DEDUP_TOLERANCE_CHIPS;
      }
    }
  }

  lemma {:induction false} CollectedSeparated(make: Maker, capacity: nat, chips: seq<real>, roots: seq<Root>)
    requires Faithful(make) && Increasing(chips) && Collected(make, capacity, chips) == Ok(roots)
    ensures Separated(roots) && |roots| <= |chips|
    ensures |chips| > 0 ==>
              |roots| > 0 && 0.0 <= chips[|chips| - 1] - roots[|roots| - 1].phaseChips <= DEDUP_TOLERANCE_CHIPS
    decreases |chips|
  {
    if |chips| > 0 {
      var last := |chips| - 1;
      var x := chips[last];
      var before := CollectedStep(make, capacity, chips, roots);
      CollectedSeparated(make, capacity, chips[..last], before);
      assert last > 0 ==> chips[last - 1] < x;
      AppendedIs(make, capacity, before, x, roots);
      if |roots| > |before| {
        AddedSeparated(before, make(x));
      }
    }
  }

  /** Each reported root is at one of the zeros. */
  lemma {:induction false} CollectedAreZeros(make: Maker, capacity: nat, chips: seq<real>, roots: seq<Root>, i: nat)
    requires Faithful(make) && Collected(make, capacity, chips) == Ok(roots) && i < |roots|
    ensures IsZero(chips, roots[i].phaseChips)
    decreases |chips|
  {
    var last := |chips| - 1;
    var before := CollectedStep(make, capacity, chips, roots);
    AppendedIs(make, capacity, before, chips[last], roots);
    if i < |before| {
      CollectedAreZeros(make, capacity, chips[..last], before, i);
      assert roots[i] == before[i];
    }
  }

  /** Each zero is at or just above a reported root. */
  lemma {:induction false} CollectedCovers(make: Maker, capacity: nat, chips: seq<real>, roots: seq<Root>, j: nat)
    requires Faithful(make) && Increasing(chips) && Collected(make, capacity, chips) == Ok(roots) && j < |chips|
    ensures NearRoot(roots, chips[j])
    decreases |chips|
  {
    var last := |chips| - 1;
    CollectedSeparated(make, capacity, chips, roots);
    if j < last {
      var before := CollectedStep(make, capacity, chips, roots);
      CollectedCovers(make, capacity, chips[..last], before, j);
      AppendedIs(make, capacity, before, chips[last], roots);
      NearRootStays(before, roots, chips[j]);
    }
  }

  lemma CollectedSound(make: Maker, capacity: nat, chips: seq<real>, roots: seq<Root>)
    requires Faithful(make) && Increasing(chips) && Collected(make, capacity, chips) == Ok(roots)
    ensures Separated(roots) && Represents(chips, roots) && |roots| <= |chips| && (|chips| > 0 ==> |roots| > 0)
  {
    CollectedSeparated(make, capacity, chips, roots);
    forall i | 0 <= i < |roots|
      ensures IsZero(chips, roots[i].phaseChips)
    {
      CollectedAreZeros(make, capacity, chips, roots, i);
    }
    forall j | 0 <= j < |chips|
      ensures NearRoot(roots, chips[j])
    {
      CollectedCovers(make, capacity, chips, roots, j);
    }
  }

  lemma RefinedInside(d: Curve, change: Change)
    requires change.left < change.right && Opposite(d(change.left), d(change.right))
    ensures change.left < Refined(d, change) < change.right
  {
    var lower, upper := BisectBrackets(d, change.left, change.right, BISECTIONS);
  }

  function Tolerance(c: Change): real { Larger(ROOT_TOLERANCE_CHIPS, Halved(c.right - c.left, BISECTIONS)) }

  predicate Within(c: Change, lower: real, upper: real) { c.left <= lower && upper <= c.right }

  ghost predicate Confined(d: Curve, c: Change, chips: real) {
    exists lower: real, upper: real :: Within(c, lower, upper) && Brackets(d, lower, upper, chips, Tolerance(c))
  }

  /** A zero that can be trusted: inside an alternation of the samples, bracketed to within the tolerance. */
  ghost predicate Trusted(d: Curve, changes: seq<Change>, chips: real) {
    exists c: Change :: c in changes && Confined(d, c, chips)
  }

  lemma RefinedTrusted(d: Curve, changes: seq<Change>, c: Change)
    requires c in changes && c.left < c.right && Opposite(d(c.left), d(c.right))
    ensures Trusted(d, changes, Refined(d, c))
  {
    var lower, upper := BisectBrackets(d, c.left, c.right, BISECTIONS);
    assert Within(c, lower, upper);
  }

  /** The zeros of a scan increase, one for each alternation of the retained samples, and can be trusted. */
  lemma ZerosSound(d: Curve, tolerance: real, xs: seq<real>)
    requires Increasing(xs)
    ensures var (zeros, changes) := (Zeros(d, tolerance, xs), Changes(d, Retained(d, tolerance, xs)));
            && Increasing(zeros) && |zeros| == |changes|
            && forall i :: 0 <= i < |zeros| ==> Trusted(d, changes, zeros[i])
  {
    var ys := Retained(d, tolerance, xs);
    RetainedIncreases(d, tolerance, xs);
    ChangesAreAlternations(d, ys);
    var (zeros, changes) := (Zeros(d, tolerance, xs), Changes(d, ys));
    forall i | 0 <= i < |zeros|
      ensures changes[i].left < zeros[i] < changes[i].right && Trusted(d, changes, zeros[i])
    {
      assert changes[i] in changes;
      RefinedInside(d, changes[i]);
      RefinedTrusted(d, changes, changes[i]);
    }
  }

  /**
   The reported roots of a scan: increasing and separated, each of them trusted, and none of the alternations
   of the retained samples without a root at most the merging distance below its zero.
   */
  lemma FoundRoots(d: Curve, make: Maker, capacity: nat, tolerance: real, xs: seq<real>)
    requires Faithful(make) && Increasing(xs) && Found(d, make, capacity, tolerance, xs).Ok?
    ensures var roots := Found(d, make, capacity, tolerance, xs).value;
            var changes := Changes(d, Retained(d, tolerance, xs));
            && 0 < |roots| <= |changes| && Separated(roots) && Represents(Zeros(d, tolerance, xs), roots)
            && forall i :: 0 <= i < |roots| ==> Trusted(d, changes, roots[i].phaseChips)
  {
    var zeros := Zeros(d, tolerance, xs);
    ZerosSound(d, tolerance, xs);
    var roots := Found(d, make, capacity, tolerance, xs).value;
    CollectedSound(make, capacity, zeros, roots);
    forall i | 0 <= i < |roots|
      ensures Trusted(d, Changes(d, Retained(d, tolerance, xs)), roots[i].phaseChips)
    {
      assert IsZero(zeros, roots[i].phaseChips);
      var j :| 0 <= j < |zeros| && zeros[j] == roots[i].phaseChips;
    }
  }

  /** The scan reports that there are no roots exactly when the retained samples never change sign. */
  lemma NoRootsIff(d: Curve, make: Maker, capacity: nat, tolerance: real, xs: seq<real>)
    requires Faithful(make) && Increasing(xs)
    ensures Found(d, make, capacity, tolerance, xs) == Err(NoRoots) <==> Changes(d, Retained(d, tolerance, xs)) == []
  {
    var zeros := Zeros(d, tolerance, xs);
    ZerosSound(d, tolerance, xs);
    if Collected(make, capacity, zeros).Ok? {
      CollectedSound(make, capacity, zeros, Collected(make, capacity, zeros).value);
    } else {
      OnlyCapacity(make, capacity, zeros);
    }
  }

  /** The zeros that are kept when each one too near the last one kept is dropped. */
  function Kept(chips: seq<real>): seq<real>
    decreases |chips|
  {
    if |chips| == 0 then []
    else
      var last := |chips| - 1;
      var before := Kept(chips[..last]);
      if TooNear(before, chips[last]) then before else before + [chips[last]]
  }

  /** The roots made from those zeros fit the buffer, or the collection fails. */
  ghost predicate IsMade(make: Maker, kept: seq<real>, roots: seq<Root>) {
    |roots| == |kept| && forall i :: 0 <= i < |roots| ==> roots[i] == make(kept[i])
  }

  predicate TooNear(kept: seq<real>, x: real) {
    |kept| > 0 && AbsReal(x - kept[|kept| - 1]) <= DEDUP_TOLERANCE_CHIPS
  }

  lemma AppendedMade(make: Maker, capacity: nat, kept: seq<real>, roots: seq<Root>, x: real)
    requires Faithful(make) && IsMade(make, kept, roots)
    ensures var after := Appended(make, capacity, roots, x);
            if TooNear(kept, x) then after == Ok(roots)
            else if |kept| >= capacity || |kept| >= MAX_ROOTS then after.Err?
            else after.Ok? && IsMade(make, kept + [x], after.value)
  {
    if |kept| > 0 {
      assert roots[|kept| - 1] == make(kept[|kept| - 1]);
    }
  }

  lemma {:induction false} CollectedIff(make: Maker, capacity: nat, chips: seq<real>)
    requires Faithful(make)
    ensures Collected(make, capacity, chips).Ok? <==> |Kept(chips)| <= capacity && |Kept(chips)| <= MAX_ROOTS
    ensures Collected(make, capacity, chips).Ok? ==> IsMade(make, Kept(chips), Collected(make, capacity, chips).value)
    decreases |chips|
  {
    if |chips| > 0 {
      var last := |chips| - 1;
      CollectedIff(make, capacity, chips[..last]);
      var before := Collected(make, capacity, chips[..last]);
      if before.Ok? {
        AppendedMade(make, capacity, Kept(chips[..last]), before.value, chips[last]);
      }
    }
  }

  /** Every reported root carries the values made from its code phase. */
  lemma CollectedAreMade(make: Maker, capacity: nat, chips: seq<real>, roots: seq<Root>, i: nat)
    requires Faithful(make) && Collected(make, capacity, chips) == Ok(roots) && i < |roots|
    ensures roots[i] == make(roots[i].phaseChips)
  {
    CollectedIff(make, capacity, chips);
    var kept := Kept(chips);
    assert IsMade(make, kept, roots) && roots[i] == make(kept[i]) && make(kept[i]).phaseChips == kept[i];
  }

  lemma {:induction false} OnlyCapacity(make: Maker, capacity: nat, chips: seq<real>)
    requires Collected(make, capacity, chips).Err?
    ensures Collected(make, capacity, chips) == Err(CapacityExceeded) && |chips| > 0
    decreases |chips|
  {
    if |chips| > 0 {
      var last := |chips| - 1;
      if Collected(make, capacity, chips[..last]).Err? {
        OnlyCapacity(make, capacity, chips[..last]);
      }
    }
  }
}
