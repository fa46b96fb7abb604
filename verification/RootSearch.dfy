/**
 The search for code-discriminator roots of a set of paths: validation, the test for a coherent null, and
 the scan of the interval outside which the discriminator is zero.

 The magnitude of a complex voltage, a square root, is a parameter.
 */
module RootSearch {
  import opened Wrappers
  import opened RealSums
  import opened RootSelection
  import CodeProfiles
  import opened CodeTracking
  import DllRoots

  datatype SearchError = InvalidRequest | Dll(error: DllRoots.DllError)

  /** The receiver's status: roots, or a coherent null, which has none to track. */
  datatype Search = RootsFound(roots: seq<Root>) | CoherentNull

  /** Chip rate, early-late spacing in chips, voltage magnitude, and size of the root buffer. */
  datatype Request = Request(
    paths: seq<Path>, code: Correlation, rate: real, spacing: real, magnitude: Complex -> real, capacity: nat)

  /** Summed magnitude, and the earliest and latest delay in chips. */
  datatype Extent = Extent(sum: real, low: real, high: real)

  function Chips(path: Path, rate: real): real { path.delay * rate }

  function ExtentOf(paths: seq<Path>, rate: real, magnitude: Complex -> real): Extent
    requires |paths| > 0
    decreases |paths|
  {
    var last := |paths| - 1;
    var chips := Chips(paths[last], rate);
    if last == 0 then Extent(magnitude(paths[last].voltage), chips, chips)
    else
      var e := ExtentOf(paths[..last], rate, magnitude);
      Extent(e.sum + magnitude(paths[last].voltage), if chips < e.low then chips else e.low,
             if chips > e.high then chips else e.high)
  }

  method ComputeExtent(paths: seq<Path>, rate: real, magnitude: Complex -> real) returns (e: Extent)
    requires |paths| > 0
    ensures e == ExtentOf(paths, rate, magnitude)
  {
    var chips := Chips(paths[0], rate);
    assert paths[..1] == [paths[0]];
    e := Extent(magnitude(paths[0].voltage), chips, chips);
    for i := 1 to |paths|
      invariant e == ExtentOf(paths[..i], rate, magnitude)
    {
      assert paths[..i + 1][..i] == paths[..i];
      chips := Chips(paths[i], rate);
      e := Extent(e.sum + magnitude(paths[i].voltage), if chips < e.low then chips else e.low,
                  if chips > e.high then chips else e.high);
    }
    assert paths[..|paths|] == paths;
  }

  /** An extent holds a delay. */
  predicate Holds(e: Extent, chips: real) { e.low <= chips <= e.high }

  lemma {:induction false} ExtentHolds(paths: seq<Path>, rate: real, magnitude: Complex -> real, i: nat)
    requires i < |paths|
    ensures Holds(ExtentOf(paths, rate, magnitude), Chips(paths[i], rate))
    decreases |paths|
  {
    var last := |paths| - 1;
    if i < last {
      ExtentHolds(paths[..last], rate, magnitude, i);
      var chips := Chips(paths[i], rate);
      assert paths[..last][i] == paths[i];
      assert Holds(ExtentOf(paths[..last], rate, magnitude), chips);
    }
  }

  lemma ExtentBounds(paths: seq<Path>, rate: real, magnitude: Complex -> real)
    requires |paths| > 0
    ensures forall i :: 0 <= i < |paths| ==>
              ExtentOf(paths, rate, magnitude).low <= paths[i].delay * rate <= ExtentOf(paths, rate, magnitude).high
  {
    forall i | 0 <= i < |paths|
      ensures ExtentOf(paths, rate, magnitude).low <= paths[i].delay * rate <= ExtentOf(paths, rate, magnitude).high
    {
      ExtentHolds(paths, rate, magnitude, i);
    }
  }

  predicate ValidRequest(q: Request) {
    && 0 < q.capacity <= DllRoots.MAX_ROOTS && 0.0 < q.spacing <= 2.0 && q.rate > 0.0
    && |q.paths| > 0 && ExtentOf(q.paths, q.rate, q.magnitude).sum > 0.0
  }

  /** Relative to the power scale: the least slope of a stable root, and the largest value that counts as zero. */
  const STABLE_SLOPE_TOLERANCE: real := 0.0000000001
  const ZERO_TOLERANCE: real := 0.0000000000001

  const MAX_SCAN_INTERVALS: int := 32768

  function Half(q: Request): real { 0.5 * q.spacing }

  function CurveOf(q: Request): DllRoots.Curve { x => Discriminator(q.paths, q.code, q.rate, Half(q), x) }

  function PromptOf(q: Request): DllRoots.Curve { x => Norm(Composite(q.paths, q.code, q.rate, x)) }

  function PowerScale(e: Extent): real { e.sum * e.sum }

  function Make(q: Request): DllRoots.Maker
    requires ValidRequest(q)
  {
    DllRoots.MakerOf(CurveOf(q), PromptOf(q), q.rate,
                     STABLE_SLOPE_TOLERANCE * PowerScale(ExtentOf(q.paths, q.rate, q.magnitude)))
  }

  function Lower(q: Request, e: Extent): real { e.low - 1.0 - Half(q) }

  function Upper(q: Request, e: Extent): real { e.high + 1.0 + Half(q) }

  /** The whole number of scan steps of 1/512 chip that covers a width. */
  function Steps(width: real): int { -((-width * 512.0).Floor) }

  function Tolerance(e: Extent): real { ZERO_TOLERANCE * PowerScale(e) }

  function SamplesOf(q: Request, e: Extent): seq<real> {
    var width := Upper(q, e) - Lower(q, e);
    if Steps(width) <= 0 then [] else DllRoots.Samples(Lower(q, e), width, Steps(width))
  }

  /** The sign changes among the samples of the search. */
  function ChangesOf(q: Request, e: Extent): seq<DllRoots.Change> {
    DllRoots.Changes(CurveOf(q), DllRoots.Retained(CurveOf(q), Tolerance(e), SamplesOf(q, e)))
  }

  lemma WidthPositive(q: Request)
    requires ValidRequest(q)
    ensures var e := ExtentOf(q.paths, q.rate, q.magnitude);
            Upper(q, e) - Lower(q, e) > 2.0 && Steps(Upper(q, e) - Lower(q, e)) > 0
  {
    ExtentBounds(q.paths, q.rate, q.magnitude);
    assert ExtentOf(q.paths, q.rate, q.magnitude).low <= q.paths[0].delay * q.rate;
  }

  /** The search without the null test. */
  function Searched(q: Request): Result<seq<Root>, SearchError> {
    if !ValidRequest(q) then Err(InvalidRequest)
    else
      var e := ExtentOf(q.paths, q.rate, q.magnitude);
      if Steps(Upper(q, e) - Lower(q, e)) > MAX_SCAN_INTERVALS then Err(Dll(DllRoots.SpanTooLong))
      else match DllRoots.Found(CurveOf(q), Make(q), q.capacity, Tolerance(e), SamplesOf(q, e))
        case Err(error) => Err(Dll(error))
        case Ok(roots) => Ok(roots)
  }

  ghost function WithStatus(q: Request): Result<Search, SearchError> {
    if !ValidRequest(q) then Err(InvalidRequest)
    else if AllCancel(q.paths) then Ok(CoherentNull)
    else match Searched(q)
      case Err(error) => Err(error)
      case Ok(roots) => Ok(RootsFound(roots))
  }

  /** The scan of the interval that holds every sign change. */
  method ScanSupport(q: Request, e: Extent) returns (found: Result<seq<Root>, DllRoots.DllError>)
    requires ValidRequest(q) && Steps(Upper(q, e) - Lower(q, e)) > 0
    ensures found == DllRoots.Found(CurveOf(q), Make(q), q.capacity, Tolerance(e), SamplesOf(q, e))
  {
    var lower := Lower(q, e);
    var width := Upper(q, e) - lower;
    assert width > 0.0;
    found := DllRoots.Scan(CurveOf(q), Make(q), q.capacity, Tolerance(e), lower, width, Steps(width));
  }

  method FindRoots(q: Request) returns (r: Result<seq<Root>, SearchError>)
    ensures r == Searched(q)
  {
    if !ValidRequest(q) {
      return Err(InvalidRequest);
    }
    var e := ComputeExtent(q.paths, q.rate, q.magnitude);
    WidthPositive(q);
    if Steps(Upper(q, e) - Lower(q, e)) > MAX_SCAN_INTERVALS {
      return Err(Dll(DllRoots.SpanTooLong));
    }
    var found := ScanSupport(q, e);
    if found.Err? {
      return Err(Dll(found.error));
    }
    r := Ok(found.value);
  }

  method FindRootsWithStatus(q: Request) returns (r: Result<Search, SearchError>)
    ensures r == WithStatus(q)
  {
    if !ValidRequest(q) {
      return Err(InvalidRequest);
    }
    var cancel := AllGroupsCancel(q.paths);
    if cancel {
      return Ok(CoherentNull);
    }
    var roots := FindRoots(q);
    if roots.Err? {
      return Err(roots.error);
    }
    r := Ok(RootsFound(roots.value));
  }

  // ---------- What the statuses mean ----------

  lemma {:induction false} NothingRetained(d: DllRoots.Curve, tolerance: real, xs: seq<real>)
    requires tolerance >= 0.0 && forall x :: d(x) == 0.0
    ensures DllRoots.Retained(d, tolerance, xs) == []
    decreases |xs|
  {
    if |xs| > 0 {
      NothingRetained(d, tolerance, xs[..|xs| - 1]);
    }
  }

  lemma ScalePositive(e: Extent)
    requires e.sum > 0.0
    ensures Tolerance(e) > 0.0
  {
    BothPositive(e.sum, e.sum, PowerScale(e));
  }

  /** A coherent null is reported exactly for paths that the signal's own code cannot see at any phase. */
  lemma NullStatusIff(q: Request, y: real)
    requires ValidRequest(q) && WithinOneChip(q.code) && q.code(y) != ZERO
    ensures WithStatus(q) == Ok(CoherentNull) <==> Invisible(q.paths, q.code, q.rate)
  {
    NullIff(q.paths, q.code, q.rate, y);
  }

  /** In particular for every supported code whose subcarriers do not cancel each other. */
  lemma NullStatusOfCode(q: Request, profile: CodeProfiles.Profile, root: real -> real)
    requires ValidRequest(q) && q.code == CodeOf(profile, root)
    requires CodeProfiles.IsRoot(root) && CodeProfiles.Ideal(profile, root, 0.0).Some?
    requires !CodeProfiles.SubcarriersCancel(profile)
    ensures WithStatus(q) == Ok(CoherentNull) <==> Invisible(q.paths, q.code, q.rate)
  {
    CodesWithinOneChip(profile, root);
    CodesAreSeen(profile, root);
    NullStatusIff(q, 0.0);
  }

  /** Without the null test the search would fail on such paths: it has no sign change to find. */
  lemma NullWouldFail(q: Request)
    requires ValidRequest(q) && AllCancel(q.paths)
    ensures Searched(q) == Err(Dll(DllRoots.SpanTooLong)) || Searched(q) == Err(Dll(DllRoots.NoRoots))
  {
    var e := ExtentOf(q.paths, q.rate, q.magnitude);
    WidthPositive(q);
    ScalePositive(e);
    forall x
      ensures CurveOf(q)(x) == 0.0
    {
      NullHasNoDiscriminator(q.paths, q.code, q.rate, Half(q), x);
    }
    NothingRetained(CurveOf(q), Tolerance(e), SamplesOf(q, e));
  }

  /** The discriminator is zero outside the interval that is scanned. */
  lemma ScanCoversSupport(q: Request, x: real)
    requires ValidRequest(q) && WithinOneChip(q.code)
    requires var e := ExtentOf(q.paths, q.rate, q.magnitude); x <= Lower(q, e) || x >= Upper(q, e)
    ensures CurveOf(q)(x) == 0.0
  {
    var e := ExtentOf(q.paths, q.rate, q.magnitude);
    ExtentBounds(q.paths, q.rate, q.magnitude);
    NothingBeyond(q, e.low, e.high, x);
  }

  lemma NothingBeyond(q: Request, low: real, high: real, x: real)
    requires WithinOneChip(q.code) && q.spacing > 0.0
    requires forall i :: 0 <= i < |q.paths| ==> low <= q.paths[i].delay * q.rate <= high
    requires x <= low - 1.0 - Half(q) || x >= high + 1.0 + Half(q)
    ensures CurveOf(q)(x) == 0.0
  {
    NothingOutside(q.paths, q.code, q.rate, Half(q), x, low, high);
  }

  lemma MakeIsFaithful(q: Request)
    requires ValidRequest(q)
    ensures DllRoots.Faithful(Make(q))
  {
  }

  lemma SamplesIncreasing(q: Request, e: Extent)
    ensures DllRoots.Increasing(SamplesOf(q, e))
  {
    var width := Upper(q, e) - Lower(q, e);
    if Steps(width) > 0 {
      assert width > 0.0;
      DllRoots.SamplesIncrease(Lower(q, e), width, Steps(width));
    }
  }

  /** Separated roots, each bracketed inside a sign change of the scan. */
  ghost predicate GoodRoots(d: DllRoots.Curve, changes: seq<DllRoots.Change>, roots: seq<Root>) {
    && 0 < |roots| <= |changes| && DllRoots.Separated(roots)
    && forall i :: 0 <= i < |roots| ==> DllRoots.Trusted(d, changes, roots[i].phaseChips)
  }

  lemma FoundGood(d: DllRoots.Curve, make: DllRoots.Maker, capacity: nat, tolerance: real,
                  xs: seq<real>, roots: seq<Root>)
    requires DllRoots.Faithful(make) && DllRoots.Increasing(xs)
    requires DllRoots.Found(d, make, capacity, tolerance, xs) == Ok(roots)
    ensures GoodRoots(d, DllRoots.Changes(d, DllRoots.Retained(d, tolerance, xs)), roots)
  {
    DllRoots.FoundRoots(d, make, capacity, tolerance, xs);
  }

  /** Every successful search returns such roots. */
  lemma SearchSound(q: Request)
    requires Searched(q).Ok?
    ensures GoodRoots(CurveOf(q), ChangesOf(q, ExtentOf(q.paths, q.rate, q.magnitude)), Searched(q).value)
  {
    var e := ExtentOf(q.paths, q.rate, q.magnitude);
    MakeIsFaithful(q);
    SamplesIncreasing(q, e);
    FoundGood(CurveOf(q), Make(q), q.capacity, Tolerance(e), SamplesOf(q, e), Searched(q).value);
  }

  lemma ThresholdPositive(e: Extent)
    requires e.sum > 0.0
    ensures STABLE_SLOPE_TOLERANCE * PowerScale(e) > 0.0
  {
    BothPositive(e.sum, e.sum, PowerScale(e));
  }

  lemma MadeIsMeasured(q: Request, r: Root)
    requires ValidRequest(q) && r == Make(q)(r.phaseChips)
    ensures DllRoots.Measured(CurveOf(q), PromptOf(q), q.rate,
                              STABLE_SLOPE_TOLERANCE * PowerScale(ExtentOf(q.paths, q.rate, q.magnitude)), r)
  {
    var e := ExtentOf(q.paths, q.rate, q.magnitude);
    ThresholdPositive(e);
    DllRoots.MadeIsMeasured(CurveOf(q), PromptOf(q), q.rate, STABLE_SLOPE_TOLERANCE * PowerScale(e), r);
  }

  lemma SearchedAreMade(q: Request, i: nat)
    requires Searched(q).Ok? && i < |Searched(q).value|
    ensures Searched(q).value[i] == Make(q)(Searched(q).value[i].phaseChips)
  {
    var e := ExtentOf(q.paths, q.rate, q.magnitude);
    MakeIsFaithful(q);
    DllRoots.CollectedAreMade(Make(q), q.capacity, DllRoots.Zeros(CurveOf(q), Tolerance(e), SamplesOf(q, e)),
                              Searched(q).value, i);
  }

  /** What a reported root says of itself is measured on the request's own discriminator and prompt power. */
  lemma RootsAreMeasured(q: Request, i: nat)
    requires Searched(q).Ok? && i < |Searched(q).value|
    ensures DllRoots.Measured(CurveOf(q), PromptOf(q), q.rate,
                              STABLE_SLOPE_TOLERANCE * PowerScale(ExtentOf(q.paths, q.rate, q.magnitude)),
                              Searched(q).value[i])
  {
    SearchedAreMade(q, i);
    MadeIsMeasured(q, Searched(q).value[i]);
  }

  lemma CeilingSteps(width: real, n: int)
    requires n == Steps(width)
    ensures width * 512.0 <= n as real
  {
  }

  /** The scan runs from one end of the searched interval to the other, in steps of at most 1/512 chip. */
  lemma ScanIsDense(q: Request, k: nat)
    requires ValidRequest(q)
    ensures var e := ExtentOf(q.paths, q.rate, q.magnitude);
            var xs := SamplesOf(q, e);
            && |xs| >= 2 && xs[0] == e.low - 1.0 - 0.5 * q.spacing
            && xs[|xs| - 1] == e.high + 1.0 + 0.5 * q.spacing
            && (k + 1 < |xs| ==> 0.0 < xs[k + 1] - xs[k] <= 1.0 / 512.0)
  {
    var e := ExtentOf(q.paths, q.rate, q.magnitude);
    WidthPositive(q);
    var (lower, width) := (Lower(q, e), Upper(q, e) - Lower(q, e));
    CeilingSteps(width, Steps(width));
    DllRoots.SampleEnds(lower, width, Steps(width));
    if k < Steps(width) {
      DllRoots.SamplesIncrease(lower, width, Steps(width));
      DllRoots.SampleGap(lower, width, Steps(width), k);
    }
  }

  /** A sample of the scan is taken for zero exactly within 1e-13 of the power scale. */
  lemma RetainsIff(q: Request, e: Extent, x: real)
    requires |q.paths| > 0 && e == ExtentOf(q.paths, q.rate, q.magnitude)
    ensures x in DllRoots.Retained(CurveOf(q), Tolerance(e), SamplesOf(q, e)) <==>
            && x in SamplesOf(q, e)
            && (CurveOf(q)(x) > 0.0000000000001 * PowerScale(e) || -CurveOf(q)(x) > 0.0000000000001 * PowerScale(e))
  {
    DllRoots.RetainedIff(CurveOf(q), Tolerance(e), SamplesOf(q, e), x);
  }

  lemma {:induction false} ExtentIsTight(paths: seq<Path>, rate: real, magnitude: Complex -> real)
    returns (first: nat, last: nat)
    requires |paths| > 0
    ensures first < |paths| && last < |paths|
    ensures ExtentOf(paths, rate, magnitude).low == Chips(paths[first], rate)
    ensures ExtentOf(paths, rate, magnitude).high == Chips(paths[last], rate)
    decreases |paths|
  {
    var n := |paths| - 1;
    first, last := n, n;
    if n > 0 {
      var chips := Chips(paths[n], rate);
      var i, j := ExtentIsTight(paths[..n], rate, magnitude);
      var e := ExtentOf(paths[..n], rate, magnitude);
      first := if chips < e.low then n else i;
      last := if chips > e.high then n else j;
    }
  }

  lemma StepsWithin(width: real)
    ensures Steps(width) <= MAX_SCAN_INTERVALS <==> width <= 64.0
  {
  }

  /** The zeros among the samples of a search, merged: what its roots are made from. */
  function MergedZeros(q: Request, e: Extent): seq<real> {
    DllRoots.Kept(DllRoots.Zeros(CurveOf(q), Tolerance(e), SamplesOf(q, e)))
  }

  /**
   A valid search succeeds exactly if the interval is at most 64 chips wide, the discriminator changes sign between
   retained samples, and the zeros that remain after merging fit the buffer.
   */
  lemma SearchesIff(q: Request, e: Extent)
    requires ValidRequest(q) && e == ExtentOf(q.paths, q.rate, q.magnitude)
    ensures Searched(q).Ok? <==>
            Upper(q, e) - Lower(q, e) <= 64.0 && ChangesOf(q, e) != [] && |MergedZeros(q, e)| <= q.capacity
  {
    MakeIsFaithful(q);
    SamplesIncreasing(q, e);
    StepsWithin(Upper(q, e) - Lower(q, e));
    FoundIff(CurveOf(q), Make(q), q.capacity, Tolerance(e), SamplesOf(q, e));
  }

  lemma FoundIff(d: DllRoots.Curve, make: DllRoots.Maker, capacity: nat, tolerance: real, xs: seq<real>)
    requires DllRoots.Faithful(make) && DllRoots.Increasing(xs) && capacity <= DllRoots.MAX_ROOTS
    ensures DllRoots.Found(d, make, capacity, tolerance, xs).Ok? <==>
            && DllRoots.Changes(d, DllRoots.Retained(d, tolerance, xs)) != []
            && |DllRoots.Kept(DllRoots.Zeros(d, tolerance, xs))| <= capacity
  {
    DllRoots.NoRootsIff(d, make, capacity, tolerance, xs);
    DllRoots.CollectedIff(make, capacity, DllRoots.Zeros(d, tolerance, xs));
  }

  /** A stable zero of the request's discriminator: bracketed inside a sign change of the scan, with enough slope. */
  ghost predicate StableZero(q: Request, chips: real)
    requires ValidRequest(q)
  {
    var e := ExtentOf(q.paths, q.rate, q.magnitude);
    && DllRoots.Trusted(CurveOf(q), ChangesOf(q, e), chips)
    && DllRoots.Slope(CurveOf(q), chips) > STABLE_SLOPE_TOLERANCE * PowerScale(e)
  }

  /** The roots that a search marks as stable are stable zeros. */
  lemma StableRootsAreZeros(q: Request, i: nat)
    requires Searched(q).Ok? && i < |Searched(q).value| && Searched(q).value[i].stable
    ensures StableZero(q, Searched(q).value[i].phaseChips)
  {
    SearchSound(q);
    SearchedAreMade(q, i);
  }
}
