/**
 The composite code correlation of several received paths, and the case in which it vanishes: the voltages
 of all paths with the same delay cancel.

 The correlation of the code with itself is a parameter; delays are in chips unless said otherwise.
 */
module CodeTracking {
  import opened RealSums
  import opened Reals
  import opened CodeProfiles

  /** A path: its delay in seconds and its complex voltage. */
  datatype Path = Path(delay: real, voltage: Complex)

  type Correlation = real -> Complex

  /** What a path of a given delay contributes to the correlator per unit of voltage. */
  type Response = real -> Complex

  /** Where a path of a given delay lies from a code phase, in chips. */
  function Offset(x: real, delay: real, rate: real): real { x - delay * rate }

  function ResponseAt(r: Correlation, rate: real, x: real): Response { delay => r(Offset(x, delay, rate)) }

  function Received(paths: seq<Path>, see: Response): Complex
    decreases |paths|
  {
    if |paths| == 0 then ZERO
    else
      var last := |paths| - 1;
      Plus(Received(paths[..last], see), Times(paths[last].voltage, see(paths[last].delay)))
  }

  /** What the correlator sees at a local code phase. */
  function Composite(paths: seq<Path>, r: Correlation, rate: real, x: real): Complex {
    Received(paths, ResponseAt(r, rate, x))
  }

  method ComputeComposite(paths: seq<Path>, r: Correlation, rate: real, x: real) returns (sum: Complex)
    ensures sum == Composite(paths, r, rate, x)
  {
    sum := ZERO;
    for i := 0 to |paths|
      invariant sum == Received(paths[..i], ResponseAt(r, rate, x))
    {
      assert paths[..i + 1][..i] == paths[..i];
      var correlation := ResponseAt(r, rate, x)(paths[i].delay);
      sum := Plus(sum, Times(paths[i].voltage, correlation));
    }
    assert paths[..|paths|] == paths;
  }

  // ---------- Groups of equal delay ----------

  /** The summed voltage of the paths with one delay. */
  function GroupSum(paths: seq<Path>, delay: real): Complex
    decreases |paths|
  {
    if |paths| == 0 then ZERO
    else
      var last := |paths| - 1;
      var before := GroupSum(paths[..last], delay);
      if paths[last].delay == delay then Plus(before, paths[last].voltage) else before
  }

  predicate FirstAtDelay(paths: seq<Path>, i: nat)
    requires i < |paths|
  {
    forall j :: 0 <= j < i ==> paths[j].delay != paths[i].delay
  }

  /** No group has voltage left. */
  ghost predicate AllCancel(paths: seq<Path>) { forall delay :: GroupSum(paths, delay) == ZERO }

  lemma {:induction false} EmptyGroup(paths: seq<Path>, delay: real)
    requires forall i :: 0 <= i < |paths| ==> paths[i].delay != delay
    ensures GroupSum(paths, delay) == ZERO
    decreases |paths|
  {
    if |paths| > 0 {
      EmptyGroup(paths[..|paths| - 1], delay);
    }
  }

  method IsFirstAtDelay(paths: seq<Path>, i: nat) returns (first: bool)
    requires i < |paths|
    ensures first <==> FirstAtDelay(paths, i)
  {
    for j := 0 to i
      invariant forall k :: 0 <= k < j ==> paths[k].delay != paths[i].delay
    {
      if paths[j].delay == paths[i].delay {
        return false;
      }
    }
    return true;
  }

  /** The voltage of the group of path i, which is the first of its delay. */
  method GroupVoltage(paths: seq<Path>, i: nat) returns (voltage: Complex)
    requires i < |paths| && FirstAtDelay(paths, i)
    ensures voltage == GroupSum(paths, paths[i].delay)
  {
    voltage := ZERO;
    EmptyGroup(paths[..i], paths[i].delay);
    for candidate := i to |paths|
      invariant voltage == GroupSum(paths[..candidate], paths[i].delay)
    {
      assert paths[..candidate + 1][..candidate] == paths[..candidate];
      if paths[candidate].delay == paths[i].delay {
        voltage := Plus(voltage, paths[candidate].voltage);
      }
    }
    assert paths[..|paths|] == paths;
  }

  /** The loop over the paths that looks for a group with voltage left. */
  method AllGroupsCancel(paths: seq<Path>) returns (cancel: bool)
    ensures cancel <==> AllCancel(paths)
  {
    cancel := true;
    var i := 0;
    while i < |paths| && cancel
      invariant i <= |paths|
      invariant cancel ==> forall j :: 0 <= j < i ==> GroupSum(paths, paths[j].delay) == ZERO
      invariant !cancel ==> !AllCancel(paths)
    {
      var first := IsFirstAtDelay(paths, i);
      if first {
        var voltage := GroupVoltage(paths, i);
        cancel := voltage == ZERO;
      }
      i := i + 1;
    }
    if cancel {
      forall delay
        ensures GroupSum(paths, delay) == ZERO
      {
        OtherDelays(paths, delay);
      }
    }
  }

  lemma OtherDelays(paths: seq<Path>, delay: real)
    requires forall j :: 0 <= j < |paths| ==> GroupSum(paths, paths[j].delay) == ZERO
    ensures GroupSum(paths, delay) == ZERO
  {
    if j :| 0 <= j < |paths| && paths[j].delay == delay {
    } else {
      EmptyGroup(paths, delay);
    }
  }

  // ---------- A cancelled signal is invisible ----------

  function Without(paths: seq<Path>, delay: real): seq<Path>
    decreases |paths|
  {
    if |paths| == 0 then []
    else
      var last := |paths| - 1;
      var before := Without(paths[..last], delay);
      if paths[last].delay == delay then before else before + [paths[last]]
  }

  lemma {:induction false} WithoutShrinks(paths: seq<Path>, delay: real)
    ensures |Without(paths, delay)| <= |paths|
    ensures (exists i :: 0 <= i < |paths| && paths[i].delay == delay) ==> |Without(paths, delay)| < |paths|
    decreases |paths|
  {
    if |paths| > 0 {
      WithoutShrinks(paths[..|paths| - 1], delay);
      if i :| 0 <= i < |paths| - 1 && paths[i].delay == delay {
        assert paths[..|paths| - 1][i].delay == delay;
      }
    }
  }

  lemma {:induction false} WithoutGroups(paths: seq<Path>, delay: real, other: real)
    ensures GroupSum(Without(paths, delay), other) == if other == delay then ZERO else GroupSum(paths, other)
    decreases |paths|
  {
    if |paths| > 0 {
      var last := |paths| - 1;
      var before := Without(paths[..last], delay);
      WithoutGroups(paths[..last], delay, other);
      assert (before + [paths[last]])[..|before|] == before;
    }
  }

  /** Adding a path to its group, or beside it. */
  lemma GroupStep(group: Complex, v: Complex, at: Complex, rest: Complex)
    ensures Plus(Plus(Times(group, at), rest), Times(v, at)) == Plus(Times(Plus(group, v), at), rest)
  {
  }

  lemma PlusAssociates(a: Complex, b: Complex, c: Complex)
    ensures Plus(Plus(a, b), c) == Plus(a, Plus(b, c))
  {
  }

  lemma NothingTimes(c: Complex)
    ensures Plus(Times(ZERO, c), ZERO) == ZERO
  {
  }

  /** One group of paths taken out of the sum. */
  lemma {:induction false} SplitGroup(paths: seq<Path>, see: Response, delay: real)
    ensures Received(paths, see) ==
              Plus(Times(GroupSum(paths, delay), see(delay)), Received(Without(paths, delay), see))
    decreases |paths|
  {
    if |paths| == 0 {
      NothingTimes(see(delay));
    } else {
      var last := |paths| - 1;
      var (front, p) := (paths[..last], paths[last]);
      SplitGroup(front, see, delay);
      var rest := Received(Without(front, delay), see);
      if p.delay == delay {
        GroupStep(GroupSum(front, delay), p.voltage, see(delay), rest);
      } else {
        assert (Without(front, delay) + [p])[..|Without(front, delay)|] == Without(front, delay);
        PlusAssociates(Times(GroupSum(front, delay), see(delay)), rest, Times(p.voltage, see(p.delay)));
      }
    }
  }

  /** When every group cancels, nothing is received, whatever the response. */
  lemma {:induction false} NullIsInvisible(paths: seq<Path>, see: Response)
    requires AllCancel(paths)
    ensures Received(paths, see) == ZERO
    decreases |paths|
  {
    if |paths| > 0 {
      var delay := paths[0].delay;
      SplitGroup(paths, see, delay);
      WithoutShrinks(paths, delay);
      forall other
        ensures GroupSum(Without(paths, delay), other) == ZERO
      {
        WithoutGroups(paths, delay, other);
      }
      NullIsInvisible(Without(paths, delay), see);
      NothingTimes(see(delay));
    }
  }

  // ---------- What is invisible cancels ----------

  /** A code that does not correlate with itself beyond one chip. */
  ghost predicate WithinOneChip(r: Correlation) { forall d :: AbsReal(d) >= 1.0 ==> r(d) == ZERO }

  lemma NoProduct(a: Complex, b: Complex)
    requires a == ZERO || b == ZERO
    ensures Times(a, b) == ZERO && Plus(ZERO, ZERO) == ZERO
    ensures forall c :: Plus(ZERO, c) == c && Plus(c, ZERO) == c
  {
  }

  /** When every other delay has no voltage left or no response, one group is all that is received. */
  lemma {:induction false} OneGroupLeft(paths: seq<Path>, see: Response, delay: real)
    requires forall other :: other != delay ==> GroupSum(paths, other) == ZERO || see(other) == ZERO
    ensures Received(paths, see) == Times(GroupSum(paths, delay), see(delay))
    decreases |paths|
  {
    if |paths| == 0 {
      NoProduct(ZERO, see(delay));
    } else {
      var first := paths[0].delay;
      var rest := Without(paths, first);
      SplitGroup(paths, see, first);
      WithoutShrinks(paths, first);
      forall other | other != delay
        ensures GroupSum(rest, other) == ZERO || see(other) == ZERO
      {
        WithoutGroups(paths, first, other);
      }
      WithoutGroups(paths, first, delay);
      OneGroupLeft(rest, see, delay);
      if first == delay {
        NoProduct(GroupSum(rest, delay), see(delay));
      } else {
        NoProduct(GroupSum(paths, first), see(first));
      }
    }
  }

  /** The squared magnitude of a product is the product of the squared magnitudes. */
  lemma NormOfProduct(a: Complex, b: Complex)
    ensures Norm(Times(a, b)) == Norm(a) * Norm(b)
  {
  }

  lemma ProductNotZero(a: Complex, b: Complex)
    requires a != ZERO && b != ZERO
    ensures Times(a, b) != ZERO
  {
    NormPositive(a, Norm(a));
    NormPositive(b, Norm(b));
    BothPositive(Norm(a), Norm(b), Norm(a) * Norm(b));
    NormOfProduct(a, b);
    NormOfZero();
  }

  /** Some path carries voltage that its group does not cancel, and no such path comes earlier. */
  predicate Earliest(paths: seq<Path>, i: nat, n: nat)
    requires i < |paths| && n <= |paths|
  {
    && GroupSum(paths, paths[i].delay) != ZERO
    && forall j :: 0 <= j < n && GroupSum(paths, paths[j].delay) != ZERO ==> paths[i].delay <= paths[j].delay
  }

  lemma {:induction false} EarliestExists(paths: seq<Path>, i: nat, n: nat) returns (k: nat)
    requires i < |paths| && n <= |paths| && GroupSum(paths, paths[i].delay) != ZERO
    ensures k < |paths| && Earliest(paths, k, n)
    decreases n
  {
    if n == 0 {
      k := i;
    } else {
      k := EarliestExists(paths, i, n - 1);
      if GroupSum(paths, paths[n - 1].delay) != ZERO && paths[n - 1].delay < paths[k].delay {
        k := n - 1;
      }
    }
  }

  /** A distance in chips that every later path keeps from a delay. */
  lemma {:induction false} Spacing(paths: seq<Path>, delay: real, rate: real, n: nat) returns (gap: real)
    requires rate > 0.0 && n <= |paths|
    ensures gap > 0.0
    ensures forall j :: 0 <= j < n && paths[j].delay > delay ==> Ahead(paths[j].delay, delay, rate) >= gap
    decreases n
  {
    if n == 0 {
      gap := 1.0;
    } else {
      gap := Spacing(paths, delay, rate, n - 1);
      var chips := Ahead(paths[n - 1].delay, delay, rate);
      if paths[n - 1].delay > delay {
        AheadPositive(paths[n - 1].delay, delay, rate, chips);
        if chips < gap {
          gap := chips;
        }
      }
    }
  }

  /** How far one delay lies after another, in chips. */
  function Ahead(later: real, delay: real, rate: real): real { later * rate - delay * rate }

  lemma AheadPositive(later: real, delay: real, rate: real, chips: real)
    requires rate > 0.0 && later > delay && chips == Ahead(later, delay, rate)
    ensures chips > 0.0
  {
    BothPositive(later - delay, rate, (later - delay) * rate);
    assert (later - delay) * rate == chips;
  }

  /** No code phase receives anything, with this code. */
  ghost predicate Invisible(paths: seq<Path>, r: Correlation, rate: real) {
    forall x: real :: Composite(paths, r, rate, x) == ZERO
  }

  /** The earliest live delay, and how far all other live ones lie behind it. */
  ghost predicate Leads(paths: seq<Path>, delay: real, rate: real, gap: real) {
    && GroupSum(paths, delay) != ZERO
    && forall other :: other != delay && GroupSum(paths, other) != ZERO ==> Ahead(other, delay, rate) >= gap
  }

  /**
   Seen from the earliest live delay, an invisible signal has no correlation anywhere: at each phase the
   earliest path could only be cancelled by a later one, which lies at least one gap further left in the
   support of the code, and that support ends at minus one chip.
   */
  lemma {:induction false} NoCorrelation(paths: seq<Path>, r: Correlation, rate: real, delay: real, gap: real,
                                         y: real, n: nat)
    requires WithinOneChip(r) && Invisible(paths, r, rate) && Leads(paths, delay, rate, gap)
    requires y + 1.0 <= Multiple(n, gap)
    ensures r(y) == ZERO
    decreases n
  {
    if n > 0 && r(y) != ZERO {
      var x := delay * rate + y;
      var see := ResponseAt(r, rate, x);
      assert Offset(x, delay, rate) == y && see(delay) == r(y);
      forall other | other != delay
        ensures GroupSum(paths, other) == ZERO || see(other) == ZERO
      {
        if GroupSum(paths, other) != ZERO {
          var z := Offset(x, other, rate);
          assert z == y - Ahead(other, delay, rate);
          NoCorrelation(paths, r, rate, delay, gap, z, n - 1);
        }
      }
      OneGroupLeft(paths, see, delay);
      assert Composite(paths, r, rate, x) == ZERO;
      ProductNotZero(GroupSum(paths, delay), r(y));
    }
  }

  lemma LeaderExists(paths: seq<Path>, rate: real) returns (delay: real, gap: real)
    requires rate > 0.0 && !AllCancel(paths)
    ensures gap > 0.0 && Leads(paths, delay, rate, gap)
  {
    var live :| GroupSum(paths, live) != ZERO;
    var i := PathAt(paths, live);
    var k := EarliestExists(paths, i, |paths|);
    delay := paths[k].delay;
    gap := Spacing(paths, delay, rate, |paths|);
    forall other | other != delay && GroupSum(paths, other) != ZERO
      ensures Ahead(other, delay, rate) >= gap
    {
      var j := PathAt(paths, other);
    }
  }

  lemma PathAt(paths: seq<Path>, delay: real) returns (i: nat)
    requires GroupSum(paths, delay) != ZERO
    ensures i < |paths| && paths[i].delay == delay
  {
    if forall j :: 0 <= j < |paths| ==> paths[j].delay != delay {
      EmptyGroup(paths, delay);
    }
    i :| i < |paths| && paths[i].delay == delay;
  }

  /**
   The grouping test is exact for every code that correlates with itself somewhere, within one chip: it finds
   precisely the path sets that this code cannot see at any phase.
   */
  lemma NullIff(paths: seq<Path>, r: Correlation, rate: real, y: real)
    requires rate > 0.0 && WithinOneChip(r) && r(y) != ZERO
    ensures AllCancel(paths) <==> Invisible(paths, r, rate)
  {
    if AllCancel(paths) {
      forall x: real
        ensures Composite(paths, r, rate, x) == ZERO
      {
        NullIsInvisible(paths, ResponseAt(r, rate, x));
      }
    } else if Invisible(paths, r, rate) {
      var delay, gap := LeaderExists(paths, rate);
      var n := EnoughMultiples(gap, y + 1.0);
      NoCorrelation(paths, r, rate, delay, gap, y, n);
      assert false;
    }
  }

  // ---------- The discriminator ----------

  /** Early minus late power. */
  function Discriminator(paths: seq<Path>, r: Correlation, rate: real, half: real, x: real): real {
    Norm(Composite(paths, r, rate, x - half)) - Norm(Composite(paths, r, rate, x + half))
  }

  /** The correlation of a code, where it has one. */
  function CodeOf(profile: Profile, root: real -> real): Correlation {
    d => if Ideal(profile, root, d).Some? then Ideal(profile, root, d).value else ZERO
  }

  /** No supported code correlates with itself beyond one chip. */
  lemma CodesWithinOneChip(profile: Profile, root: real -> real)
    ensures WithinOneChip(CodeOf(profile, root))
  {
    forall d | AbsReal(d) >= 1.0
      ensures CodeOf(profile, root)(d) == ZERO
    {
      if Ideal(profile, root, d).Some? {
        IdealIsBounded(profile, root, d);
      }
    }
  }

  /** A supported code is seen in phase, unless its subcarriers cancel each other. */
  lemma CodesAreSeen(profile: Profile, root: real -> real)
    requires IsRoot(root) && Ideal(profile, root, 0.0).Some? && !SubcarriersCancel(profile)
    ensures CodeOf(profile, root)(0.0) != ZERO
  {
    OneUnlessCancelled(profile, root, 0.0);
  }

  lemma {:induction false} UnseenIsZero(paths: seq<Path>, see: Response)
    requires forall i :: 0 <= i < |paths| ==> see(paths[i].delay) == ZERO
    ensures Received(paths, see) == ZERO
    decreases |paths|
  {
    if |paths| > 0 {
      var last := |paths| - 1;
      UnseenIsZero(paths[..last], see);
      NoProduct(paths[last].voltage, ZERO);
    }
  }

  lemma FarIsZero(paths: seq<Path>, r: Correlation, rate: real, x: real)
    requires WithinOneChip(r) && forall i :: 0 <= i < |paths| ==> AbsReal(Offset(x, paths[i].delay, rate)) >= 1.0
    ensures Composite(paths, r, rate, x) == ZERO
  {
    UnseenIsZero(paths, ResponseAt(r, rate, x));
  }

  lemma OutsideFar(paths: seq<Path>, rate: real, x: real, low: real, high: real)
    requires forall i :: 0 <= i < |paths| ==> low <= paths[i].delay * rate <= high
    requires x <= low - 1.0 || x >= high + 1.0
    ensures forall i :: 0 <= i < |paths| ==> AbsReal(Offset(x, paths[i].delay, rate)) >= 1.0
  {
    forall i | 0 <= i < |paths|
      ensures AbsReal(Offset(x, paths[i].delay, rate)) >= 1.0
    {
      FarFrom(x, paths[i].delay * rate, low, high, Offset(x, paths[i].delay, rate));
    }
  }

  lemma FarFrom(x: real, chips: real, low: real, high: real, offset: real)
    requires low <= chips <= high && offset == x - chips && (x <= low - 1.0 || x >= high + 1.0)
    ensures AbsReal(offset) >= 1.0
  {
  }

  /** Outside the scanned interval the discriminator is zero: every sign change is inside it. */
  lemma NothingOutside(paths: seq<Path>, r: Correlation, rate: real, half: real, x: real, low: real, high: real)
    requires WithinOneChip(r) && half >= 0.0
    requires forall i :: 0 <= i < |paths| ==> low <= paths[i].delay * rate <= high
    requires x <= low - 1.0 - half || x >= high + 1.0 + half
    ensures Discriminator(paths, r, rate, half, x) == 0.0
  {
    OutsideFar(paths, rate, x - half, low, high);
    OutsideFar(paths, rate, x + half, low, high);
    FarIsZero(paths, r, rate, x - half);
    FarIsZero(paths, r, rate, x + half);
  }

  /** A coherent null has no discriminator to find roots of. */
  lemma NullHasNoDiscriminator(paths: seq<Path>, r: Correlation, rate: real, half: real, x: real)
    requires AllCancel(paths)
    ensures Discriminator(paths, r, rate, half, x) == 0.0
  {
    NullIsInvisible(paths, ResponseAt(r, rate, x - half));
    NullIsInvisible(paths, ResponseAt(r, rate, x + half));
  }

  // ---------- One path ----------

  /** A curve that is even, and within one of zero falls with the distance. */
  ghost predicate Peaked(power: real -> real) {
    && (forall d: real :: power(d) == power(-d))
    && forall a: real, b: real :: AbsReal(a) < AbsReal(b) && AbsReal(a) < 1.0 ==> power(a) > power(b)
  }

  /** The power of a code's correlation. */
  function PowerOf(r: Correlation): real -> real { d => Norm(r(d)) }

  function Triangle(d: real): real { if AbsReal(d) < 1.0 then 1.0 - AbsReal(d) else 0.0 }

  function Squared(x: real): real { x * x }

  lemma SquareGrows(low: real, high: real)
    requires 0.0 <= low < high
    ensures Squared(low) < Squared(high)
  {
    BothPositive(high, high - low, high * (high - low));
    NonNegative(low, high - low, low * (high - low));
  }

  lemma TriangleIsPeaked(power: real -> real)
    requires forall d :: power(d) == Squared(Triangle(d))
    ensures Peaked(power)
  {
    forall d: real
      ensures power(d) == power(-d)
    {
      assert Triangle(d) == Triangle(-d);
    }
    forall a: real, b: real | AbsReal(a) < AbsReal(b) && AbsReal(a) < 1.0
      ensures power(a) > power(b)
    {
      SquareGrows(Triangle(b), Triangle(a));
    }
  }

  lemma BpskPower(profile: Profile, root: real -> real, d: real)
    requires ValidProfile(profile) && profile.model.Bpsk?
    ensures PowerOf(CodeOf(profile, root))(d) == Squared(Triangle(d))
  {
    assert CodeOf(profile, root)(d) == Complex(Triangle(d), 0.0);
  }

  /** The power of BPSK is peaked. */
  lemma BpskIsPeaked(profile: Profile, root: real -> real)
    requires ValidProfile(profile) && profile.model.Bpsk?
    ensures Peaked(PowerOf(CodeOf(profile, root)))
  {
    var power := PowerOf(CodeOf(profile, root));
    forall d
      ensures power(d) == Squared(Triangle(d))
    {
      BpskPower(profile, root, d);
    }
    TriangleIsPeaked(power);
  }

  lemma OnePathSeen(path: Path, see: Response)
    ensures Received([path], see) == Times(path.voltage, see(path.delay))
  {
    assert Received([path][..0], see) == ZERO;
  }

  lemma OnePathPower(path: Path, r: Correlation, rate: real, x: real, chips: real, d: real, scale: real)
    returns (power: real)
    requires chips == path.delay * rate && d == x - chips && scale == Norm(path.voltage)
    ensures power == Norm(Composite([path], r, rate, x)) && power == scale * PowerOf(r)(d)
  {
    power := Norm(Composite([path], r, rate, x));
    assert Offset(x, path.delay, rate) == d;
    OnePathSeen(path, ResponseAt(r, rate, x));
    NormOfProduct(path.voltage, r(d));
  }

  /** Of two points the same distance apart around a point ahead of the peak, the first is the higher. */
  lemma EarlyAndLate(power: real -> real, half: real, ahead: real)
    requires Peaked(power) && 0.0 < half <= 1.0
    ensures ahead == 0.0 ==> power(ahead - half) == power(ahead + half)
    ensures 0.0 < ahead < 1.0 + half ==> power(ahead - half) > power(ahead + half)
    ensures -1.0 - half < ahead < 0.0 ==> power(ahead - half) < power(ahead + half)
  {
    if ahead == 0.0 {
      assert ahead - half == -(ahead + half);
    }
  }

  lemma ScaledDifference(scale: real, early: real, late: real)
    requires scale > 0.0
    ensures early > late ==> scale * early - scale * late > 0.0
    ensures early < late ==> scale * early - scale * late < 0.0
  {
    if early > late {
      BothPositive(scale, early - late, scale * (early - late));
    } else if early < late {
      BothPositive(scale, late - early, scale * (late - early));
    }
  }

  lemma DifferenceSigns(power: real -> real, half: real, ahead: real, scale: real, early: real, late: real)
    requires Peaked(power) && 0.0 < half <= 1.0 && scale > 0.0
    requires early == scale * power(ahead - half) && late == scale * power(ahead + half)
    ensures ahead == 0.0 ==> early == late
    ensures 0.0 < ahead < 1.0 + half ==> early > late
    ensures -1.0 - half < ahead < 0.0 ==> early < late
  {
    EarlyAndLate(power, half, ahead);
    ScaledDifference(scale, power(ahead - half), power(ahead + half));
  }

  lemma OnePathSides(path: Path, r: Correlation, rate: real, half: real, x: real, chips: real, ahead: real, scale: real)
    returns (early: real, late: real)
    requires chips == path.delay * rate && ahead == x - chips && scale == Norm(path.voltage)
    ensures Discriminator([path], r, rate, half, x) == early - late
    ensures early == scale * PowerOf(r)(ahead - half) && late == scale * PowerOf(r)(ahead + half)
  {
    early := OnePathPower(path, r, rate, x - half, chips, ahead - half, scale);
    late := OnePathPower(path, r, rate, x + half, chips, ahead + half, scale);
  }

  /** The discriminator rises through this offset from the path. */
  predicate Rises(discriminator: real, half: real, ahead: real) {
    && (ahead == 0.0 ==> discriminator == 0.0)
    && (0.0 < ahead < 1.0 + half ==> discriminator > 0.0)
    && (-1.0 - half < ahead < 0.0 ==> discriminator < 0.0)
  }

  /** The sides of a single path as they lie ahead of it. */
  lemma SidesRise(power: real -> real, half: real, ahead: real, scale: real, early: real, late: real, d: real)
    requires Peaked(power) && 0.0 < half <= 1.0 && scale > 0.0 && d == early - late
    requires early == scale * power(ahead - half) && late == scale * power(ahead + half)
    ensures Rises(d, half, ahead)
  {
    DifferenceSigns(power, half, ahead, scale, early, late);
  }

  /**
   A single path whose code is peaked has a discriminator that is zero at the path's delay and rises through it: a
   local code behind the path sees less early than late, one ahead of it more, up to where neither sees anything.
   */
  lemma OnePathRises(path: Path, r: Correlation, rate: real, half: real, x: real, chips: real, ahead: real)
    requires Peaked(PowerOf(r)) && path.voltage != ZERO && 0.0 < half <= 1.0
    requires chips == path.delay * rate && ahead == x - chips
    ensures Rises(Discriminator([path], r, rate, half, x), half, ahead)
  {
    var scale := Norm(path.voltage);
    NormPositive(path.voltage, scale);
    var early, late := OnePathSides(path, r, rate, half, x, chips, ahead, scale);
    SidesRise(PowerOf(r), half, ahead, scale, early, late, Discriminator([path], r, rate, half, x));
  }
}
