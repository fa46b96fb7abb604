/** Choosing one root among the stable zeros of the code discriminator. */
module RootSelection {
  import opened Wrappers
  import opened Reals

  datatype Root = Root(phaseSec: real, phaseChips: real, discriminator: real, slope: real, power: real, stable: bool)

  /** Tracked: nearest the previous phase first.  Acquisition: strongest first. */
  datatype Mode = Tracked(previous: real) | Acquisition

  predicate PreferTracked(candidate: Root, current: Root, previous: real) {
    var d, e := AbsReal(candidate.phaseSec - previous), AbsReal(current.phaseSec - previous);
    if d != e then d < e
    else if candidate.power != current.power then candidate.power > current.power
    else candidate.phaseSec < current.phaseSec
  }

  predicate PreferAcquisition(candidate: Root, current: Root) {
    var d, e := AbsReal(candidate.phaseSec), AbsReal(current.phaseSec);
    if candidate.power != current.power then candidate.power > current.power
    else if d != e then d < e
    else candidate.phaseSec < current.phaseSec
  }

  predicate Prefers(mode: Mode, candidate: Root, current: Root) {
    match mode
    case Tracked(previous) => PreferTracked(candidate, current, previous)
    case Acquisition => PreferAcquisition(candidate, current)
  }

  /** The scan over the roots, which fails when none is stable. */
  method SelectRoot(roots: seq<Root>, mode: Mode) returns (selected: Option<nat>)
    ensures selected == Selection(mode, roots)
  {
    selected := None;
    for i := 0 to |roots|
      invariant selected.Some? ==> selected.value < i
      invariant selected == Selection(mode, roots[..i])
    {
      assert roots[..i + 1][..i] == roots[..i];
      if roots[i].stable && (selected == None || Prefers(mode, roots[i], roots[selected.value])) {
        selected := Some(i);
      }
    }
    assert roots[..|roots|] == roots;
  }

  function Selection(mode: Mode, roots: seq<Root>): (selected: Option<nat>)
    ensures selected.Some? ==> selected.value < |roots| && roots[selected.value].stable
    decreases |roots|
  {
    if |roots| == 0 then None
    else
      var last := |roots| - 1;
      var selected := Selection(mode, roots[..last]);
      if roots[last].stable && (selected == None || Prefers(mode, roots[last], roots[selected.value]))
      then Some(last)
      else selected
  }

  predicate HasStable(roots: seq<Root>) { exists i :: 0 <= i < |roots| && roots[i].stable }

  /** Both preferences are strict orders whose incomparable roots agree on code phase and prompt power. */
  lemma PreferenceIsOrder(mode: Mode, a: Root, b: Root, c: Root)
    ensures !Prefers(mode, a, a)
    ensures Prefers(mode, a, b) && Prefers(mode, b, c) ==> Prefers(mode, a, c)
    ensures !Prefers(mode, a, b) && !Prefers(mode, b, c) ==> !Prefers(mode, a, c)
    ensures !Prefers(mode, a, b) && !Prefers(mode, b, a) <==> a.phaseSec == b.phaseSec && a.power == b.power
  {
  }

  /** A stable root to which no stable root is preferred, the first of those. */
  predicate IsBest(mode: Mode, roots: seq<Root>, i: nat) {
    && i < |roots| && roots[i].stable
    && (forall j :: 0 <= j < |roots| && roots[j].stable ==> !Prefers(mode, roots[j], roots[i]))
    && (forall j :: 0 <= j < i && roots[j].stable ==> Prefers(mode, roots[i], roots[j]))
  }

  lemma {:induction false} SelectionFinds(mode: Mode, roots: seq<Root>)
    ensures Selection(mode, roots).Some? <==> HasStable(roots)
    ensures Selection(mode, roots).Some? ==> IsBest(mode, roots, Selection(mode, roots).value)
    decreases |roots|
  {
    if |roots| > 0 {
      var last := |roots| - 1;
      var front := roots[..last];
      SelectionFinds(mode, front);
      if HasStable(roots) && !roots[last].stable {
        var i :| 0 <= i < |roots| && roots[i].stable;
        assert front[i].stable;
      }
      if Selection(mode, front).Some? {
        var current := front[Selection(mode, front).value];
        forall j | 0 <= j < last && roots[j].stable
          ensures Prefers(mode, roots[last], current) ==> Prefers(mode, roots[last], roots[j])
          ensures !Prefers(mode, front[j], current)
        {
          PreferenceIsOrder(mode, roots[last], front[j], current);
          PreferenceIsOrder(mode, roots[last], current, front[j]);
        }
        PreferenceIsOrder(mode, roots[last], roots[last], current);
      } else {
        assert forall j :: 0 <= j < last ==> roots[j] == front[j] && !front[j].stable;
        PreferenceIsOrder(mode, roots[last], roots[last], roots[last]);
      }
    }
  }

  /** The choice is the best root, and only that one. */
  lemma SelectionIsBest(mode: Mode, roots: seq<Root>, i: nat)
    ensures Selection(mode, roots) == Some(i) <==> IsBest(mode, roots, i)
  {
    SelectionFinds(mode, roots);
    if IsBest(mode, roots, i) {
      assert HasStable(roots);
      var k := Selection(mode, roots).value;
      assert !Prefers(mode, roots[k], roots[i]) && !Prefers(mode, roots[i], roots[k]);
    }
  }

  /** The first number is less, or they are equal and the next criterion decides. */
  predicate LessOrTied(a: real, b: real, next: bool) { a < b || (a == b && next) }

  /**
   In acquisition the strongest stable root is taken: the direct path, not a weaker reflection.  Of equally strong ones
   it is the one nearest to no delay, and of two equally near the earlier.
   */
  lemma AcquisitionTakesStrongest(roots: seq<Root>, i: nat, j: nat)
    requires Selection(Acquisition, roots) == Some(i) && j < |roots| && roots[j].stable
    ensures roots[j].power <= roots[i].power
    ensures LessOrTied(roots[j].power, roots[i].power,
                       LessOrTied(AbsReal(roots[i].phaseSec), AbsReal(roots[j].phaseSec),
                                  roots[i].phaseSec <= roots[j].phaseSec))
  {
    SelectionFinds(Acquisition, roots);
  }

  /**
   A tracked signal stays with the stable root nearest its last code phase.  Of equally near ones it takes the
   strongest, and of two equally strong the earlier.
   */
  lemma TrackingStaysNearest(previous: real, roots: seq<Root>, i: nat, j: nat)
    requires Selection(Tracked(previous), roots) == Some(i) && j < |roots| && roots[j].stable
    ensures AbsReal(roots[i].phaseSec - previous) <= AbsReal(roots[j].phaseSec - previous)
    ensures LessOrTied(AbsReal(roots[i].phaseSec - previous), AbsReal(roots[j].phaseSec - previous),
                       LessOrTied(roots[j].power, roots[i].power, roots[i].phaseSec <= roots[j].phaseSec))
  {
    SelectionFinds(Tracked(previous), roots);
  }

  /** A root is selected exactly when some root is stable, and then a stable one. */
  lemma SelectsIffStable(mode: Mode, roots: seq<Root>)
    ensures Selection(mode, roots).Some? <==> exists j :: 0 <= j < |roots| && roots[j].stable
    ensures Selection(mode, roots).Some? ==> roots[Selection(mode, roots).value].stable
  {
    SelectionFinds(mode, roots);
  }

  /** The order in which the roots are listed does not matter: the chosen code phase and power are the same. */
  lemma SelectionIgnoresOrder(mode: Mode, roots: seq<Root>, other: seq<Root>)
    requires forall r :: r in roots <==> r in other
    ensures Selection(mode, roots).Some? <==> Selection(mode, other).Some?
    ensures Selection(mode, roots).Some? ==>
              var a := roots[Selection(mode, roots).value];
              var b := other[Selection(mode, other).value];
              a.phaseSec == b.phaseSec && a.power == b.power
  {
    SelectionFinds(mode, roots);
    SelectionFinds(mode, other);
    StableBoth(roots, other);
    StableBoth(other, roots);
    if Selection(mode, roots).Some? {
      var a := roots[Selection(mode, roots).value];
      var b := other[Selection(mode, other).value];
      assert a in other && b in roots;
      PreferenceIsOrder(mode, a, b, a);
    }
  }

  lemma StableBoth(roots: seq<Root>, other: seq<Root>)
    requires forall r :: r in roots ==> r in other
    ensures HasStable(roots) ==> HasStable(other)
  {
    if i :| 0 <= i < |roots| && roots[i].stable {
      assert roots[i] in other;
    }
  }
}
