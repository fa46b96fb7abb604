/**
 The error branches of the urban code tracker that no reachable state can take, and the agreement between
 the root an epoch selects beforehand and the one the tracker selects itself.
 */
module UrbanProgress {
  import opened Wrappers
  import opened SimTime
  import opened Decibel
  import opened RootSelection
  import opened UrbanTracker
  import opened UrbanHistory
  import RootSearch

  // ---------- Updates that cannot fail ----------

  /** Times close enough to the start of a run for every difference to be computed. */
  predicate InEra(start: Time, t: Time) {
    Valid(start) && Valid(t) && Abs(start) <= Abs(t) && t.week - start.week <= 15249
  }

  lemma EraDifference(start: Time, a: Time, b: Time)
    requires InEra(start, a) && InEra(start, b)
    ensures Difference(a, b) == Some(Abs(a) - Abs(b))
  {
    DifferenceExact(a, b);
    EraWeeks(start, a);
    EraWeeks(start, b);
    assert Abs(a) - Abs(b) == (a.week - b.week) * WEEK + (a.tow - b.tow);
  }

  lemma EraWeeks(start: Time, t: Time)
    requires InEra(start, t)
    ensures start.week <= t.week
  {
  }

  /** The stored times the tracker will subtract from the clock all lie before it. */
  predicate Past(start: Time, s: State, now: Time) {
    && InEra(start, now)
    && InEra(start, s.since) && Abs(s.since) <= Abs(now)
    && (s.hold.above ==> InEra(start, s.hold.aboveSince) && Abs(s.hold.aboveSince) <= Abs(now))
    && (s.hold.below ==> InEra(start, s.hold.belowSince) && Abs(s.hold.belowSince) <= Abs(now))
    && (s.lock ==> InEra(start, s.timing.trackingStart) && Abs(s.timing.trackingStart) <= Abs(now))
  }

  /** Every stored time is either kept or the time of the action. */
  predicate Inherits(s: State, now: Time, t: State) {
    && (t.since == now || t.since == s.since)
    && (t.hold.above ==> t.hold.aboveSince == now || (s.hold.above && t.hold.aboveSince == s.hold.aboveSince))
    && (t.hold.below ==> t.hold.belowSince == now || (s.hold.below && t.hold.belowSince == s.hold.belowSince))
    && (t.lock ==> t.timing.trackingStart == now || (s.lock && t.timing.trackingStart == s.timing.trackingStart))
  }

  lemma EnteredInherits(c: Config, s: State, now: Time, t: State, root: Root)
    requires Inherits(s, now, t)
    ensures Inherits(s, now, Entered(c, t, now, root).state)
  {
  }

  lemma AboveInherits(c: Config, s: State, now: Time, cn0: Cn0)
    requires !s.lock
    ensures Inherits(s, now, AboveMarked(c, s.(phase := Acquiring), now, cn0))
  {
  }

  lemma ObservedInherits(s: State, now: Time, t: State, root: Root)
    requires Inherits(s, now, t)
    ensures Inherits(s, now, Observed(t, root)) && Inherits(s, now, t.(validity := NO_VALIDITY))
    ensures Inherits(s, now, Observed(t, root).(validity := NO_VALIDITY))
  {
  }

  lemma AcquiredInherits(c: Config, s: State, now: Time, input: Input)
    requires !s.lock
    ensures Inherits(s, now, Acquired(c, s, now, input).state)
  {
    var marked := AboveMarked(c, s.(phase := Acquiring), now, input.cn0);
    AboveInherits(c, s, now, input.cn0);
    match Selection(Acquisition, input.roots)
    case None => assert Acquired(c, s, now, input).state in {marked, marked.(validity := NO_VALIDITY)};
    case Some(i) =>
      var seen := Observed(marked, input.roots[i]);
      ObservedInherits(s, now, marked, input.roots[i]);
      EnteredInherits(c, s, now, seen, input.roots[i]);
      assert Acquired(c, s, now, input).state
          in {marked, seen.(validity := NO_VALIDITY), Entered(c, seen, now, input.roots[i]).state};
  }

  lemma LostInherits(s: State, now: Time, t: State, reason: LossReason)
    ensures Inherits(s, now, Lost(t, now, reason))
  {
  }

  lemma MarkedInherits(c: Config, s: State, now: Time, cn0: Cn0, root: Root)
    ensures Inherits(s, now, BelowMarked(c, Observed(s, root), now, cn0))
  {
  }

  lemma ValidatedInherits(s: State, now: Time, t: State, root: Root)
    requires Inherits(s, now, t)
    ensures Inherits(s, now, Validated(Carried(t, root), now).state)
  {
  }

  lemma KeptInherits(c: Config, s: State, now: Time, input: Input)
    ensures Inherits(s, now, Kept(c, s, now, input).state)
  {
    var step := Kept(c, s, now, input);
    match Selection(Tracked(s.dll.previousSec), input.roots)
    case None => LostInherits(s, now, s, NoStableRoot);
    case Some(i) =>
      var root := input.roots[i];
      var seen := Observed(s, root);
      var marked := BelowMarked(c, seen, now, input.cn0);
      LostInherits(s, now, seen, AbruptRootSwitch);
      LostInherits(s, now, marked, LowCn0);
      MarkedInherits(c, s, now, input.cn0, root);
      ValidatedInherits(s, now, marked, root);
      assert step.state == Lost(seen, now, AbruptRootSwitch) || step.state == marked
          || step.state == Lost(marked, now, LowCn0) || step == Validated(Carried(marked, root), now);
  }

  lemma StartedInherits(s: State, input: Input, now: Time, t: State)
    requires Inherits(Started(s, input), now, t)
    ensures Inherits(s, now, t)
  {
  }

  lemma AdvancedInherits(c: Config, s: State, now: Time, input: Input)
    requires s.lock <==> s.phase.Tracking?
    ensures Inherits(s, now, Advanced(c, s, now, input).state)
  {
    if !input.available || !s.scheduled {
    } else if s.lock {
      KeptInherits(c, s, now, input);
    } else if Compare(now, s.timing.searchReady) >= 0 {
      AcquiredInherits(c, s, now, input);
    }
  }

  lemma ClassifiedInherits(c: Config, s: State, now: Time, t: State, input: Input)
    requires Inherits(s, now, t)
    ensures Inherits(s, now, Classified(c, t, input))
  {
  }

  lemma UpdatedInherits(c: Config, s: State, now: Time, input: Input)
    requires (s.lock <==> s.phase.Tracking?) && Updated(c, s, now, input).ok
    ensures Inherits(s, now, Updated(c, s, now, input).state)
  {
    var started := Started(s, input);
    var step := Advanced(c, started, now, input);
    AdvancedInherits(c, started, now, input);
    StartedInherits(s, input, now, step.state);
    ClassifiedInherits(c, s, now, step.state, input);
  }

  lemma ApplyInherits(c: Config, s: State, a: Action)
    requires Sound(c, s) && Apply(c, s, a).Some?
    ensures Inherits(s, At(a), Apply(c, s, a).value)
  {
    if a.Update? {
      UpdatedInherits(c, s, a.at, a.input);
    }
  }

  lemma PastStep(start: Time, s: State, now: Time, t: State, at: Time)
    requires Past(start, s, now) && Inherits(s, at, t) && InEra(start, at) && Abs(now) <= Abs(at)
    ensures Past(start, t, at)
  {
  }

  /** Actions in time order, close enough to the start. */
  predicate InOrder(start: Time, acts: seq<Action>) {
    && InEra(start, start)
    && (forall k :: 0 <= k < |acts| ==> InEra(start, At(acts[k])))
    && (forall k, l :: 0 <= k < l < |acts| ==> Abs(At(acts[k])) <= Abs(At(acts[l])))
  }

  function Clock(start: Time, acts: seq<Action>, n: nat): Time
    requires n <= |acts|
  {
    if n == 0 then start else At(acts[n - 1])
  }

  lemma RunInherits(c: Config, start: Time, acts: seq<Action>, states: seq<State>, k: nat)
    requires IsRun(c, start, acts, states) && k < |acts|
    ensures Inherits(states[k], At(acts[k]), states[k + 1])
  {
    RunSound(c, start, acts, states, k);
    assert Apply(c, states[k], acts[k]) == Some(states[k + 1]);
    ApplyInherits(c, states[k], acts[k]);
  }

  lemma {:induction false} RunPast(start: Time, acts: seq<Action>, states: seq<State>, n: nat)
    requires |states| == |acts| + 1 && states[0] == ResetAt(start) && InOrder(start, acts) && n <= |acts|
    requires forall k: nat :: k < |acts| ==> Inherits(states[k], At(acts[k]), states[k + 1])
    ensures Past(start, states[n], Clock(start, acts, n))
  {
    if n > 0 {
      var last := n - 1;
      RunPast(start, acts, states, last);
      assert Inherits(states[last], At(acts[last]), states[last + 1]);
      PastStep(start, states[last], Clock(start, acts, last), states[n], At(acts[last]));
    }
  }

  /** An update the simulator may ask for: usable input, an acquisition scheduled or pending, room for the delays. */
  predicate MayUpdate(c: Config, s: State, at: Time, input: Input) {
    && ValidConfig(c) && !input.cn0.NotUsable?
    && (input.available ==> s.scheduled || s.pending)
    && Representable(Abs(at) + c.psrDelay) && Representable(Abs(at) + c.dopplerDelay)
    && Representable(Abs(at) + c.adrDelay)
  }

  /** Every difference an update asks for can be computed, and does not come out negative. */
  predicate Elapses(s: State, at: Time) {
    && (s.hold.above ==> Forward(at, s.hold.aboveSince))
    && (s.hold.below ==> Forward(at, s.hold.belowSince))
    && (s.lock ==> Forward(at, s.timing.trackingStart))
    && Forward(at, at)
  }

  predicate Forward(at: Time, since: Time) { Difference(at, since).Some? && Difference(at, since).value >= 0 }

  lemma PastElapses(start: Time, s: State, now: Time, at: Time)
    requires Past(start, s, now) && InEra(start, at) && Abs(now) <= Abs(at)
    ensures Elapses(s, at) && Valid(at) && Compare(at, s.since) >= 0
  {
    CompareIsOrder(at, s.since);
    EraDifference(start, at, at);
    if s.lock {
      EraDifference(start, at, s.timing.trackingStart);
    }
    if s.hold.above {
      EraDifference(start, at, s.hold.aboveSince);
    }
    if s.hold.below {
      EraDifference(start, at, s.hold.belowSince);
    }
  }

  /** There is room for the three delays. */
  predicate HasRoom(c: Config, at: Time) {
    Add(at, c.psrDelay).Some? && Add(at, c.dopplerDelay).Some? && Add(at, c.adrDelay).Some?
  }

  lemma AcquiredSucceeds(c: Config, s: State, at: Time, input: Input)
    requires Elapses(s, at) && HasRoom(c, at)
    ensures Acquired(c, s, at, input).ok
  {
  }

  lemma KeptSucceeds(c: Config, s: State, at: Time, input: Input)
    requires s.lock && Elapses(s, at)
    ensures Kept(c, s, at, input).ok
  {
  }

  lemma UpdateSucceeds(c: Config, start: Time, s: State, now: Time, at: Time, input: Input)
    requires Past(start, s, now) && InEra(start, at) && Abs(now) <= Abs(at)
    requires MayUpdate(c, s, at, input)
    ensures Updated(c, s, at, input).ok
  {
    PastElapses(start, s, now, at);
    AddExact(at, c.psrDelay);
    AddExact(at, c.dopplerDelay);
    AddExact(at, c.adrDelay);
    AcquiredSucceeds(c, Started(s, input), at, input);
    if s.lock {
      KeptSucceeds(c, Started(s, input), at, input);
    }
  }

  lemma OrderBefore(start: Time, acts: seq<Action>, next: Action)
    requires InOrder(start, acts + [next])
    ensures InOrder(start, acts) && InEra(start, At(next)) && Abs(Clock(start, acts, |acts|)) <= Abs(At(next))
  {
    var (n, more) := (|acts|, acts + [next]);
    assert more[n] == next && forall k :: 0 <= k < n ==> acts[k] == more[k];
    assert InEra(start, At(more[n]));
    if n > 0 {
      assert Abs(At(more[n - 1])) <= Abs(At(more[n]));
    }
  }

  lemma PastAtEnd(c: Config, start: Time, acts: seq<Action>, states: seq<State>)
    requires IsRun(c, start, acts, states) && InOrder(start, acts)
    ensures Past(start, states[|acts|], Clock(start, acts, |acts|))
  {
    forall k: nat | k < |acts|
      ensures Inherits(states[k], At(acts[k]), states[k + 1])
    {
      RunInherits(c, start, acts, states, k);
    }
    RunPast(start, acts, states, |acts|);
  }

  /** After any run in time order, the next update cannot fail: its error branches are unreachable. */
  lemma NextUpdateSucceeds(c: Config, start: Time, acts: seq<Action>, states: seq<State>, at: Time, input: Input)
    requires IsRun(c, start, acts, states) && InOrder(start, acts + [Update(at, input)])
    requires MayUpdate(c, states[|acts|], at, input)
    ensures Updated(c, states[|acts|], at, input).ok
  {
    OrderBefore(start, acts, Update(at, input));
    PastAtEnd(c, start, acts, states);
    UpdateSucceeds(c, start, states[|acts|], Clock(start, acts, |acts|), at, input);
  }

  // ---------- The epoch around the update ----------

  datatype EpochError =
    InvalidEpoch | SearchFailed(error: RootSearch.SearchError) | NoCorrelation | TrackerFailed | Diverged

  datatype EpochResult = EpochResult(
    search: RootSearch.Search, selected: Option<nat>, cn0: Cn0, state: State, rootValid: bool, correlationValid: bool)

  /** Composite C/N0 at a code phase, which may not be computable. */
  type Composite = real -> Option<Cn0>

  function Preselected(s: State, roots: seq<Root>): Option<nat> {
    Selection(if Held(s) then Tracked(s.dll.previousSec) else Acquisition, roots)
  }

  function InputOf(direct: bool, openCn0: real, cn0: Cn0, roots: seq<Root>): Input {
    Input(true, direct, openCn0, cn0, roots)
  }

  predicate SameRoot(s: State, root: Root) {
    && s.dll.currentValid
    && s.dll.currentSec == root.phaseSec && s.dll.currentChips == root.phaseChips && s.dll.currentPower == root.power
  }

  /** The C/N0 of an epoch: that of the preselected root, or minus infinity without a stable root. */
  function EpochCn0(s: State, roots: seq<Root>, composite: Composite): Option<Cn0> {
    match Preselected(s, roots)
    case None => Some(NegativeInfinity)
    case Some(i) => composite(roots[i].phaseSec)
  }

  lemma KeptSame(c: Config, s: State, now: Time, input: Input)
    requires Kept(c, s, now, input).ok && Held(Kept(c, s, now, input).state)
    ensures Selection(Tracked(s.dll.previousSec), input.roots).Some?
    ensures SameRoot(Kept(c, s, now, input).state,
                     input.roots[Selection(Tracked(s.dll.previousSec), input.roots).value])
  {
    var i, held := KeptHolds(c, s, now, input);
    ValidatedKeeps(held, now);
  }

  lemma EnteredSame(c: Config, s: State, now: Time, root: Root)
    requires Entered(c, s, now, root).ok
    ensures SameRoot(Entered(c, s, now, root).state, root)
  {
  }

  lemma AcquiredSame(c: Config, s: State, now: Time, input: Input)
    requires !Held(s) && Acquired(c, s, now, input).ok && Held(Acquired(c, s, now, input).state)
    ensures Selection(Acquisition, input.roots).Some?
    ensures SameRoot(Acquired(c, s, now, input).state, input.roots[Selection(Acquisition, input.roots).value])
  {
    var i := Selection(Acquisition, input.roots).value;
    var seen := Observed(AboveMarked(c, s.(phase := Acquiring), now, input.cn0), input.roots[i]);
    assert Acquired(c, s, now, input) == Entered(c, seen, now, input.roots[i]);
    EnteredSame(c, seen, now, input.roots[i]);
  }

  /** From any state, a tracker in lock after an update tracks the root that the epoch preselected. */
  lemma NeverDiverges(c: Config, s: State, now: Time, input: Input)
    requires Updated(c, s, now, input).ok && Held(Updated(c, s, now, input).state)
    ensures Preselected(s, input.roots).Some?
    ensures SameRoot(Updated(c, s, now, input).state, input.roots[Preselected(s, input.roots).value])
  {
    var started := Started(s, input);
    if Held(s) {
      KeptSame(c, started, now, input);
    } else {
      AcquiredSame(c, started, now, input);
    }
  }

  /** The direct path and the first-order reflections. */
  const MAX_PATHS: nat := 5

  /** The received paths of an epoch, with the geometry of the direct one and its C/N0 in the open. */
  datatype Received = Received(direct: bool, openCn0: real, request: RootSearch.Request)

  predicate ValidEpoch(c: Config, e: Received) { |e.request.paths| <= MAX_PATHS && ValidConfig(c) }

  function RootsOf(search: RootSearch.Search): seq<Root> { if search.RootsFound? then search.roots else [] }

  datatype Epoch = Epoch(state: State, result: Result<EpochResult, EpochError>)

  /** The epoch once the roots are known. */
  function RootsTracked(c: Config, s: State, now: Time, e: Received, search: RootSearch.Search,
                        composite: Composite): Epoch
  {
    match EpochCn0(s, RootsOf(search), composite)
    case None => Epoch(s, Err(NoCorrelation))
    case Some(cn0) =>
      var step := Updated(c, s, now, InputOf(e.direct, e.openCn0, cn0, RootsOf(search)));
      var valid := step.state.dll.currentValid;
      Epoch(step.state,
            if !step.ok then Err(TrackerFailed)
            else Ok(EpochResult(search, Preselected(s, RootsOf(search)), cn0, step.state, valid,
                                Held(step.state) && valid)))
  }

  /** One epoch by value; it never ends with the tracker on another root than the one preselected. */
  ghost function EpochOf(c: Config, s: State, now: Time, e: Received, composite: Composite): Epoch {
    if !ValidEpoch(c, e) then Epoch(s, Err(InvalidEpoch))
    else match RootSearch.WithStatus(e.request)
      case Err(error) => Epoch(s, Err(SearchFailed(error)))
      case Ok(search) => RootsTracked(c, s, now, e, search, composite)
  }

  /** The tracker's share of the epoch: preselect a root, compute its C/N0, update, and compare. */
  method TrackRoots(tracker: SignalTracker, c: Config, now: Time, e: Received, search: RootSearch.Search,
                    composite: Composite)
    returns (r: Result<EpochResult, EpochError>)
    modifies tracker
    ensures Epoch(tracker.View(), r) == RootsTracked(c, old(tracker.View()), now, e, search, composite)
  {
    ghost var before := tracker.View();
    var roots := RootsOf(search);
    var mode := if tracker.phase.Tracking? && tracker.lock then Tracked(tracker.dll.previousSec) else Acquisition;
    var selected := SelectRoot(roots, mode);
    var cn0 := NegativeInfinity;
    if selected.Some? {
      var value := composite(roots[selected.value].phaseSec);
      if value == None {
        return Err(NoCorrelation);
      }
      cn0 := value.value;
    }
    var ok := tracker.Update(c, now, InputOf(e.direct, e.openCn0, cn0, roots));
    if !ok {
      return Err(TrackerFailed);
    }
    if tracker.phase.Tracking? && tracker.lock {
      NeverDiverges(c, before, now, InputOf(e.direct, e.openCn0, cn0, roots));
      if selected == None || !SameRoot(tracker.View(), roots[selected.value]) {
        assert false;
        return Err(Diverged);
      }
    }
    r := Ok(EpochResult(search, selected, cn0, tracker.View(), tracker.dll.currentValid,
                        tracker.phase.Tracking? && tracker.lock && tracker.dll.currentValid));
  }

  /** One epoch: validate, search for the roots of the received paths, and track. */
  method UpdateEpoch(tracker: SignalTracker, c: Config, now: Time, e: Received, composite: Composite)
    returns (r: Result<EpochResult, EpochError>)
    modifies tracker
    ensures Epoch(tracker.View(), r) == EpochOf(c, old(tracker.View()), now, e, composite)
  {
    if |e.request.paths| > MAX_PATHS || !ValidConfig(c) {
      return Err(InvalidEpoch);
    }
    var search := RootSearch.FindRootsWithStatus(e.request);
    if search.Err? {
      return Err(SearchFailed(search.error));
    }
    r := TrackRoots(tracker, c, now, e, search.value, composite);
  }

  /**
   After any epoch a signal in lock tracks a stable zero of that epoch's discriminator; paths that cancel, or
   whose zeros are all unstable, leave no signal in lock.
   */
  lemma LockedOnStableZero(c: Config, s: State, now: Time, e: Received, composite: Composite)
    requires EpochOf(c, s, now, e, composite).result.Ok?
    ensures var after := EpochOf(c, s, now, e, composite).state;
            Held(after) ==>
              && RootSearch.WithStatus(e.request) != Ok(RootSearch.CoherentNull)
              && after.dll.currentValid && RootSearch.StableZero(e.request, after.dll.currentChips)
  {
    var after := EpochOf(c, s, now, e, composite).state;
    if Held(after) {
      var search := RootSearch.WithStatus(e.request).value;
      var cn0 := EpochCn0(s, RootsOf(search), composite).value;
      NeverDiverges(c, s, now, InputOf(e.direct, e.openCn0, cn0, RootsOf(search)));
      RootSearch.StableRootsAreZeros(e.request, Preselected(s, RootsOf(search)).value);
    }
  }
}
