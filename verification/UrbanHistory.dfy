/** What the state of the urban code tracker says about the whole history that led to it. */
module UrbanHistory {
  import opened Wrappers
  import opened SimTime
  import opened Decibel
  import opened Reals
  import opened RootSelection
  import opened UrbanTracker

  /** The operations the simulator applies to one tracker. */
  datatype Action = Reset(at: Time) | Schedule(request: Request) | Off(at: Time) | Update(at: Time, input: Input)

  function At(a: Action): Time { if a.Schedule? then a.request.on else a.at }

  function Apply(c: Config, s: State, a: Action): Option<State> {
    match a
    case Reset(at) => Some(ResetAt(at))
    case Schedule(request) => Scheduled(c, s, request)
    case Off(at) => Some(SwitchedOff(s, at))
    case Update(at, input) => var step := Updated(c, s, at, input); if step.ok then Some(step.state) else None
  }

  /** A run: `states[j]` is the state after the first j actions, all of which succeeded. */
  predicate IsRun(c: Config, start: Time, acts: seq<Action>, states: seq<State>) {
    && |states| == |acts| + 1
    && states[0] == ResetAt(start)
    && forall k :: 0 <= k < |acts| ==> Apply(c, states[k], acts[k]) == Some(states[k + 1])
  }

  // ---------- What every state keeps ----------

  predicate TimingFits(c: Config, s: State) {
    && Add(s.timing.trackingStart, c.psrDelay) == Some(s.timing.psr)
    && Add(s.timing.trackingStart, c.dopplerDelay) == Some(s.timing.doppler)
    && Add(s.timing.trackingStart, c.adrDelay) == Some(s.timing.adr)
  }

  /** Lock is the tracking phase; only a tracker in lock has a root, valid delays, or valid measurements. */
  predicate Sound(c: Config, s: State) {
    && (s.lock <==> s.phase.Tracking?)
    && (s.lock ==>
          && s.scheduled && !s.pending && !s.hold.above
          && s.dll.previousValid && s.dll.currentValid
          && s.dll.previousSec == s.dll.currentSec && s.dll.previousChips == s.dll.currentChips
          && TimingFits(c, s))
    && (!s.lock ==> s.validity == NO_VALIDITY)
    && (s.pending ==> !s.scheduled)
    && (s.validity.psr <==> s.validity.observation)
    && (s.validity.adr <==> s.validity.carrierContinuity)
  }

  lemma LostSound(c: Config, s: State, now: Time, reason: LossReason)
    ensures Sound(c, Lost(s, now, reason))
  {
  }

  /** What a tracker in lock keeps besides its validity flags. */
  predicate Locks(c: Config, s: State) {
    && s.lock && s.phase.Tracking? && s.scheduled && !s.pending && !s.hold.above
    && s.dll.previousValid && s.dll.currentValid
    && s.dll.previousSec == s.dll.currentSec && s.dll.previousChips == s.dll.currentChips
    && TimingFits(c, s)
  }

  lemma ValidatedSound(c: Config, s: State, now: Time)
    requires Locks(c, s) && Validated(s, now).ok
    ensures Sound(c, Validated(s, now).state)
  {
  }

  lemma CarriedLocks(c: Config, s: State, now: Time, cn0: Cn0, root: Root)
    requires s.lock && s.phase.Tracking? && s.scheduled && !s.pending && !s.hold.above && TimingFits(c, s)
    ensures Locks(c, Carried(BelowMarked(c, Observed(s, root), now, cn0), root))
  {
  }

  lemma KeptSound(c: Config, s: State, now: Time, input: Input)
    requires s.lock && s.phase.Tracking? && s.scheduled && !s.pending && !s.hold.above && TimingFits(c, s)
    requires Kept(c, s, now, input).ok
    ensures Sound(c, Kept(c, s, now, input).state)
  {
    match Selection(Tracked(s.dll.previousSec), input.roots)
    case None => LostSound(c, s, now, NoStableRoot);
    case Some(i) =>
      var root := input.roots[i];
      var marked := BelowMarked(c, Observed(s, root), now, input.cn0);
      var held := Carried(marked, root);
      LostSound(c, Observed(s, root), now, AbruptRootSwitch);
      LostSound(c, marked, now, LowCn0);
      CarriedLocks(c, s, now, input.cn0, root);
      if Validated(held, now).ok {
        ValidatedSound(c, held, now);
      }
  }

  lemma EnteredSound(c: Config, s: State, now: Time, root: Root)
    requires s.scheduled && Entered(c, s, now, root).ok
    ensures Sound(c, Entered(c, s, now, root).state)
  {
  }

  lemma AcquiredSound(c: Config, s: State, now: Time, input: Input)
    requires Sound(c, s) && !s.lock && s.scheduled && Acquired(c, s, now, input).ok
    ensures Sound(c, Acquired(c, s, now, input).state)
  {
    var marked := AboveMarked(c, s.(phase := Acquiring), now, input.cn0);
    match Selection(Acquisition, input.roots)
    case None =>
    case Some(i) =>
      var seen := Observed(marked, input.roots[i]);
      if Entered(c, seen, now, input.roots[i]).ok {
        EnteredSound(c, seen, now, input.roots[i]);
      }
  }

  lemma AdvancedSound(c: Config, s: State, now: Time, input: Input)
    requires Sound(c, s) && Advanced(c, Started(s, input), now, input).ok
    ensures Sound(c, Advanced(c, Started(s, input), now, input).state)
  {
    var started := Started(s, input);
    if input.available && s.scheduled {
      if s.lock {
        KeptSound(c, started, now, input);
      } else if Acquired(c, started, now, input).ok {
        AcquiredSound(c, started, now, input);
      }
    }
  }

  lemma ApplySound(c: Config, s: State, a: Action)
    requires Sound(c, s) && Apply(c, s, a).Some?
    ensures Sound(c, Apply(c, s, a).value)
  {
    if a.Update? {
      AdvancedSound(c, s, a.at, a.input);
    }
  }

  /** A valid measurement flag implies tracking with a valid root, in every state of every run. */
  lemma {:induction false} RunSound(c: Config, start: Time, acts: seq<Action>, states: seq<State>, n: nat)
    requires IsRun(c, start, acts, states) && n <= |acts|
    ensures Sound(c, states[n])
  {
    if n > 0 {
      var last := n - 1;
      RunSound(c, start, acts, states, last);
      assert Apply(c, states[last], acts[last]) == Some(states[last + 1]);
      ApplySound(c, states[last], acts[last]);
    }
  }

  /** The measurements that are valid at a time: those whose delay after the start of tracking is over. */
  predicate ValidAt(c: Config, s: State, now: Time) {
    && (s.validity.psr <==> Abs(now) >= Abs(s.timing.trackingStart) + c.psrDelay)
    && (s.validity.doppler <==> Abs(now) >= Abs(s.timing.trackingStart) + c.dopplerDelay)
    && (s.validity.adr <==> Abs(now) >= Abs(s.timing.trackingStart) + c.adrDelay)
    && s.validity.lockTime == Abs(now) - Abs(s.timing.trackingStart)
  }

  lemma ValidatedMeaning(c: Config, s: State, now: Time)
    requires TimingFits(c, s) && Valid(now) && Validated(s, now).ok
    ensures ValidAt(c, Validated(s, now).state, now)
  {
    var t := s.timing;
    DifferenceExact(now, t.trackingStart);
    AddExact(t.trackingStart, c.psrDelay);
    AddExact(t.trackingStart, c.dopplerDelay);
    AddExact(t.trackingStart, c.adrDelay);
    CompareIsOrder(now, t.psr);
    CompareIsOrder(now, t.doppler);
    CompareIsOrder(now, t.adr);
  }

  // ---------- What one action can do ----------

  predicate AboveUpdate(c: Config, a: Action) {
    a.Update? && a.input.available && !Below(a.input.cn0, c.acquisitionThreshold)
  }

  predicate BelowUpdate(c: Config, a: Action) {
    a.Update? && a.input.available && Below(a.input.cn0, c.minimumTracking)
  }

  predicate Lasted(since: Time, now: Time, required: int) {
    Difference(now, since).Some? && Difference(now, since).value >= required
  }

  function AboveFrom(s: State, now: Time): Time { if s.hold.above then s.hold.aboveSince else now }

  function BelowFrom(s: State, now: Time): Time { if s.hold.below then s.hold.belowSince else now }

  /** An acquisition window that is open afterwards. */
  predicate Opens(c: Config, s: State, a: Action, t: State) {
    t.hold.above && t.scheduled ==>
      AboveUpdate(c, a) && s.scheduled && !s.lock && t.hold.aboveSince == AboveFrom(s, a.at)
  }

  /** A loss window that is open afterwards. */
  predicate Drains(c: Config, s: State, a: Action, t: State) {
    t.hold.below && t.lock ==> BelowUpdate(c, a) && s.lock && t.hold.belowSince == BelowFrom(s, a.at)
  }

  /** Lock gained. */
  predicate Enters(c: Config, s: State, a: Action, t: State) {
    !s.lock && t.lock ==>
      && AboveUpdate(c, a) && s.scheduled
      && Compare(a.at, s.timing.acquisitionComplete) >= 0
      && t.timing.trackingStart == a.at && t.timing.acquisitionComplete == s.timing.acquisitionComplete
      && Lasted(AboveFrom(s, a.at), a.at, c.acquisitionHold)
      && (t.event <==> s.context.Reacquisition?)
  }

  /** Lock held: the root is the best one and near the last, and the flags follow the clock. */
  ghost predicate Stays(c: Config, s: State, a: Action, t: State) {
    s.lock && t.lock ==>
      && a.Update? && a.input.available && t.timing == s.timing && !t.event
      && AbsReal(t.dll.currentChips - s.dll.currentChips) <= c.jumpThreshold
      && FollowsBest(s, a.input.roots, t)
      && ValidAt(c, t, a.at)
  }

  ghost predicate FollowsBest(s: State, roots: seq<Root>, t: State) {
    exists i: nat :: IsBest(Tracked(s.dll.currentSec), roots, i) && roots[i].phaseChips == t.dll.currentChips
                     && roots[i].phaseSec == t.dll.currentSec
  }

  /** After a loss the schedule is gone; if the signal is still there, a reacquisition is pending, ready at once. */
  predicate Lets(t: State, now: Time, available: bool) {
    && !t.scheduled && !t.dll.previousValid && !t.dll.currentValid && t.since == now
    && (if available then t.pending && t.phase.Searching? && t.context.Reacquisition? && t.timing.searchReady == now
        else !t.pending && t.phase.SignalOff?)
  }

  /** Lock lost by an update, and why. */
  ghost predicate Loses(c: Config, s: State, a: Action, t: State) {
    s.lock && !t.lock && a.Update? ==>
      Lets(t, a.at, a.input.available)
      && match t.loss
      case NoLoss => false
      case SignalUnavailable => !a.input.available
      case LowCn0 => BelowUpdate(c, a) && Lasted(BelowFrom(s, a.at), a.at, c.lossHold)
      case NoStableRoot => a.input.available && !HasStable(a.input.roots)
      case AbruptRootSwitch =>
        a.input.available
        && exists i: nat :: IsBest(Tracked(s.dll.currentSec), a.input.roots, i)
                            && AbsReal(a.input.roots[i].phaseChips - s.dll.currentChips) > c.jumpThreshold
  }

  predicate Ready(c: Config, s: State, a: Action) {
    AboveUpdate(c, a) && HasStable(a.input.roots) && Compare(a.at, s.timing.searchReady) >= 0
  }

  /** A tracker on its way to lock. */
  predicate Waits(c: Config, s: State, a: Action, t: State) {
    s.scheduled && !s.lock && Ready(c, s, a) ==>
      var since := AboveFrom(s, a.at);
      if Lasted(since, a.at, c.acquisitionHold) && Compare(a.at, s.timing.acquisitionComplete) >= 0
      then t.lock
      else !t.lock && t.scheduled && t.hold.above && t.hold.aboveSince == since && t.timing == s.timing
  }

  /** How an update in lock ends when it keeps the lock. */
  lemma KeptHolds(c: Config, s: State, now: Time, input: Input) returns (i: nat, held: State)
    requires Kept(c, s, now, input).ok && Kept(c, s, now, input).state.lock
    ensures Selection(Tracked(s.dll.previousSec), input.roots) == Some(i)
    ensures held == Carried(BelowMarked(c, Observed(s, input.roots[i]), now, input.cn0), input.roots[i])
    ensures Kept(c, s, now, input) == Validated(held, now)
    ensures s.dll.previousValid ==> AbsReal(input.roots[i].phaseChips - s.dll.previousChips) <= c.jumpThreshold
  {
    i := Selection(Tracked(s.dll.previousSec), input.roots).value;
    held := Carried(BelowMarked(c, Observed(s, input.roots[i]), now, input.cn0), input.roots[i]);
  }

  lemma ValidatedKeeps(s: State, now: Time)
    ensures Validated(s, now).state == s.(validity := Validated(s, now).state.validity)
  {
  }

  lemma KeptWindows(c: Config, s: State, now: Time, input: Input)
    requires !s.hold.above && Kept(c, s, now, input).ok
    ensures var t := Kept(c, s, now, input).state;
            && !t.hold.above
            && (t.hold.below && t.lock ==>
                  Below(input.cn0, c.minimumTracking) && t.hold.belowSince == BelowFrom(s, now))
  {
    if Kept(c, s, now, input).state.lock {
      var i, held := KeptHolds(c, s, now, input);
      ValidatedKeeps(held, now);
    }
  }

  lemma EnteredWindows(c: Config, s: State, now: Time, root: Root)
    requires Entered(c, s, now, root).ok
    ensures !Entered(c, s, now, root).state.hold.above && !Entered(c, s, now, root).state.hold.below
  {
  }

  lemma AcquiredWindows(c: Config, s: State, now: Time, input: Input)
    requires !s.lock && Acquired(c, s, now, input).ok
    ensures var t := Acquired(c, s, now, input).state;
            && (t.hold.above ==> !Below(input.cn0, c.acquisitionThreshold) && t.hold.aboveSince == AboveFrom(s, now))
            && (t.lock ==> !t.hold.below)
  {
    var marked := AboveMarked(c, s.(phase := Acquiring), now, input.cn0);
    match Selection(Acquisition, input.roots)
    case None =>
    case Some(i) =>
      var seen := Observed(marked, input.roots[i]);
      if Entered(c, seen, now, input.roots[i]).ok {
        EnteredWindows(c, seen, now, input.roots[i]);
      }
  }

  lemma StepOpens(c: Config, s: State, a: Action)
    requires Sound(c, s) && Apply(c, s, a).Some?
    ensures Opens(c, s, a, Apply(c, s, a).value)
    ensures Drains(c, s, a, Apply(c, s, a).value)
  {
    if a.Update? && a.input.available && s.scheduled {
      var started := Started(s, a.input);
      if s.lock {
        KeptWindows(c, started, a.at, a.input);
      } else if Compare(a.at, s.timing.searchReady) >= 0 {
        AcquiredWindows(c, started, a.at, a.input);
      }
    }
  }

  lemma StepEnters(c: Config, s: State, a: Action)
    requires Sound(c, s) && Apply(c, s, a).Some?
    ensures Enters(c, s, a, Apply(c, s, a).value)
  {
  }

  lemma StepStays(c: Config, s: State, a: Action)
    requires Sound(c, s) && Apply(c, s, a).Some?
    ensures Stays(c, s, a, Apply(c, s, a).value)
  {
    if a.Update? && s.lock && Apply(c, s, a).value.lock {
      KeptMeaning(c, Started(s, a.input), a.at, a.input);
    }
  }

  lemma KeptMeaning(c: Config, s: State, now: Time, input: Input)
    requires s.lock && s.dll.previousValid && TimingFits(c, s) && Valid(now)
    requires Kept(c, s, now, input).ok && Kept(c, s, now, input).state.lock
    ensures var t := Kept(c, s, now, input).state;
            && AbsReal(t.dll.currentChips - s.dll.previousChips) <= c.jumpThreshold
            && (exists i: nat :: IsBest(Tracked(s.dll.previousSec), input.roots, i)
                                 && input.roots[i].phaseChips == t.dll.currentChips
                                 && input.roots[i].phaseSec == t.dll.currentSec)
            && ValidAt(c, t, now)
  {
    var i, held := KeptHolds(c, s, now, input);
    SelectionIsBest(Tracked(s.dll.previousSec), input.roots, i);
    ValidatedKeeps(held, now);
    ValidatedMeaning(c, held, now);
  }

  /** Why an update in lock ends without it. */
  ghost predicate LosesFor(c: Config, s: State, now: Time, input: Input, reason: LossReason) {
    match reason
    case NoLoss => false
    case SignalUnavailable => false
    case LowCn0 => Below(input.cn0, c.minimumTracking) && Lasted(BelowFrom(s, now), now, c.lossHold)
    case NoStableRoot => !HasStable(input.roots)
    case AbruptRootSwitch =>
      exists i: nat :: IsBest(Tracked(s.dll.previousSec), input.roots, i)
                       && AbsReal(input.roots[i].phaseChips - s.dll.previousChips) > c.jumpThreshold
  }

  lemma KeptLoses(c: Config, s: State, now: Time, input: Input)
    requires s.lock && Kept(c, s, now, input).ok && !Kept(c, s, now, input).state.lock
    ensures LosesFor(c, s, now, input, Kept(c, s, now, input).state.loss)
    ensures Lets(Kept(c, s, now, input).state, now, true)
  {
    var mode := Tracked(s.dll.previousSec);
    SelectionFinds(mode, input.roots);
    match Selection(mode, input.roots)
    case None =>
    case Some(i) =>
      assert IsBest(mode, input.roots, i);
      ValidatedKeeps(Carried(BelowMarked(c, Observed(s, input.roots[i]), now, input.cn0), input.roots[i]), now);
  }

  lemma StepLoses(c: Config, s: State, a: Action)
    requires Sound(c, s) && Apply(c, s, a).Some?
    ensures Loses(c, s, a, Apply(c, s, a).value)
  {
    if a.Update? && s.lock && !Apply(c, s, a).value.lock {
      if a.input.available {
        UpdateLoses(c, s, a.at, a.input);
      }
    }
  }

  lemma UpdateLoses(c: Config, s: State, now: Time, input: Input)
    requires Held(s) && s.scheduled && input.available && Updated(c, s, now, input).ok
    requires !Updated(c, s, now, input).state.lock
    ensures LosesFor(c, Started(s, input), now, input, Updated(c, s, now, input).state.loss)
    ensures Lets(Updated(c, s, now, input).state, now, true)
  {
    KeptLoses(c, Started(s, input), now, input);
  }

  lemma StepWaits(c: Config, s: State, a: Action)
    requires Sound(c, s) && Apply(c, s, a).Some?
    ensures Waits(c, s, a, Apply(c, s, a).value)
  {
    if a.Update? {
      SelectionFinds(Acquisition, a.input.roots);
    }
  }

  ghost predicate Moves(c: Config, s: State, a: Action, t: State) {
    Opens(c, s, a, t) && Drains(c, s, a, t) && Enters(c, s, a, t) && Stays(c, s, a, t) && Loses(c, s, a, t)
    && Waits(c, s, a, t)
  }

  lemma StepMoves(c: Config, s: State, a: Action, t: State)
    requires Sound(c, s) && Apply(c, s, a) == Some(t)
    ensures Moves(c, s, a, t)
  {
    StepOpens(c, s, a);
    StepEnters(c, s, a);
    StepStays(c, s, a);
    StepLoses(c, s, a);
    StepWaits(c, s, a);
  }

  /** States, each reached from the one before by what one action can do. */
  ghost predicate Chain(c: Config, acts: seq<Action>, states: seq<State>) {
    && |states| == |acts| + 1
    && !states[0].lock && !states[0].scheduled
    && forall k :: 0 <= k < |acts| ==> Moves(c, states[k], acts[k], states[k + 1])
  }

  lemma RunIsChain(c: Config, start: Time, acts: seq<Action>, states: seq<State>)
    requires IsRun(c, start, acts, states)
    ensures Chain(c, acts, states)
  {
    forall k | 0 <= k < |acts|
      ensures Moves(c, states[k], acts[k], states[k + 1])
    {
      RunSound(c, start, acts, states, k);
      StepMoves(c, states[k], acts[k], states[k + 1]);
    }
  }

  // ---------- Histories ----------

  /** The acquisition timer runs from an update since which every action was an update above the threshold. */
  lemma {:induction false} AboveHistory(c: Config, acts: seq<Action>, states: seq<State>, n: nat) returns (k: nat)
    requires Chain(c, acts, states) && n <= |acts| && states[n].hold.above && states[n].scheduled
    ensures k < n && At(acts[k]) == states[n].hold.aboveSince
    ensures forall j :: k <= j < n ==> AboveUpdate(c, acts[j])
  {
    var last := n - 1;
    assert Moves(c, states[last], acts[last], states[last + 1]);
    if states[last].hold.above {
      k := AboveHistory(c, acts, states, last);
    } else {
      k := last;
    }
  }

  /** The loss timer runs from an update since which every action was an update in lock below the threshold. */
  lemma {:induction false} BelowHistory(c: Config, acts: seq<Action>, states: seq<State>, n: nat) returns (k: nat)
    requires Chain(c, acts, states) && n <= |acts| && states[n].hold.below && states[n].lock
    ensures k < n && At(acts[k]) == states[n].hold.belowSince
    ensures forall j :: k <= j < n ==> BelowUpdate(c, acts[j])
    ensures forall j :: k <= j <= n ==> states[j].lock
  {
    var last := n - 1;
    assert Moves(c, states[last], acts[last], states[last + 1]);
    if states[last].hold.below {
      k := BelowHistory(c, acts, states, last);
    } else {
      k := last;
    }
  }

  /** Updates k to m were all above the acquisition threshold, for the whole persistence. */
  predicate Qualifies(c: Config, acts: seq<Action>, k: nat, m: nat) {
    && k <= m < |acts|
    && (forall j :: k <= j <= m ==> AboveUpdate(c, acts[j]))
    && Lasted(At(acts[k]), At(acts[m]), c.acquisitionHold)
  }

  /**
   Lock was entered by an update m, at or after the end of the scheduled acquisition, closing a window of
   updates that were all above the acquisition threshold and lasted the full persistence; it has been held
   since.
   */
  lemma {:induction false} LockHistory(c: Config, acts: seq<Action>, states: seq<State>, n: nat)
    returns (k: nat, m: nat)
    requires Chain(c, acts, states) && n <= |acts| && states[n].lock
    ensures Qualifies(c, acts, k, m) && m < n
    ensures !states[m].lock && forall j :: m < j <= n ==> states[j].lock
    ensures Compare(At(acts[m]), states[m].timing.acquisitionComplete) >= 0
    ensures states[n].timing.trackingStart == At(acts[m])
  {
    var last := n - 1;
    assert Moves(c, states[last], acts[last], states[last + 1]);
    if states[last].lock {
      k, m := LockHistory(c, acts, states, last);
    } else {
      m := last;
      if states[last].hold.above {
        k := AboveHistory(c, acts, states, last);
      } else {
        k := last;
      }
    }
  }

  /** Updates k to m were all in lock and below the tracking threshold, for the whole loss persistence. */
  predicate Starves(c: Config, acts: seq<Action>, states: seq<State>, k: nat, m: nat)
    requires |states| == |acts| + 1
  {
    && k <= m < |acts|
    && (forall j :: k <= j <= m ==> BelowUpdate(c, acts[j]) && states[j].lock)
    && Lasted(At(acts[k]), At(acts[m]), c.lossHold)
  }

  /** A loss for low C/N0 closes a window of updates in lock, all below the threshold, of the full persistence. */
  lemma LossHistory(c: Config, acts: seq<Action>, states: seq<State>, m: nat) returns (k: nat)
    requires Chain(c, acts, states) && m < |acts|
    requires states[m].lock && !states[m + 1].lock && acts[m].Update? && states[m + 1].loss.LowCn0?
    ensures Starves(c, acts, states, k, m)
  {
    assert Moves(c, states[m], acts[m], states[m + 1]);
    if states[m].hold.below {
      k := BelowHistory(c, acts, states, m);
    } else {
      k := m;
    }
  }

  /** Until lock, the window stays open since its first update or before. */
  lemma {:induction false} StillWaiting(c: Config, acts: seq<Action>, states: seq<State>, a: nat, n: nat)
    requires Chain(c, acts, states) && a < n <= |acts| && states[a].scheduled
    requires forall j :: a <= j <= n ==> !states[j].lock
    requires forall j :: a <= j < n ==> Ready(c, states[a], acts[j])
    ensures states[n].scheduled && states[n].hold.above && states[n].timing == states[a].timing
    ensures states[n].hold.aboveSince == AboveFrom(states[a], At(acts[a]))
  {
    var last := n - 1;
    if last > a {
      StillWaiting(c, acts, states, a, last);
    }
    assert Ready(c, states[a], acts[last]);
    assert Moves(c, states[last], acts[last], states[last + 1]);
  }

  /**
   A scheduled tracker that sees stable roots and enough C/N0 for the whole acquisition persistence, up to
   the end of its scheduled acquisition, is in lock at some point of it.
   */
  lemma LockIsReached(c: Config, acts: seq<Action>, states: seq<State>, a: nat, m: nat) returns (j: nat)
    requires Chain(c, acts, states) && a <= m < |acts| && states[a].scheduled
    requires forall k :: a <= k <= m ==> Ready(c, states[a], acts[k])
    requires Lasted(AboveFrom(states[a], At(acts[a])), At(acts[m]), c.acquisitionHold)
    requires Compare(At(acts[m]), states[a].timing.acquisitionComplete) >= 0
    ensures a <= j <= m + 1 && states[j].lock
  {
    if k :| a <= k <= m && states[k].lock {
      j := k;
    } else {
      if a < m {
        StillWaiting(c, acts, states, a, m);
      }
      assert Moves(c, states[m], acts[m], states[m + 1]);
      j := m + 1;
    }
  }

  // ---------- When lock can begin ----------

  /** A scheduled tracker was scheduled by this action, or before, for the same end of acquisition. */
  predicate KeepsSchedule(s: State, a: Action, t: State) {
    t.scheduled && !a.Schedule? ==> s.scheduled && t.timing.acquisitionComplete == s.timing.acquisitionComplete
  }

  lemma StepKeepsSchedule(c: Config, s: State, a: Action)
    requires Apply(c, s, a).Some?
    ensures KeepsSchedule(s, a, Apply(c, s, a).value)
  {
    if a.Update? && a.input.available && s.scheduled {
      var started := Started(s, a.input);
      if Held(s) {
        KeptKeepsSchedule(c, started, a.at, a.input);
      } else {
        AcquiredKeepsSchedule(c, started, a.at, a.input);
      }
    }
  }

  lemma KeptKeepsSchedule(c: Config, s: State, now: Time, input: Input)
    ensures var t := Kept(c, s, now, input).state;
            t.scheduled ==> s.scheduled && t.timing.acquisitionComplete == s.timing.acquisitionComplete
  {
  }

  lemma AcquiredKeepsSchedule(c: Config, s: State, now: Time, input: Input)
    ensures var t := Acquired(c, s, now, input).state;
            t.scheduled ==> s.scheduled && t.timing.acquisitionComplete == s.timing.acquisitionComplete
  {
    var marked := AboveMarked(c, s.(phase := Acquiring), now, input.cn0);
    match Selection(Acquisition, input.roots)
    case None =>
    case Some(i) => EnteredKeepsSchedule(c, Observed(marked, input.roots[i]), now, input.roots[i]);
  }

  lemma EnteredKeepsSchedule(c: Config, s: State, now: Time, root: Root)
    ensures var t := Entered(c, s, now, root).state;
            t.scheduled == s.scheduled && t.timing.acquisitionComplete == s.timing.acquisitionComplete
  {
  }

  /** A scheduled tracker has been so since its last order, whose end of acquisition it still keeps. */
  lemma {:induction false} ScheduleHistory(c: Config, start: Time, acts: seq<Action>, states: seq<State>, n: nat)
    returns (j: nat)
    requires IsRun(c, start, acts, states) && n <= |acts| && states[n].scheduled
    ensures j < n && acts[j].Schedule? && Scheduled(c, states[j], acts[j].request).Some?
    ensures states[n].timing.acquisitionComplete ==
            Scheduled(c, states[j], acts[j].request).value.timing.acquisitionComplete
    ensures forall i :: j < i <= n ==> states[i].scheduled
    ensures forall i :: j < i < n ==> !acts[i].Schedule?
  {
    var last := n - 1;
    assert Apply(c, states[last], acts[last]) == Some(states[last + 1]);
    if acts[last].Schedule? {
      j := last;
    } else {
      StepKeepsSchedule(c, states[last], acts[last]);
      j := ScheduleHistory(c, start, acts, states, last);
    }
  }

  /**
   Every lock goes back to an order j: it began no earlier than the ready time that order asked for plus the delay
   drawn for it, which is at least the least delay of its context and band.
   */
  lemma LockFollowsOrder(c: Config, start: Time, acts: seq<Action>, states: seq<State>, n: nat)
    returns (j: nat, m: nat, d: Delays)
    requires IsRun(c, start, acts, states) && n <= |acts| && states[n].lock
    ensures j < m < n && acts[j].Schedule? && acts[m].Update? && !states[m].lock
    ensures forall i :: m < i <= n ==> states[i].lock
    ensures DrawsFrom(c, acts[j].request, d)
    ensures Abs(At(acts[m])) >= Abs(acts[j].request.ready) + SampleDelay(d, acts[j].request.quantile)
    ensures SampleDelay(d, acts[j].request.quantile) >= d.minimum
  {
    RunIsChain(c, start, acts, states);
    var k;
    k, m := LockHistory(c, acts, states, n);
    assert Moves(c, states[m], acts[m], states[m + 1]);
    j := ScheduleHistory(c, start, acts, states, m);
    var r := acts[j].request;
    d := BandOf(if r.context.Reacquisition? then c.reacquisitionBands else c.hotBands, r.estimate.value);
    ScheduledMeaning(c, states[j], r, d);
    assert Apply(c, states[m], acts[m]) == Some(states[m + 1]);
    CompareIsOrder(At(acts[m]), states[m].timing.acquisitionComplete);
  }

  /** Everything above, for the states the tracker really goes through. */
  lemma LockTheorem(c: Config, start: Time, acts: seq<Action>, states: seq<State>, n: nat)
    requires IsRun(c, start, acts, states) && n <= |acts|
    ensures states[n].lock <==> states[n].phase.Tracking?
    ensures states[n].validity != NO_VALIDITY ==> states[n].lock && states[n].dll.currentValid
    ensures states[n].lock ==>
              exists k: nat, m: nat ::
                Qualifies(c, acts, k, m) && m < n && states[n].timing.trackingStart == At(acts[m])
                && !states[m].lock && forall j :: m < j <= n ==> states[j].lock
  {
    RunSound(c, start, acts, states, n);
    RunIsChain(c, start, acts, states);
    if states[n].lock {
      var k, m := LockHistory(c, acts, states, n);
      assert Qualifies(c, acts, k, m);
    }
  }
}
