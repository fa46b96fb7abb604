/**
 Delivery of navigation records to the receiver, as functions on values.

 The truth records stand in a schedule ordered by transmit time and record index.
 A COLD receiver first aims, for each satellite and message family, at the latest
 record on the air, waits until a fragment plan for it is complete, takes that
 record and skips the earlier ones; after that it takes every record as it comes.
 A HOT or WARM receiver starts from a snapshot and takes every later record as it
 comes.  `NavReceiver` is the object that does this in place.
 */
module NavDelivery {
  import opened Wrappers
  import opened SimTime
  import opened NavPlan
  import opened NavStore

  datatype Mode = Hot | Warm | Cold

  /** What a record is delivered as: the ionosphere stream, one satellite's message family, or nothing. */
  datatype Key = NoKey | IonKey | Pair(satellite: int, family: Family)

  /**
   Everything fixed when a run starts: the truth records, the message family of
   each (as the RTKLIB taxonomy gives it), the schedule, and the satellite
   families the receiver keeps cold-start state for.
   */
  datatype Setup = Setup(
    truth: Store, families: seq<Option<Family>>, schedule: seq<nat>, pairs: seq<Key>, maxSatellite: int)

  datatype NavError = InvalidArguments | InvalidRecord | CannotLocateCopy | IodMismatch

  datatype Event = Event(epoch: Time, availability: Time, record: nat, receiverIndex: int)

  datatype Channel = Channel(acquired: bool, plan: Option<Plan>, target: int)

  datatype NavState = NavState(delivered: seq<bool>, receiver: Store, channels: seq<Channel>, log: seq<Event>)

  /** One tracker as the delivery sees it; its tracking start is a time of the simulation. */
  datatype Signal = Signal(satellite: int, id: SignalId, tracking: bool, trackingStart: ValidTime)

  datatype Epoch = Epoch(now: Time, signals: seq<Signal>)

  // ---------- The schedule ----------

  function Transmit(truth: Store, r: nat): Time
    requires r < Count(truth)
  {
    RecordAt(truth, r).transmit
  }

  /** The schedule order: transmit time first, then record index. */
  predicate Before(truth: Store, a: nat, b: nat)
    requires a < Count(truth) && b < Count(truth)
  {
    Abs(Transmit(truth, a)) < Abs(Transmit(truth, b))
    || (Abs(Transmit(truth, a)) == Abs(Transmit(truth, b)) && a < b)
  }

  ghost predicate InOrder(truth: Store, schedule: seq<nat>, i: nat, j: nat)
    requires forall k :: 0 <= k < |schedule| ==> schedule[k] < Count(truth)
  {
    i < j < |schedule| ==> Before(truth, schedule[i], schedule[j])
  }

  /** The schedule lists every record once, in the schedule order. */
  ghost predicate IsSchedule(truth: Store, schedule: seq<nat>) {
    && |schedule| == Count(truth)
    && (forall i :: 0 <= i < |schedule| ==> schedule[i] < Count(truth))
    && (forall i: nat, j: nat :: InOrder(truth, schedule, i, j))
    && (forall r: nat :: r < Count(truth) ==> r in schedule)
  }

  ghost predicate GoodSetup(setup: Setup) {
    && Typed(setup.truth)
    && |setup.families| == Count(setup.truth)
    && (forall r: nat :: r < Count(setup.truth) && RecordAt(setup.truth, r).kind.Ionosphere? ==>
        setup.families[r].None?)
    && IsSchedule(setup.truth, setup.schedule)
    && (forall c :: 0 <= c < |setup.pairs| ==> setup.pairs[c].Pair?)
    && (forall c, d :: 0 <= c < d < |setup.pairs| ==> setup.pairs[c] != setup.pairs[d])
  }

  function KeyOf(setup: Setup, r: nat): Key
    requires r < Count(setup.truth) == |setup.families|
  {
    if RecordAt(setup.truth, r).kind.Ionosphere? then IonKey
    else if setup.families[r].Some? then Pair(InfoOf(RecordAt(setup.truth, r)).satellite, setup.families[r].value)
    else NoKey
  }

  predicate Available(truth: Store, r: nat, now: Time)
    requires r < Count(truth)
  {
    Compare(Transmit(truth, r), now) <= 0
  }

  // ---------- Copying one record ----------

  datatype Applied = Applied(state: NavState, emitted: bool)

  predicate Fits(setup: Setup, st: NavState) {
    && |setup.families| == Count(setup.truth) == |st.delivered|
    && (forall i :: 0 <= i < |setup.schedule| ==> setup.schedule[i] < Count(setup.truth))
    && |st.channels| == |setup.pairs|
  }

  function Apply(
      setup: Setup, st: NavState, record: int, availability: Time, epoch: Time): (r: Result<Applied, NavError>)
    requires Fits(setup, st)
    ensures r.Ok? ==> Fits(setup, r.value.state) && r.value.state.channels == st.channels
  {
    if !Valid(availability) || record < 0 || record >= |st.delivered| then Err(InvalidArguments)
    else if st.delivered[record] then Ok(Applied(st, false))
    else
      var after := CopyRecord(setup.truth, record, st.receiver);
      var index := FindLast(after, InfoOf(RecordAt(setup.truth, record)), Count(after));
      if index < 0 then Err(CannotLocateCopy)
      else
        Ok(Applied(st.(delivered := st.delivered[record := true],
                       receiver := after,
                       log := st.log + [Event(epoch, availability, record, index)]), true))
  }

  // ---------- Taking records as they come ----------

  predicate AnyTracking(e: Epoch) {
    exists v | v in e.signals :: v.tracking
  }

  predicate FamilyTracking(e: Epoch, key: Key)
    requires key.Pair?
  {
    exists v | v in e.signals :: v.tracking && v.satellite == key.satellite && FamilyOf(v.id) == key.family
  }

  /** The streams a HOT or WARM receiver takes at this epoch. */
  function ReceivableKeys(e: Epoch): set<Key> {
    (if AnyTracking(e) then {IonKey} else {})
    + set v | v in e.signals && v.tracking :: Pair(v.satellite, FamilyOf(v.id))
  }

  /** Copy the record at schedule position i if it is wanted and not delivered yet. */
  function StreamOne(setup: Setup, st: NavState, now: Time, want: set<Key>, i: nat): (r: Result<NavState, NavError>)
    requires Fits(setup, st) && i < |setup.schedule|
    ensures r.Ok? ==> Fits(setup, r.value) && r.value.channels == st.channels
  {
    var r := setup.schedule[i];
    if KeyOf(setup, r) in want && !st.delivered[r] then
      match Apply(setup, st, r, now, now)
      case Err(error) => Err(error)
      case Ok(applied) => Ok(applied.state)
    else Ok(st)
  }

  /** Walk the schedule from position i, up to the first record not yet transmitted, copying what is wanted. */
  function Stream(setup: Setup, st: NavState, now: Time, want: set<Key>, i: nat): (r: Result<NavState, NavError>)
    requires Fits(setup, st) && i <= |setup.schedule|
    ensures r.Ok? ==> Fits(setup, r.value) && r.value.channels == st.channels
    decreases |setup.schedule| - i
  {
    if i == |setup.schedule| || !Available(setup.truth, setup.schedule[i], now) then Ok(st)
    else
      match StreamOne(setup, st, now, want, i)
      case Err(error) => Err(error)
      case Ok(next) => Stream(setup, next, now, want, i + 1)
  }

  // ---------- A cold start ----------

  /** The last available undelivered record of the key at or after schedule position i. */
  function LatestTarget(setup: Setup, st: NavState, key: Key, now: Time, i: nat): (r: Option<nat>)
    requires Fits(setup, st) && i <= |setup.schedule|
    ensures r.Some? ==> r.value < Count(setup.truth) && KeyOf(setup, r.value) == key
                        && Available(setup.truth, r.value, now) && !st.delivered[r.value]
    decreases |setup.schedule| - i
  {
    if i == |setup.schedule| || !Available(setup.truth, setup.schedule[i], now) then None
    else
      match LatestTarget(setup, st, key, now, i + 1)
      case Some(r) => Some(r)
      case None =>
        var r := setup.schedule[i];
        if KeyOf(setup, r) == key && !st.delivered[r] then Some(r) else None
  }

  function VariantFor(setup: Setup, key: Key, target: nat): Variant
    requires target < Count(setup.truth) && key.Pair?
  {
    if !key.family.BeidouD1D2? then Default
    else if InfoOf(RecordAt(setup.truth, target)).prn <= 5 then BeidouD2 else BeidouD1
  }

  /** The plan one signal offers for the target, if it is tracking and carries the family. */
  function Candidate(setup: Setup, v: Signal, key: Key, target: nat): Option<Plan>
    requires target < Count(setup.truth) && key.Pair?
  {
    if v.satellite != key.satellite || FamilyOf(v.id) != key.family || !v.tracking then None
    else
      var transmit := Transmit(setup.truth, target);
      var acquisition := if Compare(v.trackingStart, transmit) > 0 then v.trackingStart else transmit;
      PlanFor(v.id, VariantFor(setup, key, target), acquisition, InfoOf(RecordAt(setup.truth, target)).iode)
  }

  /** The plan available earlier, the first one on ties. */
  function BetterPlan(best: Option<Plan>, candidate: Option<Plan>): Option<Plan> {
    if candidate.None? then best
    else if best.None? || Compare(candidate.value.availability, best.value.availability) < 0 then candidate
    else best
  }

  /** The plans the signals offer, in their order. */
  function Candidates(setup: Setup, signals: seq<Signal>, key: Key, target: nat): (r: seq<Option<Plan>>)
    requires target < Count(setup.truth) && key.Pair?
    ensures |r| == |signals|
  {
    seq(|signals|, i requires 0 <= i < |signals| => Candidate(setup, signals[i], key, target))
  }

  /** The best of some offered plans. */
  function BestPlan(candidates: seq<Option<Plan>>): Option<Plan> {
    if candidates == [] then None
    else BetterPlan(BestPlan(candidates[..|candidates| - 1]), candidates[|candidates| - 1])
  }

  /** Deliver the target of a plan once all its fragments are in. */
  function Deliver(setup: Setup, st: NavState, plan: Plan, target: int, now: Time): (r: Result<Applied, NavError>)
    requires Fits(setup, st)
    ensures r.Ok? ==> Fits(setup, r.value.state) && r.value.state.channels == st.channels
  {
    if target < 0 || !Valid(now) then Err(InvalidArguments)
    else if !Complete(plan, now) then Ok(Applied(st, false))
    else if target >= Count(setup.truth) then Err(InvalidRecord)
    else if RecordAt(setup.truth, target).kind.Ionosphere?
            || InfoOf(RecordAt(setup.truth, target)).iode != plan.issueData then Err(IodMismatch)
    else Apply(setup, st, target, plan.availability, now)
  }

  /** Mark the other records of the target's key transmitted no later than it, from schedule position i on. */
  function Suppress(setup: Setup, st: NavState, target: nat, i: nat): (r: NavState)
    requires Fits(setup, st) && target < Count(setup.truth) && i <= |setup.schedule|
    ensures Fits(setup, r) && r.channels == st.channels && r.log == st.log && r.receiver == st.receiver
    decreases |setup.schedule| - i
  {
    if i == |setup.schedule|
    || Compare(Transmit(setup.truth, setup.schedule[i]), Transmit(setup.truth, target)) > 0 then st
    else
      var r := setup.schedule[i];
      if r != target && KeyOf(setup, target).Pair? && KeyOf(setup, r) == KeyOf(setup, target) && !st.delivered[r]
      then Suppress(setup, st.(delivered := st.delivered[r := true]), target, i + 1)
      else Suppress(setup, st, target, i + 1)
  }

  /** The plan a channel holds after being offered a candidate for a target. */
  function Retarget(channel: Channel, target: nat, candidate: Plan): Channel {
    if channel.plan.None? || channel.target != target
       || Compare(candidate.availability, channel.plan.value.availability) < 0
    then channel.(plan := Some(candidate), target := target)
    else channel
  }

  /** Try to deliver the target a channel is aimed at; if that succeeds, mark the earlier ones and start streaming. */
  function Fire(
      setup: Setup, st: NavState, now: Time, c: nat, target: nat, aimed: Channel): (r: Result<NavState, NavError>)
    requires Fits(setup, st) && c < |setup.pairs| && target < Count(setup.truth) && aimed.plan.Some?
    ensures r.Ok? ==> Fits(setup, r.value)
  {
    match Deliver(setup, st.(channels := st.channels[c := aimed]), aimed.plan.value, aimed.target, now)
    case Err(error) => Err(error)
    case Ok(applied) =>
      if !applied.emitted then Ok(applied.state)
      else
        var st2 := Suppress(setup, applied.state, target, 0);
        Ok(st2.(channels := st2.channels[c := aimed.(acquired := true, plan := None)]))
  }

  function ColdChannel(setup: Setup, st: NavState, e: Epoch, c: nat): (r: Result<NavState, NavError>)
    requires Fits(setup, st) && c < |setup.pairs| && setup.pairs[c].Pair?
    ensures r.Ok? ==> Fits(setup, r.value)
  {
    var key, channel := setup.pairs[c], st.channels[c];
    if channel.acquired then
      if FamilyTracking(e, key) then Stream(setup, st, e.now, {key}, 0) else Ok(st)
    else
      match LatestTarget(setup, st, key, e.now, 0)
      case None => Ok(st)
      case Some(target) =>
        match BestPlan(Candidates(setup, e.signals, key, target))
        case None => Ok(st)
        case Some(candidate) => Fire(setup, st, e.now, c, target, Retarget(channel, target, candidate))
  }

  /** The channels from c on, in order. */
  function ColdChannels(setup: Setup, st: NavState, e: Epoch, c: nat): (r: Result<NavState, NavError>)
    requires Fits(setup, st) && c <= |setup.pairs|
    requires forall d :: 0 <= d < |setup.pairs| ==> setup.pairs[d].Pair?
    ensures r.Ok? ==> Fits(setup, r.value)
    decreases |setup.pairs| - c
  {
    if c == |setup.pairs| then Ok(st)
    else
      match ColdChannel(setup, st, e, c)
      case Err(error) => Err(error)
      case Ok(next) => ColdChannels(setup, next, e, c + 1)
  }

  function IonStep(setup: Setup, st: NavState, e: Epoch): (r: Result<NavState, NavError>)
    requires Fits(setup, st)
    ensures r.Ok? ==> Fits(setup, r.value)
  {
    if AnyTracking(e) then Stream(setup, st, e.now, {IonKey}, 0) else Ok(st)
  }

  // ---------- Steps and runs ----------

  /** One epoch. */
  function Step(setup: Setup, mode: Mode, st: NavState, e: Epoch): (r: Result<NavState, NavError>)
    requires Fits(setup, st)
    requires forall d :: 0 <= d < |setup.pairs| ==> setup.pairs[d].Pair?
    ensures r.Ok? ==> Fits(setup, r.value)
  {
    if mode.Cold? then
      match IonStep(setup, st, e)
      case Err(error) => Err(error)
      case Ok(next) => ColdChannels(setup, next, e, 0)
    else Stream(setup, st, e.now, ReceivableKeys(e), 0)
  }

  /** Switching the receiver on. */
  function PowerOn(setup: Setup, mode: Mode, at: Time): (st: NavState)
    requires |setup.families| == Count(setup.truth)
    requires forall i :: 0 <= i < |setup.schedule| ==> setup.schedule[i] < Count(setup.truth)
    ensures Fits(setup, st) && st.log == []
  {
    var channels := seq(|setup.pairs|, _ => Channel(false, None, -1));
    if mode.Cold? then
      NavState(seq(Count(setup.truth), _ => false), EMPTY, channels, [])
    else
      NavState(seq(Count(setup.truth), r requires 0 <= r < Count(setup.truth) => Available(setup.truth, r, at)),
               Snapshot(setup.truth, at, setup.maxSatellite), channels, [])
  }

  /** All epochs of one power-on period, in order. */
  function Run(setup: Setup, mode: Mode, st: NavState, epochs: seq<Epoch>): (r: Result<NavState, NavError>)
    requires Fits(setup, st)
    requires forall d :: 0 <= d < |setup.pairs| ==> setup.pairs[d].Pair?
    ensures r.Ok? ==> Fits(setup, r.value)
  {
    if epochs == [] then Ok(st)
    else
      match Run(setup, mode, st, epochs[..|epochs| - 1])
      case Err(error) => Err(error)
      case Ok(before) => Step(setup, mode, before, epochs[|epochs| - 1])
  }
}
