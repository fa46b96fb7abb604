/** Where everything a run delivers comes from: what was there at power-on, who was heard, and since when. */
module NavSources {
  import opened Wrappers
  import opened SimTime
  import opened NavPlan
  import opened NavStore
  import opened NavDelivery
  import opened NavDeliveryTheorems
  import opened NavRuns

  // ---------- Power-on ----------

  /** The list holds the latest record of each key, each once. */
  ghost predicate HoldsLatest(records: seq<Record>, held: seq<Record>, at: Time, maxSatellite: int) {
    exists taken: seq<nat> ::
      KeepsLatest(records, |records|, taken, at, maxSatellite) && held == Pick(records, taken)
  }

  /** The list holds the available records, each once, in their order. */
  ghost predicate HoldsAvailable(records: seq<Record>, held: seq<Record>, at: Time) {
    exists taken: seq<nat> :: TakesAvailable(records, taken, at) && held == Pick(records, taken)
  }

  /** A HOT or WARM receiver has all that was transmitted, the latest of each key in its store; a COLD one nothing. */
  ghost predicate SwitchedOn(setup: Setup, mode: Mode, at: Time, st: NavState) {
    && |st.delivered| == Count(setup.truth)
    && (forall r: nat :: r < Count(setup.truth) ==>
          (st.delivered[r] <==> !mode.Cold? && Abs(Transmit(setup.truth, r)) <= Abs(at)))
    && (mode.Cold? ==> Count(st.receiver) == 0)
    && (!mode.Cold? ==>
          && HoldsLatest(setup.truth.eph, st.receiver.eph, at, setup.maxSatellite)
          && HoldsLatest(setup.truth.geph, st.receiver.geph, at, setup.maxSatellite)
          && HoldsAvailable(setup.truth.ion, st.receiver.ion, at))
    && st.log == [] && |st.channels| == |setup.pairs|
    && forall c :: 0 <= c < |st.channels| ==> !st.channels[c].acquired && st.channels[c].plan.None?
  }

  lemma PowerOnMeaning(setup: Setup, mode: Mode, at: Time)
    requires GoodSetup(setup) && Valid(at)
    ensures SwitchedOn(setup, mode, at, PowerOn(setup, mode, at))
  {
    forall r: nat | r < Count(setup.truth)
      ensures Available(setup.truth, r, at) <==> Abs(Transmit(setup.truth, r)) <= Abs(at)
    {
      AvailableIsByTime(setup.truth, r, at);
    }
    var (eph, geph) := (setup.truth.eph, setup.truth.geph);
    SnapshotIsLatestPerKey(eph, |eph|, at, setup.maxSatellite);
    SnapshotIsLatestPerKey(geph, |geph|, at, setup.maxSatellite);
    var taken := AvailableOnlyInOrder(setup.truth.ion, at);
  }

  // ---------- One epoch ----------

  /** Whatever is newly delivered is on the air, and its stream is heard at this very epoch. */
  lemma DeliversOnlyHeard(setup: Setup, mode: Mode, start: Store, st: NavState, e: Epoch, r: nat)
    requires GoodSetup(setup) && Inv(setup, mode, start, st) && Valid(e.now)
    requires Step(setup, mode, st, e).Ok? && r < Count(setup.truth)
    requires Step(setup, mode, st, e).value.delivered[r] && !st.delivered[r]
    ensures Heard(e, KeyOf(setup, r)) && Available(setup.truth, r, e.now)
  {
    var after := Step(setup, mode, st, e).value;
    if mode.Cold? {
      ColdStep(setup, start, st, e);
      if KeyOf(setup, r) != IonKey {
        assert !Unpaired(setup, r);
        var d :| 0 <= d < |setup.pairs| && KeyOf(setup, r) == setup.pairs[d];
        ChannelDeliversHeard(setup, st, after, e, d, r);
      }
    } else {
      NormalStep(setup, mode, start, st, e);
      assert Streams(setup, st, after, e, KeyOf(setup, r));
    }
  }

  /** A channel that delivers something streams it, or has just acquired. */
  lemma ChannelDelivers(setup: Setup, st: NavState, after: NavState, e: Epoch, d: nat, r: nat) returns (t: nat, at: int)
    requires GoodSetup(setup) && Fits(setup, st) && Fits(setup, after) && Valid(e.now) && d < |setup.pairs|
    requires ChannelOutcome(setup, st, after, e, d) && !st.channels[d].acquired
    requires OfStream(setup, setup.pairs[d], r) && after.delivered[r] && !st.delivered[r]
    ensures t < Count(setup.truth) && AcquiresAt(setup, st, after, d, t, at)
    ensures Aims(setup, st.delivered, st.channels[d], e, setup.pairs[d], t, at) && at <= Abs(e.now)
  {
    assert !SameChannel(setup, st, after, d);
    t, at :| Aims(setup, st.delivered, st.channels[d], e, setup.pairs[d], t, at);
  }

  lemma ChannelDeliversHeard(setup: Setup, st: NavState, after: NavState, e: Epoch, d: nat, r: nat)
    requires GoodSetup(setup) && Fits(setup, st) && Fits(setup, after) && Valid(e.now) && d < |setup.pairs|
    requires ChannelOutcome(setup, st, after, e, d)
    requires OfStream(setup, setup.pairs[d], r) && after.delivered[r] && !st.delivered[r]
    ensures Heard(e, setup.pairs[d]) && Available(setup.truth, r, e.now)
  {
    if !st.channels[d].acquired {
      var t, at := ChannelDelivers(setup, st, after, e, d, r);
      OfferedIsHeard(setup, e, setup.pairs[d], t);
      if r != t {
        AvailableBefore(setup.truth, r, t, e.now);
      }
    }
  }

  lemma OfferedIsHeard(setup: Setup, e: Epoch, key: Key, t: nat)
    requires t < Count(setup.truth) && key.Pair?
    requires exists at :: Offered(setup, e, key, t, at)
    ensures Heard(e, key)
  {
    var at :| Offered(setup, e, key, t, at);
    var v :| v in e.signals && HearsAll(setup, v, key, t, at);
  }

  // ---------- Whole runs ----------

  /** At some epoch a tracking signal of the family had, or would have, heard all of the record by this instant. */
  ghost predicate Promised(setup: Setup, epochs: seq<Epoch>, key: Key, t: nat, at: int)
    requires t < Count(setup.truth) && key.Pair?
  {
    exists k :: 0 <= k < |epochs| && Offered(setup, epochs[k], key, t, at)
  }

  /** At some epoch the record was on the air and its stream heard. */
  ghost predicate HeardDuring(setup: Setup, epochs: seq<Epoch>, r: nat)
    requires r < Count(setup.truth) == |setup.families|
  {
    exists k :: 0 <= k < |epochs| && Heard(epochs[k], KeyOf(setup, r)) && Available(setup.truth, r, epochs[k].now)
  }

  /** The stream is heard at the epoch that announces the record. */
  ghost predicate AnnouncedHeard(setup: Setup, epochs: seq<Epoch>, ev: Event)
    requires ev.record < Count(setup.truth) == |setup.families|
  {
    exists k :: 0 <= k < |epochs| && epochs[k].now == ev.epoch && Heard(epochs[k], KeyOf(setup, ev.record))
  }

  ghost predicate FirstOfStream(setup: Setup, log: seq<Event>, i: nat)
    requires i < |log| && log[i].record < Count(setup.truth) == |setup.families|
  {
    forall j :: 0 <= j < i ==> !OfStream(setup, KeyOf(setup, log[i].record), log[j].record)
  }

  /**
   An event announces a record the receiver did not have at power-on, at an epoch at which its stream is heard.  The
   first of a stream of a cold receiver is available when the promised plan was; every other one at once.
   */
  ghost predicate Sourced(
    setup: Setup, mode: Mode, had: seq<bool>, epochs: seq<Epoch>, log: seq<Event>, i: nat)
    requires i < |log| && |had| == Count(setup.truth) == |setup.families|
  {
    var ev := log[i];
    && ev.record < Count(setup.truth) && !had[ev.record]
    && AnnouncedHeard(setup, epochs, ev)
    && if mode.Cold? && KeyOf(setup, ev.record).Pair? && FirstOfStream(setup, log, i)
       then Promised(setup, epochs, KeyOf(setup, ev.record), ev.record, Abs(ev.availability))
       else ev.availability == ev.epoch
  }

  /** The plan a channel holds was promised by a signal of some epoch of the run. */
  ghost predicate PlansPromised(setup: Setup, epochs: seq<Epoch>, st: NavState)
    requires Fits(setup, st) && forall d :: 0 <= d < |setup.pairs| ==> setup.pairs[d].Pair?
  {
    forall c :: 0 <= c < |setup.pairs| && st.channels[c].plan.Some? ==>
      && 0 <= st.channels[c].target < Count(setup.truth)
      && Promised(setup, epochs, setup.pairs[c], st.channels[c].target, Abs(st.channels[c].plan.value.availability))
  }

  ghost predicate RunSourced(setup: Setup, mode: Mode, had: seq<bool>, epochs: seq<Epoch>, st: NavState)
    requires GoodSetup(setup) && |had| == Count(setup.truth)
  {
    && Fits(setup, st)
    && PlansPromised(setup, epochs, st)
    && (forall i: nat :: i < |st.log| ==> Sourced(setup, mode, had, epochs, st.log, i))
    && (forall r: nat :: r < Count(setup.truth) && st.delivered[r] ==> had[r] || HeardDuring(setup, epochs, r))
    && (forall r: nat :: r < Count(setup.truth) && had[r] ==> st.delivered[r])
  }

  /** What the step that logs an event says of it: promised by a plan held or offered now, or available at once. */
  ghost predicate StepSourced(setup: Setup, mode: Mode, st: NavState, e: Epoch, log: seq<Event>, i: nat)
    requires Fits(setup, st) && i < |log|
  {
    var ev := log[i];
    && ev.epoch == e.now && ev.record < Count(setup.truth) && !st.delivered[ev.record]
    && var key := KeyOf(setup, ev.record);
    && Heard(e, key)
    && if mode.Cold? && key.Pair? && FirstOfStream(setup, log, i) then
         || Offered(setup, e, key, ev.record, Abs(ev.availability))
         || exists c :: 0 <= c < |setup.pairs| && setup.pairs[c] == key
                        && Holds(st.channels[c], ev.record, Abs(ev.availability))
       else ev.availability == e.now
  }

  lemma NormalSourced(setup: Setup, mode: Mode, start: Store, st: NavState, e: Epoch, i: nat)
    requires GoodSetup(setup) && Inv(setup, mode, start, st) && Valid(e.now) && !mode.Cold?
    requires Step(setup, mode, st, e).Ok? && |st.log| <= i < |Step(setup, mode, st, e).value.log|
    ensures StepSourced(setup, mode, st, e, Step(setup, mode, st, e).value.log, i)
  {
    NormalStep(setup, mode, start, st, e);
    var after := Step(setup, mode, st, e).value;
    assert Announces(st.delivered, after.delivered, after.log[i], e.now);
    var r := after.log[i].record;
    assert Streams(setup, st, after, e, KeyOf(setup, r)) && OfStream(setup, KeyOf(setup, r), r);
  }

  /** The stream of an acquired channel has been copied from before. */
  lemma StreamedSourced(setup: Setup, st: NavState, after: NavState, e: Epoch, d: nat, i: nat)
    requires GoodSetup(setup) && Fits(setup, st) && Fits(setup, after) && d < |setup.pairs|
    requires LoggedAt(st, after, e.now) && ChannelOutcome(setup, st, after, e, d) && st.channels[d].acquired
    requires HasAcquired(setup, st, d)
    requires |st.log| <= i < |after.log| && OfStream(setup, setup.pairs[d], after.log[i].record)
    ensures StepSourced(setup, Cold, st, e, after.log, i)
  {
    assert Announces(st.delivered, after.delivered, after.log[i], e.now);
    var r: nat :| r < Count(setup.truth) && KeyOf(setup, r) == setup.pairs[d] && Copied(st.log, r);
    var j :| 0 <= j < |st.log| && st.log[j].record == r;
    assert after.log[j] == st.log[j];
    assert !FirstOfStream(setup, after.log, i);
  }

  /** A searching channel has logged nothing before. */
  lemma AcquiringIsFirst(setup: Setup, start: Store, st: NavState, after: NavState, d: nat, i: nat, t: nat, at: int)
    requires GoodSetup(setup) && Inv(setup, Cold, start, st) && Inv(setup, Cold, start, after) && d < |setup.pairs|
    requires !st.channels[d].acquired && st.log <= after.log && t < Count(setup.truth)
    requires AcquiresAt(setup, st, after, d, t, at)
    requires |st.log| <= i < |after.log| && OfStream(setup, setup.pairs[d], after.log[i].record)
    ensures FirstOfStream(setup, after.log, i)
  {
    assert ChannelFits(setup, st.delivered, setup.pairs[d], st.channels[d]);
    forall j | 0 <= j < i
      ensures !OfStream(setup, setup.pairs[d], after.log[j].record)
    {
      if j < |st.log| {
        assert after.log[j] == st.log[j];
      } else {
        assert after.log[j].record != after.log[i].record;
      }
    }
  }

  lemma AcquiredSourced(setup: Setup, start: Store, st: NavState, after: NavState, e: Epoch, d: nat, i: nat)
    requires GoodSetup(setup) && Inv(setup, Cold, start, st) && Inv(setup, Cold, start, after) && d < |setup.pairs|
    requires Valid(e.now) && LoggedAt(st, after, e.now) && ChannelOutcome(setup, st, after, e, d)
    requires !st.channels[d].acquired
    requires |st.log| <= i < |after.log| && OfStream(setup, setup.pairs[d], after.log[i].record)
    ensures StepSourced(setup, Cold, st, e, after.log, i)
  {
    var r := after.log[i].record;
    assert Announces(st.delivered, after.delivered, after.log[i], e.now);
    var t, at := ChannelDelivers(setup, st, after, e, d, r);
    AcquiringIsFirst(setup, start, st, after, d, i, t, at);
    OfferedIsHeard(setup, e, setup.pairs[d], t);
    assert Holds(st.channels[d], t, at) || Offered(setup, e, setup.pairs[d], t, at);
  }

  lemma ColdSourced(setup: Setup, start: Store, st: NavState, e: Epoch, i: nat)
    requires GoodSetup(setup) && Inv(setup, Cold, start, st) && Valid(e.now)
    requires forall c: nat :: c < |setup.pairs| && st.channels[c].acquired ==> HasAcquired(setup, st, c)
    requires Step(setup, Cold, st, e).Ok? && |st.log| <= i < |Step(setup, Cold, st, e).value.log|
    ensures StepSourced(setup, Cold, st, e, Step(setup, Cold, st, e).value.log, i)
  {
    ColdStep(setup, start, st, e);
    var after := Step(setup, Cold, st, e).value;
    assert Announces(st.delivered, after.delivered, after.log[i], e.now);
    var r := after.log[i].record;
    if KeyOf(setup, r) == IonKey {
      assert OfStream(setup, IonKey, r);
    } else {
      assert !Unpaired(setup, r);
      var d :| 0 <= d < |setup.pairs| && KeyOf(setup, r) == setup.pairs[d];
      assert OfStream(setup, setup.pairs[d], r);
      assert ChannelOutcome(setup, st, after, e, d);
      if st.channels[d].acquired {
        StreamedSourced(setup, st, after, e, d, i);
      } else {
        AcquiredSourced(setup, start, st, after, e, d, i);
      }
    }
  }

  // ---------- From epoch to epoch ----------

  lemma PromisedMore(setup: Setup, epochs: seq<Epoch>, key: Key, t: nat, at: int)
    requires t < Count(setup.truth) && key.Pair? && epochs != []
    requires Promised(setup, epochs[..|epochs| - 1], key, t, at) || Offered(setup, epochs[|epochs| - 1], key, t, at)
    ensures Promised(setup, epochs, key, t, at)
  {
    if Promised(setup, epochs[..|epochs| - 1], key, t, at) {
      var k :| 0 <= k < |epochs| - 1 && Offered(setup, epochs[..|epochs| - 1][k], key, t, at);
      assert Offered(setup, epochs[k], key, t, at);
    }
  }

  /** The plan a channel holds after an epoch is the one it held, or one offered at that epoch. */
  lemma PlansStayPromised(setup: Setup, mode: Mode, start: Store, epochs: seq<Epoch>, st: NavState)
    requires GoodSetup(setup) && epochs != [] && Valid(epochs[|epochs| - 1].now)
    requires Inv(setup, mode, start, st) && PlansPromised(setup, epochs[..|epochs| - 1], st)
    requires Step(setup, mode, st, epochs[|epochs| - 1]).Ok?
    ensures PlansPromised(setup, epochs, Step(setup, mode, st, epochs[|epochs| - 1]).value)
  {
    var e := epochs[|epochs| - 1];
    var after := Step(setup, mode, st, e).value;
    if mode.Cold? {
      ColdStep(setup, start, st, e);
    } else {
      NormalStep(setup, mode, start, st, e);
    }
    forall c | 0 <= c < |setup.pairs| && after.channels[c].plan.Some?
      ensures 0 <= after.channels[c].target < Count(setup.truth)
      ensures Promised(setup, epochs, setup.pairs[c], after.channels[c].target,
                       Abs(after.channels[c].plan.value.availability))
    {
      if mode.Cold? && after.channels[c] != st.channels[c] {
        PlanIsNew(setup, st, after, e, c);
      }
      PromisedMore(setup, epochs, setup.pairs[c], after.channels[c].target,
                   Abs(after.channels[c].plan.value.availability));
    }
  }

  lemma PlanIsNew(setup: Setup, st: NavState, after: NavState, e: Epoch, c: nat)
    requires GoodSetup(setup) && Fits(setup, st) && Fits(setup, after) && c < |setup.pairs|
    requires ChannelOutcome(setup, st, after, e, c)
    requires after.channels[c] != st.channels[c] && after.channels[c].plan.Some?
    ensures 0 <= after.channels[c].target < Count(setup.truth)
    ensures Offered(setup, e, setup.pairs[c], after.channels[c].target,
                    Abs(after.channels[c].plan.value.availability))
  {
    assert !SameChannel(setup, st, after, c);
    var t: nat, at: int :| Aims(setup, st.delivered, st.channels[c], e, setup.pairs[c], t, at);
    assert WaitsFor(setup, st, after, c, t, at);
  }

  lemma HeardDuringMore(setup: Setup, epochs: seq<Epoch>, r: nat)
    requires epochs != [] && r < Count(setup.truth) == |setup.families|
    ensures HeardDuring(setup, epochs, r) <==>
            HeardDuring(setup, epochs[..|epochs| - 1], r)
            || (Heard(epochs[|epochs| - 1], KeyOf(setup, r)) && Available(setup.truth, r, epochs[|epochs| - 1].now))
  {
    var last := |epochs| - 1;
    if HeardDuring(setup, epochs[..last], r) {
      var k :| 0 <= k < last && Heard(epochs[..last][k], KeyOf(setup, r))
               && Available(setup.truth, r, epochs[..last][k].now);
      assert Heard(epochs[k], KeyOf(setup, r)) && Available(setup.truth, r, epochs[k].now);
    }
    if HeardDuring(setup, epochs, r) {
      var k :| 0 <= k < |epochs| && Heard(epochs[k], KeyOf(setup, r)) && Available(setup.truth, r, epochs[k].now);
      assert k < last ==> epochs[..last][k] == epochs[k];
    }
  }

  lemma OldEventSourced(setup: Setup, mode: Mode, had: seq<bool>, epochs: seq<Epoch>, before: seq<Event>,
                        after: seq<Event>, i: nat)
    requires |had| == Count(setup.truth) == |setup.families| && epochs != []
    requires before <= after && i < |before| && Sourced(setup, mode, had, epochs[..|epochs| - 1], before, i)
    ensures Sourced(setup, mode, had, epochs, after, i)
  {
    var init := epochs[..|epochs| - 1];
    var ev := before[i];
    assert after[i] == ev;
    assert forall j :: 0 <= j < i ==> after[j] == before[j];
    var k :| 0 <= k < |init| && init[k].now == ev.epoch && Heard(init[k], KeyOf(setup, ev.record));
    assert epochs[k].now == ev.epoch && Heard(epochs[k], KeyOf(setup, ev.record));
    var key := KeyOf(setup, ev.record);
    if key.Pair? && Promised(setup, init, key, ev.record, Abs(ev.availability)) {
      PromisedMore(setup, epochs, key, ev.record, Abs(ev.availability));
    }
  }

  lemma NewEventSourced(setup: Setup, mode: Mode, had: seq<bool>, epochs: seq<Epoch>, st: NavState, log: seq<Event>,
                        i: nat)
    requires GoodSetup(setup) && |had| == Count(setup.truth) && epochs != [] && Fits(setup, st)
    requires forall r: nat :: r < Count(setup.truth) && had[r] ==> st.delivered[r]
    requires PlansPromised(setup, epochs[..|epochs| - 1], st)
    requires i < |log| && StepSourced(setup, mode, st, epochs[|epochs| - 1], log, i)
    ensures Sourced(setup, mode, had, epochs, log, i)
  {
    var (ev, e) := (log[i], epochs[|epochs| - 1]);
    var key := KeyOf(setup, ev.record);
    assert epochs[|epochs| - 1].now == ev.epoch && Heard(epochs[|epochs| - 1], key);
    if mode.Cold? && key.Pair? && FirstOfStream(setup, log, i) {
      PromisedMore(setup, epochs, key, ev.record, Abs(ev.availability));
    }
  }

  lemma {:induction false} AllHaveAcquired(setup: Setup, at: Time, epochs: seq<Epoch>)
    requires GoodSetup(setup) && Valid(at) && forall k :: 0 <= k < |epochs| ==> Valid(epochs[k].now)
    requires Run(setup, Cold, PowerOn(setup, Cold, at), epochs).Ok?
    ensures var st := Run(setup, Cold, PowerOn(setup, Cold, at), epochs).value;
            forall c: nat :: c < |setup.pairs| && st.channels[c].acquired ==> HasAcquired(setup, st, c)
  {
    var st := Run(setup, Cold, PowerOn(setup, Cold, at), epochs).value;
    forall c: nat | c < |setup.pairs| && st.channels[c].acquired
      ensures HasAcquired(setup, st, c)
    {
      AcquiringCopies(setup, at, epochs, c);
    }
  }

  lemma EventsStaySourced(setup: Setup, mode: Mode, start: Store, had: seq<bool>, epochs: seq<Epoch>, st: NavState)
    requires GoodSetup(setup) && |had| == Count(setup.truth) && epochs != [] && Valid(epochs[|epochs| - 1].now)
    requires Inv(setup, mode, start, st) && RunSourced(setup, mode, had, epochs[..|epochs| - 1], st)
    requires mode.Cold? ==>
               forall c: nat :: c < |setup.pairs| && st.channels[c].acquired ==> HasAcquired(setup, st, c)
    requires Step(setup, mode, st, epochs[|epochs| - 1]).Ok?
    requires st.log <= Step(setup, mode, st, epochs[|epochs| - 1]).value.log
    ensures var log := Step(setup, mode, st, epochs[|epochs| - 1]).value.log;
            forall i: nat :: i < |log| ==> Sourced(setup, mode, had, epochs, log, i)
  {
    var e := epochs[|epochs| - 1];
    var log := Step(setup, mode, st, e).value.log;
    forall i: nat | i < |log|
      ensures Sourced(setup, mode, had, epochs, log, i)
    {
      if i < |st.log| {
        OldEventSourced(setup, mode, had, epochs, st.log, log, i);
      } else {
        if mode.Cold? {
          ColdSourced(setup, start, st, e, i);
        } else {
          NormalSourced(setup, mode, start, st, e, i);
        }
        NewEventSourced(setup, mode, had, epochs, st, log, i);
      }
    }
  }

  lemma StepGrows(setup: Setup, mode: Mode, start: Store, st: NavState, e: Epoch)
    requires GoodSetup(setup) && Inv(setup, mode, start, st) && Valid(e.now)
    ensures Step(setup, mode, st, e).Ok? && LoggedAt(st, Step(setup, mode, st, e).value, e.now)
  {
    if mode.Cold? {
      ColdStep(setup, start, st, e);
    } else {
      NormalStep(setup, mode, start, st, e);
    }
  }

  lemma DeliveredWereHeard(
    setup: Setup, mode: Mode, start: Store, had: seq<bool>, epochs: seq<Epoch>, st: NavState, r: nat)
    requires GoodSetup(setup) && |had| == Count(setup.truth) && epochs != [] && Valid(epochs[|epochs| - 1].now)
    requires Inv(setup, mode, start, st) && RunSourced(setup, mode, had, epochs[..|epochs| - 1], st)
    requires Step(setup, mode, st, epochs[|epochs| - 1]).Ok? && r < Count(setup.truth)
    requires Step(setup, mode, st, epochs[|epochs| - 1]).value.delivered[r]
    ensures had[r] || HeardDuring(setup, epochs, r)
  {
    HeardDuringMore(setup, epochs, r);
    if !st.delivered[r] {
      DeliversOnlyHeard(setup, mode, start, st, epochs[|epochs| - 1], r);
    }
  }

  lemma StepKeepsSources(setup: Setup, mode: Mode, start: Store, had: seq<bool>, epochs: seq<Epoch>, st: NavState)
    requires GoodSetup(setup) && |had| == Count(setup.truth) && epochs != [] && Valid(epochs[|epochs| - 1].now)
    requires Inv(setup, mode, start, st) && RunSourced(setup, mode, had, epochs[..|epochs| - 1], st)
    requires mode.Cold? ==>
               forall c: nat :: c < |setup.pairs| && st.channels[c].acquired ==> HasAcquired(setup, st, c)
    ensures Step(setup, mode, st, epochs[|epochs| - 1]).Ok?
    ensures RunSourced(setup, mode, had, epochs, Step(setup, mode, st, epochs[|epochs| - 1]).value)
  {
    StepGrows(setup, mode, start, st, epochs[|epochs| - 1]);
    var after := Step(setup, mode, st, epochs[|epochs| - 1]).value;
    PlansStayPromised(setup, mode, start, epochs, st);
    EventsStaySourced(setup, mode, start, had, epochs, st);
    forall r: nat | r < Count(setup.truth) && after.delivered[r]
      ensures had[r] || HeardDuring(setup, epochs, r)
    {
      DeliveredWereHeard(setup, mode, start, had, epochs, st, r);
    }
  }

  /**
   In any run, everything delivered since power-on was on the air and heard at some epoch; every event announces, at
   an epoch at which its stream is heard, a record the receiver did not have; and what a cold channel acquires, or
   still waits for, was promised by a signal that tracked its family at some epoch.
   */
  lemma {:induction false} RunsAreSourced(setup: Setup, mode: Mode, at: Time, epochs: seq<Epoch>)
    requires GoodSetup(setup) && Valid(at) && forall k :: 0 <= k < |epochs| ==> Valid(epochs[k].now)
    ensures var start := PowerOn(setup, mode, at);
            && Run(setup, mode, start, epochs).Ok?
            && RunSourced(setup, mode, start.delivered, epochs, Run(setup, mode, start, epochs).value)
  {
    RunsAreSound(setup, mode, at, epochs);
    if epochs != [] {
      var init := epochs[..|epochs| - 1];
      RunsAreSourced(setup, mode, at, init);
      RunsAreSound(setup, mode, at, init);
      var start := PowerOn(setup, mode, at);
      var before := Run(setup, mode, start, init).value;
      if mode.Cold? {
        AllHaveAcquired(setup, at, init);
      }
      StepKeepsSources(setup, mode, start.receiver, start.delivered, epochs, before);
    }
  }

  /**
   A promise is a tracking signal's, of that satellite and family, at some epoch.  It comes true once every slot of
   the message has come round since the later of its lock and the record's transmission: no sooner than all slots
   take together, and within a cycle and the longest of them.
   */
  lemma PromiseMeaning(setup: Setup, epochs: seq<Epoch>, satellite: int, family: Family, t: nat, at: int)
    returns (k: nat, v: Signal, table: Table)
    requires t < Count(setup.truth) && Promised(setup, epochs, Pair(satellite, family), t, at)
    ensures k < |epochs| && v in epochs[k].signals
    ensures v.tracking && v.satellite == satellite && FamilyOf(v.id) == family
    ensures TableFor(v.id, VariantFor(setup, Pair(satellite, family), t)) == Some(table)
    ensures at >= Abs(v.trackingStart) + TotalDuration(table.slots)
    ensures at >= Abs(Transmit(setup.truth, t)) + TotalDuration(table.slots)
    ensures || at < Abs(v.trackingStart) + table.cycle + LongestDuration(table.slots)
            || at < Abs(Transmit(setup.truth, t)) + table.cycle + LongestDuration(table.slots)
  {
    k, v := PromisedBy(setup, epochs, Pair(satellite, family), t, at);
    table := TableFor(v.id, VariantFor(setup, Pair(satellite, family), t)).value;
    HearsAllBounds(table, ListensFrom(setup, v, t), at);
  }

  lemma PromisedBy(setup: Setup, epochs: seq<Epoch>, key: Key, t: nat, at: int) returns (k: nat, v: Signal)
    requires t < Count(setup.truth) && key.Pair? && Promised(setup, epochs, key, t, at)
    ensures k < |epochs| && v in epochs[k].signals && HearsAll(setup, v, key, t, at)
  {
    k :| k < |epochs| && Offered(setup, epochs[k], key, t, at);
    v :| v in epochs[k].signals && HearsAll(setup, v, key, t, at);
  }

  // ---------- Exactly what a run delivers ----------

  /** A HOT or WARM run ends with just what was transmitted by power-on, or heard since. */
  lemma {:induction false} NormalDelivers(setup: Setup, mode: Mode, at: Time, epochs: seq<Epoch>, r: nat)
    requires GoodSetup(setup) && Valid(at) && forall k :: 0 <= k < |epochs| ==> Valid(epochs[k].now)
    requires !mode.Cold? && r < Count(setup.truth)
    ensures Run(setup, mode, PowerOn(setup, mode, at), epochs).Ok?
    ensures Run(setup, mode, PowerOn(setup, mode, at), epochs).value.delivered[r] <==>
            Abs(Transmit(setup.truth, r)) <= Abs(at) || HeardDuring(setup, epochs, r)
  {
    RunsAreSound(setup, mode, at, epochs);
    var start := PowerOn(setup, mode, at);
    if epochs == [] {
      PowerOnMeaning(setup, mode, at);
    } else {
      var last := |epochs| - 1;
      NormalDelivers(setup, mode, at, epochs[..last], r);
      RunsAreSound(setup, mode, at, epochs[..last]);
      var before := Run(setup, mode, start, epochs[..last]).value;
      NormalStep(setup, mode, start.receiver, before, epochs[last]);
      var after := Run(setup, mode, start, epochs).value;
      assert Streams(setup, before, after, epochs[last], KeyOf(setup, r)) && OfStream(setup, KeyOf(setup, r), r);
      HeardDuringMore(setup, epochs, r);
    }
  }

  /** It copies exactly the records transmitted after power-on that it has heard, and none it had already. */
  lemma NormalCopiesIff(setup: Setup, mode: Mode, at: Time, epochs: seq<Epoch>, r: nat)
    requires GoodSetup(setup) && Valid(at) && forall k :: 0 <= k < |epochs| ==> Valid(epochs[k].now)
    requires !mode.Cold? && r < Count(setup.truth)
    ensures Run(setup, mode, PowerOn(setup, mode, at), epochs).Ok?
    ensures Copied(Run(setup, mode, PowerOn(setup, mode, at), epochs).value.log, r) <==>
            Abs(Transmit(setup.truth, r)) > Abs(at) && HeardDuring(setup, epochs, r)
  {
    NormalDelivers(setup, mode, at, epochs, r);
    RunsAreSound(setup, mode, at, epochs);
    RunsAreSourced(setup, mode, at, epochs);
    PowerOnMeaning(setup, mode, at);
    var st := Run(setup, mode, PowerOn(setup, mode, at), epochs).value;
    if Copied(st.log, r) {
      var i: nat :| i < |st.log| && st.log[i].record == r;
      assert Sourced(setup, mode, PowerOn(setup, mode, at).delivered, epochs, st.log, i);
    }
  }

  /** A cold receiver copies exactly the ionosphere records that were on the air while some signal tracked. */
  lemma {:induction false} IonosphereCopiesIff(setup: Setup, at: Time, epochs: seq<Epoch>, r: nat)
    requires GoodSetup(setup) && Valid(at) && forall k :: 0 <= k < |epochs| ==> Valid(epochs[k].now)
    requires OfStream(setup, IonKey, r)
    ensures Run(setup, Cold, PowerOn(setup, Cold, at), epochs).Ok?
    ensures var st := Run(setup, Cold, PowerOn(setup, Cold, at), epochs).value;
            && (Copied(st.log, r) <==> HeardDuring(setup, epochs, r))
            && (st.delivered[r] <==> HeardDuring(setup, epochs, r))
  {
    RunsAreSound(setup, Cold, at, epochs);
    var start := PowerOn(setup, Cold, at);
    if epochs != [] {
      var last := |epochs| - 1;
      IonosphereCopiesIff(setup, at, epochs[..last], r);
      RunsAreSound(setup, Cold, at, epochs[..last]);
      var before := Run(setup, Cold, start, epochs[..last]).value;
      ColdStep(setup, start.receiver, before, epochs[last]);
      CopiedStays(before.log, Run(setup, Cold, start, epochs).value.log);
      HeardDuringMore(setup, epochs, r);
    }
  }

  /** The state of a run after its first n epochs. */
  function StateAfter(setup: Setup, mode: Mode, at: Time, epochs: seq<Epoch>, n: nat): Result<NavState, NavError>
    requires GoodSetup(setup) && n <= |epochs|
  {
    Run(setup, mode, PowerOn(setup, mode, at), epochs[..n])
  }

  /** The record was heard at one of the epochs from m up to n. */
  ghost predicate HeardBetween(setup: Setup, epochs: seq<Epoch>, m: nat, n: nat, r: nat)
    requires r < Count(setup.truth) == |setup.families| && n <= |epochs|
  {
    exists k :: m <= k < n && Heard(epochs[k], KeyOf(setup, r)) && Available(setup.truth, r, epochs[k].now)
  }

  lemma StateStep(setup: Setup, mode: Mode, at: Time, epochs: seq<Epoch>, n: nat)
    returns (before: NavState, after: NavState)
    requires GoodSetup(setup) && Valid(at) && forall k :: 0 <= k < |epochs| ==> Valid(epochs[k].now)
    requires n < |epochs|
    ensures StateAfter(setup, mode, at, epochs, n) == Ok(before)
    ensures StateAfter(setup, mode, at, epochs, n + 1) == Ok(after)
    ensures Step(setup, mode, before, epochs[n]) == Ok(after)
    ensures Inv(setup, mode, PowerOn(setup, mode, at).receiver, before) && Fits(setup, after)
  {
    var more := epochs[..n + 1];
    assert more[..n] == epochs[..n] && more[n] == epochs[n];
    RunsAreSound(setup, mode, at, epochs[..n]);
    RunsAreSound(setup, mode, at, more);
    before := StateAfter(setup, mode, at, epochs, n).value;
    after := StateAfter(setup, mode, at, epochs, n + 1).value;
  }

  /** A record is newly copied while its stream is heard exactly when it is newly delivered. */
  lemma StreamCopies(setup: Setup, st: NavState, after: NavState, e: Epoch, key: Key, r: nat)
    requires Fits(setup, st) && Fits(setup, after) && LoggedAt(st, after, e.now)
    requires Streams(setup, st, after, e, key) && OfStream(setup, key, r)
    ensures Copied(after.log, r) <==> Copied(st.log, r) || (after.delivered[r] && !st.delivered[r])
  {
    CopiedStays(st.log, after.log);
    if Copied(after.log, r) {
      var i :| 0 <= i < |after.log| && after.log[i].record == r;
      if i < |st.log| {
        assert st.log[i].record == r;
      } else {
        assert Announces(st.delivered, after.delivered, after.log[i], e.now);
      }
    }
  }

  /** The channel acquires at epoch m, when t is the latest record on the air. */
  ghost predicate AcquiresIn(setup: Setup, at: Time, epochs: seq<Epoch>, c: nat, m: nat, t: nat)
    requires GoodSetup(setup) && c < |setup.pairs| && m < |epochs| && t < Count(setup.truth)
  {
    var (before, after) := (StateAfter(setup, Cold, at, epochs, m), StateAfter(setup, Cold, at, epochs, m + 1));
    && before.Ok? && after.Ok? && !before.value.channels[c].acquired && after.value.channels[c].acquired
    && IsLatest(setup, before.value.delivered, setup.pairs[c], epochs[m].now, t)
  }

  /** What a channel has delivered and copied: up to t by acquiring, and later records as they were heard. */
  ghost predicate StreamIs(setup: Setup, epochs: seq<Epoch>, st: NavState, key: Key, m: nat, n: nat, t: nat)
    requires Fits(setup, st) && n <= |epochs| && t < Count(setup.truth)
  {
    forall r: nat :: OfStream(setup, key, r) ==>
      && (st.delivered[r] <==> r == t || Before(setup.truth, r, t) || HeardBetween(setup, epochs, m, n, r))
      && (Copied(st.log, r) <==>
          r == t || (Before(setup.truth, t, r) && HeardBetween(setup, epochs, m, n, r)))
  }

  /** Of the stream of a channel that acquires only the target is copied. */
  lemma OnlyTargetCopied(setup: Setup, start: Store, st: NavState, after: NavState, c: nat, t: nat, at: int, r: nat)
    requires GoodSetup(setup) && Inv(setup, Cold, start, st) && Fits(setup, after) && c < |setup.pairs|
    requires !st.channels[c].acquired && st.log <= after.log && t < Count(setup.truth)
    requires AcquiresAt(setup, st, after, c, t, at) && OfStream(setup, setup.pairs[c], r)
    ensures Copied(after.log, r) <==> r == t
  {
    assert ChannelFits(setup, st.delivered, setup.pairs[c], st.channels[c]);
    assert forall i :: 0 <= i < |st.log| ==> after.log[i] == st.log[i] && st.log[i].record != r;
  }

  /** The record of the one aim is the one acquired. */
  lemma AcquiresTheLatest(setup: Setup, st: NavState, after: NavState, e: Epoch, c: nat, t: nat) returns (at: int)
    requires GoodSetup(setup) && Fits(setup, st) && Fits(setup, after) && c < |setup.pairs|
    requires ChannelOutcome(setup, st, after, e, c) && !st.channels[c].acquired && after.channels[c].acquired
    requires t < Count(setup.truth) && IsLatest(setup, st.delivered, setup.pairs[c], e.now, t)
    ensures AcquiresAt(setup, st, after, c, t, at)
  {
    assert !SameChannel(setup, st, after, c);
    var u: nat :| exists due: int :: Aims(setup, st.delivered, st.channels[c], e, setup.pairs[c], u, due);
    at :| Aims(setup, st.delivered, st.channels[c], e, setup.pairs[c], u, at);
    BeforeIsTotal(setup.truth, t, u);
  }

  /** A channel that acquires has delivered its stream up to t, and copied only t. */
  lemma AcquiringStream(setup: Setup, start: Store, epochs: seq<Epoch>, st: NavState, after: NavState, c: nat, m: nat,
                        t: nat)
    requires GoodSetup(setup) && Inv(setup, Cold, start, st) && Fits(setup, after) && c < |setup.pairs|
    requires m < |epochs| && st.log <= after.log && ChannelOutcome(setup, st, after, epochs[m], c)
    requires !st.channels[c].acquired && after.channels[c].acquired
    requires t < Count(setup.truth) && IsLatest(setup, st.delivered, setup.pairs[c], epochs[m].now, t)
    ensures StreamIs(setup, epochs, after, setup.pairs[c], m + 1, m + 1, t)
  {
    var due := AcquiresTheLatest(setup, st, after, epochs[m], c, t);
    forall r: nat | OfStream(setup, setup.pairs[c], r)
      ensures Copied(after.log, r) <==> r == t
      ensures after.delivered[r] <==> r == t || Before(setup.truth, r, t)
      ensures !HeardBetween(setup, epochs, m + 1, m + 1, r)
    {
      OnlyTargetCopied(setup, start, st, after, c, t, due, r);
    }
  }

  lemma HeardBetweenMore(setup: Setup, epochs: seq<Epoch>, m: nat, n: nat, r: nat)
    requires r < Count(setup.truth) == |setup.families| && m <= n < |epochs|
    ensures HeardBetween(setup, epochs, m, n + 1, r) <==>
            HeardBetween(setup, epochs, m, n, r)
            || (Heard(epochs[n], KeyOf(setup, r)) && Available(setup.truth, r, epochs[n].now))
  {
  }

  lemma StreamIsMore(setup: Setup, epochs: seq<Epoch>, st: NavState, after: NavState, key: Key, m: nat, n: nat, t: nat)
    requires Fits(setup, st) && Fits(setup, after) && m <= n < |epochs| && t < Count(setup.truth)
    requires OfStream(setup, key, t)
    requires LoggedAt(st, after, epochs[n].now) && Streams(setup, st, after, epochs[n], key)
    requires StreamIs(setup, epochs, st, key, m, n, t)
    ensures StreamIs(setup, epochs, after, key, m, n + 1, t)
  {
    forall r: nat | OfStream(setup, key, r)
      ensures after.delivered[r] <==> r == t || Before(setup.truth, r, t) || HeardBetween(setup, epochs, m, n + 1, r)
      ensures Copied(after.log, r) <==>
              r == t || (Before(setup.truth, t, r) && HeardBetween(setup, epochs, m, n + 1, r))
    {
      HeardBetweenMore(setup, epochs, m, n, r);
      StreamCopies(setup, st, after, epochs[n], key, r);
      BeforeIsTotal(setup.truth, r, t);
    }
  }

  lemma ChannelStepOutcome(setup: Setup, start: Store, st: NavState, e: Epoch, c: nat)
    requires GoodSetup(setup) && Inv(setup, Cold, start, st) && Valid(e.now) && c < |setup.pairs|
    ensures Step(setup, Cold, st, e).Ok?
    ensures ChannelOutcome(setup, st, Step(setup, Cold, st, e).value, e, c)
    ensures LoggedAt(st, Step(setup, Cold, st, e).value, e.now)
  {
    ColdStep(setup, start, st, e);
  }

  /** A channel that has acquired t, and what it has delivered and copied after n epochs. */
  ghost predicate StreamsFrom(setup: Setup, at: Time, epochs: seq<Epoch>, c: nat, m: nat, n: nat, t: nat)
    requires GoodSetup(setup) && c < |setup.pairs| && n <= |epochs| && t < Count(setup.truth)
  {
    && StateAfter(setup, Cold, at, epochs, n).Ok?
    && StateAfter(setup, Cold, at, epochs, n).value.channels[c].acquired
    && StreamIs(setup, epochs, StateAfter(setup, Cold, at, epochs, n).value, setup.pairs[c], m + 1, n, t)
  }

  lemma StreamsAtFirst(setup: Setup, at: Time, epochs: seq<Epoch>, c: nat, m: nat, t: nat)
    requires GoodSetup(setup) && Valid(at) && forall k :: 0 <= k < |epochs| ==> Valid(epochs[k].now)
    requires c < |setup.pairs| && m < |epochs| && t < Count(setup.truth) && AcquiresIn(setup, at, epochs, c, m, t)
    ensures StreamsFrom(setup, at, epochs, c, m, m + 1, t)
  {
    var start := PowerOn(setup, Cold, at).receiver;
    var st, after := StateStep(setup, Cold, at, epochs, m);
    ChannelStepOutcome(setup, start, st, epochs[m], c);
    AcquiringStream(setup, start, epochs, st, after, c, m, t);
  }

  lemma StreamsOn(setup: Setup, at: Time, epochs: seq<Epoch>, c: nat, m: nat, n: nat, t: nat)
    requires GoodSetup(setup) && Valid(at) && forall k :: 0 <= k < |epochs| ==> Valid(epochs[k].now)
    requires c < |setup.pairs| && m < n < |epochs| && t < Count(setup.truth) && KeyOf(setup, t) == setup.pairs[c]
    requires StreamsFrom(setup, at, epochs, c, m, n, t)
    ensures StreamsFrom(setup, at, epochs, c, m, n + 1, t)
  {
    var st, after := StateStep(setup, Cold, at, epochs, n);
    ChannelStepOutcome(setup, PowerOn(setup, Cold, at).receiver, st, epochs[n], c);
    StreamIsMore(setup, epochs, st, after, setup.pairs[c], m + 1, n, t);
  }

  /**
   After a cold channel has acquired the record t, its stream is delivered up to t and beyond it just as far as it
   was heard; of these records t and the later ones are copied, the earlier ones never.
   */
  lemma {:induction false} AcquiredStreamIff(setup: Setup, at: Time, epochs: seq<Epoch>, c: nat, m: nat, n: nat, t: nat)
    requires GoodSetup(setup) && Valid(at) && forall k :: 0 <= k < |epochs| ==> Valid(epochs[k].now)
    requires c < |setup.pairs| && m < n <= |epochs| && t < Count(setup.truth)
    requires AcquiresIn(setup, at, epochs, c, m, t)
    ensures StreamsFrom(setup, at, epochs, c, m, n, t)
  {
    if n == m + 1 {
      StreamsAtFirst(setup, at, epochs, c, m, t);
    } else {
      AcquiredStreamIff(setup, at, epochs, c, m, n - 1, t);
      StreamsOn(setup, at, epochs, c, m, n - 1, t);
    }
  }

  // ---------- In what order an epoch announces ----------

  /** The events added are of records at schedule position i or after, in schedule order. */
  ghost predicate InScheduleOrder(setup: Setup, before: seq<Event>, after: seq<Event>, i: nat) {
    && before <= after
    && (forall k :: |before| <= k < |after| ==> AtOrAfter(setup, i, after[k].record))
    && forall j, k :: |before| <= j < k < |after| ==>
         after[j].record < Count(setup.truth) && after[k].record < Count(setup.truth)
         && Before(setup.truth, after[j].record, after[k].record)
  }

  lemma LaterPositionIsAfter(setup: Setup, i: nat, r: nat)
    requires GoodSetup(setup) && i < |setup.schedule| && AtOrAfter(setup, i + 1, r)
    ensures AtOrAfter(setup, i, r) && r < Count(setup.truth) && Before(setup.truth, setup.schedule[i], r)
  {
    var k :| i + 1 <= k < |setup.schedule| && setup.schedule[k] == r;
    assert InOrder(setup.truth, setup.schedule, i, k);
  }

  /** A walk over the schedule announces in schedule order. */
  lemma {:induction false} StreamInOrder(setup: Setup, st: NavState, now: Time, want: set<Key>, i: nat)
    requires GoodSetup(setup) && Fits(setup, st) && i <= |setup.schedule| && Stream(setup, st, now, want, i).Ok?
    ensures InScheduleOrder(setup, st.log, Stream(setup, st, now, want, i).value.log, i)
    decreases |setup.schedule| - i
  {
    if i < |setup.schedule| && Available(setup.truth, setup.schedule[i], now) {
      var next := StreamOne(setup, st, now, want, i).value;
      StreamInOrder(setup, next, now, want, i + 1);
      StreamOneMore(setup, st.log, next.log, Stream(setup, next, now, want, i + 1).value.log, i);
    }
  }

  lemma StreamOneMore(setup: Setup, before: seq<Event>, next: seq<Event>, after: seq<Event>, i: nat)
    requires GoodSetup(setup) && i < |setup.schedule| && InScheduleOrder(setup, next, after, i + 1)
    requires before <= next && |next| <= |before| + 1
    requires |next| == |before| + 1 ==> next[|before|].record == setup.schedule[i]
    ensures InScheduleOrder(setup, before, after, i)
  {
    forall k | |next| <= k < |after|
      ensures AtOrAfter(setup, i, after[k].record) && after[k].record < Count(setup.truth)
      ensures Before(setup.truth, setup.schedule[i], after[k].record)
    {
      LaterPositionIsAfter(setup, i, after[k].record);
    }
    assert after[..|next|] == next;
  }

  /** A HOT or WARM epoch announces in schedule order. */
  lemma NormalInOrder(setup: Setup, mode: Mode, st: NavState, e: Epoch, j: nat, k: nat)
    requires GoodSetup(setup) && Fits(setup, st) && !mode.Cold? && Step(setup, mode, st, e).Ok?
    requires |st.log| <= j < k < |Step(setup, mode, st, e).value.log|
    ensures var log := Step(setup, mode, st, e).value.log;
            && log[j].record < Count(setup.truth) && log[k].record < Count(setup.truth)
            && Before(setup.truth, log[j].record, log[k].record)
  {
    StreamInOrder(setup, st, e.now, ReceivableKeys(e), 0);
  }

  /** The events added are of channels from c on, in the order of the channels. */
  ghost predicate InChannelOrder(setup: Setup, before: seq<Event>, after: seq<Event>, c: nat)
    requires c <= |setup.pairs|
  {
    && before <= after
    && (forall k :: |before| <= k < |after| ==> OfChannelFrom(setup, after[k].record, c))
    && forall j, k, d: nat :: |before| <= j < k < |after| && d < |setup.pairs|
                              && OfStream(setup, setup.pairs[d], after[j].record) ==>
         OfChannelFrom(setup, after[k].record, d)
  }

  ghost predicate OfChannelFrom(setup: Setup, r: nat, c: nat) {
    exists d :: c <= d < |setup.pairs| && OfStream(setup, setup.pairs[d], r)
  }

  /** A channel's step logs events of its own stream. */
  lemma OnlyOwnEvents(setup: Setup, start: Store, st: NavState, e: Epoch, c: nat)
    requires GoodSetup(setup) && Inv(setup, Cold, start, st) && Valid(e.now) && c < |setup.pairs|
    ensures ColdChannel(setup, st, e, c).Ok?
    ensures var next := ColdChannel(setup, st, e, c).value;
            && Inv(setup, Cold, start, next) && st.log <= next.log
            && forall k :: |st.log| <= k < |next.log| ==> OfStream(setup, setup.pairs[c], next.log[k].record)
  {
    ColdChannelKeepsInv(setup, start, st, e, c);
    var next := ColdChannel(setup, st, e, c).value;
    forall k | |st.log| <= k < |next.log|
      ensures OfStream(setup, setup.pairs[c], next.log[k].record)
    {
      assert Announces(st.delivered, next.delivered, next.log[k], e.now);
    }
  }

  lemma ChannelOrderMore(setup: Setup, before: seq<Event>, next: seq<Event>, after: seq<Event>, c: nat)
    requires GoodSetup(setup) && c < |setup.pairs| && before <= next && InChannelOrder(setup, next, after, c + 1)
    requires forall k :: |before| <= k < |next| ==> OfStream(setup, setup.pairs[c], next[k].record)
    ensures InChannelOrder(setup, before, after, c)
  {
    assert after[..|next|] == next;
    forall k | |before| <= k < |after|
      ensures OfChannelFrom(setup, after[k].record, c)
    {
      if k >= |next| {
        assert OfChannelFrom(setup, after[k].record, c + 1);
      }
    }
    forall j, k, d: nat | |before| <= j < k < |after| && d < |setup.pairs|
                          && OfStream(setup, setup.pairs[d], after[j].record)
      ensures OfChannelFrom(setup, after[k].record, d)
    {
      if j < |next| {
        assert setup.pairs[d] == setup.pairs[c];
        assert d == c;
      }
    }
  }

  lemma {:induction false} ChannelsInOrder(setup: Setup, start: Store, st: NavState, e: Epoch, c: nat)
    requires GoodSetup(setup) && Inv(setup, Cold, start, st) && Valid(e.now) && c <= |setup.pairs|
    ensures ColdChannels(setup, st, e, c).Ok?
    ensures InChannelOrder(setup, st.log, ColdChannels(setup, st, e, c).value.log, c)
    decreases |setup.pairs| - c
  {
    if c < |setup.pairs| {
      OnlyOwnEvents(setup, start, st, e, c);
      var next := ColdChannel(setup, st, e, c).value;
      ChannelsInOrder(setup, start, next, e, c + 1);
      assert ColdChannels(setup, st, e, c) == ColdChannels(setup, next, e, c + 1);
      ChannelOrderMore(setup, st.log, next.log, ColdChannels(setup, next, e, c + 1).value.log, c);
    }
  }

  /** A cold epoch announces the ionosphere first, in schedule order, and then channel by channel. */
  lemma ColdInOrder(setup: Setup, start: Store, st: NavState, e: Epoch) returns (middle: seq<Event>)
    requires GoodSetup(setup) && Inv(setup, Cold, start, st) && Valid(e.now)
    ensures Step(setup, Cold, st, e).Ok?
    ensures InScheduleOrder(setup, st.log, middle, 0)
    ensures forall k :: |st.log| <= k < |middle| ==> OfStream(setup, IonKey, middle[k].record)
    ensures InChannelOrder(setup, middle, Step(setup, Cold, st, e).value.log, 0)
  {
    IonStepKeepsInv(setup, start, st, e);
    var next := IonStep(setup, st, e).value;
    middle := next.log;
    if AnyTracking(e) {
      StreamInOrder(setup, st, e.now, {IonKey}, 0);
    }
    forall k | |st.log| <= k < |middle|
      ensures OfStream(setup, IonKey, middle[k].record)
    {
      assert Announces(st.delivered, next.delivered, middle[k], e.now);
    }
    ChannelsInOrder(setup, start, next, e, 0);
  }
}
