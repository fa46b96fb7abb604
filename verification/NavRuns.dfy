/** Whole epochs and whole runs of the delivery protocol. */
module NavRuns {
  import opened Wrappers
  import opened SimTime
  import opened NavPlan
  import opened NavStore
  import opened NavDelivery
  import opened NavDeliveryTheorems

  // ---------- One epoch of a cold receiver ----------

  lemma SameAims(setup: Setup, st: NavState, after: NavState, e: Epoch, d: nat)
    requires Fits(setup, st) && Fits(setup, after) && d < |setup.pairs| && setup.pairs[d].Pair?
    requires SameChannel(setup, st, after, d)
    ensures forall t: nat, at: int ::
              Aims(setup, after.delivered, after.channels[d], e, setup.pairs[d], t, at) <==>
              Aims(setup, st.delivered, st.channels[d], e, setup.pairs[d], t, at)
  {
    forall t: nat
      ensures IsLatest(setup, after.delivered, setup.pairs[d], e.now, t) <==>
              IsLatest(setup, st.delivered, setup.pairs[d], e.now, t)
    {
      assert forall r: nat :: r < |st.delivered| ==>
                 (Pending(setup, after.delivered, setup.pairs[d], e.now, r) <==>
                  Pending(setup, st.delivered, setup.pairs[d], e.now, r));
    }
  }

  /** While a channel stays the same nothing of its stream is logged. */
  lemma NothingLogged(setup: Setup, st: NavState, after: NavState, now: Time, d: nat, i: nat)
    requires Fits(setup, st) && Fits(setup, after) && d < |setup.pairs|
    requires SameChannel(setup, st, after, d) && LoggedAt(st, after, now) && |st.log| <= i < |after.log|
    ensures !OfStream(setup, setup.pairs[d], after.log[i].record)
  {
    assert Announces(st.delivered, after.delivered, after.log[i], now);
  }

  /** The events of a stream logged from st to after are those logged from s1 to s2. */
  lemma LoggedBetween(
    setup: Setup, st: NavState, s1: NavState, s2: NavState, after: NavState, now: Time, d: nat, i: nat)
    requires Fits(setup, st) && Fits(setup, s1) && Fits(setup, s2) && Fits(setup, after) && d < |setup.pairs|
    requires SameChannel(setup, st, s1, d) && SameChannel(setup, s2, after, d)
    requires LoggedAt(st, s1, now) && LoggedAt(s1, s2, now) && LoggedAt(s2, after, now)
    requires |st.log| <= i < |after.log| && OfStream(setup, setup.pairs[d], after.log[i].record)
    ensures |s1.log| <= i < |s2.log| && s2.log[i] == after.log[i]
  {
    if i < |s1.log| {
      NothingLogged(setup, st, s1, now, d, i);
    } else if i >= |s2.log| {
      NothingLogged(setup, s2, after, now, d, i);
    }
  }

  /** What other channels do before or after does not change how an acquired channel streams. */
  lemma StreamIsLocal(setup: Setup, st: NavState, s1: NavState, s2: NavState, after: NavState, e: Epoch, d: nat)
    requires Fits(setup, st) && Fits(setup, s1) && Fits(setup, s2) && Fits(setup, after) && d < |setup.pairs|
    requires SameChannel(setup, st, s1, d) && SameChannel(setup, s2, after, d)
    requires LoggedAt(st, s1, e.now) && LoggedAt(s1, s2, e.now) && LoggedAt(s2, after, e.now)
    requires Streams(setup, s1, s2, e, setup.pairs[d])
    ensures Streams(setup, st, after, e, setup.pairs[d])
  {
    forall i | |st.log| <= i < |after.log| && OfStream(setup, setup.pairs[d], after.log[i].record)
      ensures after.log[i].availability == e.now
    {
      LoggedBetween(setup, st, s1, s2, after, e.now, d, i);
    }
  }

  lemma AcquireIsLocal(
    setup: Setup, st: NavState, s1: NavState, s2: NavState, after: NavState, e: Epoch, d: nat, t: nat, at: int)
    requires Fits(setup, st) && Fits(setup, s1) && Fits(setup, s2) && Fits(setup, after) && d < |setup.pairs|
    requires SameChannel(setup, st, s1, d) && SameChannel(setup, s2, after, d) && t < Count(setup.truth)
    requires LoggedAt(st, s1, e.now) && LoggedAt(s1, s2, e.now) && LoggedAt(s2, after, e.now)
    requires AcquiresAt(setup, s1, s2, d, t, at)
    ensures AcquiresAt(setup, st, after, d, t, at)
  {
    CopiedStays(s2.log, after.log);
    forall i | |st.log| <= i < |after.log| && OfStream(setup, setup.pairs[d], after.log[i].record)
      ensures after.log[i].record == t && Valid(after.log[i].availability) && Abs(after.log[i].availability) == at
    {
      LoggedBetween(setup, st, s1, s2, after, e.now, d, i);
    }
  }

  lemma WaitIsLocal(setup: Setup, st: NavState, s1: NavState, s2: NavState, after: NavState, d: nat, t: nat, at: int)
    requires Fits(setup, st) && Fits(setup, s1) && Fits(setup, s2) && Fits(setup, after) && d < |setup.pairs|
    requires SameChannel(setup, st, s1, d) && SameChannel(setup, s2, after, d)
    requires WaitsFor(setup, s1, s2, d, t, at)
    ensures WaitsFor(setup, st, after, d, t, at)
  {
  }

  /** What other channels do before or after does not change what the epoch brings a channel. */
  lemma OutcomeIsLocal(setup: Setup, st: NavState, s1: NavState, s2: NavState, after: NavState, e: Epoch, d: nat)
    requires Fits(setup, st) && Fits(setup, s1) && Fits(setup, s2) && Fits(setup, after)
    requires d < |setup.pairs| && setup.pairs[d].Pair?
    requires SameChannel(setup, st, s1, d) && SameChannel(setup, s2, after, d)
    requires LoggedAt(st, s1, e.now) && LoggedAt(s1, s2, e.now) && LoggedAt(s2, after, e.now)
    requires ChannelOutcome(setup, s1, s2, e, d)
    ensures ChannelOutcome(setup, st, after, e, d)
  {
    if st.channels[d].acquired {
      StreamIsLocal(setup, st, s1, s2, after, e, d);
    } else {
      SameAims(setup, st, s1, e, d);
      forall t: nat, at: int | Aims(setup, st.delivered, st.channels[d], e, setup.pairs[d], t, at)
        ensures if at <= Abs(e.now) then AcquiresAt(setup, st, after, d, t, at)
                else WaitsFor(setup, st, after, d, t, at)
      {
        assert Aims(setup, s1.delivered, s1.channels[d], e, setup.pairs[d], t, at);
        if at <= Abs(e.now) {
          AcquireIsLocal(setup, st, s1, s2, after, e, d, t, at);
        } else {
          WaitIsLocal(setup, st, s1, s2, after, d, t, at);
        }
      }
    }
  }

  /** The record belongs to no channel. */
  ghost predicate Unpaired(setup: Setup, r: nat)
    requires r < Count(setup.truth) == |setup.families|
  {
    forall d :: 0 <= d < |setup.pairs| ==> KeyOf(setup, r) != setup.pairs[d]
  }

  ghost predicate UnpairedSame(setup: Setup, st: NavState, after: NavState)
    requires Fits(setup, st) && Fits(setup, after)
  {
    forall r: nat :: r < |st.delivered| && Unpaired(setup, r) ==> after.delivered[r] == st.delivered[r]
  }

  /** The channels from c on: all of them see what the epoch brings them, the earlier ones are left alone. */
  ghost predicate ChannelsStep(setup: Setup, start: Store, st: NavState, after: NavState, e: Epoch, c: nat)
    requires GoodSetup(setup) && Fits(setup, st) && c <= |setup.pairs|
  {
    && Inv(setup, Cold, start, after)
    && Explained(setup, true, st, after)
    && LoggedAt(st, after, e.now)
    && UnpairedSame(setup, st, after)
    && (forall d: nat :: d < c ==> SameChannel(setup, st, after, d))
    && (forall d: nat :: c <= d < |setup.pairs| ==> ChannelOutcome(setup, st, after, e, d))
  }

  /** A channel's step leaves the other channels and their streams alone. */
  lemma OthersSame(setup: Setup, st: NavState, next: NavState, c: nat)
    requires GoodSetup(setup) && Fits(setup, st) && Fits(setup, next) && c < |setup.pairs|
    requires OnlyChannel(setup, st, next, c)
    ensures forall d: nat :: d < |setup.pairs| && d != c ==> SameChannel(setup, st, next, d)
    ensures UnpairedSame(setup, st, next)
  {
    forall d: nat | d < |setup.pairs| && d != c
      ensures SameChannel(setup, st, next, d)
    {
      assert setup.pairs[d] != setup.pairs[c];
    }
  }

  lemma ChannelsStepFurther(setup: Setup, start: Store, st: NavState, next: NavState, after: NavState, e: Epoch, c: nat)
    requires GoodSetup(setup) && Inv(setup, Cold, start, st) && c < |setup.pairs|
    requires ChannelStep(setup, start, st, next, e.now, c) && ChannelOutcome(setup, st, next, e, c)
    requires ChannelsStep(setup, start, next, after, e, c + 1)
    ensures ChannelsStep(setup, start, st, after, e, c)
  {
    ExplainedTwice(setup, true, st, next, after);
    LoggedAtTwice(st, next, after, e.now);
    OthersSame(setup, st, next, c);
    forall d: nat | d < c
      ensures SameChannel(setup, st, after, d)
    {
      assert SameChannel(setup, st, next, d) && SameChannel(setup, next, after, d);
    }
    forall d: nat | c <= d < |setup.pairs|
      ensures ChannelOutcome(setup, st, after, e, d)
    {
      if d == c {
        assert SameChannel(setup, next, after, c) && SameChannel(setup, st, st, c) && LoggedAt(st, st, e.now);
        OutcomeIsLocal(setup, st, st, next, after, e, c);
      } else {
        assert SameChannel(setup, after, after, d) && LoggedAt(after, after, e.now);
        OutcomeIsLocal(setup, st, next, after, after, e, d);
      }
    }
  }

  lemma {:induction false} ColdChannelsKeepInv(setup: Setup, start: Store, st: NavState, e: Epoch, c: nat)
    requires GoodSetup(setup) && Inv(setup, Cold, start, st) && Valid(e.now) && c <= |setup.pairs|
    ensures ColdChannels(setup, st, e, c).Ok?
    ensures ChannelsStep(setup, start, st, ColdChannels(setup, st, e, c).value, e, c)
    decreases |setup.pairs| - c
  {
    if c < |setup.pairs| {
      ColdChannelKeepsInv(setup, start, st, e, c);
      var next := ColdChannel(setup, st, e, c).value;
      ColdChannelsKeepInv(setup, start, next, e, c + 1);
      ChannelsStepFurther(setup, start, st, next, ColdChannels(setup, next, e, c + 1).value, e, c);
    }
  }

  /** The ionosphere stream delivers what is on the air while any signal tracks, and touches nothing else. */
  lemma IonStepKeepsInv(setup: Setup, start: Store, st: NavState, e: Epoch)
    requires GoodSetup(setup) && Inv(setup, Cold, start, st) && Valid(e.now)
    ensures IonStep(setup, st, e).Ok?
    ensures var next := IonStep(setup, st, e).value;
            && Inv(setup, Cold, start, next)
            && Explained(setup, true, st, next) && LoggedAt(st, next, e.now)
            && Streams(setup, st, next, e, IonKey)
            && (forall r: nat :: r < |st.delivered| && KeyOf(setup, r) != IonKey ==>
                  next.delivered[r] == st.delivered[r])
            && (forall d: nat :: d < |setup.pairs| ==> SameChannel(setup, st, next, d))
  {
    HeardMeaning(e, IonKey);
    if AnyTracking(e) {
      StreamKeepsInv(setup, start, st, e.now, {IonKey}, 0);
      var next := IonStep(setup, st, e).value;
      StreamedStreams(setup, start, st, next, e, IonKey);
      forall d | 0 <= d < |setup.pairs|
        ensures ChannelFits(setup, next.delivered, setup.pairs[d], next.channels[d])
      {
        assert ChannelFits(setup, st.delivered, setup.pairs[d], st.channels[d]);
      }
    }
  }

  /** Every record of a cold receiver is of the ionosphere, of a channel, or left alone. */
  ghost predicate ColdOutcome(setup: Setup, st: NavState, after: NavState, e: Epoch)
    requires GoodSetup(setup) && Fits(setup, st) && Fits(setup, after)
  {
    && Streams(setup, st, after, e, IonKey)
    && (forall d: nat :: d < |setup.pairs| ==> ChannelOutcome(setup, st, after, e, d))
    && (forall r: nat :: r < |st.delivered| && KeyOf(setup, r) != IonKey && Unpaired(setup, r) ==>
          after.delivered[r] == st.delivered[r])
  }

  lemma NoIonLogged(setup: Setup, st: NavState, after: NavState, now: Time, i: nat)
    requires GoodSetup(setup) && Fits(setup, st) && Fits(setup, after) && UnpairedSame(setup, st, after)
    requires LoggedAt(st, after, now) && |st.log| <= i < |after.log|
    ensures !OfStream(setup, IonKey, after.log[i].record)
  {
    assert Announces(st.delivered, after.delivered, after.log[i], now);
  }

  lemma IonAfterChannels(setup: Setup, st: NavState, next: NavState, after: NavState, e: Epoch)
    requires GoodSetup(setup) && Fits(setup, st) && Fits(setup, next) && Fits(setup, after)
    requires Streams(setup, st, next, e, IonKey) && UnpairedSame(setup, next, after)
    requires LoggedAt(st, next, e.now) && LoggedAt(next, after, e.now)
    ensures Streams(setup, st, after, e, IonKey)
  {
    forall r: nat | OfStream(setup, IonKey, r)
      ensures after.delivered[r] == next.delivered[r]
    {
      assert Unpaired(setup, r);
    }
    forall i | |st.log| <= i < |after.log| && OfStream(setup, IonKey, after.log[i].record)
      ensures after.log[i].availability == e.now
    {
      if i >= |next.log| {
        NoIonLogged(setup, next, after, e.now, i);
      }
    }
  }

  /** An epoch of a cold receiver brings the ionosphere and every channel what the state before the epoch decides. */
  lemma ColdStep(setup: Setup, start: Store, st: NavState, e: Epoch)
    requires GoodSetup(setup) && Inv(setup, Cold, start, st) && Valid(e.now)
    ensures Step(setup, Cold, st, e).Ok?
    ensures var after := Step(setup, Cold, st, e).value;
            && Inv(setup, Cold, start, after)
            && Explained(setup, true, st, after) && LoggedAt(st, after, e.now)
            && ColdOutcome(setup, st, after, e)
  {
    IonStepKeepsInv(setup, start, st, e);
    var next := IonStep(setup, st, e).value;
    ColdChannelsKeepInv(setup, start, next, e, 0);
    var after := Step(setup, Cold, st, e).value;
    ExplainedTwice(setup, true, st, next, after);
    LoggedAtTwice(st, next, after, e.now);
    IonAfterChannels(setup, st, next, after, e);
    forall d: nat | d < |setup.pairs|
      ensures ChannelOutcome(setup, st, after, e, d)
    {
      assert SameChannel(setup, after, after, d) && LoggedAt(after, after, e.now);
      OutcomeIsLocal(setup, st, next, after, after, e, d);
    }
  }

  // ---------- Bounded acquisition ----------

  /** The signal is tracking and carries the family, and has since before this instant, the record on the air. */
  ghost predicate HeardSince(setup: Setup, v: Signal, key: Key, target: nat, from: int)
    requires target < Count(setup.truth) && key.Pair?
  {
    Carries(v, key) && Abs(v.trackingStart) <= from && Abs(Transmit(setup.truth, target)) <= from
  }

  /** A cycle and its longest fragment after both transmission and lock, the signal's plan is there and available. */
  lemma CandidateInTime(setup: Setup, v: Signal, key: Key, target: nat, from: int, now: Time)
    requires GoodSetup(setup) && target < Count(setup.truth) && key.Pair? && Valid(now)
    requires HeardSince(setup, v, key, target, from)
    requires TableFor(v.id, VariantFor(setup, key, target)).Some?
    requires var table := TableFor(v.id, VariantFor(setup, key, target)).value;
             Abs(now) >= from + table.cycle + LongestDuration(table.slots)
    ensures var p := Candidate(setup, v, key, target);
            p.Some? && Valid(p.value.availability) && Abs(p.value.availability) <= Abs(now)
  {
    var transmit := Transmit(setup.truth, target);
    var acquisition := if Compare(v.trackingStart, transmit) > 0 then v.trackingStart else transmit;
    CompareIsOrder(v.trackingStart, transmit);
    PlanInTime(v.id, VariantFor(setup, key, target), acquisition, InfoOf(RecordAt(setup.truth, target)).iode, now);
  }

  lemma PlanInTime(signal: SignalId, variant: Variant, acquisition: Time, issueData: int, now: Time)
    requires Valid(acquisition) && Valid(now) && TableFor(signal, variant).Some?
    requires var table := TableFor(signal, variant).value;
             Abs(now) >= Abs(acquisition) + table.cycle + LongestDuration(table.slots)
    ensures var p := PlanFor(signal, variant, acquisition, issueData);
            p.Some? && Valid(p.value.availability) && Abs(p.value.availability) <= Abs(now)
  {
    var table := TableFor(signal, variant).value;
    PlanMeaning(signal, variant, acquisition, issueData);
    LongestIsMax(table.slots);
    forall i | 0 <= i < |table.slots|
      ensures Representable(SlotEnd(Abs(acquisition), table, i))
    {
      var s := NextStart(Abs(acquisition), table.cycle, table.offset, table.slots[i]);
      assert SlotEnd(Abs(acquisition), table, i) <= Abs(now);
    }
    WaitBounds(PlanFor(signal, variant, acquisition, issueData).value, table);
  }

  /** A channel whose latest record some signal offers has an aim, no later than the offer. */
  lemma OfferMakesAim(setup: Setup, start: Store, st: NavState, e: Epoch, c: nat, target: nat, due: int)
    returns (at: int)
    requires GoodSetup(setup) && Inv(setup, Cold, start, st) && Valid(e.now)
    requires c < |setup.pairs| && !st.channels[c].acquired
    requires IsLatest(setup, st.delivered, setup.pairs[c], e.now, target)
    requires Offered(setup, e, setup.pairs[c], target, due)
    ensures at <= due && Aims(setup, st.delivered, st.channels[c], e, setup.pairs[c], target, at)
  {
    assert ChannelFits(setup, st.delivered, setup.pairs[c], st.channels[c]);
    BestBeatsOffers(setup, e, setup.pairs[c], target, due);
    RetargetAims(setup, st, e, c, target);
    var best := BestPlan(Candidates(setup, e.signals, setup.pairs[c], target)).value;
    at := Abs(Retarget(st.channels[c], target, best).plan.value.availability);
  }

  /**
   A cold channel with a pending record acquires at any epoch at which some signal
   of its family has been tracking, and the latest record on the air, for a cycle
   and the longest fragment.
   */
  lemma BoundedAcquisition(setup: Setup, start: Store, st: NavState, e: Epoch, c: nat, k: nat, target: nat, from: int)
    requires GoodSetup(setup) && Inv(setup, Cold, start, st) && Valid(e.now)
    requires c < |setup.pairs| && !st.channels[c].acquired && k < |e.signals|
    requires IsLatest(setup, st.delivered, setup.pairs[c], e.now, target)
    requires HeardSince(setup, e.signals[k], setup.pairs[c], target, from)
    requires TableFor(e.signals[k].id, VariantFor(setup, setup.pairs[c], target)).Some?
    requires var table := TableFor(e.signals[k].id, VariantFor(setup, setup.pairs[c], target)).value;
             Abs(e.now) >= from + table.cycle + LongestDuration(table.slots)
    ensures Step(setup, Cold, st, e).Ok?
    ensures var after := Step(setup, Cold, st, e).value;
            after.channels[c].acquired && Copied(after.log, target)
  {
    CandidateInTime(setup, e.signals[k], setup.pairs[c], target, from, e.now);
    CandidateOffers(setup, e.signals[k], setup.pairs[c], target);
    var p := Candidate(setup, e.signals[k], setup.pairs[c], target).value;
    ValidIsRepresentable(p.availability);
    assert Offered(setup, e, setup.pairs[c], target, Abs(p.availability));
    AcquiresWhenAvailable(setup, start, st, e, c, target, Abs(p.availability));
  }

  /** An epoch by which some tracking signal has heard all of the latest record delivers that record. */
  lemma AcquiresWhenAvailable(setup: Setup, start: Store, st: NavState, e: Epoch, c: nat, target: nat, due: int)
    requires GoodSetup(setup) && Inv(setup, Cold, start, st) && Valid(e.now)
    requires c < |setup.pairs| && !st.channels[c].acquired
    requires IsLatest(setup, st.delivered, setup.pairs[c], e.now, target)
    requires Offered(setup, e, setup.pairs[c], target, due) && due <= Abs(e.now)
    ensures Step(setup, Cold, st, e).Ok?
    ensures var after := Step(setup, Cold, st, e).value;
            after.channels[c].acquired && Copied(after.log, target)
  {
    var at := OfferMakesAim(setup, start, st, e, c, target, due);
    ColdStep(setup, start, st, e);
    var after := Step(setup, Cold, st, e).value;
    assert ChannelOutcome(setup, st, after, e, c);
    assert AcquiresAt(setup, st, after, c, target, at);
  }

  /** The channel acquires in this epoch exactly when the instant it aims for has come. */
  lemma AcquiresIff(setup: Setup, start: Store, st: NavState, e: Epoch, c: nat)
    requires GoodSetup(setup) && Inv(setup, Cold, start, st) && Valid(e.now)
    requires c < |setup.pairs| && !st.channels[c].acquired
    ensures Step(setup, Cold, st, e).Ok?
    ensures Step(setup, Cold, st, e).value.channels[c].acquired <==>
            exists t: nat, at: int ::
              Aims(setup, st.delivered, st.channels[c], e, setup.pairs[c], t, at) && at <= Abs(e.now)
  {
    ColdStep(setup, start, st, e);
    var after := Step(setup, Cold, st, e).value;
    assert ChannelOutcome(setup, st, after, e, c);
    if after.channels[c].acquired {
      assert !SameChannel(setup, st, after, c);
    }
  }

  // ---------- One epoch of a hot or warm receiver ----------

  /** Every record on the air whose stream is heard is delivered at once, and nothing else is. */
  lemma NormalStep(setup: Setup, mode: Mode, start: Store, st: NavState, e: Epoch)
    requires GoodSetup(setup) && !mode.Cold? && Inv(setup, mode, start, st) && Valid(e.now)
    ensures Step(setup, mode, st, e).Ok?
    ensures var after := Step(setup, mode, st, e).value;
            && Inv(setup, mode, start, after) && after.channels == st.channels
            && Explained(setup, false, st, after) && LoggedAt(st, after, e.now)
            && forall key :: Streams(setup, st, after, e, key)
  {
    StreamKeepsInv(setup, start, st, e.now, ReceivableKeys(e), 0);
    var after := Step(setup, mode, st, e).value;
    forall key
      ensures Streams(setup, st, after, e, key)
    {
      HeardMeaning(e, key);
    }
  }

  // ---------- Runs ----------

  lemma PowerOnInv(setup: Setup, mode: Mode, at: Time)
    requires GoodSetup(setup) && Valid(at)
    ensures Inv(setup, mode, PowerOn(setup, mode, at).receiver, PowerOn(setup, mode, at))
  {
    var st := PowerOn(setup, mode, at);
    if !mode.Cold? {
      SnapshotIsTyped(setup.truth, at, setup.maxSatellite);
      forall a: nat, b: nat | Earlier(setup, a, b) && st.delivered[b]
        ensures st.delivered[a]
      {
        AvailableBefore(setup.truth, a, b, at);
      }
    }
  }

  ghost predicate AnnouncedAt(epochs: seq<Epoch>, ev: Event) {
    exists k :: 0 <= k < |epochs| && epochs[k].now == ev.epoch
  }

  /** Every event of the log was announced at one of the epochs. */
  ghost predicate LoggedDuring(epochs: seq<Epoch>, log: seq<Event>) {
    forall i :: 0 <= i < |log| ==> AnnouncedAt(epochs, log[i])
  }

  lemma LoggedDuringMore(epochs: seq<Epoch>, before: NavState, after: NavState)
    requires epochs != [] && LoggedDuring(epochs[..|epochs| - 1], before.log)
    requires LoggedAt(before, after, epochs[|epochs| - 1].now)
    ensures LoggedDuring(epochs, after.log)
  {
    forall i | 0 <= i < |after.log|
      ensures AnnouncedAt(epochs, after.log[i])
    {
      if i < |before.log| {
        assert before.log[i] == after.log[i];
        var k :| 0 <= k < |epochs| - 1 && epochs[..|epochs| - 1][k].now == before.log[i].epoch;
        assert epochs[k].now == after.log[i].epoch;
      } else {
        assert Announces(before.delivered, after.delivered, after.log[i], epochs[|epochs| - 1].now);
      }
    }
  }

  /**
   From power-on, over any epochs, the protocol never fails: no issue of data ever
   mismatches and no copy is ever lost.  The invariant holds throughout, and every
   record delivered since power-on was copied, or is one a cold start skipped
   because it precedes a copied record of its stream.
   */
  lemma {:induction false} RunsAreSound(setup: Setup, mode: Mode, at: Time, epochs: seq<Epoch>)
    requires GoodSetup(setup) && Valid(at) && forall k :: 0 <= k < |epochs| ==> Valid(epochs[k].now)
    ensures Run(setup, mode, PowerOn(setup, mode, at), epochs).Ok?
    ensures var start := PowerOn(setup, mode, at);
            var st := Run(setup, mode, start, epochs).value;
            && Inv(setup, mode, start.receiver, st)
            && Explained(setup, mode.Cold?, start, st)
            && LoggedDuring(epochs, st.log)
  {
    var start := PowerOn(setup, mode, at);
    if epochs == [] {
      PowerOnInv(setup, mode, at);
    } else {
      var init, last := epochs[..|epochs| - 1], epochs[|epochs| - 1];
      RunsAreSound(setup, mode, at, init);
      var before := Run(setup, mode, start, init).value;
      if mode.Cold? {
        ColdStep(setup, start.receiver, before, last);
      } else {
        NormalStep(setup, mode, start.receiver, before, last);
      }
      var after := Run(setup, mode, start, epochs).value;
      ExplainedTwice(setup, mode.Cold?, start, before, after);
      LoggedDuringMore(epochs, before, after);
    }
  }

  // ---------- When a cold receiver has acquired ----------

  /** The last record of a stream that has been transmitted by now. */
  ghost predicate LatestOnAir(setup: Setup, key: Key, now: Time, target: nat)
    requires Count(setup.truth) == |setup.families|
  {
    && target < Count(setup.truth) && KeyOf(setup, target) == key && Available(setup.truth, target, now)
    && forall r: nat :: r < Count(setup.truth) && KeyOf(setup, r) == key && Available(setup.truth, r, now) ==>
         r == target || Before(setup.truth, r, target)
  }

  /** A channel that has acquired, and a record of its stream among the copies. */
  ghost predicate HasAcquired(setup: Setup, st: NavState, c: nat)
    requires Fits(setup, st) && c < |setup.pairs|
  {
    && st.channels[c].acquired
    && exists r: nat :: r < Count(setup.truth) && KeyOf(setup, r) == setup.pairs[c] && Copied(st.log, r)
  }

  lemma StaysAcquired(setup: Setup, start: Store, st: NavState, e: Epoch, c: nat)
    requires GoodSetup(setup) && Inv(setup, Cold, start, st) && Valid(e.now) && c < |setup.pairs|
    requires HasAcquired(setup, st, c)
    ensures Step(setup, Cold, st, e).Ok? && HasAcquired(setup, Step(setup, Cold, st, e).value, c)
  {
    ColdStep(setup, start, st, e);
    var after := Step(setup, Cold, st, e).value;
    assert ChannelOutcome(setup, st, after, e, c);
    var r: nat :| r < Count(setup.truth) && KeyOf(setup, r) == setup.pairs[c] && Copied(st.log, r);
    CopiedStays(st.log, after.log);
  }

  /** A channel acquires only by copying a record of its stream. */
  lemma {:induction false} AcquiringCopies(setup: Setup, at: Time, epochs: seq<Epoch>, c: nat)
    requires GoodSetup(setup) && Valid(at) && c < |setup.pairs|
    requires forall k :: 0 <= k < |epochs| ==> Valid(epochs[k].now)
    requires Run(setup, Cold, PowerOn(setup, Cold, at), epochs).Ok?
    requires Run(setup, Cold, PowerOn(setup, Cold, at), epochs).value.channels[c].acquired
    ensures HasAcquired(setup, Run(setup, Cold, PowerOn(setup, Cold, at), epochs).value, c)
  {
    if epochs != [] {
      var init, e := epochs[..|epochs| - 1], epochs[|epochs| - 1];
      RunsAreSound(setup, Cold, at, init);
      var start := PowerOn(setup, Cold, at);
      var before := Run(setup, Cold, start, init).value;
      if before.channels[c].acquired {
        AcquiringCopies(setup, at, init, c);
        StaysAcquired(setup, start.receiver, before, e, c);
      } else {
        StepCopies(setup, start.receiver, before, e, c);
      }
    }
  }

  lemma StepCopies(setup: Setup, start: Store, st: NavState, e: Epoch, c: nat)
    requires GoodSetup(setup) && Inv(setup, Cold, start, st) && Valid(e.now) && c < |setup.pairs|
    requires !st.channels[c].acquired && Step(setup, Cold, st, e).Ok?
    requires Step(setup, Cold, st, e).value.channels[c].acquired
    ensures HasAcquired(setup, Step(setup, Cold, st, e).value, c)
  {
    ColdStep(setup, start, st, e);
    assert ChannelOutcome(setup, st, Step(setup, Cold, st, e).value, e, c);
    LatestTargetIsLatest(setup, st, setup.pairs[c], e.now);
  }

  lemma EpochAcquires(setup: Setup, start: Store, st: NavState, e: Epoch, c: nat, k: nat, target: nat, from: int)
    requires GoodSetup(setup) && Inv(setup, Cold, start, st) && Valid(e.now)
    requires c < |setup.pairs| && !st.channels[c].acquired && k < |e.signals|
    requires LatestOnAir(setup, setup.pairs[c], e.now, target)
    requires InTime(setup, e, setup.pairs[c], k, target, from)
    ensures Step(setup, Cold, st, e).Ok? && Step(setup, Cold, st, e).value.channels[c].acquired
  {
    assert ChannelFits(setup, st.delivered, setup.pairs[c], st.channels[c]);
    assert IsLatest(setup, st.delivered, setup.pairs[c], e.now, target);
    BoundedAcquisition(setup, start, st, e, c, k, target, from);
  }

  /** A signal of the family has been tracked, with the record on the air, for a cycle and the longest fragment. */
  ghost predicate InTime(setup: Setup, e: Epoch, key: Key, k: nat, target: nat, from: int)
    requires k < |e.signals| && target < Count(setup.truth) && key.Pair?
  {
    && HeardSince(setup, e.signals[k], key, target, from)
    && TableFor(e.signals[k].id, VariantFor(setup, key, target)).Some?
    && var table := TableFor(e.signals[k].id, VariantFor(setup, key, target)).value;
       Abs(e.now) >= from + table.cycle + LongestDuration(table.slots)
  }

  /** The state before the last epoch of a cold run, and the step to the end. */
  lemma LastStep(setup: Setup, at: Time, epochs: seq<Epoch>) returns (before: NavState)
    requires GoodSetup(setup) && Valid(at) && forall i :: 0 <= i < |epochs| ==> Valid(epochs[i].now)
    requires epochs != []
    ensures Inv(setup, Cold, PowerOn(setup, Cold, at).receiver, before)
    ensures Run(setup, Cold, PowerOn(setup, Cold, at), epochs[..|epochs| - 1]) == Ok(before)
    ensures Run(setup, Cold, PowerOn(setup, Cold, at), epochs) == Step(setup, Cold, before, epochs[|epochs| - 1])
  {
    RunsAreSound(setup, Cold, at, epochs[..|epochs| - 1]);
    before := Run(setup, Cold, PowerOn(setup, Cold, at), epochs[..|epochs| - 1]).value;
  }

  lemma LastEpochAcquires(setup: Setup, at: Time, epochs: seq<Epoch>, c: nat, k: nat, target: nat, from: int)
    requires GoodSetup(setup) && Valid(at) && forall i :: 0 <= i < |epochs| ==> Valid(epochs[i].now)
    requires epochs != [] && c < |setup.pairs|
    requires var e := epochs[|epochs| - 1];
             && k < |e.signals| && LatestOnAir(setup, setup.pairs[c], e.now, target)
             && InTime(setup, e, setup.pairs[c], k, target, from)
    ensures Run(setup, Cold, PowerOn(setup, Cold, at), epochs).Ok?
    ensures HasAcquired(setup, Run(setup, Cold, PowerOn(setup, Cold, at), epochs).value, c)
  {
    var start := PowerOn(setup, Cold, at).receiver;
    var before := LastStep(setup, at, epochs);
    if before.channels[c].acquired {
      AcquiringCopies(setup, at, epochs[..|epochs| - 1], c);
      StaysAcquired(setup, start, before, epochs[|epochs| - 1], c);
    } else {
      EpochAcquires(setup, start, before, epochs[|epochs| - 1], c, k, target, from);
      AcquiringCopies(setup, at, epochs, c);
    }
  }

  /**
   From power-on, over any epochs: once some epoch finds a signal tracking a family, and the latest record of its
   stream on the air, for a cycle and the longest fragment, that channel of a cold receiver has acquired, and has
   a copy of a record of its stream, from then on.
   */
  lemma {:induction false} ColdRunAcquires(setup: Setup, at: Time, epochs: seq<Epoch>, c: nat, j: nat, e: Epoch,
                                           k: nat, target: nat, from: int)
    requires GoodSetup(setup) && Valid(at) && forall i :: 0 <= i < |epochs| ==> Valid(epochs[i].now)
    requires c < |setup.pairs| && j < |epochs| && epochs[j] == e && k < |e.signals|
    requires LatestOnAir(setup, setup.pairs[c], e.now, target) && InTime(setup, e, setup.pairs[c], k, target, from)
    ensures Run(setup, Cold, PowerOn(setup, Cold, at), epochs).Ok?
    ensures HasAcquired(setup, Run(setup, Cold, PowerOn(setup, Cold, at), epochs).value, c)
    decreases |epochs|
  {
    var last := |epochs| - 1;
    if j < last {
      ColdRunAcquires(setup, at, epochs[..last], c, j, e, k, target, from);
      var before := LastStep(setup, at, epochs);
      StaysAcquired(setup, PowerOn(setup, Cold, at).receiver, before, epochs[last], c);
    } else {
      LastEpochAcquires(setup, at, epochs, c, k, target, from);
    }
  }
}
