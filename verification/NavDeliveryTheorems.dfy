/** What holds of every run of the delivery protocol. */
module NavDeliveryTheorems {
  import opened Wrappers
  import opened SimTime
  import opened NavPlan
  import opened NavStore
  import opened NavDelivery

  // ---------- The invariant ----------

  /** Both records are delivered in one stream, a before b. */
  ghost predicate Earlier(setup: Setup, a: nat, b: nat) {
    && |setup.families| == Count(setup.truth) && a < Count(setup.truth) && b < Count(setup.truth)
    && KeyOf(setup, a) != NoKey && KeyOf(setup, a) == KeyOf(setup, b)
    && Before(setup.truth, a, b)
  }

  ghost predicate Copied(log: seq<Event>, r: nat) {
    exists i :: 0 <= i < |log| && log[i].record == r
  }

  /** The delivered records of each stream are a prefix of its schedule. */
  ghost predicate PrefixClosed(setup: Setup, delivered: seq<bool>)
    requires |delivered| == Count(setup.truth)
  {
    forall a: nat, b: nat :: Earlier(setup, a, b) && delivered[b] ==> delivered[a]
  }

  /** No copy is announced before its record was transmitted, nor after the epoch that announces it. */
  ghost predicate NeverEarly(setup: Setup, ev: Event) {
    && ev.record < Count(setup.truth)
    && Abs(Transmit(setup.truth, ev.record)) <= Abs(ev.availability) <= Abs(ev.epoch)
  }

  /**
   Delivered records form prefixes; each is copied at most once, in schedule order,
   never early; and once a stream has copied a record it copies every later one it
   delivers.
   */
  ghost predicate Core(setup: Setup, delivered: seq<bool>, log: seq<Event>) {
    && |delivered| == Count(setup.truth) == |setup.families|
    && PrefixClosed(setup, delivered)
    && (forall i :: 0 <= i < |log| ==>
          NeverEarly(setup, log[i]) && delivered[log[i].record] && KeyOf(setup, log[i].record) != NoKey)
    && (forall i, j :: 0 <= i < j < |log| ==>
          log[i].record != log[j].record
          && (KeyOf(setup, log[i].record) == KeyOf(setup, log[j].record) ==>
                Earlier(setup, log[i].record, log[j].record)))
    && (forall a: nat, b: nat :: Earlier(setup, a, b) && Copied(log, a) && delivered[b] ==> Copied(log, b))
  }

  /** The plan a channel holds is a plan for its target: right slots, right issue of data, no earlier start. */
  ghost predicate PlanFits(setup: Setup, key: Key, target: int, plan: Plan) {
    && 0 <= target < Count(setup.truth) == |setup.families|
    && KeyOf(setup, target) == key
    && plan.issueData == InfoOf(RecordAt(setup.truth, target)).iode
    && Abs(Transmit(setup.truth, target)) <= Abs(plan.acquisition)
    && exists table :: Follows(plan, table)
  }

  /** A cold channel that has not acquired has delivered nothing of its stream. */
  ghost predicate ChannelFits(setup: Setup, delivered: seq<bool>, key: Key, channel: Channel)
    requires |delivered| == Count(setup.truth) == |setup.families|
  {
    && (!channel.acquired ==> forall r: nat :: r < |delivered| && KeyOf(setup, r) == key ==> !delivered[r])
    && (channel.plan.Some? ==> PlanFits(setup, key, channel.target, channel.plan.value))
  }

  ghost predicate ChannelsFit(setup: Setup, st: NavState)
    requires Fits(setup, st)
  {
    forall c :: 0 <= c < |setup.pairs| ==> ChannelFits(setup, st.delivered, setup.pairs[c], st.channels[c])
  }

  /** The receiver's store after the copies of the log, in their order. */
  ghost function Replay(setup: Setup, start: Store, log: seq<Event>): Store
    requires forall i :: 0 <= i < |log| ==> log[i].record < Count(setup.truth)
  {
    if log == [] then start
    else CopyRecord(setup.truth, log[|log| - 1].record, Replay(setup, start, log[..|log| - 1]))
  }

  ghost predicate Inv(setup: Setup, mode: Mode, start: Store, st: NavState) {
    && Fits(setup, st)
    && Core(setup, st.delivered, st.log)
    && Typed(st.receiver)
    && st.receiver == Replay(setup, start, st.log)
    && (mode.Cold? ==> ChannelsFit(setup, st))
  }

  /**
   The log only grows, nothing is undelivered, and every newly delivered record was
   copied or, where `skips` allows it, precedes a copied record of its stream.
   */
  ghost predicate Explained(setup: Setup, skips: bool, before: NavState, after: NavState) {
    && |before.delivered| == |after.delivered| == Count(setup.truth) == |setup.families|
    && before.log <= after.log
    && forall r: nat :: r < |after.delivered| ==>
         (before.delivered[r] ==> after.delivered[r])
         && (after.delivered[r] ==>
               before.delivered[r] || Copied(after.log, r)
               || (skips && exists t: nat :: Copied(after.log, t) && Earlier(setup, r, t)))
  }

  /** An event announced now, for a record that was not delivered before and is now. */
  ghost predicate Announces(before: seq<bool>, after: seq<bool>, ev: Event, now: Time) {
    ev.epoch == now && ev.record < |before| == |after| && !before[ev.record] && after[ev.record]
  }

  /** Every event added to the log announces a record that was not delivered before. */
  ghost predicate LoggedAt(before: NavState, after: NavState, now: Time) {
    && |before.delivered| == |after.delivered| && before.log <= after.log
    && (forall r: nat :: r < |before.delivered| && before.delivered[r] ==> after.delivered[r])
    && forall i :: |before.log| <= i < |after.log| ==> Announces(before.delivered, after.delivered, after.log[i], now)
  }

  lemma LoggedAtTwice(a: NavState, b: NavState, c: NavState, now: Time)
    requires LoggedAt(a, b, now) && LoggedAt(b, c, now)
    ensures LoggedAt(a, c, now)
  {
    forall i | |a.log| <= i < |c.log|
      ensures Announces(a.delivered, c.delivered, c.log[i], now)
    {
      if i < |b.log| {
        assert c.log[i] == b.log[i];
      }
    }
  }

  lemma CopiedStays(before: seq<Event>, after: seq<Event>)
    requires before <= after
    ensures forall r: nat :: Copied(before, r) ==> Copied(after, r)
  {
    forall r: nat | Copied(before, r)
      ensures Copied(after, r)
    {
      var i :| 0 <= i < |before| && before[i].record == r;
      assert after[i].record == r;
    }
  }

  lemma ExplainedTwice(setup: Setup, skips: bool, a: NavState, b: NavState, c: NavState)
    requires Explained(setup, skips, a, b) && Explained(setup, skips, b, c)
    ensures Explained(setup, skips, a, c)
  {
    CopiedStays(b.log, c.log);
  }

  // ---------- The schedule order ----------

  lemma BeforeIsTotal(truth: Store, a: nat, b: nat)
    requires a < Count(truth) && b < Count(truth)
    ensures a == b || Before(truth, a, b) || Before(truth, b, a)
    ensures !(Before(truth, a, b) && Before(truth, b, a)) && !Before(truth, a, a)
  {
  }

  lemma AvailableIsByTime(truth: Store, r: nat, now: Time)
    requires r < Count(truth) && Typed(truth) && Valid(now)
    ensures Valid(Transmit(truth, r))
    ensures Available(truth, r, now) <==> Abs(Transmit(truth, r)) <= Abs(now)
  {
    CompareIsOrder(Transmit(truth, r), now);
  }

  /** A record before another one is available no later. */
  lemma AvailableBefore(truth: Store, a: nat, b: nat, now: Time)
    requires a < Count(truth) && b < Count(truth) && Typed(truth) && Valid(now)
    requires Before(truth, a, b) && Available(truth, b, now)
    ensures Available(truth, a, now)
  {
    AvailableIsByTime(truth, a, now);
    AvailableIsByTime(truth, b, now);
  }

  // ---------- One copy ----------

  lemma CopiedMore(log: seq<Event>, ev: Event)
    ensures forall r: nat :: Copied(log + [ev], r) <==> Copied(log, r) || r == ev.record
  {
    forall r: nat
      ensures Copied(log + [ev], r) <==> Copied(log, r) || r == ev.record
    {
      if Copied(log, r) {
        var i :| 0 <= i < |log| && log[i].record == r;
        assert (log + [ev])[i].record == r;
      }
      assert (log + [ev])[|log|] == ev;
      if Copied(log + [ev], r) && r != ev.record {
        var i :| 0 <= i < |log + [ev]| && (log + [ev])[i].record == r;
        assert log[i].record == r;
      }
    }
  }

  /** Copying the next record of a stream keeps the invariant. */
  lemma CopyKeepsCore(setup: Setup, delivered: seq<bool>, log: seq<Event>, ev: Event)
    requires Core(setup, delivered, log) && NeverEarly(setup, ev)
    requires !delivered[ev.record] && KeyOf(setup, ev.record) != NoKey
    requires forall a: nat :: Earlier(setup, a, ev.record) ==> delivered[a]
    ensures Core(setup, delivered[ev.record := true], log + [ev])
  {
    var after, r := delivered[ev.record := true], ev.record;
    CopiedMore(log, ev);
    forall i | 0 <= i < |log|
      ensures log[i].record != r
      ensures KeyOf(setup, log[i].record) == KeyOf(setup, r) ==> Earlier(setup, log[i].record, r)
    {
      BeforeIsTotal(setup.truth, log[i].record, r);
      assert !Earlier(setup, r, log[i].record);
    }
    forall a: nat, b: nat | Earlier(setup, a, b) && Copied(log + [ev], a) && after[b]
      ensures Copied(log + [ev], b)
    {
      BeforeIsTotal(setup.truth, a, b);
      assert !(Earlier(setup, r, b) && delivered[b]);
    }
  }

  /**
   Taking the latest record of a stream of which nothing is delivered yet, and
   marking the earlier ones, keeps the invariant.
   */
  lemma AcquireKeepsCore(setup: Setup, delivered: seq<bool>, after: seq<bool>, log: seq<Event>, ev: Event)
    requires Core(setup, delivered, log) && NeverEarly(setup, ev)
    requires KeyOf(setup, ev.record) != NoKey
    requires forall r: nat :: r < |delivered| && KeyOf(setup, r) == KeyOf(setup, ev.record) ==> !delivered[r]
    requires |after| == |delivered|
    requires forall r: nat :: r < |after| ==>
               (after[r] <==> if KeyOf(setup, r) == KeyOf(setup, ev.record)
                              then r == ev.record || Earlier(setup, r, ev.record)
                              else delivered[r])
    ensures Core(setup, after, log + [ev])
  {
    CopiedMore(log, ev);
    forall a: nat, b: nat | Earlier(setup, a, b) && after[b]
      ensures after[a]
      ensures Copied(log + [ev], a) ==> Copied(log + [ev], b)
    {
      BeforeIsTotal(setup.truth, a, b);
      BeforeIsTotal(setup.truth, a, ev.record);
      if KeyOf(setup, a) == KeyOf(setup, ev.record) {
        assert !Copied(log, a);
      }
    }
  }

  /**
   Copying never fails, and the index it reports holds the record just copied.
   */
  lemma ApplySucceeds(setup: Setup, mode: Mode, start: Store, st: NavState, r: nat, availability: Time, epoch: Time)
    requires Inv(setup, mode, start, st) && Typed(setup.truth)
    requires Valid(availability) && r < Count(setup.truth) && !st.delivered[r]
    ensures var applied := Apply(setup, st, r, availability, epoch);
            && applied.Ok? && applied.value.emitted
            && var after := applied.value.state;
            && after.delivered == st.delivered[r := true]
            && |after.log| == |st.log| + 1 && after.log[..|st.log|] == st.log
            && var ev := after.log[|st.log|];
            && ev.record == r && ev.availability == availability && ev.epoch == epoch
            && 0 <= ev.receiverIndex < Count(after.receiver)
            && RecordAt(after.receiver, ev.receiverIndex) == RecordAt(setup.truth, r)
            && Typed(after.receiver)
            && after.receiver == Replay(setup, start, after.log)
            && after.log == st.log + [ev]
  {
    CopiedRecordIsFound(setup.truth, r, st.receiver);
    var after := Apply(setup, st, r, availability, epoch).value.state;
    assert after.log[..|after.log| - 1] == st.log;
  }

  // ---------- Streaming ----------

  /** Every wanted record before schedule position i is delivered. */
  ghost predicate StreamedTo(setup: Setup, delivered: seq<bool>, now: Time, want: set<Key>, i: nat)
    requires i <= |setup.schedule| && |delivered| == Count(setup.truth) == |setup.families|
    requires forall k :: 0 <= k < |setup.schedule| ==> setup.schedule[k] < Count(setup.truth)
  {
    forall k :: 0 <= k < i && KeyOf(setup, setup.schedule[k]) in want ==> delivered[setup.schedule[k]]
  }

  /** Only records of wanted streams, available now, are delivered between the two. */
  ghost predicate StreamedOnly(setup: Setup, before: seq<bool>, after: seq<bool>, now: Time, want: set<Key>)
    requires |before| == |after| == Count(setup.truth) == |setup.families|
  {
    forall r: nat :: r < |before| ==>
      (before[r] ==> after[r])
      && (after[r] && !before[r] ==> KeyOf(setup, r) in want && Available(setup.truth, r, now))
  }

  /** The records the schedule puts before position i are those before it in the schedule order. */
  lemma BeforeIsEarlierPosition(setup: Setup, i: nat, a: nat) returns (k: nat)
    requires GoodSetup(setup) && i < |setup.schedule| && a < Count(setup.truth)
    requires Before(setup.truth, a, setup.schedule[i])
    ensures k < i && setup.schedule[k] == a
  {
    assert a in setup.schedule;
    k :| 0 <= k < |setup.schedule| && setup.schedule[k] == a;
    BeforeIsTotal(setup.truth, a, setup.schedule[i]);
    assert InOrder(setup.truth, setup.schedule, i, k);
  }

  /**
   What streaming does: the invariant is kept, other streams are left alone, and
   every available record of the wanted streams is delivered.
   */
  ghost predicate Streamed(setup: Setup, start: Store, st: NavState, after: NavState, now: Time, want: set<Key>) {
    && |st.delivered| == Count(setup.truth)
    && Inv(setup, Hot, start, after)
    && StreamedOnly(setup, st.delivered, after.delivered, now, want)
    && Explained(setup, false, st, after)
    && LoggedAt(st, after, now) && AtOnce(st.log, after.log, now)
    && (forall a: nat :: a < Count(setup.truth) && KeyOf(setup, a) in want && Available(setup.truth, a, now)
          ==> after.delivered[a])
  }

  /** Every event added to the log is for a record received whole at this epoch. */
  ghost predicate AtOnce(before: seq<Event>, after: seq<Event>, now: Time) {
    before <= after && forall i :: |before| <= i < |after| ==> after[i].availability == now
  }

  lemma AtOnceTwice(a: seq<Event>, b: seq<Event>, c: seq<Event>, now: Time)
    requires AtOnce(a, b, now) && AtOnce(b, c, now)
    ensures AtOnce(a, c, now)
  {
    assert forall i :: |a| <= i < |b| ==> c[i] == b[i];
  }

  lemma StreamedOnlyTwice(setup: Setup, a: seq<bool>, b: seq<bool>, c: seq<bool>, now: Time, want: set<Key>)
    requires |a| == |b| == |c| == Count(setup.truth) == |setup.families|
    requires StreamedOnly(setup, a, b, now, want) && StreamedOnly(setup, b, c, now, want)
    ensures StreamedOnly(setup, a, c, now, want)
  {
  }

  /** Streaming never fails and does what `Streamed` says. */
  lemma {:induction false} StreamKeepsInv(setup: Setup, start: Store, st: NavState, now: Time, want: set<Key>, i: nat)
    requires GoodSetup(setup) && Inv(setup, Hot, start, st) && Valid(now) && NoKey !in want
    requires i <= |setup.schedule| && StreamedTo(setup, st.delivered, now, want, i)
    ensures Stream(setup, st, now, want, i).Ok?
    ensures Streamed(setup, start, st, Stream(setup, st, now, want, i).value, now, want)
    decreases |setup.schedule| - i
  {
    if i == |setup.schedule| || !Available(setup.truth, setup.schedule[i], now) {
      StreamStops(setup, start, st, now, want, i);
    } else {
      StreamOneKeepsInv(setup, start, st, now, want, i);
      var next := StreamOne(setup, st, now, want, i).value;
      StreamKeepsInv(setup, start, next, now, want, i + 1);
      var after := Stream(setup, next, now, want, i + 1).value;
      assert Stream(setup, st, now, want, i) == Ok(after);
      StreamedFurther(setup, start, st, next, after, now, want);
    }
  }

  lemma StreamedFurther(setup: Setup, start: Store, st: NavState, next: NavState, after: NavState, now: Time,
                        want: set<Key>)
    requires OneStreamed(setup, st, next, now, want) && Streamed(setup, start, next, after, now, want)
    ensures Streamed(setup, start, st, after, now, want)
  {
    ExplainedTwice(setup, false, st, next, after);
    LoggedAtTwice(st, next, after, now);
    AtOnceTwice(st.log, next.log, after.log, now);
    StreamedOnlyTwice(setup, st.delivered, next.delivered, after.delivered, now, want);
  }

  /** What one position of the walk does. */
  ghost predicate OneStreamed(setup: Setup, st: NavState, next: NavState, now: Time, want: set<Key>)
  {
    && |st.delivered| == |next.delivered| == Count(setup.truth) == |setup.families|
    && StreamedOnly(setup, st.delivered, next.delivered, now, want)
    && Explained(setup, false, st, next)
    && LoggedAt(st, next, now) && AtOnce(st.log, next.log, now)
  }

  lemma NothingStreamed(setup: Setup, st: NavState, now: Time, want: set<Key>, i: nat)
    requires Fits(setup, st) && i < |setup.schedule| && StreamedTo(setup, st.delivered, now, want, i)
    requires KeyOf(setup, setup.schedule[i]) in want ==> st.delivered[setup.schedule[i]]
    ensures OneStreamed(setup, st, st, now, want) && StreamedTo(setup, st.delivered, now, want, i + 1)
  {
  }

  lemma EarlierAreStreamed(setup: Setup, st: NavState, now: Time, want: set<Key>, i: nat)
    requires GoodSetup(setup) && Fits(setup, st) && i < |setup.schedule|
    requires StreamedTo(setup, st.delivered, now, want, i) && KeyOf(setup, setup.schedule[i]) in want
    ensures forall a: nat :: Earlier(setup, a, setup.schedule[i]) ==> st.delivered[a]
  {
    forall a: nat | Earlier(setup, a, setup.schedule[i])
      ensures st.delivered[a]
    {
      var k := BeforeIsEarlierPosition(setup, i, a);
    }
  }

  /** Delivering one record and logging it is all that happens to the streams. */
  lemma DeliveredOne(setup: Setup, st: NavState, next: NavState, now: Time, want: set<Key>, i: nat, ev: Event)
    requires Fits(setup, st) && i < |setup.schedule| && StreamedTo(setup, st.delivered, now, want, i)
    requires var r := setup.schedule[i];
             && next.delivered == st.delivered[r := true] && ev.record == r
             && !st.delivered[r] && KeyOf(setup, r) in want && Available(setup.truth, r, now)
    requires next.log == st.log + [ev] && ev.epoch == now && ev.availability == now
    ensures StreamedTo(setup, next.delivered, now, want, i + 1)
    ensures OneStreamed(setup, st, next, now, want)
  {
    CopiedMore(st.log, ev);
  }

  /** Copying the next record of a stream. */
  lemma CopyNextKeepsInv(setup: Setup, start: Store, st: NavState, now: Time, r: nat) returns (ev: Event)
    requires GoodSetup(setup) && Inv(setup, Hot, start, st) && Valid(now)
    requires r < |st.delivered| && !st.delivered[r] && KeyOf(setup, r) != NoKey && Available(setup.truth, r, now)
    requires forall a: nat :: Earlier(setup, a, r) ==> st.delivered[a]
    ensures Apply(setup, st, r, now, now).Ok?
    ensures var next := Apply(setup, st, r, now, now).value.state;
            && Inv(setup, Hot, start, next)
            && next.delivered == st.delivered[r := true]
            && next.log == st.log + [ev] && ev.record == r && ev.epoch == now && ev.availability == now
  {
    AvailableIsByTime(setup.truth, r, now);
    ApplySucceeds(setup, Hot, start, st, r, now, now);
    ev := Apply(setup, st, r, now, now).value.state.log[|st.log|];
    CopyKeepsCore(setup, st.delivered, st.log, ev);
  }

  lemma StreamOneKeepsInv(setup: Setup, start: Store, st: NavState, now: Time, want: set<Key>, i: nat)
    requires GoodSetup(setup) && Inv(setup, Hot, start, st) && Valid(now) && NoKey !in want
    requires i < |setup.schedule| && StreamedTo(setup, st.delivered, now, want, i)
    requires Available(setup.truth, setup.schedule[i], now)
    ensures StreamOne(setup, st, now, want, i).Ok?
    ensures var next := StreamOne(setup, st, now, want, i).value;
            && Inv(setup, Hot, start, next)
            && StreamedTo(setup, next.delivered, now, want, i + 1)
            && OneStreamed(setup, st, next, now, want)
  {
    var r := setup.schedule[i];
    if KeyOf(setup, r) in want && !st.delivered[r] {
      EarlierAreStreamed(setup, st, now, want, i);
      var ev := CopyNextKeepsInv(setup, start, st, now, r);
      DeliveredOne(setup, st, Apply(setup, st, r, now, now).value.state, now, want, i, ev);
    } else {
      NothingStreamed(setup, st, now, want, i);
    }
  }

  lemma StreamStops(setup: Setup, start: Store, st: NavState, now: Time, want: set<Key>, i: nat)
    requires GoodSetup(setup) && Inv(setup, Hot, start, st) && Valid(now)
    requires i <= |setup.schedule| && StreamedTo(setup, st.delivered, now, want, i)
    requires i < |setup.schedule| ==> !Available(setup.truth, setup.schedule[i], now)
    ensures Streamed(setup, start, st, st, now, want)
  {
    forall a: nat | a < Count(setup.truth) && KeyOf(setup, a) in want && Available(setup.truth, a, now)
      ensures st.delivered[a]
    {
      assert a in setup.schedule;
      var k :| 0 <= k < |setup.schedule| && setup.schedule[k] == a;
      if k >= i {
        NothingAvailableFrom(setup, now, i, a);
      }
    }
  }

  // ---------- Aiming at the latest record ----------

  ghost predicate AtOrAfter(setup: Setup, i: nat, r: nat) {
    exists k :: i <= k < |setup.schedule| && setup.schedule[k] == r
  }

  /** `t` is the latest record of the key that is available and not delivered. */
  ghost predicate IsLatest(setup: Setup, delivered: seq<bool>, key: Key, now: Time, t: nat)
    requires |delivered| == Count(setup.truth) == |setup.families|
  {
    && t < |delivered| && Pending(setup, delivered, key, now, t)
    && forall r: nat :: r < |delivered| && Pending(setup, delivered, key, now, r) ==>
        r == t || Before(setup.truth, r, t)
  }

  ghost predicate Pending(setup: Setup, delivered: seq<bool>, key: Key, now: Time, r: nat)
    requires r < |delivered| == Count(setup.truth) == |setup.families|
  {
    KeyOf(setup, r) == key && Available(setup.truth, r, now) && !delivered[r]
  }

  /** Past the first record not yet transmitted, none is available. */
  lemma NothingAvailableFrom(setup: Setup, now: Time, i: nat, r: nat)
    requires GoodSetup(setup) && Valid(now) && AtOrAfter(setup, i, r)
    requires !Available(setup.truth, setup.schedule[i], now)
    ensures !Available(setup.truth, r, now)
  {
    var k :| i <= k < |setup.schedule| && setup.schedule[k] == r;
    assert InOrder(setup.truth, setup.schedule, i, k);
    if k > i && Available(setup.truth, r, now) {
      AvailableBefore(setup.truth, setup.schedule[i], r, now);
    }
  }

  lemma {:induction false} LatestTargetFrom(setup: Setup, st: NavState, key: Key, now: Time, i: nat)
    requires GoodSetup(setup) && Fits(setup, st) && Valid(now) && i <= |setup.schedule|
    ensures var t := LatestTarget(setup, st, key, now, i);
            forall r: nat ::
              r < |st.delivered| && AtOrAfter(setup, i, r) && Pending(setup, st.delivered, key, now, r) ==>
              t.Some? && (r == t.value || Before(setup.truth, r, t.value))
    ensures var t := LatestTarget(setup, st, key, now, i);
            t.Some? ==> AtOrAfter(setup, i, t.value)
    decreases |setup.schedule| - i
  {
    if i < |setup.schedule| && Available(setup.truth, setup.schedule[i], now) {
      LatestTargetFrom(setup, st, key, now, i + 1);
      forall r: nat | r < |st.delivered| && AtOrAfter(setup, i + 1, r)
        ensures Before(setup.truth, setup.schedule[i], r)
      {
        var k :| i + 1 <= k < |setup.schedule| && setup.schedule[k] == r;
        assert InOrder(setup.truth, setup.schedule, i, k);
      }
    } else if i < |setup.schedule| {
      forall r: nat | r < |st.delivered| && AtOrAfter(setup, i, r)
        ensures !Available(setup.truth, r, now)
      {
        NothingAvailableFrom(setup, now, i, r);
      }
    }
  }

  /** The cold target is the latest pending record of its stream, and there is one unless none is pending. */
  lemma LatestTargetIsLatest(setup: Setup, st: NavState, key: Key, now: Time)
    requires GoodSetup(setup) && Fits(setup, st) && Valid(now)
    ensures var t := LatestTarget(setup, st, key, now, 0);
            if t.Some? then IsLatest(setup, st.delivered, key, now, t.value)
            else forall r: nat :: r < |st.delivered| ==> !Pending(setup, st.delivered, key, now, r)
  {
    LatestTargetFrom(setup, st, key, now, 0);
    forall r: nat | r < |st.delivered|
      ensures AtOrAfter(setup, 0, r)
    {
      assert r in setup.schedule;
    }
  }

  // ---------- Plans ----------

  /** The signal is tracking and carries the stream; every signal carries the ionosphere. */
  predicate Carries(v: Signal, key: Key) {
    v.tracking
    && match key
       case NoKey => false
       case IonKey => true
       case Pair(satellite, family) => v.satellite == satellite && FamilyOf(v.id) == family
  }

  ghost predicate Heard(e: Epoch, key: Key) { exists v :: v in e.signals && Carries(v, key) }

  /** The later of the signal's lock and the record's transmission. */
  function ListensFrom(setup: Setup, v: Signal, target: nat): int
    requires target < Count(setup.truth)
  {
    var (lock, sent) := (Abs(v.trackingStart), Abs(Transmit(setup.truth, target)));
    if lock > sent then lock else sent
  }

  /** The tracking signal carries the stream, and has heard all of the record's message at this instant. */
  ghost predicate HearsAll(setup: Setup, v: Signal, key: Key, target: nat, at: int)
    requires target < Count(setup.truth) && key.Pair?
  {
    && Carries(v, key) && TableFor(v.id, VariantFor(setup, key, target)).Some?
    && var table := TableFor(v.id, VariantFor(setup, key, target)).value;
       WellFormed(table) && AllHeardAt(table, ListensFrom(setup, v, target), at)
  }

  /** Some signal of the epoch will have heard all of the record's message at this instant. */
  ghost predicate Offered(setup: Setup, e: Epoch, key: Key, target: nat, at: int)
    requires target < Count(setup.truth) && key.Pair?
  {
    Representable(at) && exists v :: v in e.signals && HearsAll(setup, v, key, target, at)
  }

  /**
   A signal that offers a plan is tracking and carries the family; the plan starts at the later of lock and
   transmission, carries the record's issue of data, and is available when the whole message has been heard.
   */
  lemma CandidateOffers(setup: Setup, v: Signal, key: Key, target: nat)
    requires GoodSetup(setup) && target < Count(setup.truth) && key.Pair? && KeyOf(setup, target) == key
    requires Candidate(setup, v, key, target).Some?
    ensures var p := Candidate(setup, v, key, target).value;
            && PlanFits(setup, key, target, p) && p.signal == v.id && Valid(p.availability)
            && Abs(p.acquisition) == ListensFrom(setup, v, target)
            && HearsAll(setup, v, key, target, Abs(p.availability))
  {
    var transmit := Transmit(setup.truth, target);
    var p := Candidate(setup, v, key, target).value;
    var acquisition := if Compare(v.trackingStart, transmit) > 0 then v.trackingStart else transmit;
    CompareIsOrder(v.trackingStart, transmit);
    var asked := VariantFor(setup, key, target);
    PlanMeaning(v.id, asked, acquisition, InfoOf(RecordAt(setup.truth, target)).iode);
    var table := TableFor(v.id, asked).value;
    assert Follows(p, table);
  }

  /** A tracking signal whose whole message ends in representable time offers a plan for just that instant. */
  lemma OfferHasPlan(setup: Setup, v: Signal, key: Key, target: nat, at: int)
    requires GoodSetup(setup) && target < Count(setup.truth) && key.Pair?
    requires HearsAll(setup, v, key, target, at) && Representable(at)
    ensures Candidate(setup, v, key, target).Some?
    ensures Abs(Candidate(setup, v, key, target).value.availability) == at
  {
    var transmit := Transmit(setup.truth, target);
    var acquisition := if Compare(v.trackingStart, transmit) > 0 then v.trackingStart else transmit;
    CompareIsOrder(v.trackingStart, transmit);
    var asked := VariantFor(setup, key, target);
    PlanMeaning(v.id, asked, acquisition, InfoOf(RecordAt(setup.truth, target)).iode);
    var table := TableFor(v.id, asked).value;
    forall i | 0 <= i < |table.slots|
      ensures Representable(SlotEnd(Abs(acquisition), table, i))
    {
      assert SlotEnd(Abs(acquisition), table, i) <= at;
    }
    assert AllHeardAt(table, ListensFrom(setup, v, target), Abs(Candidate(setup, v, key, target).value.availability));
  }

  /** The whole message takes at least its total duration, and less than a cycle and its longest fragment. */
  lemma HearsAllBounds(table: Table, from: int, at: int)
    requires WellFormed(table) && AllHeardAt(table, from, at)
    ensures from + TotalDuration(table.slots) <= at < from + table.cycle + LongestDuration(table.slots)
  {
    LongestIsMax(table.slots);
    SlotsNeedTotalDuration(from, table);
  }

  ghost predicate PlanFitsIfAny(setup: Setup, key: Key, target: int, plan: Option<Plan>) {
    plan.Some? ==> PlanFits(setup, key, target, plan.value)
  }

  ghost predicate NoLater(p: Option<Plan>, q: Option<Plan>) {
    q.Some? ==> p.Some? && Abs(p.value.availability) <= Abs(q.value.availability)
  }

  lemma BetterPlanIsBetter(setup: Setup, key: Key, target: int, best: Option<Plan>, candidate: Option<Plan>)
    requires PlanFitsIfAny(setup, key, target, best) && PlanFitsIfAny(setup, key, target, candidate)
    ensures var better := BetterPlan(best, candidate);
            PlanFitsIfAny(setup, key, target, better) && NoLater(better, best) && NoLater(better, candidate)
  {
    if best.Some? && candidate.Some? {
      CompareIsOrder(candidate.value.availability, best.value.availability);
    }
  }

  /** The best of fitting plans fits, and none of them is available before it. */
  lemma {:induction false} BestPlanIsBest(setup: Setup, key: Key, target: int, candidates: seq<Option<Plan>>)
    requires forall k :: 0 <= k < |candidates| ==> PlanFitsIfAny(setup, key, target, candidates[k])
    ensures PlanFitsIfAny(setup, key, target, BestPlan(candidates))
    ensures forall k :: 0 <= k < |candidates| ==> NoLater(BestPlan(candidates), candidates[k])
  {
    if candidates != [] {
      var init, last := candidates[..|candidates| - 1], candidates[|candidates| - 1];
      BestPlanIsBest(setup, key, target, init);
      BetterPlanIsBetter(setup, key, target, BestPlan(init), last);
      forall k | 0 <= k < |init|
        ensures NoLater(BestPlan(candidates), candidates[k])
      {
        assert NoLater(BestPlan(init), init[k]);
      }
    }
  }

  /** A plan, if any, that is available only later. */
  ghost predicate Later(p: Option<Plan>, q: Option<Plan>) {
    p.Some? && q.Some? ==> Abs(p.value.availability) > Abs(q.value.availability)
  }

  /** The best of some fitting plans is one of them: the first of those that none is available before. */
  lemma {:induction false} BestPlanIsFirst(setup: Setup, key: Key, target: int, candidates: seq<Option<Plan>>)
    returns (k: nat)
    requires forall j :: 0 <= j < |candidates| ==> PlanFitsIfAny(setup, key, target, candidates[j])
    requires BestPlan(candidates).Some?
    ensures k < |candidates| && candidates[k] == BestPlan(candidates)
    ensures forall j :: 0 <= j < k ==> Later(candidates[j], candidates[k])
  {
    var init, last := candidates[..|candidates| - 1], candidates[|candidates| - 1];
    BestPlanIsBest(setup, key, target, init);
    if BestPlan(init).Some? {
      k := BestPlanIsFirst(setup, key, target, init);
      if last.Some? {
        CompareIsOrder(last.value.availability, BestPlan(init).value.availability);
        if Compare(last.value.availability, BestPlan(init).value.availability) < 0 {
          FirstOfBetter(init, BestPlan(init), last);
          k := |init|;
        }
      }
    } else {
      FirstOfBetter(init, BestPlan(init), last);
      k := |init|;
    }
  }

  lemma FirstOfBetter(init: seq<Option<Plan>>, best: Option<Plan>, last: Option<Plan>)
    requires last.Some? && (best.Some? ==> Abs(best.value.availability) > Abs(last.value.availability))
    requires forall j :: 0 <= j < |init| ==> NoLater(best, init[j])
    ensures forall j :: 0 <= j < |init| ==> Later(init[j], last)
  {
    forall j | 0 <= j < |init|
      ensures Later(init[j], last)
    {
      assert NoLater(best, init[j]);
    }
  }

  lemma CandidatesFit(setup: Setup, signals: seq<Signal>, key: Key, target: nat)
    requires GoodSetup(setup) && target < Count(setup.truth) && key.Pair? && KeyOf(setup, target) == key
    ensures forall k :: 0 <= k < |signals| ==>
              PlanFitsIfAny(setup, key, target, Candidates(setup, signals, key, target)[k])
  {
    forall k | 0 <= k < |signals|
      ensures PlanFitsIfAny(setup, key, target, Candidates(setup, signals, key, target)[k])
    {
      if Candidate(setup, signals[k], key, target).Some? {
        CandidateOffers(setup, signals[k], key, target);
      }
    }
  }

  /** After being offered a fitting candidate, a channel holds a fitting plan available no later than the candidate. */
  lemma RetargetFits(setup: Setup, key: Key, channel: Channel, target: nat, candidate: Plan)
    requires channel.plan.Some? ==> PlanFits(setup, key, channel.target, channel.plan.value)
    requires PlanFits(setup, key, target, candidate)
    ensures var aimed := Retarget(channel, target, candidate);
            && aimed.plan.Some? && aimed.target == target && aimed.acquired == channel.acquired
            && PlanFits(setup, key, target, aimed.plan.value)
            && Abs(aimed.plan.value.availability) <= Abs(candidate.availability)
  {
    if channel.plan.Some? {
      CompareIsOrder(candidate.availability, channel.plan.value.availability);
    }
  }

  // ---------- Delivering the target ----------

  lemma FittingPlanCompletes(setup: Setup, key: Key, target: nat, plan: Plan, now: Time)
    requires PlanFits(setup, key, target, plan) && Valid(now)
    ensures Valid(plan.availability) && Abs(plan.acquisition) <= Abs(plan.availability)
    ensures Complete(plan, now) <==> Abs(plan.availability) <= Abs(now)
  {
    var table :| Follows(plan, table);
    CompleteIffAvailable(plan, table, now);
  }

  /** What suppression delivers: the other records of the target's stream transmitted no later than it. */
  lemma {:induction false} SuppressEffect(setup: Setup, st: NavState, target: nat, i: nat)
    requires GoodSetup(setup) && Fits(setup, st) && target < Count(setup.truth) && i <= |setup.schedule|
    requires KeyOf(setup, target).Pair?
    ensures var after := Suppress(setup, st, target, i).delivered;
            |after| == |st.delivered|
            && forall r: nat :: r < |after| ==>
                 (after[r] <==> st.delivered[r]
                                || (r != target && KeyOf(setup, r) == KeyOf(setup, target) && AtOrAfter(setup, i, r)
                                    && Abs(Transmit(setup.truth, r)) <= Abs(Transmit(setup.truth, target))))
    decreases |setup.schedule| - i
  {
    if i < |setup.schedule| {
      var s := setup.schedule[i];
      CompareIsOrder(Transmit(setup.truth, s), Transmit(setup.truth, target));
      if Compare(Transmit(setup.truth, s), Transmit(setup.truth, target)) > 0 {
        forall r: nat | r < |st.delivered| && AtOrAfter(setup, i, r)
          ensures Abs(Transmit(setup.truth, r)) > Abs(Transmit(setup.truth, target))
        {
          var k :| i <= k < |setup.schedule| && setup.schedule[k] == r;
          assert InOrder(setup.truth, setup.schedule, i, k);
        }
      } else {
        var st1 :=
          if s != target && KeyOf(setup, s) == KeyOf(setup, target) && !st.delivered[s]
          then st.(delivered := st.delivered[s := true]) else st;
        SuppressEffect(setup, st1, target, i + 1);
        forall r: nat | r < |st.delivered|
          ensures AtOrAfter(setup, i, r) <==> r == s || AtOrAfter(setup, i + 1, r)
        {
        }
      }
    }
  }

  /** The delivered records after acquiring a target, stream by stream. */
  ghost predicate AcquiredUpTo(setup: Setup, before: seq<bool>, after: seq<bool>, target: nat)
    requires |before| == |after| == Count(setup.truth) == |setup.families| && target < |before|
  {
    forall r: nat :: r < |after| ==>
      (after[r] <==>
       if KeyOf(setup, r) == KeyOf(setup, target) then r == target || Earlier(setup, r, target) else before[r])
  }

  /** Delivering the latest target and suppressing the rest delivers exactly the stream up to the target. */
  lemma SuppressMakesPrefix(setup: Setup, before: seq<bool>, st: NavState, key: Key, now: Time, target: nat)
    requires GoodSetup(setup) && Fits(setup, st) && Valid(now) && |before| == |st.delivered| && key.Pair?
    requires IsLatest(setup, before, key, now, target) && st.delivered == before[target := true]
    requires forall r: nat :: r < |before| && KeyOf(setup, r) == key ==> !before[r]
    ensures AcquiredUpTo(setup, before, Suppress(setup, st, target, 0).delivered, target)
  {
    SuppressEffect(setup, st, target, 0);
    AvailableIsByTime(setup.truth, target, now);
    forall r: nat | r < |before|
      ensures AtOrAfter(setup, 0, r)
      ensures r != target && KeyOf(setup, r) == key ==>
                (Abs(Transmit(setup.truth, r)) <= Abs(Transmit(setup.truth, target)) <==> Earlier(setup, r, target))
    {
      assert r in setup.schedule;
      AvailableIsByTime(setup.truth, r, now);
      BeforeIsTotal(setup.truth, r, target);
      assert KeyOf(setup, r) == key && Available(setup.truth, r, now) ==> Pending(setup, before, key, now, r);
    }
  }

  // ---------- One cold channel ----------

  /** Nothing changes for the streams of other channels. */
  ghost predicate OnlyChannel(setup: Setup, st: NavState, after: NavState, c: nat)
    requires Fits(setup, st) && Fits(setup, after) && c < |setup.pairs|
  {
    && (forall d :: 0 <= d < |setup.pairs| && d != c ==> after.channels[d] == st.channels[d])
    && (forall r: nat :: r < |st.delivered| && KeyOf(setup, r) != setup.pairs[c] ==>
        after.delivered[r] == st.delivered[r])
  }

  /** Changes to one stream leave the other cold channels fitting. */
  lemma OtherChannelsFit(setup: Setup, st: NavState, after: NavState, c: nat)
    requires GoodSetup(setup) && Fits(setup, st) && Fits(setup, after) && c < |setup.pairs|
    requires ChannelsFit(setup, st) && OnlyChannel(setup, st, after, c)
    requires ChannelFits(setup, after.delivered, setup.pairs[c], after.channels[c])
    ensures ChannelsFit(setup, after)
  {
    forall d | 0 <= d < |setup.pairs|
      ensures ChannelFits(setup, after.delivered, setup.pairs[d], after.channels[d])
    {
      if d != c {
        assert ChannelFits(setup, st.delivered, setup.pairs[d], st.channels[d]);
      }
    }
  }

  /** Delivering a fitting plan never fails: in particular its issue of data always matches the record's. */
  lemma DeliverSucceeds(setup: Setup, start: Store, st: NavState, key: Key, target: nat, plan: Plan, now: Time)
    requires GoodSetup(setup) && Inv(setup, Hot, start, st) && Valid(now) && key.Pair?
    requires PlanFits(setup, key, target, plan) && !st.delivered[target]
    ensures var r := Deliver(setup, st, plan, target, now);
            && r.Ok?
            && (r.value.emitted <==> Abs(plan.availability) <= Abs(now))
            && (!r.value.emitted ==> r.value.state == st)
            && (r.value.emitted ==> r == Apply(setup, st, target, plan.availability, now))
  {
    FittingPlanCompletes(setup, key, target, plan, now);
    ApplySucceeds(setup, Hot, start, st, target, plan.availability, now);
  }

  /** What one cold channel does in an epoch: it never breaks the invariant and touches only its own stream. */
  ghost predicate ChannelStep(setup: Setup, start: Store, st: NavState, after: NavState, now: Time, c: nat)
    requires Fits(setup, st) && c < |setup.pairs|
  {
    && Inv(setup, Cold, start, after) && OnlyChannel(setup, st, after, c)
    && Explained(setup, true, st, after) && LoggedAt(st, after, now)
  }

  /** Delivering a stream up to a target touches no other stream. */
  lemma AcquireTouchesOne(setup: Setup, st: NavState, after: NavState, c: nat, target: nat)
    requires Fits(setup, st) && Fits(setup, after) && c < |setup.pairs| && target < |st.delivered|
    requires KeyOf(setup, target) == setup.pairs[c] && AcquiredUpTo(setup, st.delivered, after.delivered, target)
    requires after.channels == st.channels[c := after.channels[c]]
    ensures OnlyChannel(setup, st, after, c)
  {
  }

  lemma AcquireIsExplained(setup: Setup, st: NavState, after: NavState, ev: Event)
    requires Fits(setup, st) && Fits(setup, after) && ev.record < |st.delivered|
    requires AcquiredUpTo(setup, st.delivered, after.delivered, ev.record) && after.log == st.log + [ev]
    requires forall r: nat :: r < |st.delivered| && KeyOf(setup, r) == KeyOf(setup, ev.record) ==> !st.delivered[r]
    ensures Explained(setup, true, st, after) && Copied(after.log, ev.record) && LoggedAt(st, after, ev.epoch)
  {
    CopiedMore(st.log, ev);
  }

  /** The state after acquiring: the stream is delivered up to the target, and one event is logged for it. */
  lemma AcquireMeaning(setup: Setup, start: Store, st: NavState, after: NavState, c: nat, ev: Event)
    requires GoodSetup(setup) && Inv(setup, Cold, start, st) && Fits(setup, after) && c < |setup.pairs|
    requires !st.channels[c].acquired && NeverEarly(setup, ev) && KeyOf(setup, ev.record) == setup.pairs[c]
    requires AcquiredUpTo(setup, st.delivered, after.delivered, ev.record)
    requires after.log == st.log + [ev] && Valid(ev.availability)
    requires after.channels == st.channels[c := after.channels[c]]
    requires after.channels[c].acquired && after.channels[c].plan.None?
    requires Typed(after.receiver) && after.receiver == Replay(setup, start, after.log)
    ensures ChannelStep(setup, start, st, after, ev.epoch, c)
    ensures AcquiresAt(setup, st, after, c, ev.record, Abs(ev.availability))
  {
    assert ChannelFits(setup, st.delivered, setup.pairs[c], st.channels[c]);
    AcquireIsExplained(setup, st, after, ev);
    AcquireKeepsFit(setup, st, after, c, ev);
    AcquiredOutcome(setup, st, after, c, ev);
  }

  lemma AcquireKeepsFit(setup: Setup, st: NavState, after: NavState, c: nat, ev: Event)
    requires GoodSetup(setup) && Fits(setup, st) && Fits(setup, after) && c < |setup.pairs|
    requires Core(setup, st.delivered, st.log) && ChannelsFit(setup, st) && NeverEarly(setup, ev)
    requires !st.channels[c].acquired && KeyOf(setup, ev.record) == setup.pairs[c]
    requires AcquiredUpTo(setup, st.delivered, after.delivered, ev.record) && after.log == st.log + [ev]
    requires after.channels == st.channels[c := after.channels[c]]
    requires after.channels[c].acquired && after.channels[c].plan.None?
    ensures Core(setup, after.delivered, after.log) && ChannelsFit(setup, after) && OnlyChannel(setup, st, after, c)
  {
    assert ChannelFits(setup, st.delivered, setup.pairs[c], st.channels[c]);
    AcquireTouchesOne(setup, st, after, c, ev.record);
    AcquireKeepsCore(setup, st.delivered, after.delivered, st.log, ev);
    OtherChannelsFit(setup, st, after, c);
  }

  lemma AcquiredOutcome(setup: Setup, st: NavState, after: NavState, c: nat, ev: Event)
    requires GoodSetup(setup) && Fits(setup, st) && Fits(setup, after) && c < |setup.pairs|
    requires OfStream(setup, setup.pairs[c], ev.record) && Valid(ev.availability)
    requires AcquiredUpTo(setup, st.delivered, after.delivered, ev.record) && after.log == st.log + [ev]
    requires after.channels[c].acquired && after.channels[c].plan.None?
    ensures AcquiresAt(setup, st, after, c, ev.record, Abs(ev.availability))
  {
    CopiedMore(st.log, ev);
  }

  lemma AcquireSucceeds(setup: Setup, start: Store, st: NavState, c: nat, now: Time, target: nat, aimed: Channel)
    requires GoodSetup(setup) && Inv(setup, Cold, start, st) && Valid(now) && c < |setup.pairs|
    requires !st.channels[c].acquired && IsLatest(setup, st.delivered, setup.pairs[c], now, target)
    requires aimed.plan.Some? && aimed.target == target && PlanFits(setup, setup.pairs[c], target, aimed.plan.value)
    requires Abs(aimed.plan.value.availability) <= Abs(now)
    ensures var st1 := st.(channels := st.channels[c := aimed]);
            var r := Apply(setup, st1, target, aimed.plan.value.availability, now);
            && r.Ok?
            && var st2 := Suppress(setup, r.value.state, target, 0);
            var after := st2.(channels := st2.channels[c := aimed.(acquired := true, plan := None)]);
            ChannelStep(setup, start, st, after, now, c)
            && AcquiresAt(setup, st, after, c, target, Abs(aimed.plan.value.availability))
  {
    var key, plan := setup.pairs[c], aimed.plan.value;
    var st1 := st.(channels := st.channels[c := aimed]);
    assert ChannelFits(setup, st.delivered, key, st.channels[c]);
    FittingPlanCompletes(setup, key, target, plan, now);
    ApplySucceeds(setup, Hot, start, st1, target, plan.availability, now);
    var applied := Apply(setup, st1, target, plan.availability, now).value.state;
    SuppressMakesPrefix(setup, st.delivered, applied, key, now, target);
    var st2 := Suppress(setup, applied, target, 0);
    var after := st2.(channels := st2.channels[c := aimed.(acquired := true, plan := None)]);
    AcquireMeaning(setup, start, st, after, c, applied.log[|st.log|]);
  }

  // ---------- What an epoch brings a cold channel ----------

  ghost predicate OfStream(setup: Setup, key: Key, r: nat) {
    r < Count(setup.truth) == |setup.families| && KeyOf(setup, r) == key
  }

  /** Neither the channel nor its stream has changed. */
  ghost predicate SameChannel(setup: Setup, st: NavState, after: NavState, c: nat)
    requires Fits(setup, st) && Fits(setup, after) && c < |setup.pairs|
  {
    && after.channels[c] == st.channels[c]
    && forall r: nat :: OfStream(setup, setup.pairs[c], r) ==> after.delivered[r] == st.delivered[r]
  }

  /** While it is heard, a stream copies what is on the air, at once; otherwise it delivers nothing. */
  ghost predicate Streams(setup: Setup, st: NavState, after: NavState, e: Epoch, key: Key)
    requires Fits(setup, st) && Fits(setup, after)
  {
    && (forall r: nat :: OfStream(setup, key, r) ==>
          (after.delivered[r] <==> st.delivered[r] || (Heard(e, key) && Available(setup.truth, r, e.now)))
          && (after.delivered[r] && !st.delivered[r] ==> Copied(after.log, r)))
    && (forall i :: |st.log| <= i < |after.log| && OfStream(setup, key, after.log[i].record) ==>
          after.log[i].availability == e.now)
  }

  /** The channel holds a plan for the record that is available at this instant. */
  predicate Holds(channel: Channel, t: nat, at: int) {
    channel.plan.Some? && channel.target == t && Abs(channel.plan.value.availability) == at
  }

  /**
   A searching channel aims at the latest record on the air, if a signal of its family offers that record now, and
   for the earliest instant at which such a signal, or a plan it holds for that record already, has all of it.
   */
  ghost predicate Aims(setup: Setup, delivered: seq<bool>, channel: Channel, e: Epoch, key: Key, t: nat, at: int)
    requires |delivered| == Count(setup.truth) == |setup.families| && key.Pair?
  {
    && IsLatest(setup, delivered, key, e.now, t)
    && (Holds(channel, t, at) || Offered(setup, e, key, t, at))
    && (forall b :: Holds(channel, t, b) ==> at <= b)
    && (forall b :: Offered(setup, e, key, t, b) ==> at <= b)
    && exists b :: Offered(setup, e, key, t, b)
  }

  /** The channel acquires: its stream is delivered up to the record, which alone is copied. */
  ghost predicate AcquiresAt(setup: Setup, st: NavState, after: NavState, c: nat, t: nat, at: int)
    requires Fits(setup, st) && Fits(setup, after) && c < |setup.pairs| && t < Count(setup.truth)
  {
    && after.channels[c].acquired && after.channels[c].plan.None? && Copied(after.log, t)
    && (forall r: nat :: OfStream(setup, setup.pairs[c], r) ==>
          (after.delivered[r] <==> r == t || Before(setup.truth, r, t)))
    && (forall i :: |st.log| <= i < |after.log| && OfStream(setup, setup.pairs[c], after.log[i].record) ==>
          after.log[i].record == t && Valid(after.log[i].availability) && Abs(after.log[i].availability) == at)
  }

  /** The channel keeps the plan it holds if none is earlier, and nothing of its stream is delivered. */
  ghost predicate WaitsFor(setup: Setup, st: NavState, after: NavState, c: nat, t: nat, at: int)
    requires Fits(setup, st) && Fits(setup, after) && c < |setup.pairs|
  {
    && !after.channels[c].acquired && Holds(after.channels[c], t, at)
    && (Holds(st.channels[c], t, at) ==> after.channels[c] == st.channels[c])
    && forall r: nat :: OfStream(setup, setup.pairs[c], r) ==> !after.delivered[r]
  }

  /**
   What an epoch brings a channel.  Once it has acquired, it streams.  Before, it acquires exactly when the instant
   it aims for has come, waits if that is still to come, and does nothing if it has no aim.
   */
  ghost predicate ChannelOutcome(setup: Setup, st: NavState, after: NavState, e: Epoch, c: nat)
    requires Fits(setup, st) && Fits(setup, after) && c < |setup.pairs| && setup.pairs[c].Pair?
  {
    var key := setup.pairs[c];
    if st.channels[c].acquired then
      after.channels[c] == st.channels[c] && Streams(setup, st, after, e, key)
    else
      && (forall t: nat, at: int :: Aims(setup, st.delivered, st.channels[c], e, key, t, at) ==>
            if at <= Abs(e.now) then AcquiresAt(setup, st, after, c, t, at) else WaitsFor(setup, st, after, c, t, at))
      && ((forall t: nat, at: int :: !Aims(setup, st.delivered, st.channels[c], e, key, t, at)) ==>
            SameChannel(setup, st, after, c))
  }

  lemma HeardMeaning(e: Epoch, key: Key)
    ensures AnyTracking(e) <==> Heard(e, IonKey)
    ensures key.Pair? ==> (FamilyTracking(e, key) <==> Heard(e, key))
    ensures key in ReceivableKeys(e) <==> Heard(e, key)
  {
    if AnyTracking(e) {
      var v :| v in e.signals && v.tracking;
      assert Carries(v, IonKey);
    }
    if key.Pair? && FamilyTracking(e, key) {
      var v :| v in e.signals && v.tracking && v.satellite == key.satellite && FamilyOf(v.id) == key.family;
      assert Carries(v, key);
    }
  }

  /** Streaming one key, if it is heard, is what `Streams` says. */
  lemma StreamedStreams(setup: Setup, start: Store, st: NavState, after: NavState, e: Epoch, key: Key)
    requires Fits(setup, st) && Fits(setup, after)
    requires Heard(e, key) && Streamed(setup, start, st, after, e.now, {key})
    ensures Streams(setup, st, after, e, key)
  {
  }

  lemma AcquiredChannelStreams(setup: Setup, start: Store, st: NavState, e: Epoch, c: nat)
    requires GoodSetup(setup) && Inv(setup, Cold, start, st) && Valid(e.now) && c < |setup.pairs|
    requires st.channels[c].acquired && FamilyTracking(e, setup.pairs[c])
    ensures var r := Stream(setup, st, e.now, {setup.pairs[c]}, 0);
            r.Ok? && ChannelStep(setup, start, st, r.value, e.now, c)
            && ChannelOutcome(setup, st, r.value, e, c)
  {
    var key := setup.pairs[c];
    StreamKeepsInv(setup, start, st, e.now, {key}, 0);
    var after := Stream(setup, st, e.now, {key}, 0).value;
    assert ChannelFits(setup, st.delivered, key, st.channels[c]);
    OtherChannelsFit(setup, st, after, c);
    HeardMeaning(e, key);
    StreamedStreams(setup, start, st, after, e, key);
  }

  /** There is at most one aim. */
  lemma AimsIsUnique(
    setup: Setup, delivered: seq<bool>, channel: Channel, e: Epoch, key: Key, t: nat, at: int, u: nat, due: int)
    requires |delivered| == Count(setup.truth) == |setup.families| && key.Pair?
    requires Aims(setup, delivered, channel, e, key, t, at) && Aims(setup, delivered, channel, e, key, u, due)
    ensures t == u && at == due
  {
    BeforeIsTotal(setup.truth, t, u);
  }

  /** An offer for the target is one of the candidates, so the best of them is no later. */
  lemma BestBeatsOffers(setup: Setup, e: Epoch, key: Key, t: nat, at: int)
    requires GoodSetup(setup) && t < Count(setup.truth) && key.Pair? && KeyOf(setup, t) == key
    requires Offered(setup, e, key, t, at)
    ensures var best := BestPlan(Candidates(setup, e.signals, key, t));
            best.Some? && Abs(best.value.availability) <= at
  {
    var v :| v in e.signals && HearsAll(setup, v, key, t, at);
    OfferHasPlan(setup, v, key, t, at);
    var k :| 0 <= k < |e.signals| && e.signals[k] == v;
    var candidates := Candidates(setup, e.signals, key, t);
    CandidatesFit(setup, e.signals, key, t);
    BestPlanIsBest(setup, key, t, candidates);
    assert NoLater(BestPlan(candidates), candidates[k]);
  }

  lemma BestIsOffered(setup: Setup, e: Epoch, key: Key, t: nat)
    requires GoodSetup(setup) && t < Count(setup.truth) && key.Pair? && KeyOf(setup, t) == key
    requires BestPlan(Candidates(setup, e.signals, key, t)).Some?
    ensures var best := BestPlan(Candidates(setup, e.signals, key, t)).value;
            PlanFits(setup, key, t, best) && Offered(setup, e, key, t, Abs(best.availability))
  {
    var candidates := Candidates(setup, e.signals, key, t);
    CandidatesFit(setup, e.signals, key, t);
    var k := BestPlanIsFirst(setup, key, t, candidates);
    CandidateOffers(setup, e.signals[k], key, t);
    ValidIsRepresentable(candidates[k].value.availability);
  }

  /** The channel after the epoch's candidates are in holds the plan it aims for. */
  lemma RetargetAims(setup: Setup, st: NavState, e: Epoch, c: nat, t: nat)
    requires GoodSetup(setup) && Fits(setup, st) && Valid(e.now) && c < |setup.pairs|
    requires ChannelFits(setup, st.delivered, setup.pairs[c], st.channels[c]) && !st.channels[c].acquired
    requires IsLatest(setup, st.delivered, setup.pairs[c], e.now, t)
    requires BestPlan(Candidates(setup, e.signals, setup.pairs[c], t)).Some?
    ensures var channel := st.channels[c];
            var aimed := Retarget(channel, t, BestPlan(Candidates(setup, e.signals, setup.pairs[c], t)).value);
            && aimed.plan.Some? && aimed.target == t && !aimed.acquired
            && PlanFits(setup, setup.pairs[c], t, aimed.plan.value)
            && var at := Abs(aimed.plan.value.availability);
            && Aims(setup, st.delivered, channel, e, setup.pairs[c], t, at)
            && (Holds(channel, t, at) ==> aimed == channel)
  {
    var key, channel := setup.pairs[c], st.channels[c];
    var best := BestPlan(Candidates(setup, e.signals, key, t)).value;
    BestIsOffered(setup, e, key, t);
    RetargetFits(setup, key, channel, t, best);
    if channel.plan.Some? {
      CompareIsOrder(best.availability, channel.plan.value.availability);
    }
    forall b | Offered(setup, e, key, t, b)
      ensures Abs(best.availability) <= b
    {
      BestBeatsOffers(setup, e, key, t, b);
    }
  }

  lemma AimedChannelKeepsInv(setup: Setup, start: Store, st: NavState, now: Time, c: nat, target: nat, aimed: Channel)
    requires GoodSetup(setup) && Inv(setup, Cold, start, st) && Valid(now) && c < |setup.pairs|
    requires !st.channels[c].acquired && IsLatest(setup, st.delivered, setup.pairs[c], now, target)
    requires aimed.plan.Some? && aimed.target == target && !aimed.acquired
    requires PlanFits(setup, setup.pairs[c], target, aimed.plan.value)
    requires Holds(st.channels[c], target, Abs(aimed.plan.value.availability)) ==> aimed == st.channels[c]
    ensures Fire(setup, st, now, c, target, aimed).Ok?
    ensures var after := Fire(setup, st, now, c, target, aimed).value;
            var at := Abs(aimed.plan.value.availability);
            && ChannelStep(setup, start, st, after, now, c)
            && if at <= Abs(now) then AcquiresAt(setup, st, after, c, target, at)
               else WaitsFor(setup, st, after, c, target, at)
  {
    var key := setup.pairs[c];
    var st1 := st.(channels := st.channels[c := aimed]);
    DeliverSucceeds(setup, start, st1, key, target, aimed.plan.value, now);
    if Abs(aimed.plan.value.availability) <= Abs(now) {
      AcquireSucceeds(setup, start, st, c, now, target, aimed);
    } else {
      assert ChannelFits(setup, st.delivered, key, st.channels[c]);
      OtherChannelsFit(setup, st, st1, c);
    }
  }

  /** A channel that does nothing in an epoch. */
  lemma IdleChannelKeepsInv(setup: Setup, start: Store, st: NavState, now: Time, c: nat)
    requires Inv(setup, Cold, start, st) && |setup.families| == Count(setup.truth) && c < |setup.pairs|
    ensures ChannelStep(setup, start, st, st, now, c) && SameChannel(setup, st, st, c)
  {
  }

  /** Without a target, or without a plan for it, a channel has no aim. */
  lemma NoAim(setup: Setup, st: NavState, e: Epoch, c: nat)
    requires GoodSetup(setup) && Fits(setup, st) && Valid(e.now) && c < |setup.pairs|
    requires var t := LatestTarget(setup, st, setup.pairs[c], e.now, 0);
             t.Some? ==> BestPlan(Candidates(setup, e.signals, setup.pairs[c], t.value)).None?
    ensures forall t: nat, at: int :: !Aims(setup, st.delivered, st.channels[c], e, setup.pairs[c], t, at)
  {
    var key := setup.pairs[c];
    LatestTargetIsLatest(setup, st, key, e.now);
    var target := LatestTarget(setup, st, key, e.now, 0);
    forall t: nat, at: int
      ensures !Aims(setup, st.delivered, st.channels[c], e, key, t, at)
    {
      if Aims(setup, st.delivered, st.channels[c], e, key, t, at) {
        var b :| Offered(setup, e, key, t, b);
        BeforeIsTotal(setup.truth, t, target.value);
        BestBeatsOffers(setup, e, key, t, b);
        assert false;
      }
    }
  }

  /** The one aim there is decides the outcome. */
  lemma AimedOutcome(setup: Setup, st: NavState, after: NavState, e: Epoch, c: nat, t: nat, at: int)
    requires GoodSetup(setup) && Fits(setup, st) && Fits(setup, after) && c < |setup.pairs|
    requires !st.channels[c].acquired && Aims(setup, st.delivered, st.channels[c], e, setup.pairs[c], t, at)
    requires if at <= Abs(e.now) then AcquiresAt(setup, st, after, c, t, at)
             else WaitsFor(setup, st, after, c, t, at)
    ensures ChannelOutcome(setup, st, after, e, c)
  {
    forall u: nat, due: int | Aims(setup, st.delivered, st.channels[c], e, setup.pairs[c], u, due)
      ensures u == t && due == at
    {
      AimsIsUnique(setup, st.delivered, st.channels[c], e, setup.pairs[c], t, at, u, due);
    }
  }

  /** A channel with a target and an offer fires at what it aims for. */
  lemma FiringKeepsInv(setup: Setup, start: Store, st: NavState, e: Epoch, c: nat, t: nat)
    requires GoodSetup(setup) && Inv(setup, Cold, start, st) && Valid(e.now) && c < |setup.pairs|
    requires !st.channels[c].acquired && IsLatest(setup, st.delivered, setup.pairs[c], e.now, t)
    requires BestPlan(Candidates(setup, e.signals, setup.pairs[c], t)).Some?
    ensures var best := BestPlan(Candidates(setup, e.signals, setup.pairs[c], t)).value;
            var r := Fire(setup, st, e.now, c, t, Retarget(st.channels[c], t, best));
            r.Ok? && ChannelStep(setup, start, st, r.value, e.now, c) && ChannelOutcome(setup, st, r.value, e, c)
  {
    var channel := st.channels[c];
    assert ChannelFits(setup, st.delivered, setup.pairs[c], channel);
    RetargetAims(setup, st, e, c, t);
    var aimed := Retarget(channel, t, BestPlan(Candidates(setup, e.signals, setup.pairs[c], t)).value);
    AimedChannelKeepsInv(setup, start, st, e.now, c, t, aimed);
    var after := Fire(setup, st, e.now, c, t, aimed).value;
    AimedOutcome(setup, st, after, e, c, t, Abs(aimed.plan.value.availability));
  }

  lemma WithoutAimNothing(setup: Setup, start: Store, st: NavState, e: Epoch, c: nat)
    requires GoodSetup(setup) && Inv(setup, Cold, start, st) && Valid(e.now) && c < |setup.pairs|
    requires !st.channels[c].acquired
    requires var t := LatestTarget(setup, st, setup.pairs[c], e.now, 0);
             t.Some? ==> BestPlan(Candidates(setup, e.signals, setup.pairs[c], t.value)).None?
    ensures ChannelStep(setup, start, st, st, e.now, c) && ChannelOutcome(setup, st, st, e, c)
  {
    IdleChannelKeepsInv(setup, start, st, e.now, c);
    NoAim(setup, st, e, c);
  }

  /** A searching channel fires at its target if there is an offer for it, and rests otherwise. */
  lemma SearchingChannelIs(setup: Setup, st: NavState, e: Epoch, c: nat)
    requires Fits(setup, st) && c < |setup.pairs| && setup.pairs[c].Pair? && !st.channels[c].acquired
    ensures var t := LatestTarget(setup, st, setup.pairs[c], e.now, 0);
            ColdChannel(setup, st, e, c) ==
            if t.Some? && BestPlan(Candidates(setup, e.signals, setup.pairs[c], t.value)).Some? then
              var best := BestPlan(Candidates(setup, e.signals, setup.pairs[c], t.value)).value;
              Fire(setup, st, e.now, c, t.value, Retarget(st.channels[c], t.value, best))
            else Ok(st)
  {
  }

  lemma SearchingChannelKeepsInv(setup: Setup, start: Store, st: NavState, e: Epoch, c: nat)
    requires GoodSetup(setup) && Inv(setup, Cold, start, st) && Valid(e.now) && c < |setup.pairs|
    requires !st.channels[c].acquired
    ensures ColdChannel(setup, st, e, c).Ok?
    ensures var after := ColdChannel(setup, st, e, c).value;
            ChannelStep(setup, start, st, after, e.now, c) && ChannelOutcome(setup, st, after, e, c)
  {
    var t := LatestTarget(setup, st, setup.pairs[c], e.now, 0);
    SearchingChannelIs(setup, st, e, c);
    if t.Some? && BestPlan(Candidates(setup, e.signals, setup.pairs[c], t.value)).Some? {
      LatestTargetIsLatest(setup, st, setup.pairs[c], e.now);
      FiringKeepsInv(setup, start, st, e, c, t.value);
    } else {
      WithoutAimNothing(setup, start, st, e, c);
    }
  }

  /**
   One cold channel never fails and keeps the invariant; whether it acquires, waits, streams or does nothing in
   this epoch is what `ChannelOutcome` says.
   */
  lemma ColdChannelKeepsInv(setup: Setup, start: Store, st: NavState, e: Epoch, c: nat)
    requires GoodSetup(setup) && Inv(setup, Cold, start, st) && Valid(e.now) && c < |setup.pairs|
    ensures ColdChannel(setup, st, e, c).Ok?
    ensures var after := ColdChannel(setup, st, e, c).value;
            ChannelStep(setup, start, st, after, e.now, c) && ChannelOutcome(setup, st, after, e, c)
  {
    if !st.channels[c].acquired {
      SearchingChannelKeepsInv(setup, start, st, e, c);
    } else if FamilyTracking(e, setup.pairs[c]) {
      AcquiredChannelStreams(setup, start, st, e, c);
    } else {
      IdleChannelKeepsInv(setup, start, st, e.now, c);
      HeardMeaning(e, setup.pairs[c]);
    }
  }
}
