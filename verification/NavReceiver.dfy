/** The receiver that carries out the delivery protocol in place. */
module NavReceiver {
  import opened Wrappers
  import opened SimTime
  import opened NavPlan
  import opened NavStore
  import opened NavDelivery

  method ComputeAnyTracking(signals: seq<Signal>, ghost e: Epoch) returns (any: bool)
    requires e.signals == signals
    ensures any == AnyTracking(e)
  {
    for i := 0 to |signals|
      invariant forall k :: 0 <= k < i ==> !signals[k].tracking
    {
      if signals[i].tracking {
        assert signals[i] in e.signals;
        return true;
      }
    }
    return false;
  }

  method ComputeFamilyTracking(signals: seq<Signal>, key: Key, ghost e: Epoch) returns (any: bool)
    requires e.signals == signals && key.Pair?
    ensures any == FamilyTracking(e, key)
  {
    for i := 0 to |signals|
      invariant forall k :: 0 <= k < i ==>
                  !(signals[k].tracking && signals[k].satellite == key.satellite
                    && FamilyOf(signals[k].id) == key.family)
    {
      var v := signals[i];
      if v.satellite == key.satellite && FamilyOf(v.id) == key.family && v.tracking {
        assert v in e.signals;
        return true;
      }
    }
    return false;
  }

  /** A stream is receivable when some signal tracks, for the ionosphere, or tracks the family, for a family. */
  lemma ReceivableMeaning(e: Epoch, key: Key)
    ensures key in ReceivableKeys(e) <==> (key.IonKey? && AnyTracking(e)) || (key.Pair? && FamilyTracking(e, key))
  {
  }

  /** The best plan the signals offer, trying them in order. */
  method BestColdPlan(setup: Setup, signals: seq<Signal>, key: Key, target: nat) returns (plan: Option<Plan>)
    requires target < Count(setup.truth) && key.Pair?
    ensures plan == BestPlan(Candidates(setup, signals, key, target))
  {
    ghost var candidates := Candidates(setup, signals, key, target);
    plan := None;
    for i := 0 to |signals|
      invariant plan == BestPlan(candidates[..i])
    {
      assert candidates[..i + 1][..i] == candidates[..i];
      var v := signals[i];
      if v.satellite == key.satellite && FamilyOf(v.id) == key.family && v.tracking {
        var acquisition := Transmit(setup.truth, target);
        if Compare(v.trackingStart, acquisition) > 0 {
          acquisition := v.trackingStart;
        }
        var variant := Default;
        if key.family.BeidouD1D2? {
          variant := if InfoOf(RecordAt(setup.truth, target)).prn <= 5 then BeidouD2 else BeidouD1;
        }
        var candidate := BuildPlan(v.id, variant, acquisition, InfoOf(RecordAt(setup.truth, target)).iode);
        if candidate.Some? && (plan.None? || Compare(candidate.value.availability, plan.value.availability) < 0) {
          plan := candidate;
        }
      }
    }
    assert candidates[..|signals|] == candidates;
  }

  class Receiver {
    const setup: Setup
    var mode: Mode
    var delivered: array<bool>
    var receiver: Store
    var channels: seq<Channel>
    var log: seq<Event>

    ghost function View(): NavState
      reads this, delivered
    {
      NavState(delivered[..], receiver, channels, log)
    }

    ghost predicate Ready()
      reads this, delivered
    {
      && Fits(setup, View())
      && forall d :: 0 <= d < |setup.pairs| ==> setup.pairs[d].Pair?
    }

    constructor (setup: Setup)
      requires |setup.families| == Count(setup.truth)
      requires forall i :: 0 <= i < |setup.schedule| ==> setup.schedule[i] < Count(setup.truth)
      requires forall d :: 0 <= d < |setup.pairs| ==> setup.pairs[d].Pair?
      ensures this.setup == setup && Ready() && fresh(delivered)
    {
      this.setup := setup;
      mode := Cold;
      delivered := new bool[Count(setup.truth)](_ => false);
      receiver := EMPTY;
      channels := seq(|setup.pairs|, _ => Channel(false, None, -1));
      log := [];
    }

    /** Start afresh: new delivery flags, the store of the start-up mode, and no cold-start plans. */
    method PowerOn(mode: Mode, at: Time) returns (ok: bool)
      requires Ready()
      modifies this
      ensures ok <==> Valid(at) && Count(setup.truth) > 0
      ensures ok ==> Ready() && fresh(delivered) && this.mode == mode && View() == NavDelivery.PowerOn(setup, mode, at)
      ensures !ok ==> View() == old(View()) && this.mode == old(this.mode) && delivered == old(delivered)
    {
      if !Valid(at) || Count(setup.truth) == 0 {
        return false;
      }
      this.mode := mode;
      delivered := new bool[Count(setup.truth)](_ => false);
      if mode.Cold? {
        receiver := EMPTY;
      } else {
        receiver := CopySnapshot(setup.truth, at, setup.maxSatellite);
        for r := 0 to delivered.Length
          modifies delivered
          invariant forall k :: 0 <= k < r ==> delivered[k] == Available(setup.truth, k, at)
        {
          delivered[r] := Available(setup.truth, r, at);
        }
      }
      channels := seq(|setup.pairs|, _ => Channel(false, None, -1));
      log := [];
      ok := true;
    }

    /** Copy one truth record, unless it was delivered before. */
    method ApplyRecord(record: int, availability: Time, epoch: Time) returns (r: Result<bool, NavError>)
      requires Ready()
      modifies this`receiver, this`log, delivered
      ensures Ready()
      ensures match Apply(setup, old(View()), record, availability, epoch)
              case Err(error) => r == Err(error) && View() == old(View())
              case Ok(applied) => r == Ok(applied.emitted) && View() == applied.state
    {
      if !Valid(availability) || record < 0 || record >= delivered.Length {
        return Err(InvalidArguments);
      }
      if delivered[record] {
        return Ok(false);
      }
      var info := InfoOf(RecordAt(setup.truth, record));
      var copied := CopyRecord(setup.truth, record, receiver);
      var index := FindReceiverRecord(copied, info);
      if index < 0 {
        return Err(CannotLocateCopy);
      }
      receiver := copied;
      delivered[record] := true;
      log := log + [Event(epoch, availability, record, index)];
      assert delivered[..] == old(delivered[..])[record := true];
      return Ok(true);
    }

    /** Copy every available undelivered record of one stream, in schedule order. */
    method StreamKey(now: Time, key: Key) returns (r: Result<(), NavError>)
      requires Ready()
      modifies this`receiver, this`log, delivered
      ensures Ready()
      ensures match Stream(setup, old(View()), now, {key}, 0)
              case Err(error) => r == Err(error)
              case Ok(after) => r == Ok(()) && View() == after
    {
      var i := 0;
      while i < |setup.schedule| && Available(setup.truth, setup.schedule[i], now)
        invariant i <= |setup.schedule| && Ready()
        invariant Stream(setup, old(View()), now, {key}, 0) == Stream(setup, View(), now, {key}, i)
      {
        var record := setup.schedule[i];
        if KeyOf(setup, record) == key && !delivered[record] {
          var applied := ApplyRecord(record, now, now);
          if applied.Err? {
            return Err(applied.error);
          }
        }
        i := i + 1;
      }
      return Ok(());
    }

    /** A HOT or WARM receiver takes every record that some tracking signal carries. */
    method ProcessNormal(e: Epoch) returns (r: Result<(), NavError>)
      requires Ready()
      modifies this`receiver, this`log, delivered
      ensures Ready()
      ensures match Stream(setup, old(View()), e.now, ReceivableKeys(e), 0)
              case Err(error) => r == Err(error)
              case Ok(after) => r == Ok(()) && View() == after
    {
      var haveAnyTracking := ComputeAnyTracking(e.signals, e);
      ghost var want := ReceivableKeys(e);
      var i := 0;
      while i < |setup.schedule| && Available(setup.truth, setup.schedule[i], e.now)
        invariant i <= |setup.schedule| && Ready()
        invariant Stream(setup, old(View()), e.now, want, 0) == Stream(setup, View(), e.now, want, i)
      {
        var record := setup.schedule[i];
        if !delivered[record] {
          var key := KeyOf(setup, record);
          var canReceive := false;
          if key.IonKey? {
            canReceive := haveAnyTracking;
          } else if key.Pair? {
            canReceive := ComputeFamilyTracking(e.signals, key, e);
          }
          ReceivableMeaning(e, key);
          if canReceive {
            var applied := ApplyRecord(record, e.now, e.now);
            if applied.Err? {
              return Err(applied.error);
            }
          }
        }
        i := i + 1;
      }
      return Ok(());
    }

    method LatestColdTarget(key: Key, now: Time) returns (target: Option<nat>)
      requires Ready()
      ensures target == LatestTarget(setup, View(), key, now, 0)
    {
      target := None;
      var i := 0;
      while i < |setup.schedule| && Available(setup.truth, setup.schedule[i], now)
        invariant i <= |setup.schedule|
        invariant LatestTarget(setup, View(), key, now, 0)
                  == match LatestTarget(setup, View(), key, now, i) case Some(t) => Some(t) case None => target
      {
        var record := setup.schedule[i];
        if KeyOf(setup, record) == key && !delivered[record] {
          target := Some(record);
        }
        i := i + 1;
      }
    }

    /** Mark the records of the target's stream that the target supersedes. */
    method SuppressSuperseded(target: nat)
      requires Ready() && target < Count(setup.truth)
      modifies delivered
      ensures Ready() && View() == Suppress(setup, old(View()), target, 0)
    {
      var i := 0;
      while i < |setup.schedule|
            && Compare(Transmit(setup.truth, setup.schedule[i]), Transmit(setup.truth, target)) <= 0
        invariant i <= |setup.schedule| && Ready()
        invariant Suppress(setup, old(View()), target, 0) == Suppress(setup, View(), target, i)
      {
        var record := setup.schedule[i];
        if record != target && KeyOf(setup, target).Pair? && KeyOf(setup, record) == KeyOf(setup, target)
           && !delivered[record] {
          ghost var before := delivered[..];
          delivered[record] := true;
          assert delivered[..] == before[record := true];
        }
        i := i + 1;
      }
    }

    method DeliverIfComplete(plan: Plan, target: int, now: Time) returns (r: Result<bool, NavError>)
      requires Ready()
      modifies this`receiver, this`log, delivered
      ensures Ready()
      ensures match Deliver(setup, old(View()), plan, target, now)
              case Err(error) => r == Err(error) && View() == old(View())
              case Ok(applied) => r == Ok(applied.emitted) && View() == applied.state
    {
      if target < 0 || !Valid(now) {
        return Err(InvalidArguments);
      }
      var mask := ComputeReceivedMask(plan, now);
      if plan.requiredMask == {} || !(plan.requiredMask <= mask) {
        return Ok(false);
      }
      if target >= Count(setup.truth) {
        return Err(InvalidRecord);
      }
      var record := RecordAt(setup.truth, target);
      if record.kind.Ionosphere? || InfoOf(record).iode != plan.issueData {
        return Err(IodMismatch);
      }
      r := ApplyRecord(target, plan.availability, now);
    }

    method ProcessColdChannel(e: Epoch, c: nat) returns (r: Result<(), NavError>)
      requires Ready() && c < |setup.pairs|
      modifies this`receiver, this`log, this`channels, delivered
      ensures Ready()
      ensures match ColdChannel(setup, old(View()), e, c)
              case Err(error) => r == Err(error)
              case Ok(after) => r == Ok(()) && View() == after
    {
      var key := setup.pairs[c];
      if channels[c].acquired {
        var tracking := ComputeFamilyTracking(e.signals, key, e);
        if !tracking {
          return Ok(());
        }
        r := StreamKey(e.now, key);
        return;
      }
      var found := LatestColdTarget(key, e.now);
      if found.None? {
        return Ok(());
      }
      var target := found.value;
      var candidate := BestColdPlan(setup, e.signals, key, target);
      if candidate.None? {
        return Ok(());
      }
      if channels[c].plan.None? || channels[c].target != target
         || Compare(candidate.value.availability, channels[c].plan.value.availability) < 0 {
        channels := channels[c := channels[c].(plan := candidate, target := target)];
      }
      assert View() ==
             old(View()).(channels := old(channels)[c := Retarget(old(channels)[c], target, candidate.value)]);
      var emitted := DeliverIfComplete(channels[c].plan.value, channels[c].target, e.now);
      if emitted.Err? {
        return Err(emitted.error);
      }
      if emitted.value {
        SuppressSuperseded(target);
        channels := channels[c := channels[c].(acquired := true, plan := None)];
      }
      return Ok(());
    }

    method ProcessCold(e: Epoch) returns (r: Result<(), NavError>)
      requires Ready()
      modifies this`receiver, this`log, this`channels, delivered
      ensures Ready()
      ensures match Step(setup, Cold, old(View()), e)
              case Err(error) => r == Err(error)
              case Ok(after) => r == Ok(()) && View() == after
    {
      var haveAnyTracking := ComputeAnyTracking(e.signals, e);
      if haveAnyTracking {
        var streamed := StreamKey(e.now, IonKey);
        if streamed.Err? {
          return Err(streamed.error);
        }
      }
      for c := 0 to |setup.pairs|
        invariant Ready()
        invariant Step(setup, Cold, old(View()), e) == ColdChannels(setup, View(), e, c)
      {
        var processed := ProcessColdChannel(e, c);
        if processed.Err? {
          return Err(processed.error);
        }
      }
      return Ok(());
    }

    /** One epoch in the receiver's start-up mode. */
    method Process(e: Epoch) returns (r: Result<(), NavError>)
      requires Ready()
      modifies this`receiver, this`log, this`channels, delivered
      ensures Ready() && mode == old(mode)
      ensures match Step(setup, mode, old(View()), e)
              case Err(error) => r == Err(error)
              case Ok(after) => r == Ok(()) && View() == after
    {
      if mode.Cold? {
        r := ProcessCold(e);
      } else {
        r := ProcessNormal(e);
      }
    }
  }
}
