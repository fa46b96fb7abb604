/** Building what a run needs before its first epoch: the schedule and the channel list. */
module NavSetup {
  import opened Wrappers
  import opened SimTime
  import opened NavPlan
  import opened NavStore
  import opened NavDelivery
  import opened NavDeliveryTheorems
  import opened NavRuns
  import opened NavSources
  import NavReceiver

  // ---------- The schedule ----------

  ghost predicate Ordered(truth: Store, s: seq<nat>) {
    && (forall i :: 0 <= i < |s| ==> s[i] < Count(truth))
    && forall i: nat, j: nat :: InOrder(truth, s, i, j)
  }

  /** Put the next record where it belongs among the ordered ones. */
  method InsertOrdered(truth: Store, s: seq<nat>, r: nat) returns (t: seq<nat>)
    requires r < Count(truth) && Ordered(truth, s) && forall i :: 0 <= i < |s| ==> s[i] != r
    ensures Ordered(truth, t) && |t| == |s| + 1
    ensures forall x :: x in t <==> x in s || x == r
  {
    var p := 0;
    while p < |s| && Before(truth, s[p], r)
      invariant p <= |s|
      invariant forall i :: 0 <= i < p ==> Before(truth, s[i], r)
    {
      p := p + 1;
    }
    t := s[..p] + [r] + s[p..];
    InsertedInOrder(truth, s, p, r);
    assert s == s[..p] + s[p..];
  }

  lemma InsertedInOrder(truth: Store, s: seq<nat>, p: nat, r: nat)
    requires r < Count(truth) && Ordered(truth, s) && p <= |s| && forall i :: 0 <= i < |s| ==> s[i] != r
    requires forall i :: 0 <= i < p ==> Before(truth, s[i], r)
    requires p < |s| ==> !Before(truth, s[p], r)
    ensures Ordered(truth, s[..p] + [r] + s[p..])
  {
    var t := s[..p] + [r] + s[p..];
    assert forall k :: 0 <= k < |t| ==> t[k] == if k < p then s[k] else if k == p then r else s[k - 1];
    forall i: nat, j: nat
      ensures InOrder(truth, t, i, j)
    {
      if i < j < |t| {
        assert InOrder(truth, s, if i <= p then i else i - 1, if j <= p then j else j - 1);
        if i == p {
          BeforeIsTotal(truth, s[p], r);
          assert InOrder(truth, s, p, j - 1);
        }
      }
    }
  }

  /** Every record once, by transmit time and then by record index. */
  method BuildSchedule(truth: Store) returns (schedule: seq<nat>)
    ensures IsSchedule(truth, schedule)
  {
    schedule := [];
    for r := 0 to Count(truth)
      invariant Ordered(truth, schedule) && |schedule| == r
      invariant forall x :: x in schedule <==> 0 <= x < r
    {
      forall i | 0 <= i < |schedule|
        ensures schedule[i] != r
      {
        assert schedule[i] in schedule;
      }
      schedule := InsertOrdered(truth, schedule, r);
    }
  }

  /** In a schedule earlier records come first, and of records transmitted at the same time the earlier in the store. */
  lemma ScheduleIsByTime(truth: Store, schedule: seq<nat>, i: nat, j: nat)
    requires IsSchedule(truth, schedule) && i < j < |schedule|
    ensures Abs(Transmit(truth, schedule[i])) <= Abs(Transmit(truth, schedule[j]))
    ensures Abs(Transmit(truth, schedule[i])) == Abs(Transmit(truth, schedule[j])) ==> schedule[i] < schedule[j]
  {
    assert InOrder(truth, schedule, i, j);
  }

  /** There is only one schedule, so the sorting algorithm does not matter. */
  lemma ScheduleIsUnique(truth: Store, a: seq<nat>, b: seq<nat>)
    requires IsSchedule(truth, a) && IsSchedule(truth, b)
    ensures a == b
  {
    forall i: nat | i < |a|
      ensures a[i] == b[i]
    {
      SamePosition(truth, a, b, i);
    }
  }

  lemma {:induction false} SamePosition(truth: Store, a: seq<nat>, b: seq<nat>, i: nat)
    requires IsSchedule(truth, a) && IsSchedule(truth, b) && i < |a|
    ensures a[i] == b[i]
  {
    forall k: nat | k < i
      ensures a[k] == b[k]
    {
      SamePosition(truth, a, b, k);
    }
    NotEarlier(truth, a, b, i);
    NotEarlier(truth, b, a, i);
    BeforeIsTotal(truth, a[i], b[i]);
  }

  /** If two schedules agree before position i, the second has nothing earlier there than the first. */
  lemma NotEarlier(truth: Store, a: seq<nat>, b: seq<nat>, i: nat)
    requires IsSchedule(truth, a) && IsSchedule(truth, b) && i < |a|
    requires forall k: nat :: k < i ==> a[k] == b[k]
    ensures !Before(truth, b[i], a[i])
  {
    assert b[i] in a;
    var k :| 0 <= k < |a| && a[k] == b[i];
    assert InOrder(truth, a, i, k) && InOrder(truth, b, k, i);
    BeforeIsTotal(truth, a[i], b[i]);
  }

  // ---------- The channels ----------

  /** A stream for which the receiver keeps cold-start state. */
  ghost predicate HasChannel(setup: Setup, supported: set<int>, key: Key)
    requires |setup.families| == Count(setup.truth)
  {
    key.Pair? && key.satellite > 0 && key.satellite in supported
    && exists r: nat :: r < Count(setup.truth) && KeyOf(setup, r) == key
  }

  /** Some record of the store is this satellite's. */
  ghost predicate Broadcasts(truth: Store, satellite: int) {
    exists r: nat :: r < Count(truth) && InfoOf(RecordAt(truth, r)).satellite == satellite
  }

  ghost predicate Ascending(numbers: seq<int>) { forall p, q :: 0 <= p < q < |numbers| ==> numbers[p] < numbers[q] }

  lemma AscendingFrom(first: int, rest: seq<int>)
    requires Ascending(rest) && forall x <- rest :: first < x
    ensures Ascending([first] + rest)
  {
    var more := [first] + rest;
    forall p, q | 0 <= p < q < |more|
      ensures more[p] < more[q]
    {
      assert more[q] == rest[q - 1];
      assert rest[q - 1] in rest;
      assert p > 0 ==> more[p] == rest[p - 1];
    }
  }

  lemma AboveFirst(numbers: seq<int>, x: int)
    requires Ascending(numbers) && |numbers| > 0 && x in numbers[1..]
    ensures numbers[0] < x
  {
    var k :| 0 <= k < |numbers| - 1 && numbers[1..][k] == x;
    assert numbers[k + 1] == x;
  }

  function InsertNumber(numbers: seq<int>, n: int): (more: seq<int>)
    requires Ascending(numbers) && n !in numbers
    ensures Ascending(more) && forall x :: x in more <==> x in numbers || x == n
  {
    if numbers == [] then [n]
    else if n < numbers[0] then [n] + numbers
    else
      assert numbers == [numbers[0]] + numbers[1..];
      var rest := InsertNumber(numbers[1..], n);
      assert Ascending([numbers[0]] + rest) by {
        forall x | x in rest
          ensures numbers[0] < x
        {
          if x != n {
            AboveFirst(numbers, x);
          }
        }
        AscendingFrom(numbers[0], rest);
      }
      [numbers[0]] + rest
  }

  /** The distinct satellite numbers of the schedule, in ascending order. */
  method SatelliteNumbers(setup: Setup) returns (numbers: seq<int>)
    requires IsSchedule(setup.truth, setup.schedule)
    ensures Ascending(numbers)
    ensures forall n :: n in numbers <==> n > 0 && Broadcasts(setup.truth, n)
  {
    numbers := [];
    for i := 0 to |setup.schedule|
      invariant Ascending(numbers)
      invariant forall n :: n in numbers ==> n > 0 && Broadcasts(setup.truth, n)
      invariant forall k :: 0 <= k < i && InfoOf(RecordAt(setup.truth, setup.schedule[k])).satellite > 0 ==>
                  InfoOf(RecordAt(setup.truth, setup.schedule[k])).satellite in numbers
    {
      var satellite := InfoOf(RecordAt(setup.truth, setup.schedule[i])).satellite;
      if satellite > 0 && satellite !in numbers {
        assert Broadcasts(setup.truth, satellite);
        numbers := InsertNumber(numbers, satellite);
      }
    }
    forall n | n > 0 && Broadcasts(setup.truth, n)
      ensures n in numbers
    {
      var r: nat :| r < Count(setup.truth) && InfoOf(RecordAt(setup.truth, r)).satellite == n;
      assert r in setup.schedule;
    }
  }

  /** One channel for every satellite and family of the schedule, satellite by satellite. */
  method BuildPairs(setup: Setup, supported: set<int>) returns (pairs: seq<Key>)
    requires |setup.families| == Count(setup.truth) && IsSchedule(setup.truth, setup.schedule)
    ensures forall i, j :: 0 <= i < j < |pairs| ==> pairs[i] != pairs[j]
    ensures forall key :: key in pairs <==> HasChannel(setup, supported, key)
    ensures BySatellite(pairs)
  {
    var numbers := SatelliteNumbers(setup);
    pairs := [];
    for n := 0 to |numbers|
      invariant forall i, j :: 0 <= i < j < |pairs| ==> pairs[i] != pairs[j]
      invariant forall key :: key in pairs <==> HasChannel(setup, supported, key) && key.satellite in numbers[..n]
      invariant BySatellite(pairs)
    {
      var satellite := numbers[n];
      assert forall i :: 0 <= i < |pairs| ==> pairs[i] in pairs;
      assert numbers[..n + 1] == numbers[..n] + [satellite];
      assert satellite in numbers;
      if satellite in supported {
        pairs := AddFamilies(setup, supported, numbers[..n], satellite, pairs);
      }
    }
    assert numbers[..|numbers|] == numbers;
    forall key | HasChannel(setup, supported, key)
      ensures key in pairs
    {
      var r: nat :| r < Count(setup.truth) && KeyOf(setup, r) == key;
      assert Broadcasts(setup.truth, key.satellite);
    }
  }

  /** Channels in ascending order of their satellites. */
  ghost predicate BySatellite(pairs: seq<Key>) {
    && (forall i :: 0 <= i < |pairs| ==> pairs[i].Pair?)
    && forall i, j :: 0 <= i < j < |pairs| ==> pairs[i].satellite <= pairs[j].satellite
  }

  predicate IsOf(key: Key, satellite: int) { key.Pair? && key.satellite == satellite }

  lemma NextSatellite(before: seq<Key>, pairs: seq<Key>, satellite: int)
    requires BySatellite(before) && before <= pairs && forall key :: key in before ==> key.satellite < satellite
    requires forall p :: |before| <= p < |pairs| ==> IsOf(pairs[p], satellite)
    ensures BySatellite(pairs)
  {
    forall p | 0 <= p < |before|
      ensures pairs[p] == before[p] && before[p].satellite < satellite
    {
      assert before[p] in before;
    }
  }

  method AddFamilies(setup: Setup, supported: set<int>, ghost done: seq<int>, satellite: int, before: seq<Key>)
    returns (pairs: seq<Key>)
    requires |setup.families| == Count(setup.truth) && IsSchedule(setup.truth, setup.schedule)
    requires satellite > 0 && satellite in supported && satellite !in done
    requires forall i, j :: 0 <= i < j < |before| ==> before[i] != before[j]
    requires forall key :: key in before <==> HasChannel(setup, supported, key) && key.satellite in done
    requires BySatellite(before) && forall n :: n in done ==> n < satellite
    ensures forall i, j :: 0 <= i < j < |pairs| ==> pairs[i] != pairs[j]
    ensures forall key :: key in pairs <==>
              HasChannel(setup, supported, key) && (key.satellite in done || key.satellite == satellite)
    ensures BySatellite(pairs)
  {
    pairs := before;
    for i := 0 to |setup.schedule|
      invariant forall p, q :: 0 <= p < q < |pairs| ==> pairs[p] != pairs[q]
      invariant forall key :: key in pairs ==>
                  HasChannel(setup, supported, key) && (key.satellite in done || key.satellite == satellite)
      invariant forall key :: key in before ==> key in pairs
      invariant before <= pairs && forall p :: |before| <= p < |pairs| ==> IsOf(pairs[p], satellite)
      invariant forall k :: 0 <= k < i && KeyOf(setup, setup.schedule[k]).Pair?
                            && KeyOf(setup, setup.schedule[k]).satellite == satellite ==>
                  KeyOf(setup, setup.schedule[k]) in pairs
    {
      var key := KeyOf(setup, setup.schedule[i]);
      if key.Pair? && key.satellite == satellite && key !in pairs {
        assert HasChannel(setup, supported, key);
        pairs := pairs + [key];
      }
    }
    NextSatellite(before, pairs, satellite);
    forall key | HasChannel(setup, supported, key) && key.satellite == satellite
      ensures key in pairs
    {
      var r: nat :| r < Count(setup.truth) && KeyOf(setup, r) == key;
      assert r in setup.schedule;
      var k :| 0 <= k < |setup.schedule| && setup.schedule[k] == r;
    }
  }

  /** A setup for any truth store, unless it holds no supported satellite. */
  method BuildSetup(truth: Store, families: seq<Option<Family>>, supported: set<int>, maxSatellite: int)
    returns (r: Option<Setup>)
    requires Typed(truth) && |families| == Count(truth)
    requires forall i: nat :: i < Count(truth) && RecordAt(truth, i).kind.Ionosphere? ==> families[i].None?
    ensures r.Some? ==>
              && GoodSetup(r.value) && r.value.truth == truth && r.value.families == families
              && r.value.maxSatellite == maxSatellite
              && BySatellite(r.value.pairs)
              && forall key :: key in r.value.pairs <==> HasChannel(r.value, supported, key)
    ensures r.None? <==> forall n :: n > 0 && n in supported ==> !Broadcasts(truth, n)
  {
    var schedule := BuildSchedule(truth);
    var setup := Setup(truth, families, schedule, [], maxSatellite);
    var numbers := SatelliteNumbers(setup);
    var n := 0;
    while n < |numbers| && numbers[n] !in supported
      invariant n <= |numbers| && forall k :: 0 <= k < n ==> numbers[k] !in supported
    {
      n := n + 1;
    }
    if n == |numbers| {
      return None;
    }
    assert numbers[n] in numbers;
    var pairs := BuildPairs(setup, supported);
    var full := setup.(pairs := pairs);
    forall key
      ensures HasChannel(full, supported, key) == HasChannel(setup, supported, key)
    {
      assert forall i: nat :: i < Count(truth) ==> KeyOf(full, i) == KeyOf(setup, i);
    }
    forall c | 0 <= c < |pairs|
      ensures pairs[c].Pair?
    {
      assert pairs[c] in pairs;
    }
    r := Some(full);
  }

  // ---------- A power-on period ----------

  /**
   A receiver switched on and taken through any epochs ends in a sound state: everything `RunsAreSound` and
   `RunsAreSourced` say of a run holds of the object, from the state `PowerOnMeaning` describes.
   */
  method PowerOnPeriod(receiver: NavReceiver.Receiver, mode: Mode, at: Time, epochs: seq<Epoch>)
    returns (r: Result<(), NavError>)
    requires GoodSetup(receiver.setup) && receiver.Ready() && Valid(at) && Count(receiver.setup.truth) > 0
    requires forall k :: 0 <= k < |epochs| ==> Valid(epochs[k].now)
    modifies receiver, receiver.delivered
    ensures r.Ok? && receiver.Ready()
    ensures var start := PowerOn(receiver.setup, mode, at);
            && Inv(receiver.setup, mode, start.receiver, receiver.View())
            && Explained(receiver.setup, mode.Cold?, start, receiver.View())
            && LoggedDuring(epochs, receiver.View().log)
            && SwitchedOn(receiver.setup, mode, at, start)
            && RunSourced(receiver.setup, mode, start.delivered, epochs, receiver.View())
    ensures !mode.Cold? ==>
              forall r: nat :: r < Count(receiver.setup.truth) ==>
                (Copied(receiver.View().log, r) <==>
                 Abs(Transmit(receiver.setup.truth, r)) > Abs(at) && HeardDuring(receiver.setup, epochs, r))
  {
    var on := receiver.PowerOn(mode, at);
    ghost var start := PowerOn(receiver.setup, mode, at);
    PowerOnInv(receiver.setup, mode, at);
    for k := 0 to |epochs|
      invariant receiver.Ready() && receiver.mode == mode && fresh(receiver.delivered)
      invariant Run(receiver.setup, mode, start, epochs[..k]) == Ok(receiver.View())
    {
      assert epochs[..k + 1][..k] == epochs[..k];
      RunsAreSound(receiver.setup, mode, at, epochs[..k + 1]);
      var processed := receiver.Process(epochs[k]);
      if processed.Err? {
        assert false;
      }
    }
    assert epochs[..|epochs|] == epochs;
    RunsAreSound(receiver.setup, mode, at, epochs);
    RunsAreSourced(receiver.setup, mode, at, epochs);
    PowerOnMeaning(receiver.setup, mode, at);
    if !mode.Cold? {
      forall n: nat | n < Count(receiver.setup.truth)
        ensures Copied(receiver.View().log, n) <==>
                Abs(Transmit(receiver.setup.truth, n)) > Abs(at) && HeardDuring(receiver.setup, epochs, n)
      {
        NormalCopiesIff(receiver.setup, mode, at, epochs, n);
      }
    }
    r := Ok(());
  }
}
