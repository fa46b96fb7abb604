/** The fixed state of the reported best position: reached after a long enough run of qualifying epochs. */
module FixedSolution {
  import opened Wrappers
  import opened SimTime

  datatype Config = Config(enabled: bool, duration: int, minUsed: int)

  datatype Position = Position(valid: bool, computed: bool, single: bool, used: int)

  datatype State = State(active: bool, fixed: bool, since: Time)

  const INITIAL: State := State(false, false, Time(0, 0))

  datatype Call = Call(now: Time, position: Position)

  predicate Qualifies(c: Config, p: Position) { c.enabled && p.valid && p.computed && p.single && p.used >= c.minUsed }

  function Updated(c: Config, s: State, call: Call): Option<State> {
    if c.duration < 0 || c.minUsed < 1 then None
    else if !Qualifies(c, call.position) then Some(INITIAL)
    else if s.fixed then Some(s)
    else if !s.active then Some(State(true, c.duration == 0, call.now))
    else
      var stable := Difference(call.now, s.since);
      if stable == None || stable.value < 0 then None else Some(s.(fixed := stable.value >= c.duration))
  }

  class FixState {
    var active: bool
    var fixed: bool
    var since: Time

    function View(): State
      reads this
    {
      State(active, fixed, since)
    }

    constructor ()
      ensures View() == INITIAL
    {
      active, fixed, since := false, false, Time(0, 0);
    }

    method Reset()
      modifies this
      ensures View() == INITIAL
    {
      active, fixed, since := false, false, Time(0, 0);
    }

    method Update(c: Config, call: Call) returns (ok: bool)
      modifies this
      ensures ok <==> Updated(c, old(View()), call).Some?
      ensures View() == if ok then Updated(c, old(View()), call).value else old(View())
    {
      if c.duration < 0 || c.minUsed < 1 {
        return false;
      }
      if !Qualifies(c, call.position) {
        Reset();
        return true;
      }
      if fixed {
        return true;
      }
      if !active {
        active, since := true, call.now;
        if c.duration == 0 {
          fixed := true;
        }
        return true;
      }
      var stable := Difference(call.now, since);
      if stable == None || stable.value < 0 {
        return false;
      }
      if stable.value >= c.duration {
        fixed := true;
      }
      return true;
    }
  }

  // ---------- Runs ----------

  function Run(c: Config, calls: seq<Call>): Option<State>
    decreases |calls|
  {
    if |calls| == 0 then Some(INITIAL)
    else
      var last := |calls| - 1;
      match Run(c, calls[..last])
      case None => None
      case Some(s) => Updated(c, s, calls[last])
  }

  /** Valid times that never go back. */
  predicate Ordered(calls: seq<Call>) {
    && (forall k :: 0 <= k < |calls| ==> Valid(calls[k].now))
    && (forall k, l :: 0 <= k < l < |calls| ==> Abs(calls[k].now) <= Abs(calls[l].now))
  }

  predicate QualifyFrom(c: Config, calls: seq<Call>, k: nat) {
    k < |calls| && forall j :: k <= j < |calls| ==> Qualifies(c, calls[j].position)
  }

  /** Qualifying epochs without a break, for the whole duration, up to the last one. */
  predicate LongEnough(c: Config, calls: seq<Call>) {
    exists k: nat | k < |calls| ::
      QualifyFrom(c, calls, k) && Abs(calls[|calls| - 1].now) - Abs(calls[k].now) >= c.duration
  }

  /** Qualifying epochs began at epoch k, and no earlier. */
  predicate BeganAt(c: Config, calls: seq<Call>, k: nat) {
    QualifyFrom(c, calls, k) && (k == 0 || !Qualifies(c, calls[k - 1].position))
  }

  lemma StillRunning(c: Config, calls: seq<Call>, last: nat, k: nat)
    requires |calls| == last + 1 && BeganAt(c, calls[..last], k) && Qualifies(c, calls[last].position)
    ensures BeganAt(c, calls, k)
  {
    var front := calls[..last];
    assert forall j :: 0 <= j < last ==> front[j] == calls[j];
  }

  /** An update during a run keeps its start, and fixes the state once the run has lasted the duration. */
  lemma ActiveStep(c: Config, s: State, call: Call)
    requires s.active && Updated(c, s, call).Some? && Updated(c, s, call).value.active
    requires Valid(s.since) && Valid(call.now)
    ensures Qualifies(c, call.position) && Updated(c, s, call).value.since == s.since
    ensures Updated(c, s, call).value.fixed <==> s.fixed || Abs(call.now) - Abs(s.since) >= c.duration
  {
    DifferenceExact(call.now, s.since);
  }

  lemma FirstStep(c: Config, s: State, call: Call)
    requires !s.active && !s.fixed && Updated(c, s, call).Some? && Updated(c, s, call).value.active
    ensures Qualifies(c, call.position) && Updated(c, s, call).value.since == call.now
    ensures Updated(c, s, call).value.fixed <==> 0 >= c.duration
  {
  }

  /** The run of qualifying epochs that is under way began at epoch k. */
  lemma {:induction false} RunBegan(c: Config, calls: seq<Call>) returns (k: nat)
    requires Ordered(calls) && Run(c, calls).Some? && Run(c, calls).value.active
    ensures BeganAt(c, calls, k) && calls[k].now == Run(c, calls).value.since
    ensures Run(c, calls).value.fixed <==> Abs(calls[|calls| - 1].now) - Abs(calls[k].now) >= c.duration
    decreases |calls|
  {
    var last := |calls| - 1;
    var front := calls[..last];
    var before := Run(c, front).value;
    if before.active {
      k := RunBegan(c, front);
      assert front[k] == calls[k] && front[last - 1] == calls[last - 1];
      ActiveStep(c, before, calls[last]);
      StillRunning(c, calls, last, k);
    } else {
      k := last;
      InactiveMeans(c, front);
      FirstStep(c, before, calls[last]);
      assert last > 0 ==> front[last - 1] == calls[last - 1];
    }
  }

  lemma InactiveMeans(c: Config, calls: seq<Call>)
    requires Run(c, calls).Some? && !Run(c, calls).value.active
    ensures !Run(c, calls).value.fixed
    ensures |calls| > 0 ==> !Qualifies(c, calls[|calls| - 1].position)
    decreases |calls|
  {
    if |calls| > 0 {
      var last := |calls| - 1;
      if !Run(c, calls[..last]).value.active {
        InactiveMeans(c, calls[..last]);
      }
      ActiveWhenFixed(c, calls);
    }
  }

  lemma {:induction false} ActiveWhenFixed(c: Config, calls: seq<Call>)
    requires Run(c, calls).Some?
    ensures Run(c, calls).value.fixed ==> Run(c, calls).value.active
    decreases |calls|
  {
    if |calls| > 0 {
      ActiveWhenFixed(c, calls[..|calls| - 1]);
    }
  }

  /** Qualifying epochs without a break cannot begin before an epoch that does not qualify. */
  lemma NotBefore(c: Config, calls: seq<Call>, k: nat, j: nat)
    requires BeganAt(c, calls, k) && QualifyFrom(c, calls, j)
    ensures k <= j
  {
  }

  /** After any successful updates the state is fixed exactly when qualifying epochs have lasted long enough. */
  lemma FixedIff(c: Config, calls: seq<Call>)
    requires Ordered(calls) && Run(c, calls).Some?
    ensures Run(c, calls).value.fixed <==> LongEnough(c, calls)
  {
    if Run(c, calls).value.active {
      var k := RunBegan(c, calls);
      if j: nat :| j < |calls| && QualifyFrom(c, calls, j)
                   && Abs(calls[|calls| - 1].now) - Abs(calls[j].now) >= c.duration {
        NotBefore(c, calls, k, j);
        assert Abs(calls[k].now) <= Abs(calls[j].now);
      }
    } else {
      InactiveMeans(c, calls);
    }
  }

  /** Times that span at most 15249 weeks. */
  predicate Spans(calls: seq<Call>) {
    forall k, l :: 0 <= k < l < |calls| ==> calls[l].now.week - calls[k].now.week <= 15249
  }

  /** With a valid configuration, updates in the order of time never fail. */
  lemma {:induction false} OrderedUpdatesSucceed(c: Config, calls: seq<Call>)
    requires c.duration >= 0 && c.minUsed >= 1 && Ordered(calls) && Spans(calls)
    ensures Run(c, calls).Some?
    decreases |calls|
  {
    if |calls| > 0 {
      var last := |calls| - 1;
      var front := calls[..last];
      OrderedUpdatesSucceed(c, front);
      if Run(c, front).value.active {
        var k := RunBegan(c, front);
        assert front[k] == calls[k];
        LaterDifference(calls[last].now, calls[k].now);
      }
    }
  }
}
