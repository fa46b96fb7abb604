/**
 The carrier tracker: unlocked, frequency lock, phase lock, with hysteresis and persistence.

 Doubles are modelled as reals.  The noise filter (`exp`, `sqrt`) is a parameter: it sets the reported
 frequency error and may fail, and no transition depends on it.
 */
module Carrier {
  import opened Reals
  import opened Wrappers

  datatype Mode = Unlocked | Fll | Pll

  datatype FllPhase = NoPhase | PullIn | Steady

  datatype Config = Config(
    coherent: real, pllBandwidth: real, fllBandwidth: real, pullInBandwidth: real, pullInDuration: real,
    pllEnter: real, pllExit: real, pllEnterHold: real, pllExitHold: real,
    fllEnter: real, fllExit: real, fllEnterHold: real, fllExitHold: real,
    dopplerDelay: real, adrDelay: real)

  /** What the configuration validation accepts, for finite values. */
  predicate ValidConfig(c: Config) {
    && c.coherent > 0.0
    && c.pllBandwidth > 0.0 && c.fllBandwidth > 0.0 && c.pullInBandwidth > 0.0
    && c.pullInBandwidth >= c.fllBandwidth
    && c.pullInDuration > 0.0
    && c.pllEnterHold > 0.0 && c.pllExitHold > 0.0 && c.fllEnterHold > 0.0 && c.fllExitHold > 0.0
    && c.dopplerDelay > 0.0 && c.adrDelay > 0.0
    && c.pllEnter > c.pllExit > c.fllEnter > c.fllExit
  }

  /** The four fields ending in `Held` are the persistence accumulators. */
  datatype State = State(
    mode: Mode, pullIn: bool, modeAge: real, lockAge: real, pllAge: real,
    fllEnterHeld: real, fllExitHeld: real, pllEnterHeld: real, pllExitHeld: real,
    error: real, segment: nat)

  const RESET: State := State(Unlocked, false, 0.0, 0.0, 0.0, 0.0, 0.0, 0.0, 0.0, 0.0, 0)

  /** The part of one update's input that drives the transitions. */
  datatype Tick = Tick(available: bool, cn0: real, dt: real)

  /** New error from mode, pull-in flag, C/N0, wavelength, time step, Gaussian sample and old error. */
  type Filter = (Mode, bool, real, real, real, real, real) -> Option<real>

  const TOLERANCE: real := 0.000000000001

  predicate Reached(elapsed: real, threshold: real) { elapsed + TOLERANCE >= threshold }

  function Grown(held: real, dt: real, condition: bool): real { if condition then held + dt else 0.0 }

  function Cleared(s: State): State {
    s.(fllEnterHeld := 0.0, fllExitHeld := 0.0, pllEnterHeld := 0.0, pllExitHeld := 0.0)
  }

  function Dropped(s: State): State {
    Cleared(s).(mode := Unlocked, pullIn := false, modeAge := 0.0, lockAge := 0.0, pllAge := 0.0, error := 0.0)
  }

  /** The transition of one update. */
  function Moved(c: Config, s: State, tick: Tick): State {
    if !tick.available then Dropped(s)
    else match s.mode
      case Unlocked =>
        var held := Grown(s.fllEnterHeld, tick.dt, tick.cn0 >= c.fllEnter);
        if Reached(held, c.fllEnterHold)
        then Dropped(s).(mode := Fll, pullIn := true, segment := s.segment + 1)
        else s.(fllEnterHeld := held)
      case Fll =>
        var aged := s.(modeAge := s.modeAge + tick.dt, lockAge := s.lockAge + tick.dt,
                       pullIn := s.pullIn && !Reached(s.modeAge + tick.dt, c.pullInDuration),
                       fllExitHeld := Grown(s.fllExitHeld, tick.dt, tick.cn0 < c.fllExit));
        if Reached(aged.fllExitHeld, c.fllExitHold) then Dropped(aged)
        else
          var held := Grown(s.pllEnterHeld, tick.dt, tick.cn0 >= c.pllEnter);
          if Reached(held, c.pllEnterHold)
          then Cleared(aged).(mode := Pll, pullIn := false, modeAge := 0.0, pllAge := 0.0)
          else aged.(pllEnterHeld := held)
      case Pll =>
        var held := Grown(s.pllExitHeld, tick.dt, tick.cn0 < c.pllExit);
        var aged := s.(modeAge := s.modeAge + tick.dt, lockAge := s.lockAge + tick.dt, pllAge := s.pllAge + tick.dt,
                       pllExitHeld := held);
        if Reached(held, c.pllExitHold)
        then Cleared(aged).(mode := Fll, pullIn := false, modeAge := 0.0, pllAge := 0.0)
        else aged
  }

  function Filtered(filter: Filter, s: State, tick: Tick, wavelength: real, sample: real): Option<State> {
    if s.mode.Unlocked? then Some(s)
    else match filter(s.mode, s.pullIn, tick.cn0, wavelength, tick.dt, sample, s.error)
      case None => None
      case Some(e) => Some(s.(error := e))
  }

  datatype Report = Report(
    mode: Mode, phase: FllPhase, error: real, errorMps: real, lockAge: real, pllAge: real, segment: nat,
    dopplerValid: bool, adrValid: bool, modeChanged: bool, newSegment: bool)

  function Phase(s: State): FllPhase {
    if !s.mode.Fll? then NoPhase else if s.pullIn then PullIn else Steady
  }

  predicate AdrValid(c: Config, s: State) { s.mode.Pll? && Reached(s.pllAge, c.adrDelay) }

  predicate DopplerValid(c: Config, s: State) { !s.mode.Unlocked? && Reached(s.lockAge, c.dopplerDelay) }

  function ReportOf(c: Config, before: Mode, s: State, wavelength: real): Report {
    if s.mode.Unlocked?
    then Report(Unlocked, NoPhase, 0.0, 0.0, 0.0, 0.0, s.segment, false, false, before != s.mode, false)
    else Report(s.mode, Phase(s), s.error, wavelength * s.error, s.lockAge, s.pllAge, s.segment,
                DopplerValid(c, s), AdrValid(c, s), before != s.mode, before.Unlocked?)
  }

  /** The tracker, updated in place. */
  class Tracker {
    var mode: Mode
    var pullIn: bool
    var modeAge: real
    var lockAge: real
    var pllAge: real
    var fllEnterHeld: real
    var fllExitHeld: real
    var pllEnterHeld: real
    var pllExitHeld: real
    var error: real
    var segment: nat

    function View(): State
      reads this
    {
      State(mode, pullIn, modeAge, lockAge, pllAge, fllEnterHeld, fllExitHeld, pllEnterHeld, pllExitHeld, error,
            segment)
    }

    constructor ()
      ensures View() == RESET
    {
      mode, pullIn, modeAge, lockAge, pllAge := Unlocked, false, 0.0, 0.0, 0.0;
      fllEnterHeld, fllExitHeld, pllEnterHeld, pllExitHeld := 0.0, 0.0, 0.0, 0.0;
      error, segment := 0.0, 0;
    }

    method Reset()
      modifies this
      ensures View() == RESET
    {
      EnterUnlocked();
      segment := 0;
    }

    method ClearPersistence()
      modifies this
      ensures View() == Cleared(old(View()))
    {
      fllEnterHeld, fllExitHeld, pllEnterHeld, pllExitHeld := 0.0, 0.0, 0.0, 0.0;
    }

    method EnterUnlocked()
      modifies this
      ensures View() == Dropped(old(View()))
    {
      mode, pullIn, modeAge, lockAge, pllAge, error := Unlocked, false, 0.0, 0.0, 0.0, 0.0;
      ClearPersistence();
    }

    method EnterFllFromUnlocked()
      modifies this
      ensures View() == Dropped(old(View())).(mode := Fll, pullIn := true, segment := old(segment) + 1)
    {
      mode, pullIn, modeAge, lockAge, pllAge, error := Fll, true, 0.0, 0.0, 0.0, 0.0;
      ClearPersistence();
      segment := segment + 1;
    }

    method EnterFllFromPll()
      modifies this
      ensures View() == Cleared(old(View())).(mode := Fll, pullIn := false, modeAge := 0.0, pllAge := 0.0)
    {
      mode, pullIn, modeAge, pllAge := Fll, false, 0.0, 0.0;
      ClearPersistence();
    }

    method EnterPll()
      modifies this
      ensures View() == Cleared(old(View())).(mode := Pll, pullIn := false, modeAge := 0.0, pllAge := 0.0)
    {
      mode, pullIn, modeAge, pllAge := Pll, false, 0.0, 0.0;
      ClearPersistence();
    }

    method AdvanceUnlocked(c: Config, cn0: real, dt: real)
      requires mode.Unlocked?
      modifies this
      ensures View() == Moved(c, old(View()), Tick(true, cn0, dt))
    {
      if cn0 >= c.fllEnter {
        fllEnterHeld := fllEnterHeld + dt;
      } else {
        fllEnterHeld := 0.0;
      }
      if Reached(fllEnterHeld, c.fllEnterHold) {
        EnterFllFromUnlocked();
      }
    }

    method AdvanceFll(c: Config, cn0: real, dt: real)
      requires mode.Fll?
      modifies this
      ensures View() == Moved(c, old(View()), Tick(true, cn0, dt))
    {
      modeAge := modeAge + dt;
      lockAge := lockAge + dt;
      if pullIn && Reached(modeAge, c.pullInDuration) {
        pullIn := false;
      }
      if cn0 < c.fllExit {
        fllExitHeld := fllExitHeld + dt;
      } else {
        fllExitHeld := 0.0;
      }
      if Reached(fllExitHeld, c.fllExitHold) {
        EnterUnlocked();
        return;
      }
      if cn0 >= c.pllEnter {
        pllEnterHeld := pllEnterHeld + dt;
      } else {
        pllEnterHeld := 0.0;
      }
      if Reached(pllEnterHeld, c.pllEnterHold) {
        EnterPll();
      }
    }

    method AdvancePll(c: Config, cn0: real, dt: real)
      requires mode.Pll?
      modifies this
      ensures View() == Moved(c, old(View()), Tick(true, cn0, dt))
    {
      modeAge := modeAge + dt;
      lockAge := lockAge + dt;
      pllAge := pllAge + dt;
      if cn0 < c.pllExit {
        pllExitHeld := pllExitHeld + dt;
      } else {
        pllExitHeld := 0.0;
      }
      if Reached(pllExitHeld, c.pllExitHold) {
        EnterFllFromPll();
      }
    }

    /** The transition switch, for an available signal. */
    method Advance(c: Config, cn0: real, dt: real)
      modifies this
      ensures View() == Moved(c, old(View()), Tick(true, cn0, dt))
    {
      match mode
      case Unlocked => AdvanceUnlocked(c, cn0, dt);
      case Fll => AdvanceFll(c, cn0, dt);
      case Pll => AdvancePll(c, cn0, dt);
    }

    /**
     One update.  It refuses a bad configuration, wavelength or time step without touching the tracker;
     when the noise filter fails, the transition has already been made.
     */
    method Update(c: Config, filter: Filter, tick: Tick, wavelength: real, sample: real)
      returns (report: Option<Report>)
      modifies this
      ensures !(ValidConfig(c) && wavelength > 0.0 && tick.dt > 0.0) ==> View() == old(View()) && report == None
      ensures ValidConfig(c) && wavelength > 0.0 && tick.dt > 0.0 ==>
                var moved := Moved(c, old(View()), tick);
                match Filtered(filter, moved, tick, wavelength, sample)
                case None => View() == moved && report == None
                case Some(s) => View() == s && report == Some(ReportOf(c, old(mode), s, wavelength))
    {
      if !ValidConfig(c) || wavelength <= 0.0 || tick.dt <= 0.0 {
        return None;
      }
      var before := mode;
      if tick.available {
        Advance(c, tick.cn0, tick.dt);
      } else {
        EnterUnlocked();
      }
      if mode.Unlocked? {
        return Some(Report(mode, NoPhase, 0.0, 0.0, 0.0, 0.0, segment, false, false, before != mode, false));
      }
      var e := filter(mode, pullIn, tick.cn0, wavelength, tick.dt, sample, error);
      if e == None {
        return None;
      }
      ghost var moved := View();
      error := e.value;
      assert Filtered(filter, moved, tick, wavelength, sample) == Some(View());
      assert ReportOf(c, before, View(), wavelength).errorMps == wavelength * error;
      report := Some(Report(mode, Phase(View()), error, wavelength * error, lockAge, pllAge, segment,
                            Reached(lockAge, c.dopplerDelay), mode.Pll? && Reached(pllAge, c.adrDelay),
                            before != mode, before.Unlocked?));
    }
  }

  // ---------- Runs ----------

  function Run(c: Config, s: State, ticks: seq<Tick>): State
    decreases |ticks|
  {
    if |ticks| == 0 then s
    else var last := |ticks| - 1; Moved(c, Run(c, s, ticks[..last]), ticks[last])
  }

  /** The number of mode changes in a run. */
  function Changes(c: Config, s: State, ticks: seq<Tick>): nat
    decreases |ticks|
  {
    if |ticks| == 0 then 0
    else
      var last := |ticks| - 1;
      Changes(c, s, ticks[..last])
      + if Run(c, s, ticks[..last]).mode == Run(c, s, ticks).mode then 0 else 1
  }

  function Total(ticks: seq<Tick>): real
    decreases |ticks|
  {
    if |ticks| == 0 then 0.0 else var last := |ticks| - 1; Total(ticks[..last]) + ticks[last].dt
  }

  predicate Positive(ticks: seq<Tick>) { forall k :: 0 <= k < |ticks| ==> ticks[k].dt > 0.0 }

  predicate Available(ticks: seq<Tick>) { forall k :: 0 <= k < |ticks| ==> ticks[k].available }

  predicate Constant(ticks: seq<Tick>, cn0: real) {
    forall k :: 0 <= k < |ticks| ==> ticks[k].available && ticks[k].cn0 == cn0 && ticks[k].dt > 0.0
  }

  lemma {:induction false} RunAppend(c: Config, s: State, front: seq<Tick>, back: seq<Tick>)
    ensures Run(c, s, front + back) == Run(c, Run(c, s, front), back)
    decreases |back|
  {
    if |back| == 0 {
      assert front + back == front;
    } else {
      var last := |back| - 1;
      assert (front + back)[..|front + back| - 1] == front + back[..last];
      RunAppend(c, s, front, back[..last]);
    }
  }

  // ---------- Constant C/N0 ----------

  /** Each persistence is one that a zero accumulator has not already reached. */
  predicate PersistencesHold(c: Config) {
    c.fllEnterHold > TOLERANCE && c.fllExitHold > TOLERANCE && c.pllEnterHold > TOLERANCE && c.pllExitHold > TOLERANCE
  }

  /** Mode changes still possible at a constant C/N0. */
  function ChangesLeft(c: Config, cn0: real, mode: Mode): nat {
    match mode
    case Unlocked => if cn0 >= c.pllEnter then 2 else if cn0 >= c.fllEnter then 1 else 0
    case Fll => if cn0 >= c.pllEnter || cn0 < c.fllExit then 1 else 0
    case Pll => if cn0 < c.fllExit then 2 else if cn0 < c.pllExit then 1 else 0
  }

  /** A mode change uses up at least one of the changes left: the thresholds order the modes one way only. */
  lemma ChangeUsesOne(c: Config, s: State, tick: Tick)
    requires ValidConfig(c) && PersistencesHold(c) && tick.available
    ensures Moved(c, s, tick).mode != s.mode ==>
              ChangesLeft(c, tick.cn0, Moved(c, s, tick).mode) < ChangesLeft(c, tick.cn0, s.mode)
  {
  }

  /** At a constant C/N0 the mode changes at most twice, from any state. */
  lemma {:induction false} AtMostTwoChanges(c: Config, s: State, ticks: seq<Tick>, cn0: real)
    requires ValidConfig(c) && PersistencesHold(c) && Constant(ticks, cn0)
    ensures Changes(c, s, ticks) + ChangesLeft(c, cn0, Run(c, s, ticks).mode) <= ChangesLeft(c, cn0, s.mode)
    ensures Changes(c, s, ticks) <= 2
    decreases |ticks|
  {
    if |ticks| > 0 {
      var last := |ticks| - 1;
      assert Constant(ticks[..last], cn0);
      AtMostTwoChanges(c, s, ticks[..last], cn0);
      ChangeUsesOne(c, Run(c, s, ticks[..last]), ticks[last]);
    }
  }

  /** Steps no longer than the coherent interval, as the runtime takes them. */
  predicate Coherent(c: Config, ticks: seq<Tick>) { forall k :: 0 <= k < |ticks| ==> 0.0 < ticks[k].dt <= c.coherent }

  /** A constant-C/N0 run, after any run from reset, that changes mode three times in coherent steps. */
  ghost predicate Chatters(c: Config) {
    exists start, ticks, cn0 ::
      && Coherent(c, start) && Coherent(c, ticks) && Constant(ticks, cn0)
      && Changes(c, Run(c, RESET, start), ticks) > 2
  }

  /** The signal at a constant C/N0 for n coherent steps. */
  function SteadyTicks(c: Config, cn0: real, n: nat): seq<Tick> { seq(n, _ => Tick(true, cn0, c.coherent)) }

  lemma SteadyTicksAppend(c: Config, cn0: real, m: nat, n: nat)
    ensures SteadyTicks(c, cn0, m) + SteadyTicks(c, cn0, n) == SteadyTicks(c, cn0, m + n)
  {
  }

  lemma {:induction false} ChangesAppend(c: Config, s: State, front: seq<Tick>, back: seq<Tick>)
    ensures Changes(c, s, front + back) == Changes(c, s, front) + Changes(c, Run(c, s, front), back)
    decreases |back|
  {
    if |back| == 0 {
      assert front + back == front;
    } else {
      var last := |back| - 1;
      assert (front + back)[..|front + back| - 1] == front + back[..last];
      ChangesAppend(c, s, front, back[..last]);
      RunAppend(c, s, front, back[..last]);
      RunAppend(c, s, front, back);
    }
  }

  /** From a state, n steady steps make one change of mode and end in another. */
  predicate Leads(c: Config, s: State, cn0: real, n: nat, t: State) {
    Run(c, s, SteadyTicks(c, cn0, n)) == t && Changes(c, s, SteadyTicks(c, cn0, n)) == 1
  }

  lemma OneStep(c: Config, s: State, cn0: real)
    ensures var t := Moved(c, s, Tick(true, cn0, c.coherent));
            && Run(c, s, SteadyTicks(c, cn0, 1)) == t
            && Changes(c, s, SteadyTicks(c, cn0, 1)) == if t.mode == s.mode then 0 else 1
  {
    var ticks := SteadyTicks(c, cn0, 1);
    assert ticks[..0] == [];
    assert Run(c, s, ticks[..0]) == s && Changes(c, s, ticks[..0]) == 0;
  }

  /** A step without a change, and then the steps that lead to one. */
  lemma LeadsLater(c: Config, s: State, cn0: real, n: nat, t: State)
    requires Moved(c, s, Tick(true, cn0, c.coherent)).mode == s.mode
    requires Leads(c, Moved(c, s, Tick(true, cn0, c.coherent)), cn0, n, t)
    ensures Leads(c, s, cn0, n + 1, t)
  {
    OneStep(c, s, cn0);
    SteadyTicksAppend(c, cn0, 1, n);
    RunAppend(c, s, SteadyTicks(c, cn0, 1), SteadyTicks(c, cn0, n));
    ChangesAppend(c, s, SteadyTicks(c, cn0, 1), SteadyTicks(c, cn0, n));
  }

  /** Nothing accumulated. */
  predicate Fresh(s: State) { HeldWithin(s, 0.0) && s.fllEnterHeld >= 0.0 && s.pllEnterHeld >= 0.0 }

  /** The persistence that drives a tracker out of its mode at a C/N0, and how far it has run. */
  datatype Drive = NoDrive | Drive(held: real, hold: real)

  function DriveOf(c: Config, s: State, cn0: real): Drive {
    match s.mode
    case Unlocked => if cn0 >= c.fllEnter then Drive(s.fllEnterHeld, c.fllEnterHold) else NoDrive
    case Fll =>
      if cn0 < c.fllExit then Drive(s.fllExitHeld, c.fllExitHold)
      else if cn0 >= c.pllEnter then Drive(s.pllEnterHeld, c.pllEnterHold) else NoDrive
    case Pll => if cn0 < c.pllExit then Drive(s.pllExitHeld, c.pllExitHold) else NoDrive
  }

  /** No other persistence interferes: the ones that are not driven exceed the tolerance. */
  predicate Driven(c: Config, s: State, cn0: real) {
    && DriveOf(c, s, cn0).Drive?
    && (s.mode.Fll? && cn0 < c.fllExit ==> c.pllEnterHold > TOLERANCE)
    && (s.mode.Fll? && cn0 >= c.fllExit ==> c.fllExitHold > TOLERANCE)
  }

  function DrivenMode(c: Config, s: State, cn0: real): Mode {
    match s.mode
    case Unlocked => Fll
    case Fll => if cn0 < c.fllExit then Unlocked else Pll
    case Pll => Fll
  }

  /** A driven tracker changes mode, or its persistence runs on by the step. */
  lemma DrivenStep(c: Config, s: State, cn0: real)
    requires ValidConfig(c) && Driven(c, s, cn0)
    ensures var t := Moved(c, s, Tick(true, cn0, c.coherent));
            if t.mode == s.mode then
              && Driven(c, t, cn0)
              && DriveOf(c, t, cn0) == Drive(DriveOf(c, s, cn0).held + c.coherent, DriveOf(c, s, cn0).hold)
              && !Reached(DriveOf(c, t, cn0).held, DriveOf(c, t, cn0).hold)
            else t.mode == DrivenMode(c, s, cn0) && Fresh(t)
  {
  }

  /** A driven tracker changes mode once its persistence has run. */
  lemma {:induction false} DrivenLeads(c: Config, s: State, cn0: real, n: nat) returns (m: nat, t: State)
    requires ValidConfig(c) && Driven(c, s, cn0)
    requires DriveOf(c, s, cn0).held + Multiple(n + 1, c.coherent) >= DriveOf(c, s, cn0).hold
    ensures Leads(c, s, cn0, m, t) && t.mode == DrivenMode(c, s, cn0) && Fresh(t)
    decreases n
  {
    DrivenStep(c, s, cn0);
    t := Moved(c, s, Tick(true, cn0, c.coherent));
    if t.mode == s.mode {
      assert n > 0 by {
        assert Multiple(0, c.coherent) == 0.0 && Multiple(1, c.coherent) == Multiple(0, c.coherent) + c.coherent;
      }
      var before := t;
      m, t := DrivenLeads(c, before, cn0, n - 1);
      LeadsLater(c, s, cn0, m, t);
      m := m + 1;
    } else {
      OneStep(c, s, cn0);
      m := 1;
    }
  }

  /** A fresh driven tracker changes mode, however short the coherent interval. */
  lemma FreshLeads(c: Config, s: State, cn0: real) returns (m: nat, t: State)
    requires ValidConfig(c) && Driven(c, s, cn0) && DriveOf(c, s, cn0).held >= 0.0
    ensures Leads(c, s, cn0, m, t) && t.mode == DrivenMode(c, s, cn0) && Fresh(t)
  {
    var n := EnoughMultiples(c.coherent, DriveOf(c, s, cn0).hold);
    m, t := DrivenLeads(c, s, cn0, n - 1);
  }

  /** A persistence within the tolerance is reached at once. */
  lemma ShortLeads(c: Config, s: State, cn0: real)
    requires ValidConfig(c) && Moved(c, s, Tick(true, cn0, c.coherent)).mode != s.mode
    ensures Leads(c, s, cn0, 1, Moved(c, s, Tick(true, cn0, c.coherent)))
  {
    OneStep(c, s, cn0);
  }

  lemma TwoLeads(c: Config, s: State, cn0: real, l: nat, t: State, m: nat, u: State)
    requires Leads(c, s, cn0, l, t) && Leads(c, t, cn0, m, u)
    ensures Run(c, s, SteadyTicks(c, cn0, l + m)) == u && Changes(c, s, SteadyTicks(c, cn0, l + m)) == 2
  {
    OneMoreLead(c, s, cn0, l, t, m, u);
  }

  lemma OneMoreLead(c: Config, s: State, cn0: real, k: nat, t: State, n: nat, u: State)
    requires Run(c, s, SteadyTicks(c, cn0, k)) == t && Leads(c, t, cn0, n, u)
    ensures Run(c, s, SteadyTicks(c, cn0, k + n)) == u
    ensures Changes(c, s, SteadyTicks(c, cn0, k + n)) == Changes(c, s, SteadyTicks(c, cn0, k)) + 1
  {
    SteadyTicksAppend(c, cn0, k, n);
    ChangesAppend(c, s, SteadyTicks(c, cn0, k), SteadyTicks(c, cn0, n));
    RunAppend(c, s, SteadyTicks(c, cn0, k), SteadyTicks(c, cn0, n));
  }

  lemma ThreeChanges(c: Config, s: State, cn0: real, l: nat, t: State, m: nat, u: State, n: nat, v: State)
    requires Leads(c, s, cn0, l, t) && Leads(c, t, cn0, m, u) && Leads(c, u, cn0, n, v)
    ensures Changes(c, s, SteadyTicks(c, cn0, l + m + n)) == 3
  {
    TwoLeads(c, s, cn0, l, t, m, u);
    OneMoreLead(c, s, cn0, l + m, u, n, v);
  }

  lemma SteadyTicksFit(c: Config, cn0: real, n: nat)
    requires c.coherent > 0.0
    ensures Coherent(c, SteadyTicks(c, cn0, n)) && Constant(SteadyTicks(c, cn0, n), cn0)
  {
  }

  lemma IsChatter(c: Config, start: seq<Tick>, ticks: seq<Tick>, cn0: real)
    requires Coherent(c, start) && Coherent(c, ticks) && Constant(ticks, cn0)
    requires Changes(c, Run(c, RESET, start), ticks) > 2
    ensures Chatters(c)
  {
  }

  /** Three changes in a row, after a steady start, are chatter. */
  lemma ThreeLeads(c: Config, start: seq<Tick>, s: State, cn0: real, l: nat, t: State, m: nat, u: State, n: nat,
                   v: State)
    requires c.coherent > 0.0 && Coherent(c, start) && Run(c, RESET, start) == s
    requires Leads(c, s, cn0, l, t) && Leads(c, t, cn0, m, u) && Leads(c, u, cn0, n, v)
    ensures Chatters(c)
  {
    ThreeChanges(c, s, cn0, l, t, m, u, n, v);
    SteadyTicksFit(c, cn0, l + m + n);
    IsChatter(c, start, SteadyTicks(c, cn0, l + m + n), cn0);
  }

  lemma FllExitChatters(c: Config)
    requires ValidConfig(c) && c.fllExitHold <= TOLERANCE
    ensures Chatters(c)
  {
    var l, t := FreshLeads(c, RESET, c.fllEnter);
    ShortLeads(c, t, c.fllEnter);
    var u := Moved(c, t, Tick(true, c.fllEnter, c.coherent));
    var n, v := FreshLeads(c, u, c.fllEnter);
    ThreeLeads(c, [], RESET, c.fllEnter, l, t, 1, u, n, v);
  }

  lemma PllExitChatters(c: Config)
    requires ValidConfig(c) && c.fllExitHold > TOLERANCE && c.pllExitHold <= TOLERANCE
    ensures Chatters(c)
  {
    var l, t := FreshLeads(c, RESET, c.pllEnter);
    var m, u := FreshLeads(c, t, c.pllEnter);
    ShortLeads(c, u, c.pllEnter);
    ThreeLeads(c, [], RESET, c.pllEnter, l, t, m, u, 1, Moved(c, u, Tick(true, c.pllEnter, c.coherent)));
  }

  lemma PllEnterChatters(c: Config)
    requires ValidConfig(c) && c.fllExitHold > TOLERANCE && c.pllEnterHold <= TOLERANCE
    ensures Chatters(c)
  {
    var k, s := FreshLeads(c, RESET, c.fllEnter);
    ShortLeads(c, s, c.fllExit);
    var t := Moved(c, s, Tick(true, c.fllExit, c.coherent));
    var m, u := FreshLeads(c, t, c.fllExit);
    ShortLeads(c, u, c.fllExit);
    ThreeLeads(c, SteadyTicks(c, c.fllEnter, k), s, c.fllExit, 1, t, m, u, 1,
               Moved(c, u, Tick(true, c.fllExit, c.coherent)));
  }

  lemma FllEnterChatters(c: Config)
    requires ValidConfig(c) && c.pllEnterHold > TOLERANCE && c.fllEnterHold <= TOLERANCE
    ensures Chatters(c)
  {
    var low := c.fllExit - 1.0;
    ShortLeads(c, RESET, low);
    var t := Moved(c, RESET, Tick(true, low, c.coherent));
    var m, u := FreshLeads(c, t, low);
    ShortLeads(c, u, low);
    ThreeLeads(c, [], RESET, low, 1, t, m, u, 1, Moved(c, u, Tick(true, low, c.coherent)));
  }

  /** A persistence within the tolerance makes the tracker chatter: one run for each of the four. */
  lemma ShortPersistenceChatters(c: Config)
    requires ValidConfig(c) && !PersistencesHold(c)
    ensures Chatters(c)
  {
    if c.fllExitHold <= TOLERANCE {
      FllExitChatters(c);
    } else if c.pllExitHold <= TOLERANCE {
      PllExitChatters(c);
    } else if c.pllEnterHold <= TOLERANCE {
      PllEnterChatters(c);
    } else {
      FllEnterChatters(c);
    }
  }

  /** A validated tracker never chatters exactly when all four persistences exceed the comparison tolerance. */
  lemma NoChatterIff(c: Config)
    requires ValidConfig(c)
    ensures !Chatters(c) <==> PersistencesHold(c)
  {
    if PersistencesHold(c) {
      forall start, ticks, cn0 | Coherent(c, start) && Coherent(c, ticks) && Constant(ticks, cn0)
        ensures Changes(c, Run(c, RESET, start), ticks) <= 2
      {
        AtMostTwoChanges(c, Run(c, RESET, start), ticks, cn0);
      }
    } else {
      ShortPersistenceChatters(c);
    }
  }

  // ---------- Mode changes take time ----------

  function ShortestHold(c: Config): real {
    Smaller(Smaller(c.fllEnterHold, c.fllExitHold), Smaller(c.pllEnterHold, c.pllExitHold))
  }

  predicate HeldWithin(s: State, bound: real) {
    && 0.0 <= bound && s.fllEnterHeld <= bound && s.fllExitHeld <= bound
    && s.pllEnterHeld <= bound && s.pllExitHeld <= bound
  }

  lemma TickUsesTime(c: Config, s: State, tick: Tick, bound: real)
    requires HeldWithin(s, bound) && tick.available && tick.dt > 0.0
    ensures HeldWithin(Moved(c, s, tick), bound + tick.dt)
    ensures Moved(c, s, tick).mode != s.mode ==>
              bound + tick.dt >= ShortestHold(c) - TOLERANCE && HeldWithin(Moved(c, s, tick), 0.0)
  {
  }

  /** While the signal is available, every mode change costs the shortest persistence less the tolerance. */
  lemma {:induction false} ChangesTakeTime(c: Config, s: State, ticks: seq<Tick>, bound: real)
    requires HeldWithin(s, bound) && Available(ticks) && Positive(ticks)
    ensures HeldWithin(Run(c, s, ticks),
                       bound + Total(ticks) - Multiple(Changes(c, s, ticks), ShortestHold(c) - TOLERANCE))
    decreases |ticks|
  {
    if |ticks| > 0 {
      var last := |ticks| - 1;
      ChangesTakeTime(c, s, ticks[..last], bound);
      var cost := Multiple(Changes(c, s, ticks[..last]), ShortestHold(c) - TOLERANCE);
      TickUsesTime(c, Run(c, s, ticks[..last]), ticks[last], bound + Total(ticks[..last]) - cost);
    }
  }

  lemma CostFromReset(c: Config, s: State, ticks: seq<Tick>)
    requires HeldWithin(s, 0.0) && Available(ticks) && Positive(ticks)
    ensures Multiple(Changes(c, s, ticks), ShortestHold(c) - TOLERANCE) <= Total(ticks)
  {
    ChangesTakeTime(c, s, ticks, 0.0);
  }

  /** With no persistence running, as after reset, N changes take at least N such times. */
  lemma ChangesFromReset(c: Config, s: State, ticks: seq<Tick>, n: nat, unit: real)
    requires HeldWithin(s, 0.0) && Available(ticks) && Positive(ticks)
    requires n == Changes(c, s, ticks) && unit == ShortestHold(c) - TOLERANCE
    ensures TimesWithin(n, unit, Total(ticks))
  {
    CostFromReset(c, s, ticks);
    ProductWithin(n, unit, Total(ticks));
  }

  // ---------- Lock in bounded time ----------

  /** Accumulators of a tracker that has been running: none has reached its persistence. */
  predicate Pending(c: Config, s: State) {
    && s.fllEnterHeld + TOLERANCE < c.fllEnterHold
    && s.pllEnterHeld + TOLERANCE < c.pllEnterHold
  }

  lemma MovedPending(c: Config, s: State, tick: Tick)
    requires PersistencesHold(c) && Pending(c, s)
    ensures Pending(c, Moved(c, s, tick))
  {
  }

  lemma {:induction false} RunPending(c: Config, ticks: seq<Tick>)
    requires PersistencesHold(c)
    ensures Pending(c, Run(c, RESET, ticks))
    decreases |ticks|
  {
    if |ticks| > 0 {
      var last := |ticks| - 1;
      RunPending(c, ticks[..last]);
      MovedPending(c, Run(c, RESET, ticks[..last]), ticks[last]);
    }
  }

  function TimeToPll(c: Config, s: State, longest: real): real {
    match s.mode
    case Unlocked => c.fllEnterHold - s.fllEnterHeld + c.pllEnterHold + longest
    case Fll => c.pllEnterHold - s.pllEnterHeld
    case Pll => 0.0
  }

  lemma MovedNearerPll(c: Config, s: State, tick: Tick, longest: real)
    requires ValidConfig(c) && PersistencesHold(c) && Pending(c, s)
    requires tick.available && tick.cn0 >= c.pllEnter && 0.0 < tick.dt <= longest
    ensures Moved(c, s, tick).mode.Pll? ||
            (!s.mode.Pll? && TimeToPll(c, Moved(c, s, tick), longest) <= TimeToPll(c, s, longest) - tick.dt)
  {
  }

  /** Time spent above the PLL entry threshold brings the tracker to phase lock, whatever it did before. */
  lemma {:induction false} ReachesPll(c: Config, s: State, ticks: seq<Tick>, longest: real)
    requires ValidConfig(c) && PersistencesHold(c) && Pending(c, s) && 0.0 < longest
    requires forall k :: 0 <= k < |ticks| ==>
               ticks[k].available && ticks[k].cn0 >= c.pllEnter && 0.0 < ticks[k].dt <= longest
    ensures Pending(c, Run(c, s, ticks))
    ensures Run(c, s, ticks).mode.Pll? ||
            (!s.mode.Pll? && TimeToPll(c, Run(c, s, ticks), longest) <= TimeToPll(c, s, longest) - Total(ticks))
    decreases |ticks|
  {
    if |ticks| > 0 {
      var last := |ticks| - 1;
      var before := Run(c, s, ticks[..last]);
      ReachesPll(c, s, ticks[..last], longest);
      MovedPending(c, before, ticks[last]);
      MovedNearerPll(c, before, ticks[last], longest);
    }
  }

  /** After any history, a strong signal locks in phase within both entry persistences and one step. */
  lemma LocksInBoundedTime(c: Config, history: seq<Tick>, ticks: seq<Tick>, longest: real)
    requires ValidConfig(c) && PersistencesHold(c) && Positive(history) && 0.0 < longest
    requires forall k :: 0 <= k < |ticks| ==>
               ticks[k].available && ticks[k].cn0 >= c.pllEnter && 0.0 < ticks[k].dt <= longest
    requires Total(ticks) >= c.fllEnterHold + c.pllEnterHold + longest
    ensures Run(c, RESET, history + ticks).mode.Pll?
  {
    RunAppend(c, RESET, history, ticks);
    RunPending(c, history);
    HeldNonNegative(c, history);
    ReachesPll(c, Run(c, RESET, history), ticks, longest);
  }

  predicate HeldPositive(s: State) { s.fllEnterHeld >= 0.0 && s.pllEnterHeld >= 0.0 }

  lemma {:induction false} HeldNonNegative(c: Config, ticks: seq<Tick>)
    requires Positive(ticks)
    ensures HeldPositive(Run(c, RESET, ticks))
    decreases |ticks|
  {
    if |ticks| > 0 {
      var last := |ticks| - 1;
      HeldNonNegative(c, ticks[..last]);
    }
  }

  // ---------- What the validity flags say about the past ----------

  /** Phase lock without a break over the last ticks of a run, from entry to the end. */
  ghost predicate InPllSince(c: Config, ticks: seq<Tick>, k: nat) {
    k <= |ticks| && (forall j :: k <= j <= |ticks| ==> Run(c, RESET, ticks[..j]).mode.Pll?)
  }

  /** Carrier lock without a break over the last ticks of a run. */
  ghost predicate LockedSince(c: Config, ticks: seq<Tick>, k: nat) {
    k <= |ticks| && (forall j :: k <= j <= |ticks| ==> !Run(c, RESET, ticks[..j]).mode.Unlocked?)
  }

  lemma PrefixOfPrefix(ticks: seq<Tick>, last: nat)
    requires |ticks| == last + 1
    ensures forall j :: 0 <= j <= last ==> ticks[..last][..j] == ticks[..j]
    ensures ticks[..|ticks|] == ticks
  {
  }

  lemma TotalSplit(ticks: seq<Tick>, k: nat, last: nat)
    requires |ticks| == last + 1 && k <= last
    ensures Total(ticks[k..]) == Total(ticks[..last][k..]) + ticks[last].dt
  {
    assert ticks[k..][..last - k] == ticks[..last][k..];
  }

  /** The phase-lock age is the time since phase lock was entered and has held since. */
  lemma {:induction false} PllAgeMeaning(c: Config, ticks: seq<Tick>) returns (k: nat)
    requires Run(c, RESET, ticks).mode.Pll?
    ensures InPllSince(c, ticks, k) && Run(c, RESET, ticks).pllAge == Total(ticks[k..])
    decreases |ticks|
  {
    assert |ticks| > 0;
    var last := |ticks| - 1;
    PrefixOfPrefix(ticks, last);
    if Run(c, RESET, ticks[..last]).mode.Pll? {
      k := PllAgeMeaning(c, ticks[..last]);
      TotalSplit(ticks, k, last);
    } else {
      k := |ticks|;
    }
  }

  lemma {:induction false} LockAgeMeaning(c: Config, ticks: seq<Tick>) returns (k: nat)
    requires !Run(c, RESET, ticks).mode.Unlocked?
    ensures LockedSince(c, ticks, k) && Run(c, RESET, ticks).lockAge == Total(ticks[k..])
    decreases |ticks|
  {
    assert |ticks| > 0;
    var last := |ticks| - 1;
    PrefixOfPrefix(ticks, last);
    if Run(c, RESET, ticks[..last]).mode.Unlocked? {
      k := |ticks|;
    } else {
      k := LockAgeMeaning(c, ticks[..last]);
      TotalSplit(ticks, k, last);
    }
  }

  /** Valid carrier phase means unbroken phase lock for the configured delay; valid Doppler, unbroken lock. */
  lemma ValidityMeansHistory(c: Config, ticks: seq<Tick>)
    ensures AdrValid(c, Run(c, RESET, ticks)) ==>
              exists k: nat :: InPllSince(c, ticks, k) && Total(ticks[k..]) >= c.adrDelay - TOLERANCE
    ensures DopplerValid(c, Run(c, RESET, ticks)) ==>
              exists k: nat :: LockedSince(c, ticks, k) && Total(ticks[k..]) >= c.dopplerDelay - TOLERANCE
  {
    if AdrValid(c, Run(c, RESET, ticks)) {
      var k := PllAgeMeaning(c, ticks);
    }
    if DopplerValid(c, Run(c, RESET, ticks)) {
      var k := LockAgeMeaning(c, ticks);
    }
  }

  // ---------- When the mode changes ----------

  /** The four ways out of a mode that the C/N0 decides. */
  datatype Exit = GainLock | GainPhase | LosePhase | LoseLock

  function From(x: Exit): Mode {
    match x case GainLock => Unlocked case GainPhase => Fll case LosePhase => Pll case LoseLock => Fll
  }

  function To(x: Exit): Mode {
    match x case GainLock => Fll case GainPhase => Pll case LosePhase => Fll case LoseLock => Unlocked
  }

  /** What an exit asks of the C/N0. */
  predicate Asks(c: Config, x: Exit, cn0: real) {
    match x
    case GainLock => cn0 >= c.fllEnter
    case GainPhase => cn0 >= c.pllEnter
    case LosePhase => cn0 < c.pllExit
    case LoseLock => cn0 < c.fllExit
  }

  /** For how long it asks that. */
  function HoldOf(c: Config, x: Exit): real {
    match x
    case GainLock => c.fllEnterHold
    case GainPhase => c.pllEnterHold
    case LosePhase => c.pllExitHold
    case LoseLock => c.fllExitHold
  }

  function HeldOf(s: State, x: Exit): real {
    match x
    case GainLock => s.fllEnterHeld
    case GainPhase => s.pllEnterHeld
    case LosePhase => s.pllExitHeld
    case LoseLock => s.fllExitHeld
  }

  /** The tracker has been in the mode from tick k on, with a signal that did what the exit asks. */
  ghost predicate Asked(c: Config, ticks: seq<Tick>, x: Exit, k: nat) {
    && k <= |ticks| && (forall j :: k <= j <= |ticks| ==> Run(c, RESET, ticks[..j]).mode == From(x))
    && forall j :: k <= j < |ticks| ==> ticks[j].available && Asks(c, x, ticks[j].cn0)
  }

  /** What one tick does to the accumulator of an exit from the mode it ends in. */
  lemma HeldStep(c: Config, s: State, tick: Tick, x: Exit)
    requires Moved(c, s, tick).mode == From(x)
    ensures HeldOf(Moved(c, s, tick), x) ==
            if s.mode == From(x) && tick.available && Asks(c, x, tick.cn0) then HeldOf(s, x) + tick.dt else 0.0
  {
  }

  lemma AskedMore(c: Config, ticks: seq<Tick>, x: Exit, k: nat, last: nat)
    requires |ticks| == last + 1 && Asked(c, ticks[..last], x, k) && Run(c, RESET, ticks).mode == From(x)
    requires ticks[last].available && Asks(c, x, ticks[last].cn0)
    ensures Asked(c, ticks, x, k)
  {
    PrefixOfPrefix(ticks, last);
    forall j | k <= j < |ticks|
      ensures ticks[j].available && Asks(c, x, ticks[j].cn0)
    {
      assert j < last ==> ticks[..last][j] == ticks[j];
    }
  }

  /** An accumulator is the time for which its exit has been asked for without a break. */
  lemma {:induction false} HeldIsAsked(c: Config, ticks: seq<Tick>, x: Exit) returns (k: nat)
    requires Run(c, RESET, ticks).mode == From(x)
    ensures Asked(c, ticks, x, k) && HeldOf(Run(c, RESET, ticks), x) == Total(ticks[k..])
    decreases |ticks|
  {
    k := |ticks|;
    assert ticks[..|ticks|] == ticks;
    if |ticks| > 0 {
      var last := |ticks| - 1;
      HeldStep(c, Run(c, RESET, ticks[..last]), ticks[last], x);
      if Run(c, RESET, ticks[..last]).mode == From(x) && ticks[last].available && Asks(c, x, ticks[last].cn0) {
        k := HeldIsAsked(c, ticks[..last], x);
        AskedMore(c, ticks, x, k, last);
        TotalSplit(ticks, k, last);
      }
    }
  }

  lemma {:induction false} HeldNotNegative(c: Config, ticks: seq<Tick>, x: Exit)
    requires Positive(ticks) && Run(c, RESET, ticks).mode == From(x)
    ensures HeldOf(Run(c, RESET, ticks), x) >= 0.0
    decreases |ticks|
  {
    if |ticks| > 0 {
      var last := |ticks| - 1;
      HeldStep(c, Run(c, RESET, ticks[..last]), ticks[last], x);
      if Run(c, RESET, ticks[..last]).mode == From(x) {
        HeldNotNegative(c, ticks[..last], x);
      }
    }
  }

  /** It counts all of any time for which the exit has been asked for. */
  lemma {:induction false} AskedIsHeld(c: Config, ticks: seq<Tick>, x: Exit, k: nat)
    requires Positive(ticks) && Asked(c, ticks, x, k)
    ensures Total(ticks[k..]) <= HeldOf(Run(c, RESET, ticks), x)
    decreases |ticks|
  {
    assert ticks[..|ticks|] == ticks;
    if k == |ticks| {
      HeldNotNegative(c, ticks, x);
    } else {
      var last := |ticks| - 1;
      PrefixOfPrefix(ticks, last);
      AskedIsHeld(c, ticks[..last], x, k);
      HeldStep(c, Run(c, RESET, ticks[..last]), ticks[last], x);
      TotalSplit(ticks, k, last);
    }
  }

  /** The exit has been asked for without a break for as long as it must be, this tick included. */
  ghost predicate AskedLongEnough(c: Config, ticks: seq<Tick>, tick: Tick, x: Exit) {
    && tick.available && Asks(c, x, tick.cn0)
    && exists k: nat :: Asked(c, ticks, x, k) && Total(ticks[k..]) + tick.dt + TOLERANCE >= HoldOf(c, x)
  }

  lemma HeldLongEnough(c: Config, ticks: seq<Tick>, tick: Tick, x: Exit)
    requires Positive(ticks) && Run(c, RESET, ticks).mode == From(x)
    ensures AskedLongEnough(c, ticks, tick, x) <==>
            tick.available && Asks(c, x, tick.cn0) && Reached(HeldOf(Run(c, RESET, ticks), x) + tick.dt, HoldOf(c, x))
  {
    var k := HeldIsAsked(c, ticks, x);
    forall m: nat | Asked(c, ticks, x, m)
      ensures Total(ticks[m..]) <= HeldOf(Run(c, RESET, ticks), x)
    {
      AskedIsHeld(c, ticks, x, m);
    }
  }

  lemma MovesOnReached(c: Config, s: State, tick: Tick, x: Exit)
    requires ValidConfig(c) && PersistencesHold(c) && s.mode == From(x)
    ensures Moved(c, s, tick).mode == To(x) <==>
            || (tick.available && Asks(c, x, tick.cn0) && Reached(HeldOf(s, x) + tick.dt, HoldOf(c, x)))
            || (x.LoseLock? && !tick.available)
    ensures !tick.available ==> Moved(c, s, tick).mode.Unlocked?
  {
  }

  /**
   After any history, a tracker takes an exit from its mode exactly when the C/N0 has asked for it, in that mode and
   without a break, for the whole persistence; and it drops to unlocked whenever the signal is gone.
   */
  lemma ExitsIff(c: Config, ticks: seq<Tick>, tick: Tick, x: Exit)
    requires ValidConfig(c) && PersistencesHold(c) && Positive(ticks)
    requires Run(c, RESET, ticks).mode == From(x)
    ensures Moved(c, Run(c, RESET, ticks), tick).mode == To(x) <==>
            AskedLongEnough(c, ticks, tick, x) || (x.LoseLock? && !tick.available)
    ensures !tick.available ==> Moved(c, Run(c, RESET, ticks), tick).mode.Unlocked?
  {
    MovesOnReached(c, Run(c, RESET, ticks), tick, x);
    HeldLongEnough(c, ticks, tick, x);
  }

  // ---------- Pull-in ----------

  /** Frequency lock was entered by tick k - 1 and has held since. */
  ghost predicate FllSince(c: Config, ticks: seq<Tick>, k: nat) {
    && 0 < k <= |ticks| && !Run(c, RESET, ticks[..k - 1]).mode.Fll?
    && forall j :: k <= j <= |ticks| ==> Run(c, RESET, ticks[..j]).mode.Fll?
  }

  /** What one tick does to a tracker that ends in frequency lock. */
  lemma FllStep(c: Config, s: State, tick: Tick)
    requires Moved(c, s, tick).mode.Fll?
    ensures var t := Moved(c, s, tick);
            if s.mode.Fll? then
              t.modeAge == s.modeAge + tick.dt && (t.pullIn <==> s.pullIn && !Reached(t.modeAge, c.pullInDuration))
            else t.modeAge == 0.0 && (t.pullIn <==> s.mode.Unlocked?)
  {
  }

  lemma FllSinceMore(c: Config, ticks: seq<Tick>, k: nat, last: nat)
    requires |ticks| == last + 1 && FllSince(c, ticks[..last], k) && Run(c, RESET, ticks).mode.Fll?
    ensures FllSince(c, ticks, k)
  {
    PrefixOfPrefix(ticks, last);
  }

  /**
   Frequency lock is in pull-in exactly if it was entered from unlocked and has not yet lasted for the pull-in
   duration; back from phase lock it is steady at once.
   */
  lemma {:induction false} PullInMeaning(c: Config, ticks: seq<Tick>) returns (k: nat)
    requires Positive(ticks) && Run(c, RESET, ticks).mode.Fll?
    ensures FllSince(c, ticks, k) && Run(c, RESET, ticks).modeAge == Total(ticks[k..])
    ensures Run(c, RESET, ticks).pullIn <==>
            && Run(c, RESET, ticks[..k - 1]).mode.Unlocked?
            && (k == |ticks| || Total(ticks[k..]) + TOLERANCE < c.pullInDuration)
    decreases |ticks|
  {
    assert |ticks| > 0 && ticks[..|ticks|] == ticks;
    var last := |ticks| - 1;
    FllStep(c, Run(c, RESET, ticks[..last]), ticks[last]);
    if Run(c, RESET, ticks[..last]).mode.Fll? {
      k := PullInMeaning(c, ticks[..last]);
      FllSinceMore(c, ticks, k, last);
      TotalSplit(ticks, k, last);
      assert ticks[..last][..k - 1] == ticks[..k - 1];
    } else {
      k := |ticks|;
    }
  }

  // ---------- Carrier segments ----------

  /** How often a run has gained lock. */
  function Gains(c: Config, ticks: seq<Tick>): nat
    decreases |ticks|
  {
    if |ticks| == 0 then 0
    else
      var last := |ticks| - 1;
      Gains(c, ticks[..last])
      + if Run(c, RESET, ticks[..last]).mode.Unlocked? && !Run(c, RESET, ticks).mode.Unlocked? then 1 else 0
  }

  /** The carrier segment number counts the locks gained since reset. */
  lemma {:induction false} SegmentCountsGains(c: Config, ticks: seq<Tick>)
    ensures Run(c, RESET, ticks).segment == Gains(c, ticks)
    decreases |ticks|
  {
    if |ticks| > 0 {
      SegmentCountsGains(c, ticks[..|ticks| - 1]);
    }
  }

  /** Lock is gained and lost with no error, age or persistence; through phase lock error and lock age go on. */
  lemma ChangesStartClean(c: Config, s: State, tick: Tick)
    requires Moved(c, s, tick).mode != s.mode
    ensures var t := Moved(c, s, tick);
            && t.fllEnterHeld == t.fllExitHeld == t.pllEnterHeld == t.pllExitHeld == 0.0
            && t.modeAge == 0.0 && t.pllAge == 0.0
            && if s.mode.Unlocked? || t.mode.Unlocked? then t.error == 0.0 && t.lockAge == 0.0
               else t.error == s.error && t.lockAge == s.lockAge + tick.dt
  {
  }
}
