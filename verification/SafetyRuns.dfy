/** The latches and the overrides inside whole runs of the controller: hysteresis and times to live. */
module SafetyRuns {
  import opened Text
  import opened Actuators
  import opened Pipeline
  import I = Interlocks
  import O = Overrides

  // ---- the latches ----

  function RuleOf(c: Config, which: I.Finding): I.LatchRule {
    if which.CriticalTemperature? then I.CriticalRule(c.safety) else I.CeilingRule(c.safety)
  }

  function ReadingAt(turn: Turn, which: I.Finding): Option<real> {
    if which.CriticalTemperature? then turn.input.trusted.temperature else turn.input.trusted.co2
  }

  function Readings(turns: seq<Turn>, which: I.Finding): (r: seq<Option<real>>)
    ensures |r| == |turns| && forall i :: 0 <= i < |r| ==> r[i] == ReadingAt(turns[i], which)
  {
    seq(|turns|, i requires 0 <= i < |turns| => ReadingAt(turns[i], which))
  }

  function LatchOf(s: State, which: I.Finding): I.LatchState {
    if which.CriticalTemperature? then s.latches.critical else s.latches.ceiling
  }

  lemma {:induction false} TickIsCount(turns: seq<Turn>, c: Config)
    ensures Run(START, turns, c).tick == |turns|
  {
    hide LatchesAfter, AppliedAfter, HealthAfter, SentBy, Intended, Baseline;
    if turns != [] {
      TickIsCount(turns[..|turns| - 1], c);
    }
  }

  /** In every run the controller's latch is the latch run over its own readings. */
  lemma {:induction false} RunLatches(turns: seq<Turn>, c: Config, which: I.Finding)
    ensures LatchOf(Run(START, turns, c), which) == I.Latched(Readings(turns, which), RuleOf(c, which))
  {
    hide I.LatchTick, AppliedAfter, HealthAfter, SentBy, Intended, Baseline;
    if turns != [] {
      var n := |turns| - 1;
      RunLatches(turns[..n], c, which);
      TickIsCount(turns[..n], c);
      assert Readings(turns, which)[..n] == Readings(turns[..n], which);
    }
  }

  /** Tick k of the run raises the interlock. */
  predicate Raises(turns: seq<Turn>, c: Config, which: I.Finding, k: nat)
    requires k < |turns|
  {
    !LatchOf(Run(START, turns[..k], c), which).asserted && LatchOf(Run(START, turns[..k + 1], c), which).asserted
  }

  lemma RaisesIsAsserts(turns: seq<Turn>, c: Config, which: I.Finding, k: nat)
    requires k < |turns|
    ensures Raises(turns, c, which, k) <==> I.Asserts(Readings(turns, which), RuleOf(c, which), k)
  {
    hide Run, I.Latched, RuleOf;
    RunLatches(turns[..k], c, which);
    RunLatches(turns[..k + 1], c, which);
    assert Readings(turns, which)[..k] == Readings(turns[..k], which);
    assert Readings(turns, which)[..k + 1] == Readings(turns[..k + 1], which);
  }

  /**
   Hysteresis of the controller: between two ticks that raise an interlock lies one that let go of it, at least the
   minimum hold after the first and with a trusted reading below threshold minus margin; or, for the temperature
   interlock, one that lost the temperature.
   */
  lemma Hysteresis(turns: seq<Turn>, c: Config, which: I.Finding, a: nat, b: nat) returns (k: nat)
    requires a < b < |turns| && Raises(turns, c, which, a) && Raises(turns, c, which, b)
    ensures a < k < b
    ensures match ReadingAt(turns[k], which)
            case None => which.CriticalTemperature?
            case Some(v) => v < RuleOf(c, which).threshold - RuleOf(c, which).rearm && k - a >= c.safety.minHold
  {
    hide Raises, I.Asserts;
    RaisesIsAsserts(turns, c, which, a);
    RaisesIsAsserts(turns, c, which, b);
    k := I.BetweenAsserts(Readings(turns, which), RuleOf(c, which), a, b);
  }

  lemma AfterIsLatched(turns: seq<Turn>, c: Config, which: I.Finding, k: nat)
    requires k < |turns|
    ensures LatchOf(Run(START, turns[..k + 1], c), which).asserted <==>
            I.Standing(Readings(turns, which), RuleOf(c, which), k)
    ensures LatchOf(Run(START, turns[..k + 1], c), which) ==
            var l := LatchesAfter(Before(START, turns, c, k), turns[k].input, c);
            if which.CriticalTemperature? then l.critical else l.ceiling
  {
    hide I.Latched, RuleOf, LatchesAfter, AppliedAfter, HealthAfter, SentBy, Intended, Baseline;
    RunStep(START, turns, c, k);
    RunLatches(turns[..k + 1], c, which);
    assert Readings(turns, which)[..k + 1] == Readings(turns[..k + 1], which);
  }

  /** The interlock is asserted at the end of tick k. */
  predicate Stands(turns: seq<Turn>, c: Config, which: I.Finding, k: nat)
    requires k < |turns|
  {
    LatchOf(Run(START, turns[..k + 1], c), which).asserted
  }

  function Threshold(c: Config, which: I.Finding): real {
    if which.CriticalTemperature? then c.safety.criticalTemperature else c.safety.co2Ceiling
  }

  function Margin(c: Config, which: I.Finding): real {
    if which.CriticalTemperature? then c.safety.temperatureRearm else c.safety.co2Rearm
  }

  /** Tick k lets go of an interlock raised at tick a. */
  predicate LetsGo(turns: seq<Turn>, c: Config, which: I.Finding, a: nat, k: nat)
    requires a <= k < |turns|
  {
    match ReadingAt(turns[k], which)
    case None => which.CriticalTemperature?
    case Some(v) => v < Threshold(c, which) - Margin(c, which) && k - a >= c.safety.minHold
  }

  /** In every run an interlock that is clear is raised exactly by a trusted reading over its threshold. */
  lemma RaisesExactly(turns: seq<Turn>, c: Config, which: I.Finding, k: nat)
    requires k < |turns| && (k > 0 ==> !Stands(turns, c, which, k - 1))
    ensures Stands(turns, c, which, k) <==>
            ReadingAt(turns[k], which).Some? && ReadingAt(turns[k], which).value > Threshold(c, which)
  {
    hide I.Latched, Run;
    RunLatches(turns[..k], c, which);
    RunLatches([], c, which);
    assert Readings(turns, which)[..k] == Readings(turns[..k], which);
    AfterIsLatched(turns, c, which, k);
    if k == 0 {
      StartsClear(Readings(turns, which), RuleOf(c, which));
    }
    I.RaisesExactly(Readings(turns, which), RuleOf(c, which), k);
  }

  lemma StartsClear(readings: seq<Option<real>>, rule: I.LatchRule)
    ensures !I.Latched(readings[..0], rule).asserted
  {
  }

  /** In every run an interlock that is raised is cleared exactly by the first tick that lets go of it. */
  lemma ClearsExactly(turns: seq<Turn>, c: Config, which: I.Finding, a: nat, k: nat)
    requires a < k < |turns| && Raises(turns, c, which, a)
    requires forall i :: a <= i < k ==> Stands(turns, c, which, i)
    ensures !Stands(turns, c, which, k) <==> LetsGo(turns, c, which, a, k)
  {
    hide Raises, I.Asserts, I.Standing, Run;
    RaisesIsAsserts(turns, c, which, a);
    forall i | a <= i <= k
      ensures Stands(turns, c, which, i) <==> I.Standing(Readings(turns, which), RuleOf(c, which), i)
    {
      AfterIsLatched(turns, c, which, i);
    }
    I.ClearsExactly(Readings(turns, which), RuleOf(c, which), a, k);
  }

  // ---- what a tick asks, demands and waives ----

  /** The interlocks' say in one tick. */
  predicate Blind(i: Input) {
    i.trusted.temperature.None?
  }

  predicate Critical(s: State, i: Input, c: Config) {
    i.trusted.temperature.Some? && LatchesAfter(s, i, c).critical.asserted
  }

  predicate Ceiling(s: State, i: Input, c: Config) {
    i.trusted.co2.Some? && LatchesAfter(s, i, c).ceiling.asserted
  }

  predicate Imposes(s: State, i: Input, c: Config, id: ActuatorId) {
    || (id in {House(Heater), House(Fans), House(RoofVents)} && (Blind(i) || Critical(s, i, c)))
    || (id in {House(RoofVents), House(Co2Injector)} && Ceiling(s, i, c))
  }

  /**
   Who decides a level: the CO₂ interlock over the temperature interlock, that over an override still in force, and
   that over the loops.
   With no interlock asserted and the temperature trusted, nothing is imposed.
   */
  lemma AskedExactly(s: State, i: Input, c: Config, id: ActuatorId)
    ensures Get(Intended(s, i, c), id) ==
            if Ceiling(s, i, c) && id == House(RoofVents) then 100.0
            else if Ceiling(s, i, c) && id == House(Co2Injector) then 0.0
            else if id == House(Heater) && (Blind(i) || Critical(s, i, c)) then 0.0
            else if id in {House(Fans), House(RoofVents)} && Blind(i) then 0.0
            else if id in {House(Fans), House(RoofVents)} && Critical(s, i, c) then 100.0
            else if id in s.overrides && s.overrides[id].expiresAt > s.tick then
              Clamp(s.overrides[id].level, 0.0, 100.0)
            else Get(i.loops, id)
  {
    hide LatchesAfter;
  }

  /** A health fault turns what is asked into 0; it, an interlock and a loop failing closed waive the dwell. */
  lemma DemandedExactly(s: State, i: Input, c: Config, id: ActuatorId)
    ensures Get(Demanded(s, i, c), id) ==
            if id in HealthAfter(s, i, c).disabled then 0.0 else Get(Intended(s, i, c), id)
    ensures id in Waived(s, i, c) <==>
            id in HealthAfter(s, i, c).disabled || id in i.failClosed || Imposes(s, i, c, id)
  {
    hide LatchesAfter, HealthAfter, O.Overridden, O.Live;
  }

  /** In every run, the tick in which the critical interlock lets go leaves the heater to operators and loops. */
  lemma LetsHeatAgain(turns: seq<Turn>, c: Config, a: nat, k: nat)
    requires a < k < |turns| && Raises(turns, c, I.CriticalTemperature, a)
    requires forall i :: a <= i < k ==> Stands(turns, c, I.CriticalTemperature, i)
    requires LetsGo(turns, c, I.CriticalTemperature, a, k) && turns[k].input.trusted.temperature.Some?
    ensures var s, i, heater := Before(START, turns, c, k), turns[k].input, House(Heater);
            Get(Intended(s, i, c), heater) ==
            if heater in s.overrides && s.overrides[heater].expiresAt > s.tick
            then Clamp(s.overrides[heater].level, 0.0, 100.0) else Get(i.loops, heater)
  {
    hide LatchesAfter, Intended, Run, Raises;
    ClearsExactly(turns, c, I.CriticalTemperature, a, k);
    AfterIsLatched(turns, c, I.CriticalTemperature, k);
    AskedExactly(Before(START, turns, c, k), turns[k].input, c, House(Heater));
  }

  // ---- the overrides ----

  function Writes(turns: seq<Turn>): (ws: seq<seq<O.Write>>)
    ensures |ws| == |turns| && forall i :: 0 <= i < |ws| ==> ws[i] == turns[i].writes
  {
    seq(|turns|, i requires 0 <= i < |turns| => turns[i].writes)
  }

  /** In every run the overrides left by the last tick are those in force over the run's writes. */
  lemma {:induction false} RunOverrides(turns: seq<Turn>, c: Config)
    ensures Run(START, turns, c).overrides == O.InForce(map[], Writes(turns), 0)
  {
    hide O.AllWritten, O.Live, LatchesAfter, AppliedAfter, HealthAfter, SentBy, Intended, Baseline;
    if turns != [] {
      var n := |turns| - 1;
      RunOverrides(turns[..n], c);
      TickIsCount(turns[..n], c);
      assert Writes(turns)[..n] == Writes(turns[..n]);
    }
  }

  /** Every write to the actuator in these ticks is to another one. */
  predicate Untouched(ticks: seq<seq<O.Write>>, id: ActuatorId) {
    forall ws, w :: ws in ticks && w in ws ==> w.id != id
  }

  /**
   An override written before tick `from` and not replaced or cleared up to tick from + k is applied in that tick
   exactly when k < ttl; applied, it is what is asked of the actuator unless an interlock imposes a level.
   */
  lemma OverrideLasts(turns: seq<Turn>, c: Config, from: nat, k: nat, before: seq<O.Write>, after: seq<O.Write>,
                      id: ActuatorId, level: real, ttl: nat)
    requires from + k < |turns| && from + ttl <= O.U64_MAX
    requires turns[from].writes == before + [O.SetOverride(id, level, ttl)] + after
    requires Untouched([after] + Writes(turns[from + 1..from + k + 1]), id)
    ensures var s, i := Before(START, turns, c, from + k), turns[from + k].input;
            && (id in O.Live(s.overrides, s.tick) <==> k < ttl)
            && (k < ttl && id !in ImposedBy(s, i, c) ==> Get(Intended(s, i, c), id) == Clamp(level, 0.0, 100.0))
  {
    hide O.Live, O.InForce, O.AllWritten, LatchesAfter, AppliedAfter, HealthAfter, SentBy, ImposedBy, Run;
    var upto, later := turns[..from + k + 1], Writes(turns[from + 1..from + k + 1]);
    RunStep(START, turns, c, from + k);
    RunOverrides(upto, c);
    var held := O.InForce(map[], Writes(turns[..from]), 0);
    assert Writes(upto) == Writes(turns[..from]) + ([turns[from].writes] + later);
    O.InForceSplits(map[], Writes(turns[..from]), [turns[from].writes] + later, 0);
    O.SetInTick(held, before, O.SetOverride(id, level, ttl), after, later, from);
    O.InForceExactly(O.AllWritten(held, before, from), id, level, ttl, from, [after] + later);
  }

  /** An override cleared before tick `from` and not written again is applied in no tick from there on. */
  lemma ClearedIsGone(turns: seq<Turn>, c: Config, from: nat, k: nat, before: seq<O.Write>, after: seq<O.Write>,
                      id: ActuatorId)
    requires from + k < |turns|
    requires turns[from].writes == before + [O.ClearOverride(id)] + after
    requires Untouched([after] + Writes(turns[from + 1..from + k + 1]), id)
    ensures var s := Before(START, turns, c, from + k); id !in O.Live(s.overrides, s.tick)
  {
    hide O.Live, O.InForce, O.AllWritten, LatchesAfter, AppliedAfter, HealthAfter, SentBy, ImposedBy, Run;
    var upto, later := turns[..from + k + 1], Writes(turns[from + 1..from + k + 1]);
    RunStep(START, turns, c, from + k);
    RunOverrides(upto, c);
    var held := O.InForce(map[], Writes(turns[..from]), 0);
    assert Writes(upto) == Writes(turns[..from]) + ([turns[from].writes] + later);
    O.InForceSplits(map[], Writes(turns[..from]), [turns[from].writes] + later, 0);
    O.SetInTick(held, before, O.ClearOverride(id), after, later, from);
    O.StaysAbsent(O.AllWritten(held, before, from) - {id}, id, from, [after] + later);
  }
}
