/** Stage 5 of the tick: the latching safety interlocks. */
module Interlocks {
  import opened Text
  import opened Actuators

  // ---- one latch ----

  datatype LatchState = LatchState(asserted: bool, assertedAt: nat)

  const CLEAR := LatchState(false, 0)

  /** Ticks since, never negative. */
  function Since(now: nat, earlier: nat): nat {
    if now >= earlier then now - earlier else 0
  }

  function LatchNext(l: LatchState, over: bool, recovered: bool, now: nat, minHold: nat): LatchState {
    if l.asserted then
      if recovered && Since(now, l.assertedAt) >= minHold then l.(asserted := false) else l
    else if over then LatchState(true, now)
    else l
  }

  class Latch {
    var asserted: bool
    var assertedAt: nat

    ghost function Now(): LatchState
      reads this
    {
      LatchState(asserted, assertedAt)
    }

    constructor ()
      ensures Now() == CLEAR
    {
      asserted, assertedAt := false, 0;
    }

    method Update(over: bool, recovered: bool, now: nat, minHold: nat) returns (r: bool)
      modifies this
      ensures Now() == LatchNext(old(Now()), over, recovered, now, minHold) && r == asserted
    {
      if asserted {
        var held := Since(now, assertedAt) >= minHold;
        if recovered && held {
          asserted := false;
        }
      } else if over {
        asserted := true;
        assertedAt := now;
      }
      r := asserted;
    }

    method Reset()
      modifies this
      ensures Now() == CLEAR
    {
      asserted, assertedAt := false, 0;
    }
  }

  // ---- the two interlocks ----

  datatype Safety = Safety(
    criticalTemperature: real,
    temperatureRearm: real,
    co2Ceiling: real,
    co2Rearm: real,
    minHold: nat)

  datatype Finding = CriticalTemperature | Co2Ceiling

  datatype InterlockLatches = InterlockLatches(critical: LatchState, ceiling: LatchState)

  /** A latch's settings, and whether it lets go when its reading is lost. */
  datatype LatchRule = LatchRule(threshold: real, rearm: real, minHold: nat, letsGoBlind: bool)

  function CriticalRule(s: Safety): LatchRule {
    LatchRule(s.criticalTemperature, s.temperatureRearm, s.minHold, true)
  }

  function CeilingRule(s: Safety): LatchRule {
    LatchRule(s.co2Ceiling, s.co2Rearm, s.minHold, false)
  }

  /** One tick of a latch, its reading trusted or not. */
  function LatchTick(l: LatchState, reading: Option<real>, now: nat, rule: LatchRule): LatchState {
    match reading
    case None => if rule.letsGoBlind then CLEAR else l
    case Some(v) => LatchNext(l, v > rule.threshold, v < rule.threshold - rule.rearm, now, rule.minHold)
  }

  function LatchesNext(l: InterlockLatches, temperature: Option<real>, co2: Option<real>, s: Safety,
                       now: nat): InterlockLatches {
    InterlockLatches(LatchTick(l.critical, temperature, now, CriticalRule(s)),
                     LatchTick(l.ceiling, co2, now, CeilingRule(s)))
  }

  function ImposedByTemperature(critical: LatchState, temperature: Option<real>): Commands {
    if temperature.None? then map[House(Heater) := 0.0, House(Fans) := 0.0, House(RoofVents) := 0.0]
    else if critical.asserted then map[House(Heater) := 0.0, House(Fans) := 100.0, House(RoofVents) := 100.0]
    else map[]
  }

  function ImposedByCo2(ceiling: LatchState, co2: Option<real>): Commands {
    if co2.Some? && ceiling.asserted then map[House(RoofVents) := 100.0, House(Co2Injector) := 0.0] else map[]
  }

  /** The levels the interlocks impose, given the latches after this tick's update; CO₂ has the last word. */
  function Imposed(l: InterlockLatches, temperature: Option<real>, co2: Option<real>): Commands {
    ImposedByTemperature(l.critical, temperature) + ImposedByCo2(l.ceiling, co2)
  }

  class InterlockState {
    const critical: Latch
    const ceiling: Latch

    ghost predicate Valid() {
      critical != ceiling
    }

    ghost function Now(): InterlockLatches
      reads critical, ceiling
    {
      InterlockLatches(critical.Now(), ceiling.Now())
    }

    constructor ()
      ensures Valid() && Now() == InterlockLatches(CLEAR, CLEAR) && fresh(critical) && fresh(ceiling)
    {
      critical := new Latch();
      ceiling := new Latch();
    }

    method GuardTemperature(temperature: Option<real>, s: Safety, now: nat, cmd: Commands)
      returns (out: Commands, forced: set<ActuatorId>, findings: set<Finding>)
      modifies critical
      ensures critical.Now() ==
          LatchesNext(InterlockLatches(old(critical.Now()), CLEAR), temperature, None, s, now).critical
      ensures out == cmd + ImposedByTemperature(critical.Now(), temperature)
      ensures forced == ImposedByTemperature(critical.Now(), temperature).Keys
      ensures findings == if temperature.Some? && critical.asserted then {CriticalTemperature} else {}
    {
      out, forced, findings := cmd, {}, {};
      if temperature.Some? {
        var t := temperature.value;
        var hot := critical.Update(t > s.criticalTemperature, t < s.criticalTemperature - s.temperatureRearm, now,
                                   s.minHold);
        if hot {
          out, forced := Force(out, forced, Heater, 0.0);
          out, forced := Force(out, forced, Fans, 100.0);
          out, forced := Force(out, forced, RoofVents, 100.0);
          findings := {CriticalTemperature};
        }
      } else {
        out, forced := Force(out, forced, Heater, 0.0);
        out, forced := Force(out, forced, Fans, 0.0);
        out, forced := Force(out, forced, RoofVents, 0.0);
        critical.Reset();
      }
    }

    method GuardCo2(co2: Option<real>, s: Safety, now: nat, cmd: Commands)
      returns (out: Commands, forced: set<ActuatorId>, findings: set<Finding>)
      modifies ceiling
      ensures ceiling.Now() == LatchesNext(InterlockLatches(CLEAR, old(ceiling.Now())), None, co2, s, now).ceiling
      ensures out == cmd + ImposedByCo2(ceiling.Now(), co2)
      ensures forced == ImposedByCo2(ceiling.Now(), co2).Keys
      ensures findings == if co2.Some? && ceiling.asserted then {Co2Ceiling} else {}
    {
      out, forced, findings := cmd, {}, {};
      if co2.Some? {
        var c := co2.value;
        var high := ceiling.Update(c > s.co2Ceiling, c < s.co2Ceiling - s.co2Rearm, now, s.minHold);
        if high {
          out, forced := Force(out, forced, RoofVents, 100.0);
          out, forced := Force(out, forced, Co2Injector, 0.0);
          findings := {Co2Ceiling};
        }
      }
    }

    method Apply(temperature: Option<real>, co2: Option<real>, s: Safety, now: nat, cmd: Commands)
      returns (out: Commands, forced: set<ActuatorId>, findings: set<Finding>)
      requires Valid()
      modifies critical, ceiling
      ensures Now() == LatchesNext(old(Now()), temperature, co2, s, now)
      ensures out == cmd + Imposed(Now(), temperature, co2) && forced == Imposed(Now(), temperature, co2).Keys
      ensures findings == (if temperature.Some? && critical.asserted then {CriticalTemperature} else {}) +
                          (if co2.Some? && ceiling.asserted then {Co2Ceiling} else {})
    {
      hide ImposedByTemperature, ImposedByCo2;
      var first, forcedFirst, found := GuardTemperature(temperature, s, now, cmd);
      out, forced, findings := GuardCo2(co2, s, now, first);
      forced := forcedFirst + forced;
      findings := found + findings;
    }
  }

  method Force(cmd: Commands, forced: set<ActuatorId>, actuator: Actuator, level: real)
    returns (out: Commands, more: set<ActuatorId>)
    requires 0.0 <= level <= 100.0
    ensures out == cmd[House(actuator) := level] && more == forced + {House(actuator)}
  {
    out, more := Set(cmd, House(actuator), level), forced + {House(actuator)};
  }

  // ---- a latch over a run of readings ----

  /** The latch after the first readings, one a tick, trusted or not. */
  function Latched(readings: seq<Option<real>>, rule: LatchRule): LatchState {
    if readings == [] then CLEAR
    else
      var n := |readings| - 1;
      LatchTick(Latched(readings[..n], rule), readings[n], n, rule)
  }

  predicate Standing(readings: seq<Option<real>>, rule: LatchRule, i: nat)
    requires i < |readings|
  {
    Latched(readings[..i + 1], rule).asserted
  }

  /** Tick `i` raises the latch. */
  predicate Asserts(readings: seq<Option<real>>, rule: LatchRule, i: nat)
    requires i < |readings|
  {
    !Latched(readings[..i], rule).asserted && Standing(readings, rule, i)
  }

  /**
   What lets go of a latch raised at tick `a`: recovered past the margin and held long enough, or, for one,
   blindness.
   */
  predicate Releases(readings: seq<Option<real>>, rule: LatchRule, a: nat, k: nat)
    requires a <= k < |readings|
  {
    match readings[k]
    case None => rule.letsGoBlind
    case Some(v) => v < rule.threshold - rule.rearm && k - a >= rule.minHold
  }

  lemma LatchStep(readings: seq<Option<real>>, rule: LatchRule, i: nat)
    requires i < |readings|
    ensures Latched(readings[..i + 1], rule) == LatchTick(Latched(readings[..i], rule), readings[i], i, rule)
  {
    assert readings[..i + 1][..i] == readings[..i];
  }

  /** A trusted reading over the threshold leaves the latch asserted in its own tick, whatever came before. */
  lemma AssertsAtOnce(readings: seq<Option<real>>, rule: LatchRule, i: nat)
    requires i < |readings| && readings[i].Some? && readings[i].value > rule.threshold && rule.rearm >= 0.0
    ensures Standing(readings, rule, i)
  {
    LatchStep(readings, rule, i);
  }

  /** While it is clear, a tick raises the latch exactly on a trusted reading over the threshold. */
  lemma RaisesExactly(readings: seq<Option<real>>, rule: LatchRule, k: nat)
    requires k < |readings| && !Latched(readings[..k], rule).asserted
    ensures Standing(readings, rule, k) <==> readings[k].Some? && readings[k].value > rule.threshold
  {
    LatchStep(readings, rule, k);
  }

  lemma {:induction false} StandsSince(readings: seq<Option<real>>, rule: LatchRule, a: nat, k: nat)
    requires a < k <= |readings| && Asserts(readings, rule, a)
    requires forall i :: a <= i < k ==> Standing(readings, rule, i)
    ensures Latched(readings[..k], rule) == LatchState(true, a)
    decreases k
  {
    hide Latched;
    var i := k - 1;
    assert Standing(readings, rule, i) && readings[..i + 1] == readings[..k];
    LatchStep(readings, rule, i);
    if i > a {
      StandsSince(readings, rule, a, i);
    }
  }

  /** While it stands, a tick clears the latch exactly when it releases it: the latch does let go. */
  lemma ClearsExactly(readings: seq<Option<real>>, rule: LatchRule, a: nat, k: nat)
    requires a < k < |readings| && Asserts(readings, rule, a)
    requires forall i :: a <= i < k ==> Standing(readings, rule, i)
    ensures !Standing(readings, rule, k) <==> Releases(readings, rule, a, k)
  {
    hide Latched;
    StandsSince(readings, rule, a, k);
    LatchStep(readings, rule, k);
  }

  /** From an assertion on, the latch stands until some tick releases it. */
  lemma StandsUntilCleared(readings: seq<Option<real>>, rule: LatchRule, a: nat, b: nat) returns (k: nat)
    requires a < b < |readings|
    requires Asserts(readings, rule, a) && !Standing(readings, rule, b)
    ensures a < k <= b && Releases(readings, rule, a, k)
    ensures forall i :: a <= i < k ==> Standing(readings, rule, i)
  {
    hide Latched;
    k := a + 1;
    LatchStep(readings, rule, a);
    while Standing(readings, rule, k)
      invariant a < k <= b
      invariant Latched(readings[..k], rule) == LatchState(true, a)
      invariant forall i :: a <= i < k ==> Standing(readings, rule, i)
      decreases b - k
    {
      LatchStep(readings, rule, k);
      k := k + 1;
    }
    LatchStep(readings, rule, k);
  }

  /** Hysteresis: between two assertions of the latch lies a tick that released it. */
  lemma BetweenAsserts(readings: seq<Option<real>>, rule: LatchRule, a: nat, b: nat) returns (k: nat)
    requires a < b < |readings| && Asserts(readings, rule, a) && Asserts(readings, rule, b)
    ensures a < k < b && Releases(readings, rule, a, k)
  {
    hide Latched;
    assert b > a + 1;
    assert readings[..b - 1 + 1] == readings[..b];
    k := StandsUntilCleared(readings, rule, a, b - 1);
  }

  /** Readings that are never lost where that matters and never fall below the margin raise the latch at most once. */
  lemma NoChatter(readings: seq<Option<real>>, rule: LatchRule, a: nat, b: nat)
    requires a < |readings| && b < |readings|
    requires forall i :: 0 <= i < |readings| ==>
               if readings[i].Some? then readings[i].value >= rule.threshold - rule.rearm else !rule.letsGoBlind
    requires Asserts(readings, rule, a) && Asserts(readings, rule, b)
    ensures a == b
  {
    hide Asserts;
    if a < b {
      var k := BetweenAsserts(readings, rule, a, b);
    } else if b < a {
      var k := BetweenAsserts(readings, rule, b, a);
    }
  }
}
