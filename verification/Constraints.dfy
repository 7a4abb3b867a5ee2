/** Stage 6 of the tick: slew and ramp limits and minimum on, off and open times. */
module Constraints {
  import opened Text
  import opened Actuators

  datatype Limits = Limits(
    slew: Option<real>,
    minOn: Option<nat>,
    minOff: Option<nat>,
    ramp: Option<real>,
    minOpen: Option<nat>)
  {
    predicate Valid() {
      (slew.Some? ==> slew.value > 0.0) && (ramp.Some? ==> ramp.value > 0.0)
    }

    function Rate(): Option<real> {
      if slew.Some? then slew else ramp
    }

    function MinOn(): Option<nat> {
      if minOn.Some? then minOn else minOpen
    }

    predicate NoDwell() {
      minOn.None? && minOff.None? && minOpen.None?
    }
  }

  const UNLIMITED := Limits(None, None, None, None, None)

  datatype Applied = Applied(level: real, ticks: nat, initialized: bool) {
    predicate On() {
      level > 0.0
    }
  }

  const AT_REST := Applied(0.0, 0, false)

  /** The level asked for, once the dwell times have had their say. */
  function AfterDwell(prev: Applied, desired: real, c: Limits, waived: bool): real {
    var want := Clamp(desired, 0.0, 100.0);
    if waived || !prev.initialized then want
    else if prev.On() && want <= 0.0 && c.MinOn().Some? && prev.ticks < c.MinOn().value then prev.level
    else if !prev.On() && want > 0.0 && c.minOff.Some? && prev.ticks < c.minOff.value then 0.0
    else want
  }

  /** At most one rate step from `from` towards `target`. */
  function Towards(from: real, target: real, c: Limits): real {
    if c.Rate().None? then target else from + Clamp(target - from, -c.Rate().value, c.Rate().value)
  }

  function Shaped(prev: Applied, desired: real, c: Limits, waived: bool): Applied {
    var level := Clamp(Towards(prev.level, AfterDwell(prev, desired, c, waived), c), 0.0, 100.0);
    var same := prev.initialized && (level > 0.0) == prev.On();
    Applied(level, if same then prev.ticks + 1 else 0, true)
  }

  method Shape(prev: Applied, desired: real, c: Limits, waived: bool) returns (next: Applied)
    ensures next == Shaped(prev, desired, c, waived)
  {
    var out := Clamp(desired, 0.0, 100.0);
    var prevOn, wantOn := prev.level > 0.0, out > 0.0;
    if !waived && prev.initialized {
      if prevOn && !wantOn {
        var min := if c.minOn.Some? then c.minOn else c.minOpen;
        if min.Some? && prev.ticks < min.value {
          out := prev.level;
        }
      } else if !prevOn && wantOn && c.minOff.Some? && prev.ticks < c.minOff.value {
        out := 0.0;
      }
    }
    var rate := if c.slew.Some? then c.slew else c.ramp;
    if rate.Some? {
      out := prev.level + Clamp(out - prev.level, -rate.value, rate.value);
    }
    out := Clamp(out, 0.0, 100.0);
    var ticks := 0;
    if prev.initialized && (out > 0.0) == prevOn {
      ticks := prev.ticks + 1;
    }
    next := Applied(out, ticks, true);
  }

  function LimitsFor(limits: map<Actuator, Limits>, id: ActuatorId): Limits {
    if KindOf(id) in limits then limits[KindOf(id)] else UNLIMITED
  }

  function AppliedTo(applied: map<ActuatorId, Applied>, id: ActuatorId): Applied {
    if id in applied then applied[id] else AT_REST
  }

  /** Every commanded actuator shaped from its own past; the others keep theirs. */
  function AppliedAfter(applied: map<ActuatorId, Applied>, limits: map<Actuator, Limits>, cmd: Commands,
                        waived: set<ActuatorId>)
    : map<ActuatorId, Applied>
  {
    map id | id in applied.Keys + cmd.Keys ::
      if id in cmd then Shaped(AppliedTo(applied, id), cmd[id], LimitsFor(limits, id), id in waived) else applied[id]
  }

  /** What is sent: for each commanded actuator its shaped level. */
  function Sent(applied: map<ActuatorId, Applied>, cmd: Commands): Commands {
    map id | id in cmd :: AppliedTo(applied, id).level
  }

  class ConstraintState {
    var applied: map<ActuatorId, Applied>
    const limits: map<Actuator, Limits>

    constructor (limits: map<Actuator, Limits>)
      ensures applied == map[] && this.limits == limits
    {
      this.limits := limits;
      applied := map[];
    }

    method Apply(cmd: Commands, waived: set<ActuatorId>) returns (out: Commands)
      modifies this
      ensures applied == AppliedAfter(old(applied), limits, cmd, waived)
      ensures out == Sent(applied, cmd)
    {
      hide Shaped, LimitsFor;
      out := cmd;
      var ids := cmd.Keys;
      while ids != {}
        invariant ids <= cmd.Keys == out.Keys
        invariant applied.Keys == old(applied).Keys + (cmd.Keys - ids)
        invariant forall id :: id in applied ==>
                    applied[id] == if id in cmd && id !in ids
                                   then Shaped(AppliedTo(old(applied), id), cmd[id], LimitsFor(limits, id),
                                               id in waived)
                                   else old(applied)[id]
        invariant forall id :: id in cmd ==> out[id] == if id in ids then cmd[id] else AppliedTo(applied, id).level
        decreases ids
      {
        var id :| id in ids;
        ids := ids - {id};
        var next := Shape(AppliedTo(applied, id), Get(out, id), LimitsFor(limits, id), id in waived);
        applied := applied[id := next];
        LevelInRange(AppliedTo(old(applied), id), cmd[id], LimitsFor(limits, id), id in waived);
        out := Set(out, id, next.level);
      }
    }
  }

  lemma LevelInRange(prev: Applied, desired: real, c: Limits, waived: bool)
    ensures 0.0 <= Shaped(prev, desired, c, waived).level <= 100.0
  {
  }

  // ---- one actuator over a whole run ----

  /** What one tick asks of the actuator, and whether its dwell is waived there. */
  datatype Demand = Demand(desired: real, waived: bool)

  function After(c: Limits, demands: seq<Demand>): Applied {
    if demands == [] then AT_REST
    else
      var last := demands[|demands| - 1];
      Shaped(After(c, demands[..|demands| - 1]), last.desired, c, last.waived)
  }

  /** The state the actuator is left in by tick `i`. */
  function At(c: Limits, demands: seq<Demand>, i: nat): Applied
    requires i < |demands|
  {
    After(c, demands[..i + 1])
  }

  lemma StepAt(c: Limits, demands: seq<Demand>, i: nat)
    requires 0 < i < |demands|
    ensures At(c, demands, i) == Shaped(At(c, demands, i - 1), demands[i].desired, c, demands[i].waived)
    ensures At(c, demands, i).initialized && At(c, demands, i - 1).initialized
  {
    assert demands[..i + 1][..i] == demands[..i];
  }

  /** Ticks `a..b` form a maximal run of one state, up to `b`. */
  predicate RunUpTo(c: Limits, demands: seq<Demand>, a: nat, b: nat)
    requires a <= b < |demands|
  {
    && (forall i :: a <= i <= b ==> At(c, demands, i).On() == At(c, demands, b).On())
    && (a > 0 ==> At(c, demands, a - 1).On() != At(c, demands, b).On())
  }

  lemma {:induction false} TicksCountTheRun(c: Limits, demands: seq<Demand>, a: nat, b: nat)
    requires a <= b < |demands| && RunUpTo(c, demands, a, b)
    ensures At(c, demands, b).ticks == b - a
    decreases b
  {
    hide Shaped, After;
    if b > 0 {
      ShapedCounts(c, demands, b);
      if a < b {
        assert At(c, demands, a).On() == At(c, demands, b).On();
        TicksCountTheRun(c, demands, a, b - 1);
      }
    } else {
      FirstTick(c, demands);
    }
  }

  lemma ShapedCounts(c: Limits, demands: seq<Demand>, i: nat)
    requires 0 < i < |demands|
    ensures var s, s' := At(c, demands, i - 1), At(c, demands, i);
            s'.ticks == if s'.On() == s.On() then s.ticks + 1 else 0
  {
    StepAt(c, demands, i);
  }

  lemma FirstTick(c: Limits, demands: seq<Demand>)
    requires demands != []
    ensures At(c, demands, 0).ticks == 0
  {
    var first := [demands[0]];
    assert demands[..1] == first && first[..0] == [];
    assert After(c, first) == Shaped(After(c, first[..0]), demands[0].desired, c, demands[0].waived);
    assert At(c, demands, 0) == Shaped(AT_REST, demands[0].desired, c, demands[0].waived);
  }

  lemma OffHeldBack(prev: Applied, desired: real, c: Limits)
    requires c.Valid() && prev.initialized && prev.On() && prev.level <= 100.0
    requires c.MinOn().Some? && prev.ticks < c.MinOn().value
    ensures Shaped(prev, desired, c, false).On()
  {
  }

  lemma OnHeldBack(prev: Applied, desired: real, c: Limits)
    requires c.Valid() && prev.initialized && prev.level == 0.0
    requires c.minOff.Some? && prev.ticks < c.minOff.value
    ensures !Shaped(prev, desired, c, false).On()
  {
  }

  lemma LevelsInRange(c: Limits, demands: seq<Demand>, i: nat)
    requires i < |demands|
    ensures 0.0 <= At(c, demands, i).level <= 100.0
  {
    LevelInRange(After(c, demands[..i + 1][..i]), demands[i].desired, c, demands[i].waived);
  }

  /** A run of on-ticks that an unwaived tick ends has lasted at least the minimum on (or open) time plus one. */
  lemma MinimumOnTime(c: Limits, demands: seq<Demand>, a: nat, b: nat)
    requires c.Valid() && a <= b && b + 1 < |demands| && RunUpTo(c, demands, a, b)
    requires At(c, demands, b).On() && !At(c, demands, b + 1).On() && !demands[b + 1].waived
    ensures b - a + 1 >= c.MinOn().GetOr(0) + 1
  {
    hide Shaped, After;
    TicksCountTheRun(c, demands, a, b);
    StepAt(c, demands, b + 1);
    LevelsInRange(c, demands, b);
    if c.MinOn().Some? && b - a < c.MinOn().value {
      OffHeldBack(At(c, demands, b), demands[b + 1].desired, c);
    }
  }

  /** Likewise a run of off-ticks lasts at least the minimum off time plus one. */
  lemma MinimumOffTime(c: Limits, demands: seq<Demand>, a: nat, b: nat)
    requires c.Valid() && a <= b && b + 1 < |demands| && RunUpTo(c, demands, a, b)
    requires !At(c, demands, b).On() && At(c, demands, b + 1).On() && !demands[b + 1].waived
    ensures b - a + 1 >= c.minOff.GetOr(0) + 1
  {
    hide Shaped, After;
    TicksCountTheRun(c, demands, a, b);
    StepAt(c, demands, b + 1);
    LevelsInRange(c, demands, b);
    if c.minOff.Some? && b - a < c.minOff.value {
      OnHeldBack(At(c, demands, b), demands[b + 1].desired, c);
    }
  }

  lemma OneStepSlew(prev: Applied, desired: real, c: Limits, waived: bool)
    requires c.Valid() && c.Rate().Some? && 0.0 <= prev.level <= 100.0
    ensures -c.Rate().value <= Shaped(prev, desired, c, waived).level - prev.level <= c.Rate().value
  {
  }

  /** Between any two ticks of any run the level moves by at most rate times the elapsed ticks. */
  lemma {:induction false} SlewBound(c: Limits, demands: seq<Demand>, s: nat, t: nat, rate: real)
    requires c.Valid() && c.Rate() == Some(rate) && s <= t < |demands|
    ensures -(rate * (t - s) as real) <= At(c, demands, t).level - At(c, demands, s).level <= rate * (t - s) as real
    decreases t
  {
    hide Shaped, After;
    if s < t {
      SlewBound(c, demands, s, t - 1, rate);
      LevelsInRange(c, demands, t - 1);
      StepAt(c, demands, t);
      OneStepSlew(At(c, demands, t - 1), demands[t].desired, c, demands[t].waived);
      assert rate * (t - s) as real == rate * (t - 1 - s) as real + rate;
    }
  }

  // ---- what every tick does, told from the run so far ----

  /** One tick's move from `level` towards `target`: all the way, or one rate step of it. */
  predicate MovesTowards(level: real, target: real, rate: Option<real>, next: real) {
    match rate
    case None => next == target
    case Some(r) =>
      if target - level > r then next == level + r else if level - target > r then next == level - r else next == target
  }

  /** A dwell of `min` ticks still holds a run that began at `a` and has reached `b`. */
  predicate Dwelling(min: Option<nat>, a: nat, b: nat)
    requires a <= b
  {
    min.Some? && b - a < min.value
  }

  lemma ShapedMoves(prev: Applied, desired: real, c: Limits, waived: bool)
    requires c.Valid() && 0.0 <= prev.level <= 100.0
    ensures var next, want := Shaped(prev, desired, c, waived).level, Clamp(desired, 0.0, 100.0);
            var offHeld := prev.On() && want == 0.0 && c.MinOn().Some? && prev.ticks < c.MinOn().value;
            var onHeld := !prev.On() && want > 0.0 && c.minOff.Some? && prev.ticks < c.minOff.value;
            if !waived && prev.initialized && (offHeld || onHeld) then next == prev.level
            else MovesTowards(prev.level, want, c.Rate(), next)
  {
  }

  /**
   Every tick after the first, exactly: the level stays where it is if the tick does not waive the dwell and asks to
   leave a run of on- or off-levels, begun at `a`, that is not yet the minimum time plus one long; in every other case
   it moves towards what is asked, so a dwell runs out when it should.
   */
  lemma EveryTickExactly(c: Limits, demands: seq<Demand>, a: nat, b: nat)
    requires c.Valid() && a <= b && b + 1 < |demands| && RunUpTo(c, demands, a, b)
    ensures var level, next := At(c, demands, b).level, At(c, demands, b + 1).level;
            var on, want := level > 0.0, Clamp(demands[b + 1].desired, 0.0, 100.0);
            var min := if !on then c.minOff else if c.minOn.Some? then c.minOn else c.minOpen;
            if !demands[b + 1].waived && on != (want > 0.0) && Dwelling(min, a, b) then next == level
            else MovesTowards(level, want, if c.slew.Some? then c.slew else c.ramp, next)
  {
    hide Shaped, After, MovesTowards;
    TicksCountTheRun(c, demands, a, b);
    LevelsInRange(c, demands, b);
    StepAt(c, demands, b + 1);
    ShapedMoves(At(c, demands, b), demands[b + 1].desired, c, demands[b + 1].waived);
  }

  /** The first tick moves from 0, no dwell in the way. */
  lemma FirstTickExactly(c: Limits, demands: seq<Demand>)
    requires c.Valid() && demands != []
    ensures MovesTowards(0.0, Clamp(demands[0].desired, 0.0, 100.0), if c.slew.Some? then c.slew else c.ramp,
                         At(c, demands, 0).level)
  {
    hide Shaped, MovesTowards;
    var first := demands[..1];
    assert first[..0] == [] && first[|first| - 1] == demands[0];
    assert After(c, first) == Shaped(After(c, first[..0]), demands[0].desired, c, demands[0].waived);
    ShapedMoves(AT_REST, demands[0].desired, c, demands[0].waived);
  }

  /** The same demand for `k` ticks. */
  function Hold(prev: Applied, target: real, c: Limits, waived: bool, k: nat): Applied {
    if k == 0 then prev else Shaped(Hold(prev, target, c, waived, k - 1), target, c, waived)
  }

  lemma StepTowards(prev: Applied, target: real, c: Limits, waived: bool)
    requires c.Valid() && (waived || c.NoDwell()) && 0.0 <= target <= 100.0 && 0.0 <= prev.level <= 100.0
    ensures Shaped(prev, target, c, waived).level ==
            if c.Rate().None? then target
            else if target - prev.level > c.Rate().value then prev.level + c.Rate().value
            else if target - prev.level < -c.Rate().value then prev.level - c.Rate().value
            else target
  {
  }

  function Travel(rate: real, ticks: nat): real {
    rate * ticks as real
  }

  /** Where a held target has brought the level after `k` ticks: straight there, then exactly there. */
  function Approach(level: real, target: real, travel: real): real {
    if target - level > travel then level + travel
    else if target - level < -travel then level - travel
    else target
  }

  /**
   Without dwell in the way, a held target is approached at the full rate, never passed, reached after the
   first k ticks with k * rate >= distance, and kept from then on.
   */
  lemma {:induction false} SettlesExactly(prev: Applied, target: real, c: Limits, waived: bool, k: nat)
    requires c.Valid() && (waived || c.NoDwell()) && 0.0 <= target <= 100.0 && 0.0 <= prev.level <= 100.0
    ensures 0.0 <= Hold(prev, target, c, waived, k).level <= 100.0
    ensures c.Rate().Some? ==>
              Hold(prev, target, c, waived, k).level == Approach(prev.level, target, Travel(c.Rate().value, k))
    ensures c.Rate().None? && k > 0 ==> Hold(prev, target, c, waived, k).level == target
  {
    hide Shaped, Approach, Travel;
    if c.Rate().Some? {
      ApproachedAt(prev, target, c, waived, k, c.Rate().value);
    } else if k > 0 {
      SettlesExactly(prev, target, c, waived, k - 1);
      StepTowards(Hold(prev, target, c, waived, k - 1), target, c, waived);
    }
  }

  lemma {:induction false} ApproachedAt(prev: Applied, target: real, c: Limits, waived: bool, k: nat, rate: real)
    requires c.Valid() && c.Rate() == Some(rate) && (waived || c.NoDwell())
    requires 0.0 <= target <= 100.0 && 0.0 <= prev.level <= 100.0
    ensures 0.0 <= Hold(prev, target, c, waived, k).level <= 100.0
    ensures Hold(prev, target, c, waived, k).level == Approach(prev.level, target, Travel(rate, k))
  {
    hide Shaped, Approach, Travel;
    if k == 0 {
      NotBegun(prev.level, target, rate);
    } else {
      ApproachedAt(prev, target, c, waived, k - 1, rate);
      StepTowards(Hold(prev, target, c, waived, k - 1), target, c, waived);
      TravelStep(rate, k);
      ApproachStep(prev.level, target, Travel(rate, k - 1), rate);
    }
  }

  lemma TravelStep(rate: real, k: nat)
    requires rate > 0.0 && k > 0
    ensures Travel(rate, k) == Travel(rate, k - 1) + rate && Travel(rate, k - 1) >= 0.0
  {
    assert rate * k as real == rate * (k - 1) as real + rate;
  }

  lemma NotBegun(level: real, target: real, rate: real)
    ensures Approach(level, target, Travel(rate, 0)) == level
  {
  }

  lemma ApproachStep(level: real, target: real, travel: real, step: real)
    requires travel >= 0.0 && step > 0.0
    ensures var a := Approach(level, target, travel);
            Approach(level, target, travel + step) ==
            if target - a > step then a + step else if target - a < -step then a - step else target
  {
  }
}
