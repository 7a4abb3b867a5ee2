/**
 The tick: health monitoring, the loops' output (arbitrary here), override, interlocks, health force and
 constraints, in that order, and what this ordering guarantees over unbounded runs.
 */
module Pipeline {
  import opened Text
  import opened Actuators
  import C = Constraints
  import I = Interlocks
  import H = ActuatorHealth
  import O = Overrides

  datatype Config = Config(safety: I.Safety, sensing: H.Sensing, limits: map<Actuator, C.Limits>) {
    /** What loading the configuration guarantees. */
    predicate Valid() {
      && safety.temperatureRearm >= 0.0 && safety.co2Rearm >= 0.0
      && sensing.tolerance >= 0.0 && sensing.window >= 1
      && forall a :: a in limits ==> limits[a].Valid()
    }
  }

  /** One tick's inputs: readback, trusted readings, resolved targets, and whatever the loops produced. */
  datatype Input = Input(
    observed: Commands,
    trusted: H.Trusted,
    targets: H.Targets,
    loops: Commands,
    failClosed: set<ActuatorId>)

  datatype State = State(
    tick: nat,
    overrides: map<ActuatorId, O.Override>,
    latches: I.InterlockLatches,
    applied: map<ActuatorId, C.Applied>,
    health: H.Health,
    prev: Option<Commands>)

  const START := State(0, map[], I.InterlockLatches(I.CLEAR, I.CLEAR), map[], H.HEALTHY, None)

  // ---- the stages of one tick ----

  function HealthAfter(s: State, i: Input, c: Config): H.Health {
    H.Monitored(s.health, s.prev, i.observed, i.trusted, i.targets, c.sensing)
  }

  function LatchesAfter(s: State, i: Input, c: Config): I.InterlockLatches {
    I.LatchesNext(s.latches, i.trusted.temperature, i.trusted.co2, c.safety, s.tick)
  }

  function ImposedBy(s: State, i: Input, c: Config): Commands {
    I.Imposed(LatchesAfter(s, i, c), i.trusted.temperature, i.trusted.co2)
  }

  /** Loops, then overrides, then interlocks. */
  function Intended(s: State, i: Input, c: Config): Commands {
    O.Overridden(O.Live(s.overrides, s.tick), i.loops) + ImposedBy(s, i, c)
  }

  function ForcedOff(cmd: Commands, ids: set<ActuatorId>): Commands {
    cmd + map id | id in ids :: 0.0
  }

  function Demanded(s: State, i: Input, c: Config): Commands {
    ForcedOff(Intended(s, i, c), HealthAfter(s, i, c).disabled)
  }

  function Waived(s: State, i: Input, c: Config): set<ActuatorId> {
    ImposedBy(s, i, c).Keys + HealthAfter(s, i, c).disabled + i.failClosed
  }

  function AppliedAfter(s: State, i: Input, c: Config): map<ActuatorId, C.Applied> {
    C.AppliedAfter(s.applied, c.limits, Demanded(s, i, c), Waived(s, i, c))
  }

  function SentBy(s: State, i: Input, c: Config): Commands {
    C.Sent(AppliedAfter(s, i, c), Demanded(s, i, c))
  }

  /** Next tick's baseline: what was sent, but for a disabled actuator what was intended. */
  function Baseline(sent: Commands, intended: Commands, disabled: set<ActuatorId>): Commands {
    sent + map id | id in disabled :: Clamp(Get(intended, id), 0.0, 100.0)
  }

  function Next(s: State, i: Input, c: Config): State {
    State(s.tick + 1, O.Live(s.overrides, s.tick), LatchesAfter(s, i, c), AppliedAfter(s, i, c), HealthAfter(s, i, c),
          Some(Baseline(SentBy(s, i, c), Intended(s, i, c), HealthAfter(s, i, c).disabled)))
  }

  // ---- the tick, step by step ----

  method ForceOff(cmd: Commands, ids: set<ActuatorId>, forced: set<ActuatorId>)
    returns (out: Commands, more: set<ActuatorId>)
    ensures out == ForcedOff(cmd, ids) && more == forced + ids
  {
    out, more := cmd, forced;
    var left := ids;
    while left != {}
      invariant left <= ids
      invariant out.Keys == cmd.Keys + (ids - left) && more == forced + (ids - left)
      invariant forall id :: id in out ==> out[id] == if id in ids - left then 0.0 else cmd[id]
      decreases left
    {
      var id :| id in left;
      left := left - {id};
      out := Set(out, id, 0.0);
      more := more + {id};
    }
  }

  method RestoreIntended(sent: Commands, intended: Commands, disabled: set<ActuatorId>) returns (prev: Commands)
    ensures prev == Baseline(sent, intended, disabled)
  {
    prev := sent;
    var left := disabled;
    while left != {}
      invariant left <= disabled
      invariant prev.Keys == sent.Keys + (disabled - left)
      invariant forall id :: id in prev ==>
                  prev[id] == if id in disabled - left then Clamp(Get(intended, id), 0.0, 100.0) else sent[id]
      decreases left
    {
      var id :| id in left;
      left := left - {id};
      prev := Set(prev, id, Get(intended, id));
    }
  }

  class Pipeline {
    const config: Config
    var tick: nat
    const overrides: O.OverrideState
    const interlocks: I.InterlockState
    const constraints: C.ConstraintState
    const health: H.HealthState
    var prev: Option<Commands>

    ghost predicate Valid() {
      interlocks.Valid() && constraints.limits == config.limits
    }

    ghost function Now(): State
      reads this, overrides, interlocks.critical, interlocks.ceiling, constraints, health
    {
      State(tick, overrides.active, interlocks.Now(), constraints.applied, health.Now(), prev)
    }

    constructor (config: Config)
      ensures Valid() && this.config == config && Now() == START
    {
      this.config := config;
      overrides := new O.OverrideState();
      interlocks := new I.InterlockState();
      constraints := new C.ConstraintState(config.limits);
      health := new H.HealthState();
      tick, prev := 0, None;
    }

    method Tick(i: Input) returns (sent: Commands)
      requires Valid()
      modifies this, overrides, interlocks.critical, interlocks.ceiling, constraints, health
      ensures Now() == Next(old(Now()), i, config) && sent == SentBy(old(Now()), i, config)
    {
      hide H.Monitored, I.LatchesNext, I.Imposed, O.Overridden, O.Live, C.AppliedAfter, C.Sent, ForcedOff, Baseline;
      var _ := health.Monitor(prev, i.observed, i.trusted, i.targets, config.sensing);
      overrides.Expire(tick);
      var cmd := overrides.Apply(i.loops);
      var intended, forced, _ := interlocks.Apply(i.trusted.temperature, i.trusted.co2, config.safety, tick, cmd);
      cmd, forced := ForceOff(intended, health.disabled, forced);
      forced := forced + i.failClosed;
      sent := constraints.Apply(cmd, forced);
      var baseline := RestoreIntended(sent, intended, health.disabled);
      prev := Some(baseline);
      tick := tick + 1;
    }
  }

  // ---- runs ----

  /** Between ticks an operator may write overrides; `writes[k]` come before `inputs[k]`. */
  datatype Turn = Turn(writes: seq<O.Write>, input: Input)

  function Ready(s: State, writes: seq<O.Write>): State {
    s.(overrides := O.AllWritten(s.overrides, writes, s.tick))
  }

  function Run(s: State, turns: seq<Turn>, c: Config): State {
    if turns == [] then s
    else
      var n := |turns| - 1;
      Next(Ready(Run(s, turns[..n], c), turns[n].writes), turns[n].input, c)
  }

  /** The state in which the k-th tick runs. */
  function Before(s: State, turns: seq<Turn>, c: Config, k: nat): State
    requires k < |turns|
  {
    Ready(Run(s, turns[..k], c), turns[k].writes)
  }

  function SentAt(s: State, turns: seq<Turn>, c: Config, k: nat): Commands
    requires k < |turns|
  {
    SentBy(Before(s, turns, c, k), turns[k].input, c)
  }

  lemma RunStep(s: State, turns: seq<Turn>, c: Config, k: nat)
    requires k < |turns|
    ensures Run(s, turns[..k + 1], c) == Next(Before(s, turns, c, k), turns[k].input, c)
  {
    hide Next;
    assert turns[..k + 1][..k] == turns[..k];
  }

  predicate LevelsInRange(s: State) {
    forall id :: id in s.applied ==> 0.0 <= s.applied[id].level <= 100.0
  }

  lemma NextInRange(s: State, i: Input, c: Config)
    requires LevelsInRange(s)
    ensures LevelsInRange(Next(s, i, c))
  {
    hide Demanded, Waived, C.Shaped, HealthAfter, LatchesAfter, SentBy, Baseline;
    forall id | id in AppliedAfter(s, i, c) && id in Demanded(s, i, c)
      ensures 0.0 <= AppliedAfter(s, i, c)[id].level <= 100.0
    {
      C.LevelInRange(C.AppliedTo(s.applied, id), Demanded(s, i, c)[id], C.LimitsFor(c.limits, id),
                     id in Waived(s, i, c));
    }
  }

  lemma {:induction false} RunInRange(turns: seq<Turn>, c: Config)
    ensures LevelsInRange(Run(START, turns, c))
  {
    hide Next, LevelsInRange;
    if turns == [] {
      StartInRange();
    } else {
      var n := |turns| - 1;
      RunInRange(turns[..n], c);
      ReadyInRange(Run(START, turns[..n], c), turns[n].writes);
      NextInRange(Ready(Run(START, turns[..n], c), turns[n].writes), turns[n].input, c);
    }
  }

  lemma StartInRange()
    ensures LevelsInRange(START)
  {
  }

  lemma ReadyInRange(s: State, writes: seq<O.Write>)
    requires LevelsInRange(s)
    ensures LevelsInRange(Ready(s, writes))
  {
  }

  // ---- safety priority ----

  function LevelOf(s: State, id: ActuatorId): real {
    C.AppliedTo(s.applied, id).level
  }

  /** As far down as the hardware allows in one tick: to 0, or one rate step lower. */
  function Lowered(level: real, limits: C.Limits): real {
    if limits.Rate().None? || level <= limits.Rate().value then 0.0 else level - limits.Rate().value
  }

  function Raised(level: real, limits: C.Limits): real {
    if limits.Rate().None? || level >= 100.0 - limits.Rate().value then 100.0 else level + limits.Rate().value
  }

  lemma ShapedDown(prev: C.Applied, limits: C.Limits)
    requires limits.Valid() && 0.0 <= prev.level <= 100.0
    ensures C.Shaped(prev, 0.0, limits, true).level == Lowered(prev.level, limits)
  {
  }

  lemma ShapedUp(prev: C.Applied, limits: C.Limits)
    requires limits.Valid() && 0.0 <= prev.level <= 100.0
    ensures C.Shaped(prev, 100.0, limits, true).level == Raised(prev.level, limits)
  {
  }

  /** What is sent to an actuator whose demand is known and whose dwell is waived. */
  lemma SentForced(s: State, i: Input, c: Config, id: ActuatorId, level: real)
    requires id in Demanded(s, i, c) && Demanded(s, i, c)[id] == level && id in Waived(s, i, c)
    ensures id in SentBy(s, i, c)
    ensures SentBy(s, i, c)[id] == C.Shaped(C.AppliedTo(s.applied, id), level, C.LimitsFor(c.limits, id), true).level
  {
    hide Demanded, Waived, C.Shaped, C.LimitsFor;
  }

  lemma SentLowered(s: State, i: Input, c: Config, id: ActuatorId)
    requires c.Valid() && LevelsInRange(s)
    requires id in Demanded(s, i, c) && Demanded(s, i, c)[id] == 0.0 && id in Waived(s, i, c)
    ensures id in SentBy(s, i, c) && SentBy(s, i, c)[id] == Lowered(LevelOf(s, id), C.LimitsFor(c.limits, id))
  {
    hide Demanded, Waived, C.Shaped, SentBy;
    SentForced(s, i, c, id, 0.0);
    ShapedDown(C.AppliedTo(s.applied, id), C.LimitsFor(c.limits, id));
  }

  lemma SentRaised(s: State, i: Input, c: Config, id: ActuatorId)
    requires c.Valid() && LevelsInRange(s)
    requires id in Demanded(s, i, c) && Demanded(s, i, c)[id] == 100.0 && id in Waived(s, i, c)
    ensures id in SentBy(s, i, c) && SentBy(s, i, c)[id] == Raised(LevelOf(s, id), C.LimitsFor(c.limits, id))
  {
    hide Demanded, Waived, C.Shaped, SentBy;
    SentForced(s, i, c, id, 100.0);
    ShapedUp(C.AppliedTo(s.applied, id), C.LimitsFor(c.limits, id));
  }

  /** An imposed level survives to the demand, unless a health fault turns it into 0. */
  lemma ImposedIsDemanded(s: State, i: Input, c: Config, id: ActuatorId)
    requires id in ImposedBy(s, i, c)
    ensures id in Demanded(s, i, c) && id in Waived(s, i, c)
    ensures Demanded(s, i, c)[id] == if id in HealthAfter(s, i, c).disabled then 0.0 else ImposedBy(s, i, c)[id]
  {
    hide I.Imposed, HealthAfter, LatchesAfter, O.Overridden;
  }

  predicate GoesDown(s: State, i: Input, c: Config, id: ActuatorId) {
    id in SentBy(s, i, c) && SentBy(s, i, c)[id] == Lowered(LevelOf(s, id), C.LimitsFor(c.limits, id))
  }

  predicate GoesUp(s: State, i: Input, c: Config, id: ActuatorId) {
    id in SentBy(s, i, c) && SentBy(s, i, c)[id] == Raised(LevelOf(s, id), C.LimitsFor(c.limits, id))
  }

  lemma ImposedIsSent(s: State, i: Input, c: Config, id: ActuatorId)
    requires c.Valid() && LevelsInRange(s) && id in ImposedBy(s, i, c)
    ensures ImposedBy(s, i, c)[id] == 0.0 || id in HealthAfter(s, i, c).disabled ==> GoesDown(s, i, c, id)
    ensures ImposedBy(s, i, c)[id] == 100.0 && id !in HealthAfter(s, i, c).disabled ==> GoesUp(s, i, c, id)
  {
    hide ImposedBy, Demanded, Waived, SentBy, HealthAfter;
    ImposedIsDemanded(s, i, c, id);
    if ImposedBy(s, i, c)[id] == 0.0 || id in HealthAfter(s, i, c).disabled {
      SentLowered(s, i, c, id);
    } else if ImposedBy(s, i, c)[id] == 100.0 {
      SentRaised(s, i, c, id);
    }
  }

  /** With no temperature, or the critical latch asserted, the heater goes down as fast as it can. */
  lemma NeverHeatsBlindOrCritical(s: State, i: Input, c: Config)
    requires c.Valid() && LevelsInRange(s)
    requires i.trusted.temperature.None? || LatchesAfter(s, i, c).critical.asserted
    ensures GoesDown(s, i, c, House(Heater))
  {
    hide LatchesAfter, SentBy, HealthAfter, GoesDown, GoesUp;
    ImposedIsSent(s, i, c, House(Heater));
  }

  /** With the critical latch asserted the cooling runs up, unless it is itself disabled by a health fault. */
  lemma CriticalCools(s: State, i: Input, c: Config, cooling: Actuator)
    requires c.Valid() && LevelsInRange(s) && cooling in {Fans, RoofVents}
    requires i.trusted.temperature.Some? && LatchesAfter(s, i, c).critical.asserted
    ensures House(cooling) !in HealthAfter(s, i, c).disabled ==> GoesUp(s, i, c, House(cooling))
  {
    hide LatchesAfter, SentBy, HealthAfter, GoesDown, GoesUp;
    ImposedIsSent(s, i, c, House(cooling));
  }

  /** With the CO₂ latch asserted on a trusted reading the injector goes down and the vents open, blind or not. */
  lemma CeilingStopsInjection(s: State, i: Input, c: Config)
    requires c.Valid() && LevelsInRange(s)
    requires i.trusted.co2.Some? && LatchesAfter(s, i, c).ceiling.asserted
    ensures GoesDown(s, i, c, House(Co2Injector))
    ensures House(RoofVents) !in HealthAfter(s, i, c).disabled ==> GoesUp(s, i, c, House(RoofVents))
  {
    hide LatchesAfter, SentBy, HealthAfter, GoesDown, GoesUp;
    ImposedIsSent(s, i, c, House(Co2Injector));
    ImposedIsSent(s, i, c, House(RoofVents));
  }

  /**
   One-tick guarantee over every run: in the very tick of a reading above the critical temperature the heater
   goes down and fans and vents go up unless disabled, whatever the loops, operators and health state say.
   */
  lemma CriticalWithinOneTick(turns: seq<Turn>, c: Config, k: nat)
    requires c.Valid() && k < |turns|
    requires turns[k].input.trusted.temperature.Some? &&
        turns[k].input.trusted.temperature.value > c.safety.criticalTemperature
    ensures var s, i := Before(START, turns, c, k), turns[k].input;
            && GoesDown(s, i, c, House(Heater))
            && (House(Fans) !in HealthAfter(s, i, c).disabled ==> GoesUp(s, i, c, House(Fans)))
            && (House(RoofVents) !in HealthAfter(s, i, c).disabled ==> GoesUp(s, i, c, House(RoofVents)))
  {
    hide Run, SentBy, HealthAfter, GoesDown, GoesUp, LevelsInRange;
    var s, i := Before(START, turns, c, k), turns[k].input;
    RunInRange(turns[..k], c);
    ReadyInRange(Run(START, turns[..k], c), turns[k].writes);
    assert LatchesAfter(s, i, c).critical.asserted;
    NeverHeatsBlindOrCritical(s, i, c);
    CriticalCools(s, i, c, Fans);
    CriticalCools(s, i, c, RoofVents);
  }
}
