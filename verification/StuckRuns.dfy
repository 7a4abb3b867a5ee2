/**
 Disables over whole runs: a stuck actuator stays disabled for as long as its readback is off what is asked of
 it, an actuator that tracks its command is never called stuck, and the one way the two fall apart.
 */
module StuckRuns {
  import opened Text
  import opened Actuators
  import opened Pipeline
  import opened TickRuns
  import C = Constraints
  import H = ActuatorHealth
  import I = Interlocks
  import SimHal

  predicate Off(observed: real, level: real, tolerance: real) {
    observed - level > tolerance || observed - level < -tolerance
  }

  function ReadbackAt(turns: seq<Turn>, id: ActuatorId, k: nat): real
    requires k < |turns|
  {
    Get(turns[k].input.observed, id)
  }

  /** The level the loops, operators and interlocks together ask for at tick k. */
  function AskedAt(turns: seq<Turn>, c: Config, id: ActuatorId, k: nat): real
    requires k < |turns|
  {
    Clamp(Get(Intended(Before(START, turns, c, k), turns[k].input, c), id), 0.0, 100.0)
  }

  /** Whether the first k ticks leave the actuator disabled. */
  predicate DisabledAfter(turns: seq<Turn>, c: Config, id: ActuatorId, k: nat)
    requires k <= |turns|
  {
    id in Run(START, turns[..k], c).health.disabled
  }

  lemma BaselineOf(sent: Commands, intended: Commands, disabled: set<ActuatorId>, id: ActuatorId)
    ensures Get(Baseline(sent, intended, disabled), id) ==
            if id in disabled then Clamp(Get(intended, id), 0.0, 100.0) else Get(sent, id)
  {
  }

  /** The readback is judged against what was sent, but for a disabled actuator against what was asked. */
  lemma JudgedAgainst(turns: seq<Turn>, c: Config, id: ActuatorId, k: nat)
    requires 0 < k < |turns|
    ensures DivergedAt(turns, c, id, k) <==>
            Off(ReadbackAt(turns, id, k),
                if DisabledAfter(turns, c, id, k) then AskedAt(turns, c, id, k - 1) else SentLevel(turns, c, id, k - 1),
                c.sensing.tolerance)
  {
    hide Run, Before, SentBy, Intended, LatchesAfter, AppliedAfter, HealthAfter, Baseline;
    RunStep(START, turns, c, k - 1);
    var s, i := Before(START, turns, c, k - 1), turns[k - 1].input;
    BaselineOf(SentBy(s, i, c), Intended(s, i, c), HealthAfter(s, i, c).disabled, id);
  }

  predicate OffAsked(turns: seq<Turn>, c: Config, id: ActuatorId, k: nat)
    requires 0 < k < |turns|
  {
    Off(ReadbackAt(turns, id, k), AskedAt(turns, c, id, k - 1), c.sensing.tolerance)
  }

  /** A no-response alarm for the actuator at tick k. */
  predicate NoResponseAt(turns: seq<Turn>, c: Config, id: ActuatorId, k: nat)
    requires k < |turns|
  {
    var s, i := Before(START, turns, c, k), turns[k].input;
    s.prev.Some? &&
    exists kind :: kind in {H.ValveNoResponse, H.NoResponse} &&
      H.Alarm(id, kind) in H.Alarms(s.health, s.prev.value, i.observed, i.trusted, i.targets, c.sensing)
  }

  predicate StuckAt(turns: seq<Turn>, c: Config, id: ActuatorId, k: nat)
    requires k < |turns|
  {
    StuckCount(turns[..k + 1], c, id) >= c.sensing.window
  }

  lemma WhyDisabled(h: H.Health, prev: Commands, i: Input, cfg: H.Sensing, id: ActuatorId)
    requires id in i.observed
    ensures var alarms, h' := H.Alarms(h, prev, i.observed, i.trusted, i.targets, cfg),
                              H.Monitored(h, Some(prev), i.observed, i.trusted, i.targets, cfg);
            && (H.Alarm(id, H.Stuck) in alarms <==> H.CountOf(h'.stuck, id) >= cfg.window)
            && (id in h'.disabled <==> exists kind :: H.Alarm(id, kind) in alarms)
  {
    hide H.StuckNext, H.FlatNext, H.LastSoilNext, H.ChallengesNext, H.FlatZones, H.FailedPushers;
    var alarms := H.Alarms(h, prev, i.observed, i.trusted, i.targets, cfg);
    var h' := H.Monitored(h, Some(prev), i.observed, i.trusted, i.targets, cfg);
    if id in h'.disabled {
      var alarm :| alarm in alarms && alarm.id == id;
      assert H.Alarm(id, alarm.kind) in alarms;
    }
  }

  /** After tick k the actuator is disabled exactly when it counts as stuck or failed to show a response. */
  lemma DisabledExactly(turns: seq<Turn>, c: Config, id: ActuatorId, k: nat)
    requires c.sensing.window >= 1 && ReadBack(turns, id) && k < |turns|
    ensures DisabledAfter(turns, c, id, k + 1) <==> StuckAt(turns, c, id, k) || NoResponseAt(turns, c, id, k)
  {
    hide Run, SentBy, Intended, LatchesAfter, AppliedAfter, Baseline, H.Alarms, H.StuckNext;
    RunStep(START, turns, c, k);
    var s, i := Before(START, turns, c, k), turns[k].input;
    if s.prev.Some? {
      WhyDisabled(s.health, s.prev.value, i, c.sensing, id);
      assert StuckAt(turns, c, id, k) <==>
        H.CountOf(H.Monitored(s.health, s.prev, i.observed, i.trusted, i.targets, c.sensing).stuck, id) >=
        c.sensing.window;
      var alarms := H.Alarms(s.health, s.prev.value, i.observed, i.trusted, i.targets, c.sensing);
      forall kind | H.Alarm(id, kind) in alarms ensures kind == H.Stuck || NoResponseAt(turns, c, id, k) {
        assert kind == H.Stuck || kind in {H.ValveNoResponse, H.NoResponse};
      }
    } else {
      assert turns[..k + 1][..k] == turns[..k];
      FirstHasNoCount(turns[..k + 1], c, id);
    }
  }

  lemma FirstHasNoCount(turns: seq<Turn>, c: Config, id: ActuatorId)
    requires turns != [] && Run(START, turns[..|turns| - 1], c).prev.None? && ReadBack(turns, id)
    ensures StuckCount(turns, c, id) == 0
  {
    hide Run, StuckCount;
    PrevAfterFirst(turns[..|turns| - 1], c);
    StuckStep(turns, c, id);
  }

  // ---- the disable is sticky ----

  lemma StuckCounts(turns: seq<Turn>, c: Config, id: ActuatorId, k: nat)
    requires ReadBack(turns, id) && k < |turns|
    ensures k == 0 ==> StuckCount(turns[..1], c, id) == 0
    ensures k > 0 ==> StuckCount(turns[..k + 1], c, id) ==
                      if DivergedAt(turns, c, id, k) then StuckCount(turns[..k], c, id) + 1 else 0
  {
    hide Run, StuckCount;
    StuckStep(turns[..k + 1], c, id);
    assert turns[..k + 1][..k] == turns[..k];
  }

  /**
   A readback that freezes after any tick `from`, off both what is asked and what is sent from there on: the count
   grows by one a tick, so the actuator is disabled from the window-th tick on, whatever the run was before and
   whether or not it is disabled for another reason in between.
   */
  lemma {:induction false} FrozenIsDisabled(turns: seq<Turn>, c: Config, id: ActuatorId, frozen: real, from: nat,
                                            k: nat)
    requires c.Valid() && ReadBack(turns, id) && from <= k < |turns|
    requires forall j :: from < j <= k ==> ReadbackAt(turns, id, j) == frozen
    requires forall j :: from <= j < k ==>
               && Off(frozen, AskedAt(turns, c, id, j), c.sensing.tolerance)
               && Off(frozen, SentLevel(turns, c, id, j), c.sensing.tolerance)
    ensures StuckCount(turns[..k + 1], c, id) >= k - from
    ensures k - from >= c.sensing.window ==> DisabledAfter(turns, c, id, k + 1)
    decreases k
  {
    hide StuckCount, DivergedAt, SentLevel, AskedAt, ReadbackAt, DisabledAfter, NoResponseAt;
    StuckCounts(turns, c, id, k);
    if from < k {
      FrozenIsDisabled(turns, c, id, frozen, from, k - 1);
      JudgedAgainst(turns, c, id, k);
    }
    DisabledExactly(turns, c, id, k);
  }

  /** From a tick that found the actuator stuck, it stays so exactly as long as its readback is off what was asked. */
  lemma {:induction false} StaysStuckExactly(turns: seq<Turn>, c: Config, id: ActuatorId, m: nat, n: nat)
    requires c.Valid() && ReadBack(turns, id) && m <= n < |turns| && StuckAt(turns, c, id, m)
    ensures (forall k :: m <= k <= n ==> StuckAt(turns, c, id, k)) <==>
        (forall k :: m < k <= n ==> OffAsked(turns, c, id, k))
    decreases n
  {
    hide StuckCount, DivergedAt, SentLevel, AskedAt, ReadbackAt, DisabledAfter, NoResponseAt, Run;
    if m < n {
      StaysStuckExactly(turns, c, id, m, n - 1);
      StuckCounts(turns, c, id, n);
      JudgedAgainst(turns, c, id, n);
      DisabledExactly(turns, c, id, n - 1);
      assert StuckAt(turns, c, id, n - 1) ==> (StuckAt(turns, c, id, n) <==> OffAsked(turns, c, id, n));
      assert (forall k :: m <= k <= n ==> StuckAt(turns, c, id, k)) <==>
             StuckAt(turns, c, id, n) && forall k :: m <= k <= n - 1 ==> StuckAt(turns, c, id, k);
    }
  }

  // ---- a tracking actuator ----

  /** Every readback is what the previous tick sent. */
  predicate Tracks(turns: seq<Turn>, c: Config, id: ActuatorId) {
    ReadBack(turns, id) && forall k :: 0 < k < |turns| ==> ReadbackAt(turns, id, k) == SentLevel(turns, c, id, k - 1)
  }

  /**
   The controller in a loop with the simulated hardware, `faults[k]` being the stuck faults in the step after
   tick k.
   */
  predicate Simulated(turns: seq<Turn>, c: Config, ids: set<ActuatorId>,
                      faults: seq<map<ActuatorId, SimHal.ActuatorFault>>)
    requires |faults| == |turns|
  {
    forall k :: 0 <= k < |turns| ==>
      turns[k].input.observed ==
        if k == 0 then SimHal.AllOff(ids)
        else SimHal.ReadbackOf(ids, SimHal.AllOff(ids) + SimHal.Clamped(SentAt(START, turns, c, k - 1)), faults[k - 1])
  }

  lemma SimulatedTracks(turns: seq<Turn>, c: Config, id: ActuatorId, ids: set<ActuatorId>,
                        faults: seq<map<ActuatorId, SimHal.ActuatorFault>>)
    requires |faults| == |turns| && Simulated(turns, c, ids, faults) && Commanded(turns, id) && id in ids
    requires forall k :: 0 <= k < |faults| ==> id !in faults[k]
    ensures Tracks(turns, c, id)
  {
    hide SentAt, SimHal.Clamped;
    forall k | 0 < k < |turns| ensures ReadbackAt(turns, id, k) == SentLevel(turns, c, id, k - 1) {
      SentInRange(turns, c, id, k - 1);
      SimHal.HealthyTracks(ids, SentAt(START, turns, c, k - 1), faults[k - 1], id);
    }
  }

  /** Tracking actuators are never stuck and, short of a no-response alarm, never disabled. */
  lemma {:induction false} TrackingIsHealthy(turns: seq<Turn>, c: Config, id: ActuatorId, k: nat)
    requires c.Valid() && Tracks(turns, c, id) && k < |turns|
    requires forall j :: 0 <= j <= k ==> !NoResponseAt(turns, c, id, j)
    ensures StuckCount(turns[..k + 1], c, id) == 0 && !DisabledAfter(turns, c, id, k + 1)
  {
    hide StuckCount, DivergedAt, SentLevel, AskedAt, ReadbackAt, DisabledAfter, NoResponseAt;
    StuckCounts(turns, c, id, k);
    DisabledExactly(turns, c, id, k);
    if k > 0 {
      TrackingIsHealthy(turns, c, id, k - 1);
      JudgedAgainst(turns, c, id, k);
    }
  }

  /** A tracking actuator looks divergent exactly when it is disabled and held off what is being asked of it. */
  lemma TrackingDivergesExactly(turns: seq<Turn>, c: Config, id: ActuatorId, k: nat)
    requires c.Valid() && Tracks(turns, c, id) && 0 < k < |turns|
    ensures DivergedAt(turns, c, id, k) <==>
            DisabledAfter(turns, c, id, k) &&
            Off(SentLevel(turns, c, id, k - 1), AskedAt(turns, c, id, k - 1), c.sensing.tolerance)
  {
    hide DivergedAt, SentLevel, AskedAt, DisabledAfter;
    JudgedAgainst(turns, c, id, k);
  }

  /** In the middle of a run: stuck at tick n exactly when the readback diverged on the window's last ticks. */
  lemma StuckAtExactly(turns: seq<Turn>, c: Config, id: ActuatorId, n: nat)
    requires c.Valid() && ReadBack(turns, id) && n < |turns|
    ensures StuckAt(turns, c, id, n) <==>
            c.sensing.window <= n && forall k :: n - c.sensing.window < k <= n ==> DivergedAt(turns, c, id, k)
  {
    hide StuckCount, DivergedAt;
    var w, prefix := c.sensing.window, turns[..n + 1];
    StuckExactly(prefix, c, id, w);
    forall k | 0 <= k <= n ensures DivergedAt(prefix, c, id, k) == DivergedAt(turns, c, id, k) {
      DivergedInPrefix(turns, c, id, k, n + 1);
    }
    NeverDivergesFirst(turns, c, id);
    assert w <= n + 1 && (forall k :: n + 1 - w <= k < n + 1 ==> DivergedAt(prefix, c, id, k)) <==>
           w <= n && forall k :: n - w < k <= n ==> DivergedAt(turns, c, id, k) by {
      if w == n + 1 {
        assert !DivergedAt(prefix, c, id, 0);
      }
    }
  }

  lemma DivergedInPrefix(turns: seq<Turn>, c: Config, id: ActuatorId, k: nat, n: nat)
    requires k < n <= |turns|
    ensures DivergedAt(turns[..n], c, id, k) == DivergedAt(turns, c, id, k)
  {
    hide Run;
    assert turns[..n][..k] == turns[..k];
  }

  lemma NeverDivergesFirst(turns: seq<Turn>, c: Config, id: ActuatorId)
    requires turns != []
    ensures !DivergedAt(turns, c, id, 0)
  {
    assert turns[..0] == [];
  }

  /** Tick k finds the actuator disabled and the level sent held off what was asked. */
  predicate HeldOff(turns: seq<Turn>, c: Config, id: ActuatorId, k: nat)
    requires k < |turns|
  {
    && k > 0 && DisabledAfter(turns, c, id, k)
    && Off(SentLevel(turns, c, id, k - 1), AskedAt(turns, c, id, k - 1), c.sensing.tolerance)
  }

  /**
   Exactly when an obedient actuator is reported stuck, rate limits or not: the last `window` ticks each found it
   disabled and held off what was asked of it.
   */
  lemma ObedientCalledStuckExactly(turns: seq<Turn>, c: Config, id: ActuatorId, n: nat)
    requires c.Valid() && Tracks(turns, c, id) && n < |turns|
    ensures StuckAt(turns, c, id, n) <==>
            c.sensing.window <= n && forall k :: n - c.sensing.window < k <= n ==> HeldOff(turns, c, id, k)
  {
    hide StuckAt, DivergedAt, SentLevel, AskedAt, DisabledAfter;
    StuckAtExactly(turns, c, id, n);
    forall k | 0 < k <= n ensures DivergedAt(turns, c, id, k) <==> HeldOff(turns, c, id, k) {
      TrackingDivergesExactly(turns, c, id, k);
    }
  }

  lemma DisabledIsSentOff(turns: seq<Turn>, c: Config, id: ActuatorId, k: nat)
    requires c.Valid() && k < |turns| && C.LimitsFor(c.limits, id).Rate().None? && DisabledAfter(turns, c, id, k + 1)
    ensures SentLevel(turns, c, id, k) == 0.0
  {
    hide Run, SentBy, Intended, LatchesAfter, AppliedAfter, HealthAfter, LevelsInRange, Config.Valid, C.LimitsFor;
    RunStep(START, turns, c, k);
    RunInRange(turns[..k], c);
    ReadyInRange(Run(START, turns[..k], c), turns[k].writes);
    SentLowered(Before(START, turns, c, k), turns[k].input, c, id);
  }

  /** Without a rate limit "held off" is: disabled, and more than the tolerance asked. */
  lemma {:induction false} ObedientCalledStuck(turns: seq<Turn>, c: Config, id: ActuatorId, m: nat, n: nat)
    requires c.Valid() && C.LimitsFor(c.limits, id).Rate().None? && Tracks(turns, c, id) && 0 < m <= n < |turns|
    requires forall k :: m <= k <= n ==>
        DisabledAfter(turns, c, id, k) && AskedAt(turns, c, id, k - 1) > c.sensing.tolerance
    ensures StuckCount(turns[..n + 1], c, id) >= n - m + 1
  {
    hide StuckCount, DivergedAt, SentLevel, AskedAt, ReadbackAt, DisabledAfter, C.LimitsFor, C.Limits.Rate;
    var before := n - 1;
    assert DisabledAfter(turns, c, id, before + 1) && AskedAt(turns, c, id, before) > c.sensing.tolerance by {
      assert DisabledAfter(turns, c, id, n);
    }
    StuckCounts(turns, c, id, n);
    TrackingDivergesExactly(turns, c, id, n);
    DisabledIsSentOff(turns, c, id, before);
    if m < n {
      ObedientCalledStuck(turns, c, id, m, n - 1);
    }
  }

  // The smallest such run: a heater that obeys at once while the air cools for lack of power behind it.

  const EXAMPLE := Config(I.Safety(35.0, 2.0, 1500.0, 100.0, 5), H.Sensing(5.0, 1), map[])

  function CoolingTurn(temperature: real, readback: real): Turn {
    Turn([], Input(map[House(Heater) := readback], H.Trusted(Some(temperature), None, None, None, map[]),
                   H.Targets(22.0, None, 60.0, 900.0), map[House(Heater) := 100.0], {}))
  }

  const COOLING := [CoolingTurn(20.0, 0.0), CoolingTurn(20.0, 100.0), CoolingTurn(19.0, 100.0), CoolingTurn(19.0, 0.0)]

  lemma CoolingStep(s: State, temperature: real, readback: real)
    requires s.overrides == map[] && !s.latches.critical.asserted && temperature <= 35.0
    ensures var i := CoolingTurn(temperature, readback).input;
            var s', disabled := Next(s, i, EXAMPLE), HealthAfter(s, i, EXAMPLE).disabled;
            && s'.overrides == map[] && !s'.latches.critical.asserted
            && s'.prev.Some? && Get(s'.prev.value, House(Heater)) == 100.0
            && s'.health == HealthAfter(s, i, EXAMPLE)
            && Get(SentBy(s, i, EXAMPLE), House(Heater)) == if House(Heater) in disabled then 0.0 else 100.0
  {
    hide HealthAfter;
    var i := CoolingTurn(temperature, readback).input;
    var heater := House(Heater);
    assert Intended(s, i, EXAMPLE)[heater] == 100.0;
    BaselineOf(SentBy(s, i, EXAMPLE), Intended(s, i, EXAMPLE), HealthAfter(s, i, EXAMPLE).disabled, heater);
  }

  lemma CoolingMonitored(s: State, temperature: real, readback: real)
    requires s.prev.Some? && Get(s.prev.value, House(Heater)) == 100.0 && temperature < 22.0
    ensures var h, h' := s.health, HealthAfter(s, CoolingTurn(temperature, readback).input, EXAMPLE);
            && (House(Heater) in h'.disabled <==>
                (readback < 95.0 || readback > 105.0 ||
                 (Heater in h.challenges && temperature < h.challenges[Heater].baseline - 0.2)))
            && Heater in h'.challenges
            && h'.challenges[Heater] == H.ChallengeNext(Heater, H.ChallengeOf(h.challenges, Heater), temperature)
            && H.CountOf(h'.stuck, House(Heater)) ==
               if readback < 95.0 || readback > 105.0 then H.CountOf(h.stuck, House(Heater)) + 1 else 0
  {
    hide H.Alarms;
    var i, h := CoolingTurn(temperature, readback).input, s.health;
    var prev := s.prev.value;
    WhyDisabled(h, prev, i, EXAMPLE.sensing, House(Heater));
    var alarms := H.Alarms(h, prev, i.observed, i.trusted, i.targets, EXAMPLE.sensing);
    HeaterAlarms(h, prev, i);
    forall kind | H.Alarm(House(Heater), kind) in alarms ensures kind in {H.Stuck, H.NoResponse} {
      assert !kind.ValveNoResponse?;
    }
  }

  lemma HeaterAlarms(h: H.Health, prev: Commands, i: Input)
    ensures var alarms := H.Alarms(h, prev, i.observed, i.trusted, i.targets, EXAMPLE.sensing);
            && (H.Alarm(House(Heater), H.NoResponse) in alarms <==>
                H.Fails(h.challenges, Heater, prev, i.trusted, i.targets, 1))
            && H.Alarm(House(Heater), H.ValveNoResponse) !in alarms
  {
    hide H.Fails, H.StuckIds, H.StuckNext, H.FlatZones, H.FlatNext;
    assert Heater in H.FailedPushers(h.challenges, prev, i.trusted, i.targets, 1) <==>
      H.Fails(h.challenges, Heater, prev, i.trusted, i.targets, 1);
  }

  /** The state after the first k of these ticks. */
  function Cooled(k: nat): State
    requires k <= 4
  {
    Run(START, COOLING[..k], EXAMPLE)
  }

  lemma CoolingTick(k: nat, temperature: real, readback: real)
    requires k < 4 && COOLING[k] == CoolingTurn(temperature, readback)
    ensures Cooled(k + 1) == Next(Cooled(k), COOLING[k].input, EXAMPLE) &&
        Before(START, COOLING, EXAMPLE, k) == Cooled(k)
  {
    hide Run, Next;
    RunStep(START, COOLING, EXAMPLE, k);
  }

  /** The heater's readback is exactly what was sent on every tick, and still it is reported stuck. */
  lemma CoolingIsCalledStuck()
    ensures EXAMPLE.Valid() && Tracks(COOLING, EXAMPLE, House(Heater)) && StuckAt(COOLING, EXAMPLE, House(Heater), 3)
  {
    hide Run, Next, SentBy, HealthAfter, H.Monitored, Intended, LatchesAfter;
    var heater := House(Heater);
    StartOfCooling();
    CoolingTick(0, 20.0, 0.0);
    CoolingStep(Cooled(0), 20.0, 0.0);
    CoolingFirst();
    CoolingTick(1, 20.0, 100.0);
    CoolingStep(Cooled(1), 20.0, 100.0);
    CoolingMonitored(Cooled(1), 20.0, 100.0);
    CoolingTick(2, 19.0, 100.0);
    CoolingStep(Cooled(2), 19.0, 100.0);
    CoolingMonitored(Cooled(2), 19.0, 100.0);
    CoolingTick(3, 19.0, 0.0);
    CoolingStep(Cooled(3), 19.0, 0.0);
    CoolingMonitored(Cooled(3), 19.0, 0.0);
  }

  lemma StartOfCooling()
    ensures Cooled(0) == START
  {
  }

  lemma CoolingFirst()
    ensures var h := HealthAfter(START, CoolingTurn(20.0, 0.0).input, EXAMPLE);
            h.disabled == {} && h.challenges == map[]
  {
  }
}
