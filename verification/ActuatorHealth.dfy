/** Actuator-health monitoring: what was commanded last tick against what is observed and sensed now. */
module ActuatorHealth {
  import opened Text
  import opened Actuators

  datatype Sensing = Sensing(tolerance: real, window: nat)

  /** The trusted readings; a None is not to be relied on. */
  datatype Trusted = Trusted(
    temperature: Option<real>,
    humidity: Option<real>,
    co2: Option<real>,
    par: Option<real>,
    soil: map<string, Option<real>>)

  datatype Targets = Targets(temperature: real, humidity: Option<real>, humidityLow: real, co2: real)

  /** A running no-response challenge: the level to beat and the ticks without a response. */
  datatype Challenge = Challenge(baseline: real, ticks: nat)

  datatype Health = Health(
    stuck: map<ActuatorId, nat>,
    flat: map<string, nat>,
    lastSoil: map<string, real>,
    challenges: map<Actuator, Challenge>,
    disabled: set<ActuatorId>)

  const HEALTHY := Health(map[], map[], map[], map[], {})

  const HOUSE_ON_THRESHOLD := 50.0
  const SOIL_RISE := 0.000001

  datatype AlarmKind = Stuck | ValveNoResponse | NoResponse

  datatype Alarm = Alarm(id: ActuatorId, kind: AlarmKind)

  function CountOf<K>(m: map<K, nat>, k: K): nat {
    if k in m then m[k] else 0
  }

  // ---- stuck: the readback diverges from the command ----

  predicate Diverged(observed: Commands, prev: Commands, id: ActuatorId, tolerance: real) {
    var gap := Get(observed, id) - Get(prev, id);
    gap > tolerance || gap < -tolerance
  }

  function StuckNext(stuck: map<ActuatorId, nat>, prev: Commands, observed: Commands,
                     cfg: Sensing): map<ActuatorId, nat> {
    map id | id in stuck.Keys + observed.Keys ::
      if id !in observed then stuck[id]
      else if Diverged(observed, prev, id, cfg.tolerance) then CountOf(stuck, id) + 1
      else 0
  }

  // ---- valves: open, but the soil does not get wetter ----

  predicate Rose(lastSoil: map<string, real>, zone: string, soil: real) {
    zone in lastSoil && soil > lastSoil[zone] + SOIL_RISE
  }

  function FlatCount(flat: map<string, nat>, lastSoil: map<string, real>, prev: Commands, z: string,
                     soil: Option<real>): nat {
    if soil.Some? && Get(prev, Valve(z)) > 1.0 && !Rose(lastSoil, z, soil.value) then CountOf(flat, z) + 1 else 0
  }

  function FlatNext(flat: map<string, nat>, lastSoil: map<string, real>, prev: Commands,
                    soil: map<string, Option<real>>)
    : map<string, nat>
  {
    map z | z in flat.Keys + soil.Keys ::
      if z in soil then FlatCount(flat, lastSoil, prev, z, soil[z]) else flat[z]
  }

  predicate FlatTooLong(flat: map<string, nat>, soil: map<string, Option<real>>, z: string, window: nat) {
    z in soil && soil[z].Some? && CountOf(flat, z) >= window
  }

  function LastSoilNext(lastSoil: map<string, real>, soil: map<string, Option<real>>): map<string, real> {
    map z | z in lastSoil.Keys + soil.Keys && (z in lastSoil || soil[z].Some?) ::
      if z in soil && soil[z].Some? then soil[z].value else lastSoil[z]
  }

  // ---- push actuators: on, but the driven variable does not respond ----

  const PUSHERS := {Heater, Misters, Co2Injector, GrowLights}

  function Driven(a: Actuator, t: Trusted): Option<real> {
    match a
    case Heater => t.temperature
    case Misters => t.humidity
    case Co2Injector => t.co2
    case GrowLights => t.par
    case _ => None
  }

  /** A response can be expected: the driven variable is below its target (light is only ever short). */
  predicate Expected(a: Actuator, v: real, r: Targets) {
    match a
    case Heater => v < r.temperature
    case Misters => v < r.humidity.GetOr(r.humidityLow)
    case Co2Injector => v < r.co2
    case _ => true
  }

  function Margin(a: Actuator): real {
    match a
    case Heater => 0.2
    case Misters => 1.0
    case Co2Injector => 10.0
    case GrowLights => 10.0
    case _ => 0.0
  }

  predicate Challenged(a: Actuator, prev: Commands, t: Trusted, r: Targets) {
    && Get(prev, House(a)) >= HOUSE_ON_THRESHOLD
    && Driven(a, t).Some? && Expected(a, Driven(a, t).value, r)
  }

  /** Light has to climb above where the challenge began; the others only have to hold their best level. */
  predicate Responded(a: Actuator, baseline: real, v: real) {
    if a.GrowLights? then v > baseline + Margin(a) else v >= baseline - Margin(a)
  }

  function ChallengeNext(a: Actuator, c: Option<Challenge>, v: real): Challenge {
    if c.None? then Challenge(v, 0)
    else if !Responded(a, c.value.baseline, v) then c.value.(ticks := c.value.ticks + 1)
    else Challenge(if !a.GrowLights? && v > c.value.baseline then v else c.value.baseline, 0)
  }

  predicate FailsChallenge(a: Actuator, c: Option<Challenge>, v: real, window: nat) {
    c.Some? && !Responded(a, c.value.baseline, v) && c.value.ticks + 1 >= window
  }

  /** The driven variable's value while the actuator is challenged. */
  function Level(a: Actuator, t: Trusted): real {
    Driven(a, t).GetOr(0.0)
  }

  predicate Fails(m: map<Actuator, Challenge>, a: Actuator, prev: Commands, t: Trusted, r: Targets, window: nat) {
    Challenged(a, prev, t, r) && FailsChallenge(a, ChallengeOf(m, a), Level(a, t), window)
  }

  function ChallengeOf(m: map<Actuator, Challenge>, a: Actuator): Option<Challenge> {
    if a in m then Some(m[a]) else None
  }

  function ChallengesNext(m: map<Actuator, Challenge>, prev: Commands, t: Trusted,
                          r: Targets): map<Actuator, Challenge> {
    map a | a in m.Keys + PUSHERS && (a in PUSHERS ==> Challenged(a, prev, t, r)) ::
      if a in PUSHERS then ChallengeNext(a, ChallengeOf(m, a), Level(a, t)) else m[a]
  }

  // ---- the whole monitor ----

  function StuckIds(stuck: map<ActuatorId, nat>, observed: Commands, window: nat): set<ActuatorId> {
    set id | id in observed && CountOf(stuck, id) >= window
  }

  function FlatZones(flat: map<string, nat>, soil: map<string, Option<real>>, window: nat): set<string> {
    set z | z in soil && FlatTooLong(flat, soil, z, window)
  }

  function FailedPushers(m: map<Actuator, Challenge>, prev: Commands, t: Trusted, r: Targets,
                         window: nat): set<Actuator> {
    set a | a in PUSHERS && Fails(m, a, prev, t, r, window)
  }

  function Alarms(h: Health, prev: Commands, observed: Commands, t: Trusted, r: Targets, cfg: Sensing): set<Alarm> {
    (set id | id in StuckIds(StuckNext(h.stuck, prev, observed, cfg), observed, cfg.window) :: Alarm(id, Stuck)) +
    (set z | z in FlatZones(FlatNext(h.flat, h.lastSoil, prev, t.soil), t.soil, cfg.window) ::
     Alarm(Valve(z), ValveNoResponse)) +
    (set a | a in FailedPushers(h.challenges, prev, t, r, cfg.window) :: Alarm(House(a), NoResponse))
  }

  function Monitored(h: Health, prev: Option<Commands>, observed: Commands, t: Trusted, r: Targets,
                     cfg: Sensing): Health {
    if prev.None? then h.(disabled := {})
    else
      Health(StuckNext(h.stuck, prev.value, observed, cfg),
             FlatNext(h.flat, h.lastSoil, prev.value, t.soil),
             LastSoilNext(h.lastSoil, t.soil),
             ChallengesNext(h.challenges, prev.value, t, r),
             set alarm | alarm in Alarms(h, prev.value, observed, t, r, cfg) :: alarm.id)
  }

  class HealthState {
    var stuck: map<ActuatorId, nat>
    var flat: map<string, nat>
    var lastSoil: map<string, real>
    var challenges: map<Actuator, Challenge>
    var disabled: set<ActuatorId>

    ghost function Now(): Health
      reads this
    {
      Health(stuck, flat, lastSoil, challenges, disabled)
    }

    constructor ()
      ensures Now() == HEALTHY
    {
      stuck, flat, lastSoil, challenges, disabled := map[], map[], map[], map[], {};
    }

    method MonitorStuck(prev: Commands, observed: Commands, cfg: Sensing) returns (failed: set<ActuatorId>)
      modifies this`stuck
      ensures stuck == StuckNext(old(stuck), prev, observed, cfg)
      ensures failed == StuckIds(stuck, observed, cfg.window)
    {
      hide Diverged;
      failed := {};
      var ids := observed.Keys;
      while ids != {}
        invariant ids <= observed.Keys
        invariant stuck.Keys == old(stuck).Keys + (observed.Keys - ids)
        invariant forall id :: id in stuck ==>
                    stuck[id] == if id !in observed || id in ids then old(stuck)[id]
                                 else if Diverged(observed, prev, id, cfg.tolerance) then CountOf(old(stuck), id) + 1
                                 else 0
        invariant forall id :: id in failed <==> id in observed && id !in ids && CountOf(stuck, id) >= cfg.window
        decreases ids
      {
        var id :| id in ids;
        ids := ids - {id};
        var count := 0;
        if Diverged(observed, prev, id, cfg.tolerance) {
          count := CountOf(stuck, id) + 1;
        }
        stuck := stuck[id := count];
        if count >= cfg.window {
          failed := failed + {id};
        }
      }
    }

    method MonitorValve(z: string, reading: Option<real>, prev: Commands, cfg: Sensing) returns (failed: bool)
      modifies this`flat, this`lastSoil
      ensures flat == old(flat)[z := FlatCount(old(flat), old(lastSoil), prev, z, reading)]
      ensures lastSoil == if reading.Some? then old(lastSoil)[z := reading.value] else old(lastSoil)
      ensures failed <==> reading.Some? && flat[z] >= cfg.window
    {
      failed := false;
      match reading
      case Some(v) =>
        var rose := Rose(lastSoil, z, v);
        lastSoil := lastSoil[z := v];
        var count := 0;
        if Get(prev, Valve(z)) > 1.0 && !rose {
          count := CountOf(flat, z) + 1;
        }
        flat := flat[z := count];
        failed := count >= cfg.window;
      case None =>
        flat := flat[z := 0];
    }

    method MonitorValves(prev: Commands, soil: map<string, Option<real>>, cfg: Sensing) returns (failed: set<string>)
      modifies this`flat, this`lastSoil
      ensures flat == FlatNext(old(flat), old(lastSoil), prev, soil)
      ensures lastSoil == LastSoilNext(old(lastSoil), soil)
      ensures failed == FlatZones(flat, soil, cfg.window)
    {
      hide FlatCount, FlatNext, LastSoilNext, FlatZones;
      failed := {};
      var zones := soil.Keys;
      ghost var done: map<string, Option<real>> := map[];
      NoZones(flat, lastSoil, prev, cfg.window);
      while zones != {}
        invariant zones <= soil.Keys && done == soil - zones
        invariant flat == FlatNext(old(flat), old(lastSoil), prev, done)
        invariant lastSoil == LastSoilNext(old(lastSoil), done)
        invariant failed == FlatZones(flat, done, cfg.window)
        decreases zones
      {
        var z :| z in zones;
        zones := zones - {z};
        OneMoreZone(old(flat), old(lastSoil), prev, done, z, soil[z], cfg.window);
        var bad := MonitorValve(z, soil[z], prev, cfg);
        if bad {
          failed := failed + {z};
        }
        done := done[z := soil[z]];
      }
      assert done == soil;
    }

    method MonitorPusher(a: Actuator, prev: Commands, t: Trusted, r: Targets, cfg: Sensing) returns (failed: bool)
      modifies this`challenges
      ensures challenges == if Challenged(a, prev, t, r)
                            then old(challenges)[a := ChallengeNext(a, ChallengeOf(old(challenges), a), Level(a, t))]
                            else old(challenges) - {a}
      ensures failed <==> Fails(old(challenges), a, prev, t, r, cfg.window)
    {
      failed := false;
      var value := Driven(a, t);
      if Get(prev, House(a)) < HOUSE_ON_THRESHOLD || value.None? || !Expected(a, value.value, r) {
        challenges := challenges - {a};
        return;
      }
      var v := value.value;
      if a !in challenges {
        challenges := challenges[a := Challenge(v, 0)];
        return;
      }
      var c := challenges[a];
      if Responded(a, c.baseline, v) {
        var baseline := if !a.GrowLights? && v > c.baseline then v else c.baseline;
        challenges := challenges[a := Challenge(baseline, 0)];
      } else {
        challenges := challenges[a := Challenge(c.baseline, c.ticks + 1)];
        failed := c.ticks + 1 >= cfg.window;
      }
    }

    method MonitorPushers(prev: Commands, t: Trusted, r: Targets, cfg: Sensing) returns (failed: set<Actuator>)
      modifies this`challenges
      ensures challenges == ChallengesNext(old(challenges), prev, t, r)
      ensures failed == FailedPushers(old(challenges), prev, t, r, cfg.window)
    {
      hide Challenged, ChallengeNext, FailsChallenge, Level;
      failed := {};
      var left := PUSHERS;
      while left != {}
        invariant left <= PUSHERS
        invariant forall a :: a in challenges <==>
                    if a in PUSHERS - left then Challenged(a, prev, t, r) else a in old(challenges)
        invariant forall a :: a in challenges ==>
                    challenges[a] == if a in PUSHERS - left
                                     then ChallengeNext(a, ChallengeOf(old(challenges), a), Level(a, t))
                                     else old(challenges)[a]
        invariant forall a :: a in failed <==> a in PUSHERS - left && Fails(old(challenges), a, prev, t, r, cfg.window)
        decreases left
      {
        var a :| a in left;
        left := left - {a};
        assert ChallengeOf(challenges, a) == ChallengeOf(old(challenges), a);
        var bad := MonitorPusher(a, prev, t, r, cfg);
        if bad {
          failed := failed + {a};
        }
      }
    }

    /** The disabled set is built anew each tick, one entry per alarm raised. */
    method Monitor(prev: Option<Commands>, observed: Commands, t: Trusted, r: Targets, cfg: Sensing)
      returns (alarms: set<Alarm>)
      modifies this
      ensures Now() == Monitored(old(Now()), prev, observed, t, r, cfg)
      ensures prev.Some? ==> alarms == Alarms(old(Now()), prev.value, observed, t, r, cfg)
    {
      hide StuckNext, FlatNext, LastSoilNext, ChallengesNext, StuckIds, FlatZones, FailedPushers;
      alarms, disabled := {}, {};
      if prev.None? {
        return;
      }
      var diverging := MonitorStuck(prev.value, observed, cfg);
      var dry := MonitorValves(prev.value, t.soil, cfg);
      var idle := MonitorPushers(prev.value, t, r, cfg);
      alarms := (set id | id in diverging :: Alarm(id, Stuck)) +
                (set z | z in dry :: Alarm(Valve(z), ValveNoResponse)) +
                (set a | a in idle :: Alarm(House(a), NoResponse));
      disabled := set alarm | alarm in alarms :: alarm.id;
    }
  }

  lemma NoZones(flat: map<string, nat>, lastSoil: map<string, real>, prev: Commands, window: nat)
    ensures FlatNext(flat, lastSoil, prev, map[]) == flat && LastSoilNext(lastSoil, map[]) == lastSoil
    ensures FlatZones(flat, map[], window) == {}
  {
  }

  /** Taking in one more zone updates that zone's entries only. */
  lemma OneMoreZone(flat: map<string, nat>, lastSoil: map<string, real>, prev: Commands,
                    done: map<string, Option<real>>, z: string, reading: Option<real>, window: nat)
    requires z !in done
    ensures var f, l, more := FlatNext(flat, lastSoil, prev, done), LastSoilNext(lastSoil, done), done[z := reading];
            var f' := f[z := FlatCount(f, l, prev, z, reading)];
            && FlatNext(flat, lastSoil, prev, more) == f'
            && LastSoilNext(lastSoil, more) == (if reading.Some? then l[z := reading.value] else l)
            && FlatZones(f', more, window) == FlatZones(f, done, window) +
                (if reading.Some? && f'[z] >= window then {z} else {})
  {
    hide FlatNext, FlatCount, LastSoilNext, FlatZones;
    OneMoreFlat(flat, lastSoil, prev, done, z, reading);
    OneMoreSoil(lastSoil, done, z, reading);
    var f, l := FlatNext(flat, lastSoil, prev, done), LastSoilNext(lastSoil, done);
    OneMoreFailure(f, done, z, reading, FlatCount(f, l, prev, z, reading), window);
  }

  lemma OneMoreSoil(lastSoil: map<string, real>, done: map<string, Option<real>>, z: string, reading: Option<real>)
    requires z !in done
    ensures var l := LastSoilNext(lastSoil, done);
            LastSoilNext(lastSoil, done[z := reading]) == if reading.Some? then l[z := reading.value] else l
  {
  }

  lemma OneMoreFailure(flat: map<string, nat>, done: map<string, Option<real>>, z: string, reading: Option<real>,
                       count: nat, window: nat)
    requires z !in done
    ensures FlatZones(flat[z := count], done[z := reading], window) ==
            FlatZones(flat, done, window) + (if reading.Some? && count >= window then {z} else {})
  {
  }

  lemma OneMoreFlat(flat: map<string, nat>, lastSoil: map<string, real>, prev: Commands,
                    done: map<string, Option<real>>, z: string, reading: Option<real>)
    requires z !in done
    ensures var f := FlatNext(flat, lastSoil, prev, done);
            FlatNext(flat, lastSoil, prev, done[z := reading]) ==
            f[z := FlatCount(f, LastSoilNext(lastSoil, done), prev, z, reading)]
  {
    var f, l := FlatNext(flat, lastSoil, prev, done), LastSoilNext(lastSoil, done);
    assert CountOf(f, z) == CountOf(flat, z);
    assert Rose(l, z, reading.GetOr(0.0)) == Rose(lastSoil, z, reading.GetOr(0.0));
  }
}
