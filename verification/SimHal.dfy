/** The simulated hardware's faults: forced sensor channels and stuck actuators, each for a number of steps. */
module SimHal {
  import opened Text
  import opened Actuators

  datatype Channel = TemperatureProbe(i: nat) | HumiditySensor | Co2Sensor | ParSensor | SoilMoisture(zone: string)

  datatype Injection = Injection(value: real, remaining: nat)

  datatype FaultKind = StuckOn | StuckOff

  datatype ActuatorFault = ActuatorFault(kind: FaultKind, remaining: nat)

  /** At least one step, however short the time to live. */
  function Lifetime(ttl: nat): nat {
    if ttl < 1 then 1 else ttl
  }

  /** One step older; what has run out is gone. */
  function Aged(injections: map<Channel, Injection>): map<Channel, Injection> {
    map ch | ch in injections && injections[ch].remaining > 1 ::
      Injection(injections[ch].value, injections[ch].remaining - 1)
  }

  function AgedFaults(faults: map<ActuatorId, ActuatorFault>): map<ActuatorId, ActuatorFault> {
    map id | id in faults && faults[id].remaining > 1 :: ActuatorFault(faults[id].kind, faults[id].remaining - 1)
  }

  /** What the controller sees: the measured readings under the forced ones; an unknown channel stays unknown. */
  function Overlaid(readings: map<Channel, real>, injections: map<Channel, Injection>): map<Channel, real> {
    map ch | ch in readings :: if ch in injections then injections[ch].value else readings[ch]
  }

  function ObserveOne(commanded: Commands, faults: map<ActuatorId, ActuatorFault>, id: ActuatorId): real {
    if id in faults then (if faults[id].kind.StuckOn? then 100.0 else 0.0) else Get(commanded, id)
  }

  function Clamped(cmd: Commands): Commands {
    map id | id in cmd :: Clamp(cmd[id], 0.0, 100.0)
  }

  function AllOff(ids: set<ActuatorId>): Commands {
    map id | id in ids :: 0.0
  }

  function ReadbackOf(ids: set<ActuatorId>, commanded: Commands, faults: map<ActuatorId, ActuatorFault>): Commands {
    map id | id in ids :: Clamp(ObserveOne(commanded, faults, id), 0.0, 100.0)
  }

  class SimulatedHal {
    const ids: set<ActuatorId>
    var injections: map<Channel, Injection>
    var faults: map<ActuatorId, ActuatorFault>
    var commanded: Commands
    var observed: Commands

    constructor (ids: set<ActuatorId>)
      ensures this.ids == ids && injections == map[] && faults == map[]
      ensures commanded == AllOff(ids) && observed == AllOff(ids)
    {
      this.ids := ids;
      injections, faults := map[], map[];
      commanded := AllOff(ids);
      observed := AllOff(ids);
    }

    method InjectSensor(ch: Channel, value: real, ttl: nat)
      modifies this`injections
      ensures injections == old(injections)[ch := Injection(value, Lifetime(ttl))]
    {
      injections := injections[ch := Injection(value, Lifetime(ttl))];
    }

    method ClearSensor(ch: Channel)
      modifies this`injections
      ensures injections == old(injections) - {ch}
    {
      injections := injections - {ch};
    }

    method Read(readings: map<Channel, real>) returns (r: map<Channel, real>)
      ensures r == Overlaid(readings, injections)
    {
      r := readings;
      var left := injections.Keys;
      while left != {}
        invariant left <= injections.Keys && r.Keys == readings.Keys
        invariant forall ch :: ch in r ==>
                    r[ch] == if ch in injections && ch !in left then injections[ch].value else readings[ch]
        decreases left
      {
        var ch :| ch in left;
        left := left - {ch};
        if ch in r {
          r := r[ch := injections[ch].value];
        }
      }
    }

    method Command(cmd: Commands)
      modifies this`commanded
      ensures commanded == AllOff(ids) + Clamped(cmd)
    {
      commanded := AllOff(ids);
      var left := cmd.Keys;
      while left != {}
        invariant left <= cmd.Keys
        invariant commanded.Keys == ids + (cmd.Keys - left)
        invariant forall id :: id in commanded ==>
                    commanded[id] == if id in cmd && id !in left then Clamp(cmd[id], 0.0, 100.0) else 0.0
        decreases left
      {
        var id :| id in left;
        left := left - {id};
        commanded := Set(commanded, id, cmd[id]);
      }
    }

    /** Readback first, then a step of every lifetime. */
    method Step()
      modifies this`observed, this`injections, this`faults
      ensures observed == ReadbackOf(ids, commanded, old(faults))
      ensures injections == Aged(old(injections)) && faults == AgedFaults(old(faults))
    {
      observed := AllOff(ids);
      var left := ids;
      while left != {}
        invariant injections == old(injections) && faults == old(faults)
        invariant left <= ids && observed.Keys == ids
        invariant forall id :: id in observed ==>
                    observed[id] == if id in left then 0.0 else Clamp(ObserveOne(commanded, faults, id), 0.0, 100.0)
        decreases left
      {
        var id :| id in left;
        left := left - {id};
        observed := Set(observed, id, ObserveOne(commanded, faults, id));
      }
      injections := Aged(injections);
      faults := AgedFaults(faults);
    }
  }

  /** With no stuck fault on it, an actuator's readback after a step is what the tick sent it. */
  lemma HealthyTracks(ids: set<ActuatorId>, sent: Commands, faults: map<ActuatorId, ActuatorFault>, id: ActuatorId)
    requires id in ids && id !in faults && (id in sent ==> 0.0 <= sent[id] <= 100.0)
    ensures Get(ReadbackOf(ids, AllOff(ids) + Clamped(sent), faults), id) == Get(sent, id)
  {
  }

  /** A stuck actuator reads full or nothing, whatever it is sent. */
  lemma StuckReads(ids: set<ActuatorId>, commanded: Commands, faults: map<ActuatorId, ActuatorFault>, id: ActuatorId)
    requires id in ids && id in faults
    ensures Get(ReadbackOf(ids, commanded, faults), id) ==
            match faults[id].kind case StuckOn => 100.0 case StuckOff => 0.0
  {
  }

  function FaultsAfter(faults: map<ActuatorId, ActuatorFault>, steps: nat): map<ActuatorId, ActuatorFault> {
    if steps == 0 then faults else AgedFaults(FaultsAfter(faults, steps - 1))
  }

  /** A stuck fault with time left is there for exactly that many steps. */
  lemma {:induction false} FaultLasts(faults: map<ActuatorId, ActuatorFault>, id: ActuatorId, steps: nat)
    requires id in faults && faults[id].remaining >= 1
    ensures var now := FaultsAfter(faults, steps);
            && (id in now <==> steps < faults[id].remaining)
            && (id in now ==> now[id] == ActuatorFault(faults[id].kind, faults[id].remaining - steps))
  {
    if steps > 0 {
      FaultLasts(faults, id, steps - 1);
    }
  }
}
