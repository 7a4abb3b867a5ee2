/** The platform's setpoint vocabulary and the test between intended and reported bundles. */
module Domain {
  import opened Text

  datatype ZoneTargets = ZoneTargets(
    zoneId: string,
    moistureLow: real,
    moistureHigh: real,
    drainPeriodSecs: int,
    schedule: string)

  datatype Setpoints = Setpoints(
    temperatureDay: real,
    temperatureNight: real,
    dayStart: string,
    dayEnd: string,
    humidityLow: real,
    humidityHigh: real,
    humidityDeadband: real,
    co2Target: int,
    co2VentInterlock: real,
    vpdTarget: real,
    dliTarget: real,
    zones: seq<ZoneTargets>)

  datatype Source = Profile | OperatorEdit | Optimizer

  datatype Bound = Bound(min: real, max: real)

  datatype ZoneBounds = ZoneBounds(
    moistureLow: Option<Bound>,
    moistureHigh: Option<Bound>,
    drainPeriodSecs: Option<Bound>)

  datatype StageBounds = StageBounds(
    temperatureDay: Option<Bound>,
    temperatureNight: Option<Bound>,
    humidityLow: Option<Bound>,
    humidityHigh: Option<Bound>,
    humidityDeadband: Option<Bound>,
    co2Target: Option<Bound>,
    co2VentInterlock: Option<Bound>,
    vpdTarget: Option<Bound>,
    dliTarget: Option<Bound>,
    zones: Option<ZoneBounds>)

  datatype ProfileStage = ProfileStage(stage: string, targets: Setpoints, bounds: Option<StageBounds>)

  datatype CropProfile = CropProfile(id: string, name: string, crop: string, stages: seq<ProfileStage>) {
    /** The first stage of that name. */
    function Stage(stageName: string): Option<ProfileStage> {
      StageIn(stages, stageName)
    }
  }

  function StageIn(stages: seq<ProfileStage>, stageName: string): (r: Option<ProfileStage>)
    ensures r.Some? ==> r.value in stages && r.value.stage == stageName
    ensures r.None? ==> forall s :: s in stages ==> s.stage != stageName
  {
    if stages == [] then None
    else if stages[0].stage == stageName then Some(stages[0])
    else StageIn(stages[1..], stageName)
  }

  datatype Assignment = Assignment(profileId: string, stage: string)

  const SETPOINT_EPSILON := 0.000001

  predicate FloatsEqual(a: real, b: real) {
    -SETPOINT_EPSILON <= a - b <= SETPOINT_EPSILON
  }

  predicate ZoneEqual(z: ZoneTargets, other: ZoneTargets) {
    && z.zoneId == other.zoneId
    && z.schedule == other.schedule
    && z.drainPeriodSecs == other.drainPeriodSecs
    && FloatsEqual(z.moistureLow, other.moistureLow)
    && FloatsEqual(z.moistureHigh, other.moistureHigh)
  }

  predicate GlobalEqual(s: Setpoints, other: Setpoints) {
    && s.dayStart == other.dayStart && s.dayEnd == other.dayEnd && s.co2Target == other.co2Target
    && FloatsEqual(s.temperatureDay, other.temperatureDay)
    && FloatsEqual(s.temperatureNight, other.temperatureNight)
    && FloatsEqual(s.humidityLow, other.humidityLow)
    && FloatsEqual(s.humidityHigh, other.humidityHigh)
    && FloatsEqual(s.humidityDeadband, other.humidityDeadband)
    && FloatsEqual(s.co2VentInterlock, other.co2VentInterlock)
    && FloatsEqual(s.vpdTarget, other.vpdTarget)
    && FloatsEqual(s.dliTarget, other.dliTarget)
  }

  /** Zones by id; the last of several with one id wins. */
  function ZoneMap(zones: seq<ZoneTargets>): map<string, ZoneTargets> {
    if zones == [] then map[]
    else
      var last := zones[|zones| - 1];
      ZoneMap(zones[..|zones| - 1])[last.zoneId := last]
  }

  predicate ZonesCovered(zones: seq<ZoneTargets>, others: map<string, ZoneTargets>) {
    forall i :: 0 <= i < |zones| ==> zones[i].zoneId in others && ZoneEqual(zones[i], others[zones[i].zoneId])
  }

  predicate IsReconciled(intended: Setpoints, reported: Setpoints) {
    GlobalEqual(intended, reported) && ZonesCovered(intended.zones, ZoneMap(reported.zones))
  }

  method ZonesCoveredBy(s: Setpoints, other: Setpoints) returns (covered: bool)
    ensures covered == ZonesCovered(s.zones, ZoneMap(other.zones))
  {
    var otherZones: map<string, ZoneTargets> := map[];
    for i := 0 to |other.zones|
      invariant otherZones == ZoneMap(other.zones[..i])
    {
      assert other.zones[..i + 1][..i] == other.zones[..i];
      otherZones := otherZones[other.zones[i].zoneId := other.zones[i]];
    }
    assert other.zones[..|other.zones|] == other.zones;
    for i := 0 to |s.zones|
      invariant ZonesCovered(s.zones[..i], otherZones)
    {
      if s.zones[i].zoneId !in otherZones || !ZoneEqual(s.zones[i], otherZones[s.zones[i].zoneId]) {
        return false;
      }
    }
    covered := true;
  }

  /** The comparison the reconciler makes each pass. */
  method Reconciled(s: Setpoints, reported: Setpoints) returns (r: bool)
    ensures r == IsReconciled(s, reported)
  {
    r := GlobalEqual(s, reported);
    if r {
      r := ZonesCoveredBy(s, reported);
    }
  }

  predicate DistinctZones(zones: seq<ZoneTargets>) {
    forall i, j :: 0 <= i < j < |zones| ==> zones[i].zoneId != zones[j].zoneId
  }

  /** Zone i carries the id, and none after it does. */
  predicate LastWith(zones: seq<ZoneTargets>, id: string, i: nat) {
    i < |zones| && zones[i].zoneId == id && forall j :: i < j < |zones| ==> zones[j].zoneId != id
  }

  /** The map holds exactly the ids that occur, each with the last zone carrying it. */
  lemma {:induction false} ZoneMapIsLast(zones: seq<ZoneTargets>, id: string)
    ensures id in ZoneMap(zones) <==> exists i :: 0 <= i < |zones| && zones[i].zoneId == id
    ensures id in ZoneMap(zones) ==> exists i: nat :: LastWith(zones, id, i) && zones[i] == ZoneMap(zones)[id]
  {
    if zones != [] {
      var n := |zones| - 1;
      ZoneMapIsLast(zones[..n], id);
      if zones[n].zoneId == id {
        assert LastWith(zones, id, n);
      } else if id in ZoneMap(zones[..n]) {
        var i: nat :| LastWith(zones[..n], id, i) && zones[..n][i] == ZoneMap(zones[..n])[id];
        LastStays(zones, id, i);
      } else {
        forall i | 0 <= i < |zones| ensures zones[i].zoneId != id {
          assert i < n ==> zones[..n][i] == zones[i];
        }
      }
    }
  }

  lemma LastStays(zones: seq<ZoneTargets>, id: string, i: nat)
    requires zones != [] && zones[|zones| - 1].zoneId != id && LastWith(zones[..|zones| - 1], id, i)
    ensures LastWith(zones, id, i) && zones[i] == zones[..|zones| - 1][i]
  {
    forall j | i < j < |zones| ensures zones[j].zoneId != id {
      assert j < |zones| - 1 ==> zones[..|zones| - 1][j] == zones[j];
    }
  }

  lemma ZoneMapDistinct(zones: seq<ZoneTargets>, i: nat)
    requires DistinctZones(zones) && i < |zones|
    ensures zones[i].zoneId in ZoneMap(zones) && ZoneMap(zones)[zones[i].zoneId] == zones[i]
  {
    ZoneMapIsLast(zones, zones[i].zoneId);
  }

  /** As near as the comparison asks. */
  predicate Close(a: real, b: real) {
    a - b <= 0.000001 && b - a <= 0.000001
  }

  predicate ZoneClose(z: ZoneTargets, other: ZoneTargets) {
    && other.zoneId == z.zoneId && Close(z.moistureLow, other.moistureLow) && Close(z.moistureHigh, other.moistureHigh)
    && other.drainPeriodSecs == z.drainPeriodSecs && other.schedule == z.schedule
  }

  /** There is a zone of that id, and the last one has close targets. */
  ghost predicate LastIsClose(z: ZoneTargets, zones: seq<ZoneTargets>) {
    exists k: nat :: LastWith(zones, z.zoneId, k) && ZoneClose(z, zones[k])
  }

  predicate GlobalClose(b: Setpoints, r: Setpoints) {
    && Close(b.temperatureDay, r.temperatureDay) && Close(b.temperatureNight, r.temperatureNight)
    && b.dayStart == r.dayStart && b.dayEnd == r.dayEnd
    && Close(b.humidityLow, r.humidityLow) && Close(b.humidityHigh, r.humidityHigh)
    && Close(b.humidityDeadband, r.humidityDeadband) && b.co2Target == r.co2Target
    && Close(b.co2VentInterlock, r.co2VentInterlock)
    && Close(b.vpdTarget, r.vpdTarget) && Close(b.dliTarget, r.dliTarget)
  }

  lemma CloseGlobals(b: Setpoints, r: Setpoints)
    ensures GlobalClose(b, r) <==> GlobalEqual(b, r)
  {
  }

  /** Field by field: every global is close or equal, and each zone close to the last reported under its id. */
  lemma ReconciledFieldwise(b: Setpoints, r: Setpoints)
    ensures IsReconciled(b, r) <==>
            && GlobalClose(b, r)
            && forall i :: 0 <= i < |b.zones| ==> LastIsClose(b.zones[i], r.zones)
  {
    hide ZoneMap, ZoneClose, ZoneEqual, LastIsClose, GlobalClose, GlobalEqual;
    CloseGlobals(b, r);
    forall z: ZoneTargets
      ensures LastIsClose(z, r.zones) <==> z.zoneId in ZoneMap(r.zones) && ZoneEqual(z, ZoneMap(r.zones)[z.zoneId])
    {
      FoundIsLast(z, r.zones);
    }
  }

  lemma FoundIsLast(z: ZoneTargets, zones: seq<ZoneTargets>)
    ensures LastIsClose(z, zones) <==> z.zoneId in ZoneMap(zones) && ZoneEqual(z, ZoneMap(zones)[z.zoneId])
  {
    hide ZoneMap, ZoneClose, ZoneEqual;
    ZoneMapIsLast(zones, z.zoneId);
    forall other ensures ZoneClose(z, other) <==> ZoneEqual(z, other) {
      CloseIsEqual(z, other);
    }
    if k: nat :| LastWith(zones, z.zoneId, k) && ZoneClose(z, zones[k]) {
      assert zones[k].zoneId == z.zoneId;
    }
  }

  lemma CloseIsEqual(z: ZoneTargets, other: ZoneTargets)
    ensures ZoneClose(z, other) <==> ZoneEqual(z, other)
  {
  }
}
