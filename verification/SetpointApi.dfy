/**
 The API operations that create intended state: the crop-profile library, the assignment, and the
 operator's and optimizer's partial setpoint writes.
 */
module SetpointApi {
  import opened Slugs
  import opened Text
  import opened Domain
  import opened PlatformValidation
  import opened Reconciler
  import ReconcilerRuns
  import Convergence
  import Rest = ControllerRest
  import Times

  // ---- partial edits ----

  datatype ZonePatch = ZonePatch(
    zoneId: Option<string>,
    moistureLow: Option<real>,
    moistureHigh: Option<real>,
    drainPeriodSecs: Option<int>,
    schedule: Option<string>)
  {
    predicate Complete() {
      zoneId.Some? && moistureLow.Some? && moistureHigh.Some? && drainPeriodSecs.Some? && schedule.Some?
    }

    function Targets(): ZoneTargets
      requires Complete()
    {
      ZoneTargets(zoneId.value, moistureLow.value, moistureHigh.value, drainPeriodSecs.value, schedule.value)
    }
  }

  datatype SetpointsPatch = SetpointsPatch(
    temperatureDay: Option<real>,
    temperatureNight: Option<real>,
    dayStart: Option<string>,
    dayEnd: Option<string>,
    humidityLow: Option<real>,
    humidityHigh: Option<real>,
    humidityDeadband: Option<real>,
    co2Target: Option<int>,
    co2VentInterlock: Option<real>,
    vpdTarget: Option<real>,
    dliTarget: Option<real>,
    zones: Option<seq<ZonePatch>>)

  const EMPTY_PATCH := SetpointsPatch(None, None, None, None, None, None, None, None, None, None, None, None)

  function RangeIf(field: string, v: Option<real>, lo: real, hi: real): Fault {
    if v.None? then None else Range(field, v.value, lo, hi)
  }

  function RangeIntIf(field: string, v: Option<int>, lo: int, hi: int): Fault {
    if v.None? then None else RangeInt(field, v.value, lo, hi)
  }

  function ValidateZonePatch(z: ZonePatch): Fault {
    Then(Check("zone_id", z.zoneId.Some? ==> IsSlug(z.zoneId.value)),
    Then(RangeIf("moisture_low_threshold", z.moistureLow, 0.0, 1.0),
    Then(RangeIf("moisture_high_threshold", z.moistureHigh, 0.0, 1.0),
    Then(Check("moisture_low_threshold",
               z.moistureLow.Some? && z.moistureHigh.Some? ==> z.moistureLow.value < z.moistureHigh.value),
    Then(RangeIntIf("drain_period_secs", z.drainPeriodSecs, 0, PHYS_DRAIN_MAX_SECS),
         Check("schedule", z.schedule.Some? ==> Times.IsSchedule(z.schedule.value)))))))
  }

  function ValidateZonePatches(zones: seq<ZonePatch>): (r: Fault)
    ensures r.None? <==> forall i :: 0 <= i < |zones| ==> ValidateZonePatch(zones[i]).None?
  {
    if zones == [] then None else Then(ValidateZonePatch(zones[0]), ValidateZonePatches(zones[1..]))
  }

  /** The checks made on the fields present, before the baseline is looked up. */
  function ValidateSetpointsPatch(p: SetpointsPatch): Fault {
    Then(RangeIf("temperature_day_c", p.temperatureDay, PHYS_TEMP_MIN_C, PHYS_TEMP_MAX_C),
    Then(RangeIf("temperature_night_c", p.temperatureNight, PHYS_TEMP_MIN_C, PHYS_TEMP_MAX_C),
    Then(RangeIf("humidity_low_pct", p.humidityLow, PHYS_PCT_MIN, PHYS_PCT_MAX),
    Then(RangeIf("humidity_high_pct", p.humidityHigh, PHYS_PCT_MIN, PHYS_PCT_MAX),
    Then(RangeIf("humidity_deadband_pct", p.humidityDeadband, PHYS_PCT_MIN, PHYS_DEADBAND_MAX_PCT),
    Then(RangeIntIf("co2_target_ppm", p.co2Target, PHYS_CO2_MIN_PPM, PHYS_CO2_MAX_PPM),
    Then(RangeIf("co2_vent_interlock_threshold_pct", p.co2VentInterlock, PHYS_PCT_MIN, PHYS_PCT_MAX),
    Then(Check("vpd_target_kpa", p.vpdTarget.Some? ==> p.vpdTarget.value >= 0.0),
    Then(Check("dli_target_mol", p.dliTarget.Some? ==> p.dliTarget.value >= 0.0),
    Then(Check("day_start", p.dayStart.Some? ==> Times.IsHhmm(p.dayStart.value)),
    Then(Check("day_end", p.dayEnd.Some? ==> Times.IsHhmm(p.dayEnd.value)),
    Then(Check("day_end", p.dayStart.Some? && p.dayEnd.Some? ==>
                 Times.MinutesOfDay(p.dayStart.value).GetOr(0) < Times.MinutesOfDay(p.dayEnd.value).GetOr(0)),
    Then(Check("humidity_low_pct", p.humidityLow.Some? && p.humidityHigh.Some? ==>
               p.humidityLow.value < p.humidityHigh.value),
         if p.zones.None? then None else ValidateZonePatches(p.zones.value))))))))))))))
  }

  // ---- merging zones ----

  /** Index of the last zone with the id, or `|zones|`. */
  function Position(zones: seq<ZoneTargets>, id: string): (i: nat)
    ensures i <= |zones|
    ensures i < |zones| ==> zones[i].zoneId == id && forall j :: i < j < |zones| ==> zones[j].zoneId != id
    ensures i == |zones| ==> forall j :: 0 <= j < |zones| ==> zones[j].zoneId != id
  {
    if zones == [] then 0
    else if zones[|zones| - 1].zoneId == id then |zones| - 1
    else
      var i := Position(zones[..|zones| - 1], id);
      if i == |zones| - 1 then |zones| else i
  }

  function NamedZones(patch: seq<ZonePatch>): set<string> {
    if patch == [] then {} else NamedZones(patch[..|patch| - 1]) + {patch[|patch| - 1].zoneId.GetOr("")}
  }

  /** Every entry is complete, names a zone of the baseline, and none that an earlier entry named. */
  predicate Mergeable(base: seq<ZoneTargets>, patch: seq<ZonePatch>) {
    patch != [] ==>
      var n := |patch| - 1;
      && Mergeable(base, patch[..n])
      && patch[n].Complete()
      && Position(base, patch[n].zoneId.value) < |base|
      && patch[n].zoneId.value !in NamedZones(patch[..n])
  }

  lemma {:induction false} MergeableEntries(base: seq<ZoneTargets>, patch: seq<ZonePatch>)
    requires Mergeable(base, patch)
    ensures forall i :: 0 <= i < |patch| ==>
              && patch[i].Complete() && patch[i].zoneId.value in NamedZones(patch)
              && Position(base, patch[i].zoneId.value) < |base|
  {
    hide Position;
    if patch != [] {
      var n := |patch| - 1;
      MergeableEntries(base, patch[..n]);
      assert forall i :: 0 <= i < n ==> patch[..n][i] == patch[i];
    }
  }

  /** `merged` is the baseline with each named zone replaced at its position and all else untouched. */
  predicate MergedZones(base: seq<ZoneTargets>, patch: seq<ZonePatch>, merged: seq<ZoneTargets>)
  {
    && |merged| == |base|
    && (forall i :: 0 <= i < |patch| ==>
          && patch[i].Complete() && Position(base, patch[i].zoneId.value) < |base|
          && merged[Position(base, patch[i].zoneId.value)] == patch[i].Targets())
    && forall k :: 0 <= k < |base| && base[k].zoneId !in NamedZones(patch) ==> merged[k] == base[k]
  }

  function OverlayZones(base: seq<ZoneTargets>, patch: seq<ZonePatch>): (merged: seq<ZoneTargets>)
    requires Mergeable(base, patch)
    ensures |merged| == |base|
  {
    if patch == [] then base
    else
      var last := patch[|patch| - 1];
      OverlayZones(base, patch[..|patch| - 1])[Position(base, last.zoneId.value) := last.Targets()]
  }

  lemma PositionGrows(base: seq<ZoneTargets>, i: nat, id: string)
    requires i < |base|
    ensures Position(base[..i + 1], id) ==
            if base[i].zoneId == id then i
            else if Position(base[..i], id) == i then i + 1 else Position(base[..i], id)
  {
    assert base[..i + 1][..i] == base[..i];
  }

  method Positions(base: seq<ZoneTargets>) returns (position: map<string, nat>)
    ensures forall id :: id in position <==> Position(base, id) < |base|
    ensures forall id :: id in position ==> position[id] == Position(base, id)
  {
    hide Position;
    position := map[];
    for i := 0 to |base|
      invariant forall id :: id in position <==> Position(base[..i], id) < i
      invariant forall id :: id in position ==> position[id] == Position(base[..i], id)
    {
      forall id {
        PositionGrows(base, i, id);
      }
      position := position[base[i].zoneId := i];
    }
    assert base[..|base|] == base;
  }

  lemma {:induction false} MergeablePrefix(base: seq<ZoneTargets>, patch: seq<ZonePatch>, i: nat)
    requires Mergeable(base, patch) && i <= |patch|
    ensures Mergeable(base, patch[..i])
  {
    hide Position;
    if i == |patch| {
      assert patch[..i] == patch;
    } else {
      MergeablePrefix(base, patch[..|patch| - 1], i);
      assert patch[..|patch| - 1][..i] == patch[..i];
    }
  }

  lemma UnmergeablePrefix(base: seq<ZoneTargets>, patch: seq<ZonePatch>, i: nat)
    requires i <= |patch| && !Mergeable(base, patch[..i])
    ensures !Mergeable(base, patch)
  {
    if Mergeable(base, patch) {
      MergeablePrefix(base, patch, i);
    }
  }

  method MergeZonePatch(base: seq<ZoneTargets>, patch: seq<ZonePatch>) returns (r: Option<seq<ZoneTargets>>)
    ensures r.Some? <==> Mergeable(base, patch)
    ensures r.Some? ==> r.value == OverlayZones(base, patch)
  {
    hide Position;
    var merged := base;
    var position := Positions(base);
    var seen: set<string> := {};
    for i := 0 to |patch|
      invariant Mergeable(base, patch[..i]) && merged == OverlayZones(base, patch[..i])
      invariant seen == NamedZones(patch[..i])
    {
      var dto := patch[i];
      assert patch[..i + 1][..i] == patch[..i];
      if !dto.Complete() || dto.zoneId.value !in position || dto.zoneId.value in seen {
        UnmergeablePrefix(base, patch, i + 1);
        return None;
      }
      seen := seen + {dto.zoneId.value};
      merged := merged[position[dto.zoneId.value] := dto.Targets()];
    }
    assert patch[..|patch|] == patch;
    r := Some(merged);
  }

  /** The one zone a merge step writes: it takes the last entry's targets, the others stay. */
  lemma OverlayStep(base: seq<ZoneTargets>, patch: seq<ZonePatch>, k: nat)
    requires Mergeable(base, patch) && patch != [] && k < |base|
    ensures var last := patch[|patch| - 1]; var pos := Position(base, last.zoneId.value);
            && pos < |base| && base[pos].zoneId == last.zoneId.value && last.Complete() &&
                last.Targets().zoneId == last.zoneId.value
            && OverlayZones(base, patch)[k] ==
               if k == pos then last.Targets() else OverlayZones(base, patch[..|patch| - 1])[k]
  {
  }

  /** Zone topology is fixed: a merge keeps the id sequence, and does to each zone what the patch says. */
  lemma {:induction false} MergeKeepsTopology(base: seq<ZoneTargets>, patch: seq<ZonePatch>)
    requires Mergeable(base, patch)
    ensures MergedZones(base, patch, OverlayZones(base, patch))
    ensures forall k :: 0 <= k < |base| ==> OverlayZones(base, patch)[k].zoneId == base[k].zoneId
  {
    hide OverlayZones, ZonePatch.Targets;
    if patch == [] {
      NothingMerged(base);
    } else {
      var n := |patch| - 1;
      MergeKeepsTopology(base, patch[..n]);
      MergeableEntries(base, patch[..n]);
      MergeableEntries(base, patch);
      var pos := Position(base, patch[n].zoneId.value);
      OverlayStep(base, patch, pos);
      forall k | 0 <= k < |base|
        ensures OverlayZones(base, patch)[k] ==
                if k == pos then patch[n].Targets() else OverlayZones(base, patch[..n])[k]
      {
        OverlayStep(base, patch, k);
      }
      forall i | 0 <= i < |patch|
        ensures patch[i].Complete() && Position(base, patch[i].zoneId.value) < |base|
        ensures OverlayZones(base, patch)[Position(base, patch[i].zoneId.value)] == patch[i].Targets()
      {
        if i < n {
          assert patch[..n][i] == patch[i];
          assert Position(base, patch[i].zoneId.value) != pos;
        }
      }
    }
  }

  lemma NothingMerged(base: seq<ZoneTargets>)
    ensures OverlayZones(base, []) == base
  {
  }

  // ---- what an edit means, field by field ----

  predicate NumbersEdited(base: Setpoints, p: SetpointsPatch, b: Setpoints) {
    && Takes(p.temperatureDay, base.temperatureDay, b.temperatureDay)
    && Takes(p.temperatureNight, base.temperatureNight, b.temperatureNight)
    && Takes(p.dayStart, base.dayStart, b.dayStart)
    && Takes(p.dayEnd, base.dayEnd, b.dayEnd)
    && Takes(p.humidityLow, base.humidityLow, b.humidityLow)
    && Takes(p.humidityHigh, base.humidityHigh, b.humidityHigh)
    && Takes(p.humidityDeadband, base.humidityDeadband, b.humidityDeadband)
    && Takes(p.co2Target, base.co2Target, b.co2Target)
    && Takes(p.co2VentInterlock, base.co2VentInterlock, b.co2VentInterlock)
    && Takes(p.vpdTarget, base.vpdTarget, b.vpdTarget)
    && Takes(p.dliTarget, base.dliTarget, b.dliTarget)
  }

  /** A zone entry says everything, and the zone now has it. */
  predicate ZoneTaken(e: ZonePatch, z: ZoneTargets) {
    && e.zoneId == Some(z.zoneId) && e.moistureLow == Some(z.moistureLow) && e.moistureHigh == Some(z.moistureHigh)
    && e.drainPeriodSecs == Some(z.drainPeriodSecs) && e.schedule == Some(z.schedule)
  }

  /** The entry is about the k-th zone: the last one of that id. */
  predicate About(e: ZonePatch, base: seq<ZoneTargets>, k: nat)
    requires k < |base|
  {
    e.zoneId == Some(base[k].zoneId) && LastWith(base, base[k].zoneId, k)
  }

  /** Entries complete, each about some zone of the baseline, no two about the same. */
  predicate ZonesEditable(base: seq<ZoneTargets>, patch: seq<ZonePatch>) {
    (forall i :: 0 <= i < |patch| ==> Names(base, patch[i])) && DistinctNames(patch)
  }

  predicate Names(base: seq<ZoneTargets>, e: ZonePatch) {
    e.Complete() && exists k :: 0 <= k < |base| && About(e, base, k)
  }

  predicate DistinctNames(patch: seq<ZonePatch>) {
    forall i, j :: 0 <= i < j < |patch| ==> patch[i].zoneId != patch[j].zoneId
  }

  predicate ZonesEdited(base: seq<ZoneTargets>, patch: seq<ZonePatch>, zones: seq<ZoneTargets>) {
    && |zones| == |base|
    && (forall k, i :: 0 <= k < |base| && 0 <= i < |patch| && About(patch[i], base, k) ==>
          ZoneTaken(patch[i], zones[k]))
    && forall k :: 0 <= k < |base| && (forall i :: 0 <= i < |patch| ==> !About(patch[i], base, k)) ==>
         zones[k] == base[k]
  }

  /** `b` is the baseline with the edit made: every field carried taken, every other one as it was. */
  predicate IsEdit(base: Setpoints, p: SetpointsPatch, b: Setpoints) {
    && NumbersEdited(base, p, b)
    && match p.zones
       case None => b.zones == base.zones
       case Some(patch) => ZonesEditable(base.zones, patch) && ZonesEdited(base.zones, patch, b.zones)
  }

  lemma PositionIsLast(base: seq<ZoneTargets>, e: ZonePatch, k: nat)
    requires k < |base|
    ensures About(e, base, k) <==> e.zoneId.Some? && Position(base, e.zoneId.value) == k
  {
  }

  lemma {:induction false} NamedExactly(patch: seq<ZonePatch>, id: string)
    requires forall i :: 0 <= i < |patch| ==> patch[i].Complete()
    ensures id in NamedZones(patch) <==> exists i :: 0 <= i < |patch| && patch[i].zoneId == Some(id)
  {
    if patch != [] {
      var n := |patch| - 1;
      NamedExactly(patch[..n], id);
      if patch[n].zoneId != Some(id) && exists i :: 0 <= i < |patch| && patch[i].zoneId == Some(id) {
        var i :| 0 <= i < |patch| && patch[i].zoneId == Some(id);
        assert patch[..n][i].zoneId == Some(id);
      }
    }
  }

  lemma NamesSomeZone(base: seq<ZoneTargets>, e: ZonePatch)
    ensures Names(base, e) <==> e.Complete() && Position(base, e.zoneId.value) < |base|
  {
    if e.Complete() {
      var p := Position(base, e.zoneId.value);
      if p < |base| {
        PositionIsLast(base, e, p);
      }
    }
  }

  lemma DistinctStep(patch: seq<ZonePatch>)
    requires patch != [] && forall i :: 0 <= i < |patch| ==> patch[i].Complete()
    ensures var n := |patch| - 1;
            patch[n].Complete() &&
            (DistinctNames(patch) <==> DistinctNames(patch[..n]) && patch[n].zoneId.value !in NamedZones(patch[..n]))
  {
    hide NamedZones;
    var n := |patch| - 1;
    var before := patch[..n];
    assert forall i :: 0 <= i < n ==> before[i] == patch[i];
    NamedExactly(before, patch[n].zoneId.value);
  }

  lemma AllNameStep(base: seq<ZoneTargets>, patch: seq<ZonePatch>)
    requires patch != []
    ensures var n := |patch| - 1;
            (forall i :: 0 <= i < |patch| ==> Names(base, patch[i])) <==>
            ((forall i :: 0 <= i < n ==> Names(base, patch[..n][i])) && Names(base, patch[n]))
  {
    hide Names;
    var n := |patch| - 1;
    assert forall i :: 0 <= i < n ==> patch[..n][i] == patch[i];
  }

  lemma {:induction false} MergeableExactly(base: seq<ZoneTargets>, patch: seq<ZonePatch>)
    ensures Mergeable(base, patch) <==> ZonesEditable(base, patch)
  {
    hide Position, Names, DistinctNames, NamedZones;
    if patch == [] {
      NothingNamed();
    } else {
      var n := |patch| - 1;
      MergeableExactly(base, patch[..n]);
      AllNameStep(base, patch);
      NamesSomeZone(base, patch[n]);
      if forall i :: 0 <= i < |patch| ==> Names(base, patch[i]) {
        forall i | 0 <= i < |patch| ensures patch[i].Complete() {
          NamesSomeZone(base, patch[i]);
        }
        DistinctStep(patch);
      }
    }
  }

  lemma NothingNamed()
    ensures DistinctNames([])
  {
  }

  lemma MergeIsEdit(base: seq<ZoneTargets>, patch: seq<ZonePatch>)
    requires Mergeable(base, patch)
    ensures ZonesEdited(base, patch, OverlayZones(base, patch))
  {
    hide Position, OverlayZones, About, NamedZones;
    MergeKeepsTopology(base, patch);
    MergeableEntries(base, patch);
    var merged := OverlayZones(base, patch);
    forall k, i | 0 <= k < |base| && 0 <= i < |patch| && About(patch[i], base, k)
      ensures ZoneTaken(patch[i], merged[k])
    {
      PositionIsLast(base, patch[i], k);
    }
    forall k | 0 <= k < |base| && forall i :: 0 <= i < |patch| ==> !About(patch[i], base, k)
      ensures merged[k] == base[k]
    {
      UntouchedZone(base, patch, k);
    }
  }

  lemma {:induction false} UntouchedZone(base: seq<ZoneTargets>, patch: seq<ZonePatch>, k: nat)
    requires Mergeable(base, patch) && k < |base|
    requires forall i :: 0 <= i < |patch| ==> !About(patch[i], base, k)
    ensures OverlayZones(base, patch)[k] == base[k]
  {
    hide Position, About, NamedZones, OverlayZones;
    if patch == [] {
      NothingMerged(base);
    } else {
      var n := |patch| - 1;
      assert forall i :: 0 <= i < n ==> patch[..n][i] == patch[i];
      UntouchedZone(base, patch[..n], k);
      OverlayStep(base, patch, k);
      PositionIsLast(base, patch[n], k);
    }
  }

  /** At most one list of zones is what the entries make of the baseline. */
  lemma EditedZonesUnique(base: seq<ZoneTargets>, patch: seq<ZonePatch>, zones: seq<ZoneTargets>,
                          zones': seq<ZoneTargets>)
    requires ZonesEdited(base, patch, zones) && ZonesEdited(base, patch, zones')
    ensures zones == zones'
  {
    hide About;
    forall k | 0 <= k < |base| ensures zones[k] == zones'[k] {
      if i :| 0 <= i < |patch| && About(patch[i], base, k) {
        assert ZoneTaken(patch[i], zones[k]) && ZoneTaken(patch[i], zones'[k]);
      }
    }
  }

  // ---- laying a patch over a bundle ----

  function Overlay(base: Setpoints, p: SetpointsPatch, zones: seq<ZoneTargets>): Setpoints {
    Setpoints(
      p.temperatureDay.GetOr(base.temperatureDay), p.temperatureNight.GetOr(base.temperatureNight),
      p.dayStart.GetOr(base.dayStart), p.dayEnd.GetOr(base.dayEnd),
      p.humidityLow.GetOr(base.humidityLow), p.humidityHigh.GetOr(base.humidityHigh),
      p.humidityDeadband.GetOr(base.humidityDeadband), p.co2Target.GetOr(base.co2Target),
      p.co2VentInterlock.GetOr(base.co2VentInterlock), p.vpdTarget.GetOr(base.vpdTarget),
      p.dliTarget.GetOr(base.dliTarget), zones)
  }

  /** The edited bundle; None when the zones cannot be merged. */
  function Patched(base: Setpoints, p: SetpointsPatch): Option<Setpoints> {
    if p.zones.None? then Some(Overlay(base, p, base.zones))
    else if Mergeable(base.zones, p.zones.value) then Some(Overlay(base, p, OverlayZones(base.zones, p.zones.value)))
    else None
  }

  method ApplyPatch(base: Setpoints, p: SetpointsPatch) returns (r: Option<Setpoints>)
    ensures r == Patched(base, p)
    ensures r.Some? ==> NumbersEdited(base, p, r.value) && (p.zones.None? ==> r.value.zones == base.zones)
  {
    var s := base;
    s := s.(temperatureDay := p.temperatureDay.GetOr(s.temperatureDay));
    s := s.(temperatureNight := p.temperatureNight.GetOr(s.temperatureNight));
    s := s.(dayStart := p.dayStart.GetOr(s.dayStart));
    s := s.(dayEnd := p.dayEnd.GetOr(s.dayEnd));
    s := s.(humidityLow := p.humidityLow.GetOr(s.humidityLow));
    s := s.(humidityHigh := p.humidityHigh.GetOr(s.humidityHigh));
    s := s.(humidityDeadband := p.humidityDeadband.GetOr(s.humidityDeadband));
    s := s.(co2Target := p.co2Target.GetOr(s.co2Target));
    s := s.(co2VentInterlock := p.co2VentInterlock.GetOr(s.co2VentInterlock));
    s := s.(vpdTarget := p.vpdTarget.GetOr(s.vpdTarget));
    s := s.(dliTarget := p.dliTarget.GetOr(s.dliTarget));
    if p.zones.Some? {
      var zones := MergeZonePatch(s.zones, p.zones.value);
      if zones.None? {
        return None;
      }
      s := s.(zones := zones.value);
    }
    r := Some(s);
  }

  /** The overlay is the edit: it exists exactly when the edit can be made, and is the only bundle that makes it. */
  lemma PatchedIsEdit(base: Setpoints, p: SetpointsPatch, b: Setpoints)
    ensures Patched(base, p) == Some(b) <==> IsEdit(base, p, b)
  {
    hide Mergeable, OverlayZones, ZonesEdited, ZonesEditable;
    if p.zones.Some? {
      MergeableExactly(base.zones, p.zones.value);
      if Mergeable(base.zones, p.zones.value) {
        MergeIsEdit(base.zones, p.zones.value);
        if ZonesEdited(base.zones, p.zones.value, b.zones) {
          EditedZonesUnique(base.zones, p.zones.value, OverlayZones(base.zones, p.zones.value), b.zones);
        }
      }
    }
  }

  lemma NamedZoneSound(base: seq<ZoneTargets>, patch: seq<ZonePatch>, i: nat)
    requires Mergeable(base, patch) && i < |patch|
    requires forall k :: 0 <= k < |base| ==> ValidZone(OverlayZones(base, patch)[k])
    ensures ValidateZonePatch(patch[i]).None?
  {
    hide Mergeable, OverlayZones, Position, IsSlug, Times.IsSchedule;
    MergeKeepsTopology(base, patch);
    assert ValidZone(OverlayZones(base, patch)[Position(base, patch[i].zoneId.value)]);
    assert ValidZone(patch[i].Targets());
  }

  lemma ScalarsPrecheckSound(p: SetpointsPatch, candidate: Setpoints)
    requires candidate == Overlay(candidate, p, candidate.zones) && ValidBundle(candidate)
    ensures ValidateSetpointsPatch(p.(zones := None)).None?
  {
    hide ValidZone, Times.IsHhmm;
  }

  /** The check on the bare patch never turns away an edit whose resulting bundle would be valid. */
  lemma PrecheckSound(base: Setpoints, p: SetpointsPatch)
    requires Patched(base, p).Some? && ValidateSetpoints(Patched(base, p).value).None?
    ensures ValidateSetpointsPatch(p).None?
  {
    hide ValidateSetpoints, ValidBundle, ValidateZonePatches, Mergeable, OverlayZones;
    var candidate := Patched(base, p).value;
    ValidateSetpointsExact(candidate);
    ScalarsPrecheckSound(p, candidate);
    if p.zones.Some? {
      BundleZones(candidate);
      forall i | 0 <= i < |p.zones.value| ensures ValidateZonePatch(p.zones.value[i]).None? {
        NamedZoneSound(base.zones, p.zones.value, i);
      }
      ZonePatchesPass(p.zones.value);
    }
    PrecheckSplits(p);
  }

  lemma BundleZones(s: Setpoints)
    requires ValidBundle(s)
    ensures forall k :: 0 <= k < |s.zones| ==> ValidZone(s.zones[k])
  {
  }

  lemma ZonePatchesPass(zones: seq<ZonePatch>)
    requires forall i :: 0 <= i < |zones| ==> ValidateZonePatch(zones[i]).None?
    ensures ValidateZonePatches(zones).None?
  {
  }

  lemma PrecheckSplits(p: SetpointsPatch)
    ensures ValidateSetpointsPatch(p) ==
            Then(ValidateSetpointsPatch(p.(zones := None)),
                 if p.zones.None? then None else ValidateZonePatches(p.zones.value))
  {
    hide ValidateZonePatches, Times.IsHhmm, Times.MinutesOfDay;
  }

  // ---- the server's state ----

  datatype ProfilePatch = ProfilePatch(name: Option<string>, crop: Option<string>, stages: Option<seq<ProfileStage>>)

  datatype ApiState = ApiState(profiles: map<string, CropProfile>, assignment: Option<Assignment>, core: State)

  datatype Request =
    | CreateProfile(profile: CropProfile)
    | UpdateProfile(id: string, changes: ProfilePatch)
    | DeleteProfile(id: string)
    | SetAssignment(profileId: string, stage: string, call: Call)
    | WriteSetpoints(source: Source, edit: SetpointsPatch, read: seq<Reply>, call: Call)
    | Pass(call: Call)
    | Elsewhere(ctl: Rest.LiveController)
    | Prune(dropped: nat)

  predicate AcceptsProfilePatch(p: ProfilePatch) {
    && (p.name.Some? || p.crop.Some? || p.stages.Some?)
    && (p.name.Some? ==> !Blank(p.name.value))
    && (p.crop.Some? ==> !Blank(p.crop.value))
    && (p.stages.Some? ==> ValidStages(p.stages.value))
  }

  function Changed(profile: CropProfile, p: ProfilePatch): CropProfile {
    CropProfile(profile.id, p.name.GetOr(profile.name), p.crop.GetOr(profile.crop), p.stages.GetOr(profile.stages))
  }

  /** The assigned stage's targets; None when the profile or the stage does not exist. */
  function AssignedStage(profiles: map<string, CropProfile>, profileId: string, stage: string): Option<ProfileStage> {
    if !IsSlug(profileId) || Blank(stage) || profileId !in profiles then None else profiles[profileId].Stage(stage)
  }

  /** The envelope of the stage assigned now, when there is one. */
  function ActiveBounds(s: ApiState): Option<StageBounds> {
    if s.assignment.None? || s.assignment.value.profileId !in s.profiles then None
    else
      var stage := s.profiles[s.assignment.value.profileId].Stage(s.assignment.value.stage);
      if stage.None? then None else stage.value.bounds
  }

  /** What a partial edit merges onto: the intended state, or else what the controller reports. */
  function Baseline(s: State, registered: bool, read: seq<Reply>): Option<Setpoints> {
    if s.ledger != [] then Some(s.ledger[|s.ledger| - 1].setpoints)
    else if registered && Readable(read) then Some(Rest.Reported(s.ctl))
    else None
  }

  /** The bundle an edit would put in force, if nothing turns it away. */
  function Candidate(s: ApiState, source: Source, edit: SetpointsPatch, registered: bool,
                     read: seq<Reply>): Option<Setpoints> {
    if !registered || edit == EMPTY_PATCH || ValidateSetpointsPatch(edit).Some? then None
    else
      var base := Baseline(s.core, registered, read);
      if base.None? || Patched(base.value, edit).None? then None
      else
        var candidate := Patched(base.value, edit).value;
        if ValidateSetpoints(candidate).Some? then None
        else if source.Optimizer? && ActiveBounds(s).Some?
                && ValidateSetpointsWithinBounds(candidate, ActiveBounds(s).value).Some? then None
        else Some(candidate)
  }

  function Serve(s: ApiState, max: nat, r: Request): ApiState {
    match r
    case CreateProfile(p) => if ValidProfile(p) && p.id !in s.profiles then s.(profiles := s.profiles[p.id := p]) else s
    case UpdateProfile(id, p) =>
      if AcceptsProfilePatch(p) && id in s.profiles
      then s.(profiles := s.profiles[id := Changed(s.profiles[id], p)])
      else s
    case DeleteProfile(id) =>
      if s.assignment.Some? && s.assignment.value.profileId == id then s else s.(profiles := s.profiles - {id})
    case SetAssignment(profileId, stage, call) =>
      var found := AssignedStage(s.profiles, profileId, stage);
      if !call.registered || found.None? then s
      else s.(assignment := Some(Assignment(profileId, stage)),
              core := ApplyState(s.core, found.value.targets, Profile, call))
    case WriteSetpoints(source, edit, read, call) =>
      var candidate := Candidate(s, source, edit, call.registered, read);
      if candidate.None? then s else s.(core := ApplyState(s.core, candidate.value, source, call))
    case Pass(call) => s.(core := PassState(s.core, max, call))
    case Elsewhere(ctl) => s.(core := ReconcilerRuns.Next(s.core, max, ReconcilerRuns.EditStep(ctl)))
    case Prune(dropped) => s.(core := ReconcilerRuns.Next(s.core, max, ReconcilerRuns.PruneStep(dropped)))
  }

  // ---- the handlers, step by step ----

  class Server {
    var profiles: map<string, CropProfile>
    var assignment: Option<Assignment>
    const reconcile: Reconciler

    ghost function Now(): ApiState
      reads this, reconcile
    {
      ApiState(profiles, assignment, reconcile.Now())
    }

    constructor (reconcile: Reconciler)
      ensures this.reconcile == reconcile && Now() == ApiState(map[], None, reconcile.Now())
    {
      this.reconcile := reconcile;
      profiles, assignment := map[], None;
    }

    method PostProfile(p: CropProfile)
      modifies this
      ensures Now() == Serve(old(Now()), reconcile.maxRetries, CreateProfile(p))
    {
      hide ValidProfile;
      var fault := ValidateProfile(p);
      if fault.None? && p.id !in profiles {
        profiles := profiles[p.id := p];
      }
    }

    method PatchProfile(id: string, p: ProfilePatch)
      modifies this
      ensures Now() == Serve(old(Now()), reconcile.maxRetries, UpdateProfile(id, p))
    {
      hide Blank, ValidStages;
      if p.name.None? && p.crop.None? && p.stages.None? { return; }
      if p.name.Some? && Blank(p.name.value) { return; }
      if p.crop.Some? && Blank(p.crop.value) { return; }
      if p.stages.Some? {
        var fault := ValidateStages(p.stages.value);
        if fault.Some? { return; }
      }
      if id !in profiles { return; }
      var profile := profiles[id];
      profile := profile.(name := p.name.GetOr(profile.name));
      profile := profile.(crop := p.crop.GetOr(profile.crop));
      profile := profile.(stages := p.stages.GetOr(profile.stages));
      profiles := profiles[id := profile];
    }

    method PutAssignment(profileId: string, stage: string, call: Call) returns (outcome: Outcome)
      modifies this, reconcile
      ensures Now() == Serve(old(Now()), reconcile.maxRetries, SetAssignment(profileId, stage, call))
    {
      hide ApplyState, IsSlug, Blank;
      if !IsSlug(profileId) || Blank(stage) || !call.registered || profileId !in profiles { return Failed; }
      var found := profiles[profileId].Stage(stage);
      if found.None? { return Failed; }
      assignment := Some(Assignment(profileId, stage));
      outcome := reconcile.Apply(found.value.targets, Profile, call);
    }

    method ApplySetpointWrite(source: Source, edit: SetpointsPatch, read: seq<Reply>, call: Call)
      returns (outcome: Outcome)
      modifies reconcile
      ensures Now() == Serve(old(Now()), reconcile.maxRetries, WriteSetpoints(source, edit, read, call))
    {
      hide ApplyState, Patched, ValidateSetpointsPatch, ValidateSetpoints, ValidateSetpointsWithinBounds,
          ActiveBounds, Rest.Reported;
      if !call.registered || edit == EMPTY_PATCH || ValidateSetpointsPatch(edit).Some? { return Failed; }
      var base := GetBaseline(call.registered, read);
      if base.None? { return Failed; }
      var candidate := ApplyPatch(base.value, edit);
      if candidate.None? || ValidateSetpoints(candidate.value).Some? { return Failed; }
      if source.Optimizer? {
        var bounds := ResolveStageBounds();
        if bounds.Some? && ValidateSetpointsWithinBounds(candidate.value, bounds.value).Some? { return Failed; }
      }
      outcome := reconcile.Apply(candidate.value, source, call);
    }

    method GetBaseline(registered: bool, read: seq<Reply>) returns (base: Option<Setpoints>)
      ensures base == Baseline(reconcile.Now(), registered, read)
    {
      hide Rest.Reported;
      if |reconcile.ledger| > 0 {
        return Some(reconcile.ledger[|reconcile.ledger| - 1].setpoints);
      }
      if !registered || !ReplyAt(read, 0).Answered? || !ReplyAt(read, 1).Answered? { return None; }
      base := Some(Rest.Reported(reconcile.ctl));
    }

    method ResolveStageBounds() returns (bounds: Option<StageBounds>)
      ensures bounds == ActiveBounds(Now())
    {
      if assignment.None? { return None; }
      if assignment.value.profileId !in profiles { return None; }
      var stage := profiles[assignment.value.profileId].Stage(assignment.value.stage);
      bounds := if stage.None? then None else stage.value.bounds;
    }
  }

  // ---- what every run of requests keeps ----

  function Empty(ctl: Rest.LiveController): ApiState {
    ApiState(map[], None, ReconcilerRuns.Start(ctl))
  }

  function ServeAll(s: ApiState, max: nat, requests: seq<Request>): ApiState {
    if requests == [] then s
    else Serve(ServeAll(s, max, requests[..|requests| - 1]), max, requests[|requests| - 1])
  }

  predicate ValidLedger(ledger: seq<Revision>) {
    forall i :: 0 <= i < |ledger| ==> ValidBundle(ledger[i].setpoints)
  }

  predicate StoredSound(s: ApiState) {
    && (forall id :: id in s.profiles ==> ValidProfile(s.profiles[id]))
    && ValidLedger(s.core.ledger)
  }

  lemma StageIsSound(p: CropProfile, stage: ProfileStage)
    requires ValidProfile(p) && stage in p.stages
    ensures ValidBundle(stage.targets) && ValidateStageBounds(stage.targets, stage.bounds).None?
  {
    hide ValidBundle, ValidateSetpoints, ValidateStageBounds, SoundStages;
    SoundMember(p.stages, stage);
    ValidateSetpointsExact(stage.targets);
  }

  lemma ApplyKeepsLedgerValid(s: State, b: Setpoints, source: Source, call: Call)
    requires ValidLedger(s.ledger) && ValidBundle(b)
    ensures ValidLedger(ApplyState(s, b, source, call).ledger)
  {
    hide ApplyState, ValidBundle;
    ReconcilerRuns.ApplyAppends(s, b, source, call);
  }

  lemma CandidateValid(s: ApiState, source: Source, edit: SetpointsPatch, registered: bool, read: seq<Reply>)
    ensures var c := Candidate(s, source, edit, registered, read);
            c.Some? ==>
              && ValidBundle(c.value)
              && (source.Optimizer? && ActiveBounds(s).Some? ==> InEnvelope(c.value, ActiveBounds(s).value))
  {
    hide Patched, ValidateSetpointsPatch, ValidateSetpoints, ValidateSetpointsWithinBounds, ValidBundle, InEnvelope,
      ActiveBounds, Rest.Reported;
    var c := Candidate(s, source, edit, registered, read);
    if c.Some? {
      ValidateSetpointsExact(c.value);
      if ActiveBounds(s).Some? {
        WithinBoundsExact(c.value, ActiveBounds(s).value);
      }
    }
  }

  lemma ServeKeepsSound(s: ApiState, max: nat, r: Request)
    requires StoredSound(s)
    ensures StoredSound(Serve(s, max, r))
  {
    hide ApplyState, PassState, ValidBundle, ValidStages, IsSlug, Blank, Candidate;
    match r
    case SetAssignment(profileId, stage, call) =>
      var found := AssignedStage(s.profiles, profileId, stage);
      if found.Some? {
        StageIsSound(s.profiles[profileId], found.value);
        ApplyKeepsLedgerValid(s.core, found.value.targets, Profile, call);
      }
    case WriteSetpoints(source, edit, read, call) =>
      var candidate := Candidate(s, source, edit, call.registered, read);
      if candidate.Some? {
        CandidateValid(s, source, edit, call.registered, read);
        ApplyKeepsLedgerValid(s.core, candidate.value, source, call);
      }
    case Pass(call) => ReconcilerRuns.PassKeepsLedger(s.core, max, call);
    case _ =>
  }

  /** In every run of requests, passes and outside changes, every stored profile and every ledger entry is valid. */
  lemma {:induction false} LedgerAlwaysValid(ctl: Rest.LiveController, max: nat, requests: seq<Request>)
    ensures StoredSound(ServeAll(Empty(ctl), max, requests))
  {
    hide Serve;
    if requests != [] {
      LedgerAlwaysValid(ctl, max, requests[..|requests| - 1]);
      ServeKeepsSound(ServeAll(Empty(ctl), max, requests[..|requests| - 1]), max, requests[|requests| - 1]);
    }
  }

  /** A request grew the ledger: what it added, and in whose name. */
  predicate Appends(s: ApiState, s': ApiState, rev: Revision) {
    s'.core.ledger == s.core.ledger + [rev]
  }

  /** Whatever request adds an optimizer revision, the bundle lies inside the envelope assigned at that moment. */
  lemma OptimizerStaysInEnvelope(s: ApiState, max: nat, r: Request, rev: Revision)
    requires Appends(s, Serve(s, max, r), rev) && rev.source.Optimizer?
    ensures ActiveBounds(s).Some? ==> InEnvelope(rev.setpoints, ActiveBounds(s).value)
    ensures ValidBundle(rev.setpoints)
  {
    hide ApplyState, PassState, ValidBundle, InEnvelope, ValidProfile, AcceptsProfilePatch, AssignedStage, Candidate,
        ActiveBounds;
    var ledger := s.core.ledger;
    assert (ledger + [rev])[|ledger|] == rev && |ledger + [rev]| == |ledger| + 1;
    match r
    case SetAssignment(profileId, stage, call) =>
      var found := AssignedStage(s.profiles, profileId, stage);
      if found.Some? {
        ReconcilerRuns.ApplyAppends(s.core, found.value.targets, Profile, call);
      }
    case WriteSetpoints(source, edit, read, call) =>
      var candidate := Candidate(s, source, edit, call.registered, read);
      if candidate.Some? {
        ReconcilerRuns.ApplyAppends(s.core, candidate.value, source, call);
        CandidateValid(s, source, edit, call.registered, read);
      }
    case Pass(call) => ReconcilerRuns.PassKeepsLedger(s.core, max, call);
    case _ =>
  }

  // ---- what an edit puts in the ledger ----

  /** What an edit starts from: the newest revision, or with none what the controller reports, if it can be read. */
  predicate StartsFrom(s: ApiState, registered: bool, read: seq<Reply>, base: Setpoints) {
    if s.core.ledger != [] then base == ReconcilerRuns.Newest(s.core).setpoints
    else registered && Readable(read) && base == Rest.Reported(s.core.ctl)
  }

  /** The bundle a write request asks for and the platform lets through. */
  predicate Asked(s: ApiState, source: Source, edit: SetpointsPatch, read: seq<Reply>, call: Call, base: Setpoints,
                  b: Setpoints)
  {
    && call.registered && edit != EMPTY_PATCH
    && StartsFrom(s, call.registered, read, base) && IsEdit(base, edit, b)
    && ValidBundle(b)
    && (source.Optimizer? && ActiveBounds(s).Some? ==> InEnvelope(b, ActiveBounds(s).value))
  }

  lemma CandidateIsAsked(s: ApiState, source: Source, edit: SetpointsPatch, read: seq<Reply>, call: Call,
                         base: Setpoints, b: Setpoints)
    ensures Asked(s, source, edit, read, call, base, b) ==>
              Candidate(s, source, edit, call.registered, read) == Some(b)
    ensures Candidate(s, source, edit, call.registered, read) == Some(b)
            && StartsFrom(s, call.registered, read, base) ==>
              Asked(s, source, edit, read, call, base, b)
  {
    hide ValidateSetpointsPatch, ValidateSetpoints, ValidateSetpointsWithinBounds, ValidBundle, InEnvelope,
         ActiveBounds, IsEdit, Patched, Rest.Reported;
    PatchedIsEdit(base, edit, b);
    ValidateSetpointsExact(b);
    if ActiveBounds(s).Some? {
      WithinBoundsExact(b, ActiveBounds(s).value);
    }
    if IsEdit(base, edit, b) && ValidBundle(b) {
      PrecheckSound(base, edit);
    }
  }

  /**
   A write request that asks for a bundle the platform lets through hands exactly that bundle to the reconciler; a
   request that asks for none changes nothing.
   */
  lemma WriteExactly(s: ApiState, max: nat, source: Source, edit: SetpointsPatch, read: seq<Reply>, call: Call)
    ensures forall base, b :: Asked(s, source, edit, read, call, base, b) ==>
              Serve(s, max, WriteSetpoints(source, edit, read, call)) == s.(core := ApplyState(s.core, b, source, call))
    ensures (forall base, b :: !Asked(s, source, edit, read, call, base, b)) ==>
              Serve(s, max, WriteSetpoints(source, edit, read, call)) == s
  {
    hide Asked, Candidate, ApplyState, Rest.Reported;
    forall base, b
      ensures Asked(s, source, edit, read, call, base, b) ==>
          Candidate(s, source, edit, call.registered, read) == Some(b)
    {
      CandidateIsAsked(s, source, edit, read, call, base, b);
    }
    var c := Candidate(s, source, edit, call.registered, read);
    if c.Some? {
      var base := CandidateHasBase(s, source, edit, call.registered, read);
      CandidateIsAsked(s, source, edit, read, call, base, c.value);
    }
  }

  lemma CandidateHasBase(s: ApiState, source: Source, edit: SetpointsPatch, registered: bool, read: seq<Reply>)
      returns (base: Setpoints)
    requires Candidate(s, source, edit, registered, read).Some?
    ensures StartsFrom(s, registered, read, base)
  {
    hide ValidateSetpointsPatch, ValidateSetpoints, ValidateSetpointsWithinBounds, Patched, ActiveBounds, Rest.Reported;
    base := Baseline(s.core, registered, read).value;
  }

  /**
   Field by field, the revision a write request appends is the edit where the edit carries the field, and the newest
   revision elsewhere, or without one what the controller reports; with no zones in the edit the zones are as they were.
   */
  lemma RevisionIsTheEdit(s: ApiState, max: nat, source: Source, edit: SetpointsPatch, read: seq<Reply>, call: Call,
                          rev: Revision)
    requires Appends(s, Serve(s, max, WriteSetpoints(source, edit, read, call)), rev)
    ensures rev.source == source && (s.core.ledger == [] ==> Readable(read))
    ensures var base := if s.core.ledger != [] then ReconcilerRuns.Newest(s.core).setpoints
                        else Rest.Reported(s.core.ctl);
            NumbersEdited(base, edit, rev.setpoints) && (edit.zones.None? ==> rev.setpoints.zones == base.zones) &&
            (edit.zones.Some? ==> ZonesEdited(base.zones, edit.zones.value, rev.setpoints.zones))
  {
    hide ApplyState, Candidate, NumbersEdited, ZonesEdited, ZonesEditable, ValidBundle, InEnvelope, ActiveBounds,
         Rest.Reported;
    var ledger := s.core.ledger;
    assert (ledger + [rev])[|ledger|] == rev && |ledger + [rev]| == |ledger| + 1;
    var candidate := Candidate(s, source, edit, call.registered, read);
    assert candidate.Some?;
    ReconcilerRuns.ApplyAppends(s.core, candidate.value, source, call);
    var base := CandidateHasBase(s, source, edit, call.registered, read);
    CandidateIsAsked(s, source, edit, read, call, base, candidate.value);
  }

  /** A profile edit changes the fields it carries, in that profile, and nothing else. */
  lemma ProfileEdited(s: ApiState, max: nat, id: string, p: ProfilePatch)
    ensures var s' := Serve(s, max, UpdateProfile(id, p));
            && s' == s.(profiles := s'.profiles)
            && (id !in s.profiles || !AcceptsProfilePatch(p) ==> s' == s)
            && (id in s.profiles && AcceptsProfilePatch(p) ==>
                  && s'.profiles.Keys == s.profiles.Keys
                  && (forall k :: k in s.profiles && k != id ==> s'.profiles[k] == s.profiles[k])
                  && var was, now := s.profiles[id], s'.profiles[id];
                     && now.id == was.id && Takes(p.name, was.name, now.name) && Takes(p.crop, was.crop, now.crop)
                     && Takes(p.stages, was.stages, now.stages))
  {
    hide AcceptsProfilePatch;
  }

  /** The envelope in force is that of the assigned stage: the first of its name in the assigned profile. */
  lemma ActiveBoundsExactly(s: ApiState, k: nat)
    ensures s.assignment.None? || s.assignment.value.profileId !in s.profiles ==> ActiveBounds(s).None?
    ensures s.assignment.Some? && s.assignment.value.profileId in s.profiles ==>
              var stages := s.profiles[s.assignment.value.profileId].stages;
              && (k < |stages| && stages[k].stage == s.assignment.value.stage
                  && (forall j :: 0 <= j < k ==> stages[j].stage != s.assignment.value.stage) ==>
                    ActiveBounds(s) == stages[k].bounds)
              && ((forall j :: 0 <= j < |stages| ==> stages[j].stage != s.assignment.value.stage) ==>
                    ActiveBounds(s).None?)
  {
    if s.assignment.Some? && s.assignment.value.profileId in s.profiles {
      var stages, name := s.profiles[s.assignment.value.profileId].stages, s.assignment.value.stage;
      if k < |stages| && stages[k].stage == name && forall j :: 0 <= j < k ==> stages[j].stage != name {
        FirstStage(stages, name, k);
      }
    }
  }

  lemma {:induction false} FirstStage(stages: seq<ProfileStage>, name: string, k: nat)
    requires k < |stages| && stages[k].stage == name && forall j :: 0 <= j < k ==> stages[j].stage != name
    ensures StageIn(stages, name) == Some(stages[k])
  {
    if k > 0 {
      FirstStage(stages[1..], name, k - 1);
    }
  }

  /** Assigning the k-th stage, the first of its name, stores the assignment and applies that stage's targets. */
  lemma AssignsExactly(s: ApiState, max: nat, profileId: string, k: nat, call: Call)
    requires call.registered && IsSlug(profileId) && profileId in s.profiles && k < |s.profiles[profileId].stages|
    requires !Blank(s.profiles[profileId].stages[k].stage)
    requires var stages := s.profiles[profileId].stages; forall j :: 0 <= j < k ==> stages[j].stage != stages[k].stage
    ensures var stage := s.profiles[profileId].stages[k];
            var s' := Serve(s, max, SetAssignment(profileId, stage.stage, call));
            && s' == s.(assignment := Some(Assignment(profileId, stage.stage)), core := s'.core)
            && s'.core == ApplyState(s.core, stage.targets, Profile, call)
            && ActiveBounds(s') == stage.bounds
  {
    hide ApplyState, IsSlug, Blank;
    FirstStage(s.profiles[profileId].stages, s.profiles[profileId].stages[k].stage, k);
  }

  lemma {:induction false} NoSuchStage(stages: seq<ProfileStage>, name: string)
    requires forall j :: 0 <= j < |stages| ==> stages[j].stage != name
    ensures StageIn(stages, name).None?
  {
    if stages != [] {
      NoSuchStage(stages[1..], name);
    }
  }

  /** With no such greenhouse, profile or stage an assignment changes nothing. */
  lemma UnknownAssignment(s: ApiState, max: nat, profileId: string, name: string, call: Call)
    requires call.registered && profileId in s.profiles ==>
               forall j :: 0 <= j < |s.profiles[profileId].stages| ==> s.profiles[profileId].stages[j].stage != name
    ensures Serve(s, max, SetAssignment(profileId, name, call)) == s
  {
    if profileId in s.profiles && call.registered {
      NoSuchStage(s.profiles[profileId].stages, name);
    }
  }

  /** An assignment records its stage's own targets, which pass that stage's gate for the optimizer. */
  lemma AssignmentRecordsItsStage(ctl: Rest.LiveController, max: nat, past: seq<Request>,
                                  profileId: string, stage: string, call: Call, rev: Revision)
    requires var s := ServeAll(Empty(ctl), max, past);
             Appends(s, Serve(s, max, SetAssignment(profileId, stage, call)), rev)
    ensures var s := ServeAll(Empty(ctl), max, past);
            var s' := Serve(s, max, SetAssignment(profileId, stage, call));
            && rev.source.Profile?
            && s'.assignment == Some(Assignment(profileId, stage))
            && profileId in s.profiles && s.profiles[profileId].Stage(stage).Some?
            && rev.setpoints == s.profiles[profileId].Stage(stage).value.targets
            && (ActiveBounds(s').Some? ==> InEnvelope(rev.setpoints, ActiveBounds(s').value))
  {
    hide ApplyState, ServeAll, ValidProfile, ValidLedger, InEnvelope, IsSlug, Blank, ValidateStageBounds,
      ValidateSetpointsWithinBounds, ValidBundle;
    var s := ServeAll(Empty(ctl), max, past);
    LedgerAlwaysValid(ctl, max, past);
    assert |s.core.ledger + [rev]| == |s.core.ledger| + 1 && (s.core.ledger + [rev])[|s.core.ledger|] == rev;
    var found := AssignedStage(s.profiles, profileId, stage);
    assert found.Some?;
    ReconcilerRuns.ApplyAppends(s.core, found.value.targets, Profile, call);
    StageIsSound(s.profiles[profileId], found.value);
    if found.value.bounds.Some? {
      StageAdmitsItsTargets(found.value.targets, found.value.bounds.value);
      WithinBoundsExact(found.value.targets, found.value.bounds.value);
    }
  }

  /**
   End to end: after any run of requests, passes, failures and aborts, a greenhouse with intended state is
   settled by undisturbed passes exactly when it can settle.
   */
  lemma EveryRunConverges(ctl: Rest.LiveController, max: nat, past: seq<Request>, times: seq<int>)
    requires ServeAll(Empty(ctl), max, past).core.ledger != []
    ensures var s := ServeAll(Empty(ctl), max, past).core;
            var s' := Convergence.CalmPasses(s, max, times);
            && s'.ledger == s.ledger
            && (|times| >= 2 ==> (Convergence.Settled(s') <==> Convergence.CanSettle(s, max)))
            && (Convergence.CanSettle(s, max) && |times| >= 3 ==> s' == Convergence.CalmPasses(s, max, times[..2]))
  {
    hide ServeAll, ValidBundle, Convergence.CalmPasses, Convergence.Settled, Convergence.CanSettle;
    LedgerAlwaysValid(ctl, max, past);
    Convergence.ConvergesExactly(ServeAll(Empty(ctl), max, past).core, max, times);
  }

  /** The ordinary case: distinct zones, all of them on the controller, and a retry left. */
  lemma OrdinaryGreenhouseSettles(ctl: Rest.LiveController, max: nat, past: seq<Request>, first: int, second: int)
    requires var s := ServeAll(Empty(ctl), max, past).core;
             && s.ledger != []
             && DistinctZones(ReconcilerRuns.Newest(s).setpoints.zones)
             && Convergence.HasZones(s.ctl, ReconcilerRuns.Newest(s).setpoints.zones)
             && ReconcilerRuns.TheRow(s).failCount < max
    ensures var s := ServeAll(Empty(ctl), max, past).core;
            var s' := Convergence.CalmPasses(s, max, [first, second]);
            s'.ledger == s.ledger && Convergence.Settled(s')
  {
    hide ServeAll, Convergence.CalmPasses, Convergence.Settled, Convergence.InStep, Convergence.HasZones,
        Convergence.ConsistentZones;
    var s := ServeAll(Empty(ctl), max, past).core;
    Convergence.DistinctIsConsistent(ReconcilerRuns.Newest(s).setpoints.zones);
    EveryRunConverges(ctl, max, past, [first, second]);
  }
}
