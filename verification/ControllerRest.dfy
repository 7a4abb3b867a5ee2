/** The controller's runtime configuration and its two PATCH handlers. */
module ControllerRest {
  import opened Text
  import opened Times
  import Domain
  import PlatformValidation

  datatype ClimateSetpoints = ClimateSetpoints(
    temperatureDay: real,
    temperatureNight: real,
    dayStart: TimeOfDay,
    dayEnd: TimeOfDay,
    humidityLow: real,
    humidityHigh: real,
    humidityDeadband: real,
    co2Target: int,
    co2VentInterlock: real,
    vpdTarget: real,
    dliTarget: real,
    expectedPeakPar: real)

  datatype Zone = Zone(id: string, moistureLow: real, moistureHigh: real, drainPeriodSecs: int,
                       schedule: seq<TimeOfDay>)

  datatype Controller = Controller(setpoints: ClimateSetpoints, zones: seq<Zone>) {
    /** What loading the configuration file guarantees and every accepted write keeps. */
    predicate Valid() {
      && setpoints.dayStart.Valid() && setpoints.dayEnd.Valid()
      && SetpointsInBounds(setpoints)
      && (forall i :: 0 <= i < |zones| ==> ValidZone(zones[i]))
      && (forall i, j :: 0 <= i < j < |zones| ==> zones[i].id != zones[j].id)
    }
  }

  const SAMPLE := Controller(
    ClimateSetpoints(24.0, 18.0, TimeOfDay(6, 0), TimeOfDay(20, 0), 65.0, 75.0, 5.0, 1000, 15.0, 1.0, 20.0, 0.0), [])

  type LiveController = c: Controller | c.Valid() witness SAMPLE

  // ---- request bodies ----

  datatype SetpointsPatch = SetpointsPatch(
    temperatureDay: Option<real>,
    temperatureNight: Option<real>,
    dayStart: Option<string>,
    dayEnd: Option<string>,
    humidityLow: Option<real>,
    humidityHigh: Option<real>,
    humidityDeadband: Option<real>,
    co2Target: Option<int>,
    co2VentInterlock: Option<real>,
    vpdTarget: Option<real>,
    dliTarget: Option<real>,
    expectedPeakPar: Option<real>)

  datatype ZonePatch = ZonePatch(
    moistureLow: Option<real>,
    moistureHigh: Option<real>,
    drainPeriodSecs: Option<int>,
    schedule: Option<string>)

  const EMPTY_SETPOINTS_PATCH := SetpointsPatch(None, None, None, None, None, None, None, None, None, None, None, None)
  const EMPTY_ZONE_PATCH := ZonePatch(None, None, None, None)

  /** The JSON number of an unsigned field must fit its Rust type. */
  predicate FitsU32(v: Option<int>) {
    v.Some? ==> 0 <= v.value < 0x1_0000_0000
  }

  predicate FitsU64(v: Option<int>) {
    v.Some? ==> 0 <= v.value < 0x1_0000_0000_0000_0000
  }

  // ---- validation ----

  predicate SetpointsInBounds(sp: ClimateSetpoints) {
    && -20.0 <= sp.temperatureDay <= 60.0
    && -20.0 <= sp.temperatureNight <= 60.0
    && 0.0 <= sp.humidityLow < sp.humidityHigh <= 100.0
    && 0.0 <= sp.humidityDeadband <= 50.0
    && 0 <= sp.co2Target <= 5000
    && 0.0 <= sp.co2VentInterlock <= 100.0
    && 0.0 <= sp.vpdTarget && 0.0 <= sp.dliTarget && 0.0 <= sp.expectedPeakPar
    && sp.dayStart.Before(sp.dayEnd)
  }

  predicate ZoneInBounds(z: Zone) {
    0.0 <= z.moistureLow < z.moistureHigh <= 1.0
  }

  predicate ValidZone(z: Zone) {
    ZoneInBounds(z) && z.drainPeriodSecs >= 0 && z.schedule != [] && ValidTimes(z.schedule)
  }

  method CheckRange(violations: seq<string>, field: string, value: real, lo: real, hi: real) returns (r: seq<string>)
    ensures r == [] <==> violations == [] && lo <= value <= hi
  {
    r := if value < lo || value > hi then violations + [field] else violations;
  }

  method CheckMin(violations: seq<string>, field: string, value: real, lo: real) returns (r: seq<string>)
    ensures r == [] <==> violations == [] && lo <= value
  {
    r := if value < lo then violations + [field] else violations;
  }

  method ValidateSetpoints(sp: ClimateSetpoints) returns (violations: seq<string>)
    ensures violations == [] <==> SetpointsInBounds(sp)
  {
    violations := [];
    violations := CheckRange(violations, "temperature_day_c", sp.temperatureDay, -20.0, 60.0);
    violations := CheckRange(violations, "temperature_night_c", sp.temperatureNight, -20.0, 60.0);
    violations := CheckRange(violations, "humidity_low_pct", sp.humidityLow, 0.0, 100.0);
    violations := CheckRange(violations, "humidity_high_pct", sp.humidityHigh, 0.0, 100.0);
    violations := CheckRange(violations, "humidity_deadband_pct", sp.humidityDeadband, 0.0, 50.0);
    if sp.co2Target < 0 || sp.co2Target > 5000 {
      violations := violations + ["co2_target_ppm"];
    }
    violations := CheckRange(violations, "co2_vent_interlock_threshold_pct", sp.co2VentInterlock, 0.0, 100.0);
    violations := CheckMin(violations, "vpd_target_kpa", sp.vpdTarget, 0.0);
    violations := CheckMin(violations, "dli_target_mol", sp.dliTarget, 0.0);
    violations := CheckMin(violations, "expected_peak_par", sp.expectedPeakPar, 0.0);
    if sp.humidityLow >= sp.humidityHigh {
      violations := violations + ["humidity_low_pct"];
    }
    if !sp.dayStart.Before(sp.dayEnd) {
      violations := violations + ["day_start"];
    }
  }

  // ---- PATCH /setpoints ----

  /** The patch laid over the current values, its times already parsed. */
  function Overlay(sp: ClimateSetpoints, p: SetpointsPatch, dayStart: TimeOfDay, dayEnd: TimeOfDay): ClimateSetpoints {
    ClimateSetpoints(
      p.temperatureDay.GetOr(sp.temperatureDay), p.temperatureNight.GetOr(sp.temperatureNight), dayStart, dayEnd,
      p.humidityLow.GetOr(sp.humidityLow), p.humidityHigh.GetOr(sp.humidityHigh),
      p.humidityDeadband.GetOr(sp.humidityDeadband), p.co2Target.GetOr(sp.co2Target),
      p.co2VentInterlock.GetOr(sp.co2VentInterlock), p.vpdTarget.GetOr(sp.vpdTarget),
      p.dliTarget.GetOr(sp.dliTarget), p.expectedPeakPar.GetOr(sp.expectedPeakPar))
  }

  function PatchedTime(current: TimeOfDay, text: Option<string>): Option<TimeOfDay> {
    if text.None? then Some(current) else ParseTime(text.value)
  }

  function Accept(candidate: ClimateSetpoints): Option<ClimateSetpoints> {
    if SetpointsInBounds(candidate) then Some(candidate) else None
  }

  function PatchedSetpoints(sp: ClimateSetpoints, p: SetpointsPatch): Option<ClimateSetpoints> {
    var dayStart, dayEnd := PatchedTime(sp.dayStart, p.dayStart), PatchedTime(sp.dayEnd, p.dayEnd);
    if dayStart.None? || dayEnd.None? then None else Accept(Overlay(sp, p, dayStart.value, dayEnd.value))
  }

  method ApplyTime(current: TimeOfDay, text: Option<string>) returns (r: Option<TimeOfDay>)
    ensures r == PatchedTime(current, text)
  {
    r := Some(current);
    if text.Some? {
      r := ParseTime(text.value);
    }
  }

  method ApplySetpointsPatch(current: ClimateSetpoints, p: SetpointsPatch) returns (r: Option<ClimateSetpoints>)
    ensures r == PatchedSetpoints(current, p)
  {
    var sp := current;
    sp := sp.(temperatureDay := p.temperatureDay.GetOr(sp.temperatureDay));
    sp := sp.(temperatureNight := p.temperatureNight.GetOr(sp.temperatureNight));
    var dayStart := ApplyTime(sp.dayStart, p.dayStart);
    if dayStart.None? { return None; }
    sp := sp.(dayStart := dayStart.value);
    var dayEnd := ApplyTime(sp.dayEnd, p.dayEnd);
    if dayEnd.None? { return None; }
    sp := sp.(dayEnd := dayEnd.value);
    sp := sp.(humidityLow := p.humidityLow.GetOr(sp.humidityLow));
    sp := sp.(humidityHigh := p.humidityHigh.GetOr(sp.humidityHigh));
    sp := sp.(humidityDeadband := p.humidityDeadband.GetOr(sp.humidityDeadband));
    sp := sp.(co2Target := p.co2Target.GetOr(sp.co2Target));
    sp := sp.(co2VentInterlock := p.co2VentInterlock.GetOr(sp.co2VentInterlock));
    sp := sp.(vpdTarget := p.vpdTarget.GetOr(sp.vpdTarget));
    sp := sp.(dliTarget := p.dliTarget.GetOr(sp.dliTarget));
    sp := sp.(expectedPeakPar := p.expectedPeakPar.GetOr(sp.expectedPeakPar));
    assert sp == Overlay(current, p, dayStart.value, dayEnd.value);
    var violations := ValidateSetpoints(sp);
    r := if violations == [] then Some(sp) else None;
  }

  // ---- PATCH /zones/{zone_id} ----

  /** Index of the first zone with the id, or `|zones|`. */
  function ZoneIndex(zones: seq<Zone>, id: string): (i: nat)
    ensures i <= |zones|
    ensures i < |zones| ==> zones[i].id == id
    ensures forall j :: 0 <= j < i ==> zones[j].id != id
  {
    if zones == [] || zones[0].id == id then 0 else 1 + ZoneIndex(zones[1..], id)
  }

  function OverlayZone(z: Zone, p: ZonePatch, schedule: seq<TimeOfDay>): Zone {
    Zone(z.id, p.moistureLow.GetOr(z.moistureLow), p.moistureHigh.GetOr(z.moistureHigh),
         p.drainPeriodSecs.GetOr(z.drainPeriodSecs), schedule)
  }

  function AcceptZone(candidate: Zone): Option<Zone> {
    if ZoneInBounds(candidate) then Some(candidate) else None
  }

  function PatchedZone(z: Zone, p: ZonePatch): Option<Zone> {
    var schedule := if p.schedule.None? then Some(z.schedule) else ParseSchedule(p.schedule.value);
    if schedule.None? then None else AcceptZone(OverlayZone(z, p, schedule.value))
  }

  const OK := 200
  const NOT_FOUND := 404
  const UNPROCESSABLE := 422

  function HandleSetpoints(c: Controller, p: SetpointsPatch): (Controller, int) {
    var candidate := PatchedSetpoints(c.setpoints, p);
    if !FitsU32(p.co2Target) || p == EMPTY_SETPOINTS_PATCH || candidate.None? then (c, UNPROCESSABLE)
    else (c.(setpoints := candidate.value), OK)
  }

  function HandleZone(c: Controller, id: string, p: ZonePatch): (Controller, int) {
    var i := ZoneIndex(c.zones, id);
    if !FitsU64(p.drainPeriodSecs) || p == EMPTY_ZONE_PATCH then (c, UNPROCESSABLE)
    else if i == |c.zones| then (c, NOT_FOUND)
    else
      var candidate := PatchedZone(c.zones[i], p);
      if candidate.None? then (c, UNPROCESSABLE)
      else (c.(zones := c.zones[i := candidate.value]), OK)
  }

  lemma {:induction false} ParsedTimesValid(parts: seq<string>)
    requires ParseTimes(parts).Some?
    ensures |ParseTimes(parts).value| == |parts| && ValidTimes(ParseTimes(parts).value)
  {
    if parts != [] {
      ParsedTimesValid(parts[1..]);
    }
  }

  lemma SetpointsWriteKeepsValid(c: Controller, p: SetpointsPatch)
    requires c.Valid()
    ensures HandleSetpoints(c, p).0.Valid()
  {
  }

  lemma ZoneWriteKeepsValid(c: Controller, id: string, p: ZonePatch)
    requires c.Valid()
    ensures HandleZone(c, id, p).0.Valid()
  {
    var i := ZoneIndex(c.zones, id);
    if i < |c.zones| && PatchedZone(c.zones[i], p).Some? && FitsU64(p.drainPeriodSecs) {
      if p.schedule.Some? {
        ParsedTimesValid(Split(p.schedule.value, ','));
      }
      assert ValidZone(PatchedZone(c.zones[i], p).value);
    }
  }

  // ---- what the platform sends and reads back (delivery.go) ----

  function GlobalBody(s: Domain.Setpoints): SetpointsPatch {
    SetpointsPatch(Some(s.temperatureDay), Some(s.temperatureNight), Some(s.dayStart), Some(s.dayEnd),
                   Some(s.humidityLow), Some(s.humidityHigh), Some(s.humidityDeadband), Some(s.co2Target),
                   Some(s.co2VentInterlock), Some(s.vpdTarget), Some(s.dliTarget), None)
  }

  function ZoneBody(z: Domain.ZoneTargets): ZonePatch {
    ZonePatch(Some(z.moistureLow), Some(z.moistureHigh), Some(z.drainPeriodSecs), Some(z.schedule))
  }

  function TargetsOf(z: Zone): Domain.ZoneTargets
    requires ValidZone(z)
  {
    Domain.ZoneTargets(z.id, z.moistureLow, z.moistureHigh, z.drainPeriodSecs, PrintSchedule(z.schedule))
  }

  function Reported(c: Controller): Domain.Setpoints
    requires c.Valid()
  {
    var s := c.setpoints;
    Domain.Setpoints(s.temperatureDay, s.temperatureNight, PrintTime(s.dayStart), PrintTime(s.dayEnd),
                     s.humidityLow, s.humidityHigh, s.humidityDeadband, s.co2Target, s.co2VentInterlock,
                     s.vpdTarget, s.dliTarget,
                     seq(|c.zones|, i requires 0 <= i < |c.zones| => TargetsOf(c.zones[i])))
  }

  // ---- platform-valid implies controller-accepted ----

  lemma AdmittedTimesParse(s: Domain.Setpoints) returns (start: TimeOfDay, end: TimeOfDay)
    requires PlatformValidation.ValidBundle(s)
    ensures start.Valid() && end.Valid() && start.Before(end)
    ensures ParseTime(s.dayStart) == Some(start) && PrintTime(start) == s.dayStart
    ensures ParseTime(s.dayEnd) == Some(end) && PrintTime(end) == s.dayEnd
  {
    HhmmAgreement(s.dayStart);
    HhmmAgreement(s.dayEnd);
    start, end := ParseTime(s.dayStart).value, ParseTime(s.dayEnd).value;
    OrderIsMinutes(start, end);
  }

  lemma OverlayAccepted(c: Controller, s: Domain.Setpoints, start: TimeOfDay, end: TimeOfDay)
    requires c.Valid() && PlatformValidation.ValidNumbers(s) && start.Valid() && end.Valid() && start.Before(end)
    ensures var sp := Overlay(c.setpoints, GlobalBody(s), start, end);
            && Accept(sp) == Some(sp)
            && c.(setpoints := sp).Valid()
            && sp.expectedPeakPar == c.setpoints.expectedPeakPar
            && Reported(c.(setpoints := sp)).(zones := s.zones) ==
                s.(dayStart := PrintTime(start), dayEnd := PrintTime(end))
  {
  }

  lemma GlobalHandled(c: Controller, s: Domain.Setpoints, start: TimeOfDay, end: TimeOfDay)
    requires c.Valid() && PlatformValidation.ValidNumbers(s) && start.Valid() && end.Valid() && start.Before(end)
    requires ParseTime(s.dayStart) == Some(start) && ParseTime(s.dayEnd) == Some(end)
    ensures HandleSetpoints(c, GlobalBody(s)) == (c.(setpoints := Overlay(c.setpoints, GlobalBody(s), start, end)), OK)
  {
    OverlayAccepted(c, s, start, end);
  }

  /**
   A bundle the platform admits is accepted whole by PATCH /setpoints and read back unchanged; the one field it
   lacks stays.
   */
  lemma GlobalAccepted(c: Controller, s: Domain.Setpoints) returns (c': Controller)
    requires c.Valid() && PlatformValidation.ValidBundle(s)
    ensures HandleSetpoints(c, GlobalBody(s)) == (c', OK)
    ensures c'.Valid() && c'.zones == c.zones && c'.setpoints.expectedPeakPar == c.setpoints.expectedPeakPar
    ensures Reported(c').(zones := s.zones) == s
  {
    var start, end := AdmittedTimesParse(s);
    GlobalHandled(c, s, start, end);
    OverlayAccepted(c, s, start, end);
    c' := c.(setpoints := Overlay(c.setpoints, GlobalBody(s), start, end));
  }

  lemma ZoneOverlayAccepted(z: Zone, t: Domain.ZoneTargets, schedule: seq<TimeOfDay>)
    requires ValidZone(z) && 0.0 <= t.moistureLow < t.moistureHigh <= 1.0 && t.drainPeriodSecs >= 0
    requires schedule != [] && ValidTimes(schedule) && PrintSchedule(schedule) == t.schedule && z.id == t.zoneId
    ensures var z' := OverlayZone(z, ZoneBody(t), schedule);
            AcceptZone(z') == Some(z') && ValidZone(z') && TargetsOf(z') == t
  {
  }

  lemma ZoneHandled(c: Controller, z: Domain.ZoneTargets, schedule: seq<TimeOfDay>)
    requires c.Valid() && 0.0 <= z.moistureLow < z.moistureHigh <= 1.0 && 0 <= z.drainPeriodSecs <= 0x8000_0000
    requires ParseSchedule(z.schedule) == Some(schedule)
    requires schedule != [] && ValidTimes(schedule) && PrintSchedule(schedule) == z.schedule
    ensures var i := ZoneIndex(c.zones, z.zoneId);
            HandleZone(c, z.zoneId, ZoneBody(z)) ==
            if i == |c.zones| then (c, NOT_FOUND)
            else (c.(zones := c.zones[i := OverlayZone(c.zones[i], ZoneBody(z), schedule)]), OK)
  {
    var i := ZoneIndex(c.zones, z.zoneId);
    if i < |c.zones| {
      ZoneOverlayAccepted(c.zones[i], z, schedule);
    }
  }

  /** A zone the platform admits is accepted exactly when the controller has that zone. */
  lemma ZoneAccepted(c: Controller, z: Domain.ZoneTargets) returns (c': Controller, status: int)
    requires c.Valid() && PlatformValidation.ValidZone(z)
    ensures HandleZone(c, z.zoneId, ZoneBody(z)) == (c', status)
    ensures var i := ZoneIndex(c.zones, z.zoneId);
            && (status == OK <==> i < |c.zones|)
            && (i == |c.zones| ==> c' == c && status == NOT_FOUND)
            && (i < |c.zones| ==>
                  c'.Valid() && c'.setpoints == c.setpoints && |c'.zones| == |c.zones|
                  && TargetsOf(c'.zones[i]) == z
                  && forall j :: 0 <= j < |c.zones| && j != i ==> c'.zones[j] == c.zones[j])
  {
    ScheduleAgreement(z.schedule);
    var schedule := ParseSchedule(z.schedule).value;
    var i := ZoneIndex(c.zones, z.zoneId);
    ZoneHandled(c, z, schedule);
    c', status := c, NOT_FOUND;
    if i < |c.zones| {
      ZoneOverlayAccepted(c.zones[i], z, schedule);
      c', status := c.(zones := c.zones[i := OverlayZone(c.zones[i], ZoneBody(z), schedule)]), OK;
    }
  }

  // ---- what a PATCH means, field by field ----

  predicate TimeTaken(carried: Option<string>, was: TimeOfDay, now: TimeOfDay) {
    match carried
    case None => now == was
    case Some(text) => ParseTime(text) == Some(now)
  }

  /** Every field carried is taken, every other one stays. */
  predicate SetpointsTaken(sp: ClimateSetpoints, p: SetpointsPatch, r: ClimateSetpoints) {
    && Takes(p.temperatureDay, sp.temperatureDay, r.temperatureDay)
    && Takes(p.temperatureNight, sp.temperatureNight, r.temperatureNight)
    && TimeTaken(p.dayStart, sp.dayStart, r.dayStart) && TimeTaken(p.dayEnd, sp.dayEnd, r.dayEnd)
    && Takes(p.humidityLow, sp.humidityLow, r.humidityLow) && Takes(p.humidityHigh, sp.humidityHigh, r.humidityHigh)
    && Takes(p.humidityDeadband, sp.humidityDeadband, r.humidityDeadband)
    && Takes(p.co2Target, sp.co2Target, r.co2Target)
    && Takes(p.co2VentInterlock, sp.co2VentInterlock, r.co2VentInterlock)
    && Takes(p.vpdTarget, sp.vpdTarget, r.vpdTarget) && Takes(p.dliTarget, sp.dliTarget, r.dliTarget)
    && Takes(p.expectedPeakPar, sp.expectedPeakPar, r.expectedPeakPar)
  }

  /** The reported form of a candidate, its times aside. */
  function Numbers(sp: ClimateSetpoints): Domain.Setpoints {
    Domain.Setpoints(sp.temperatureDay, sp.temperatureNight, "", "", sp.humidityLow, sp.humidityHigh,
                     sp.humidityDeadband, sp.co2Target, sp.co2VentInterlock, sp.vpdTarget, sp.dliTarget, [])
  }

  /**
   PATCH /setpoints, exactly: accepted when it carries something, its times parse, and the result is what the platform
   too would admit; then it holds the result, and otherwise nothing changes.
   */
  lemma SetpointsPatchExactly(c: Controller, p: SetpointsPatch, r: ClimateSetpoints)
    requires SetpointsTaken(c.setpoints, p, r)
    ensures HandleSetpoints(c, p) ==
            if p != EMPTY_SETPOINTS_PATCH && FitsU32(p.co2Target) && PlatformValidation.ValidNumbers(Numbers(r))
               && r.expectedPeakPar >= 0.0 && r.dayStart.Before(r.dayEnd)
            then (c.(setpoints := r), OK) else (c, UNPROCESSABLE)
  {
    hide ParseTime;
    assert PatchedTime(c.setpoints.dayStart, p.dayStart) == Some(r.dayStart);
    assert PatchedTime(c.setpoints.dayEnd, p.dayEnd) == Some(r.dayEnd);
    assert Overlay(c.setpoints, p, r.dayStart, r.dayEnd) == r;
  }

  lemma ReadableTimesTaken(sp: ClimateSetpoints, p: SetpointsPatch)
    ensures var dayStart, dayEnd := PatchedTime(sp.dayStart, p.dayStart), PatchedTime(sp.dayEnd, p.dayEnd);
            dayStart.Some? && dayEnd.Some? ==> SetpointsTaken(sp, p, Overlay(sp, p, dayStart.value, dayEnd.value))
  {
    hide ParseTime;
  }

  /** With a time that does not parse there is no such result, and the PATCH is refused. */
  lemma UnreadableTimeRefused(c: Controller, p: SetpointsPatch)
    requires forall r :: !SetpointsTaken(c.setpoints, p, r)
    ensures HandleSetpoints(c, p) == (c, UNPROCESSABLE)
  {
    hide SetpointsTaken;
    ReadableTimesTaken(c.setpoints, p);
  }

  predicate ZoneTaken(z: Zone, p: ZonePatch, r: Zone) {
    && r.id == z.id
    && Takes(p.moistureLow, z.moistureLow, r.moistureLow) && Takes(p.moistureHigh, z.moistureHigh, r.moistureHigh)
    && Takes(p.drainPeriodSecs, z.drainPeriodSecs, r.drainPeriodSecs)
    && match p.schedule
       case None => r.schedule == z.schedule
       case Some(text) => ParseSchedule(text) == Some(r.schedule)
  }

  /** PATCH /zones/{zone_id}, exactly, for a zone the controller has and a schedule that parses. */
  lemma ZonePatchExactly(c: Controller, i: nat, p: ZonePatch, r: Zone)
    requires c.Valid() && i < |c.zones| && ZoneTaken(c.zones[i], p, r)
    ensures HandleZone(c, c.zones[i].id, p) ==
            if p != EMPTY_ZONE_PATCH && FitsU64(p.drainPeriodSecs) && 0.0 <= r.moistureLow < r.moistureHigh <= 1.0
            then (c.(zones := c.zones[i := r]), OK) else (c, UNPROCESSABLE)
  {
    hide ParseSchedule, SetpointsInBounds, ValidZone;
    assert ZoneIndex(c.zones, c.zones[i].id) == i;
    assert r == OverlayZone(c.zones[i], p, r.schedule);
  }
}
