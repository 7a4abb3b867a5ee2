/**
 The platform's checks on setpoint bundles, growth-stage envelopes and profiles. A validator returns
 the name of the first offending field, or None.
 */
module PlatformValidation {
  import opened Slugs
  import opened Text
  import opened Domain
  import Times

  type Fault = Option<string>

  const PHYS_TEMP_MIN_C := -20.0
  const PHYS_TEMP_MAX_C := 60.0
  const PHYS_PCT_MIN := 0.0
  const PHYS_PCT_MAX := 100.0
  const PHYS_DEADBAND_MAX_PCT := 50.0
  const PHYS_CO2_MIN_PPM := 0
  const PHYS_CO2_MAX_PPM := 5000
  const PHYS_DRAIN_MAX_SECS := 0x8000_0000

  function Range(field: string, value: real, lo: real, hi: real): Fault {
    if value < lo || value > hi then Some(field) else None
  }

  function RangeInt(field: string, value: int, lo: int, hi: int): Fault {
    if value < lo || value > hi then Some(field) else None
  }

  function Check(field: string, ok: bool): Fault {
    if ok then None else Some(field)
  }

  /** The earlier of two checks in order. */
  function Then(first: Fault, rest: Fault): Fault {
    if first.Some? then first else rest
  }

  /** What `strings.TrimSpace` removes. */
  predicate IsSpace(c: char) {
    || c in " \t\n\r\U{0B}\U{0C}\U{85}\U{A0}\U{1680}\U{2028}\U{2029}\U{202F}\U{205F}\U{3000}"
    || '\U{2000}' <= c <= '\U{200A}'
  }

  predicate Blank(s: string) {
    forall i :: 0 <= i < |s| ==> IsSpace(s[i])
  }

  // ---- setpoint bundles ----

  function ValidateZoneTargets(z: ZoneTargets): Fault {
    Then(Check("zone_id", IsSlug(z.zoneId)),
    Then(Range("moisture_low_threshold", z.moistureLow, 0.0, 1.0),
    Then(Range("moisture_high_threshold", z.moistureHigh, 0.0, 1.0),
    Then(Check("moisture_low_threshold", z.moistureLow < z.moistureHigh),
    Then(RangeInt("drain_period_secs", z.drainPeriodSecs, 0, PHYS_DRAIN_MAX_SECS),
         Check("schedule", Times.IsSchedule(z.schedule)))))))
  }

  function ValidateZones(zones: seq<ZoneTargets>): (r: Fault)
    ensures r.None? <==> forall i :: 0 <= i < |zones| ==> ValidateZoneTargets(zones[i]).None?
  {
    if zones == [] then None
    else if ValidateZoneTargets(zones[0]).Some? then ValidateZoneTargets(zones[0])
    else ValidateZones(zones[1..])
  }

  /** `end <= start` on minutes, a malformed time counting as minute 0. */
  predicate DayOrdered(s: Setpoints) {
    Times.MinutesOfDay(s.dayStart).GetOr(0) < Times.MinutesOfDay(s.dayEnd).GetOr(0)
  }

  function ValidateSetpoints(s: Setpoints): Fault {
    Then(Range("temperature_day_c", s.temperatureDay, PHYS_TEMP_MIN_C, PHYS_TEMP_MAX_C),
    Then(Range("temperature_night_c", s.temperatureNight, PHYS_TEMP_MIN_C, PHYS_TEMP_MAX_C),
    Then(Range("humidity_low_pct", s.humidityLow, PHYS_PCT_MIN, PHYS_PCT_MAX),
    Then(Range("humidity_high_pct", s.humidityHigh, PHYS_PCT_MIN, PHYS_PCT_MAX),
    Then(Range("humidity_deadband_pct", s.humidityDeadband, PHYS_PCT_MIN, PHYS_DEADBAND_MAX_PCT),
    Then(RangeInt("co2_target_ppm", s.co2Target, PHYS_CO2_MIN_PPM, PHYS_CO2_MAX_PPM),
    Then(Range("co2_vent_interlock_threshold_pct", s.co2VentInterlock, PHYS_PCT_MIN, PHYS_PCT_MAX),
    Then(Check("vpd_target_kpa", s.vpdTarget >= 0.0),
    Then(Check("dli_target_mol", s.dliTarget >= 0.0),
    Then(Check("day_start", Times.IsHhmm(s.dayStart)),
    Then(Check("day_end", Times.IsHhmm(s.dayEnd)),
    Then(Check("day_end", DayOrdered(s)),
    Then(Check("humidity_low_pct", s.humidityLow < s.humidityHigh),
         ValidateZones(s.zones))))))))))))))
  }

  predicate ValidZone(z: ZoneTargets) {
    && IsSlug(z.zoneId)
    && 0.0 <= z.moistureLow < z.moistureHigh <= 1.0
    && 0 <= z.drainPeriodSecs <= PHYS_DRAIN_MAX_SECS
    && Times.IsSchedule(z.schedule)
  }

  predicate ValidNumbers(s: Setpoints) {
    && PHYS_TEMP_MIN_C <= s.temperatureDay <= PHYS_TEMP_MAX_C
    && PHYS_TEMP_MIN_C <= s.temperatureNight <= PHYS_TEMP_MAX_C
    && 0.0 <= s.humidityLow < s.humidityHigh <= 100.0
    && 0.0 <= s.humidityDeadband <= 50.0
    && 0 <= s.co2Target <= 5000
    && 0.0 <= s.co2VentInterlock <= 100.0
    && 0.0 <= s.vpdTarget && 0.0 <= s.dliTarget
  }

  /** The bundles the platform means to admit, said field by field. */
  predicate ValidBundle(s: Setpoints) {
    && ValidNumbers(s)
    && Times.IsHhmm(s.dayStart) && Times.IsHhmm(s.dayEnd) && DayOrdered(s)
    && forall i :: 0 <= i < |s.zones| ==> ValidZone(s.zones[i])
  }

  /** The validator passes exactly the valid bundles. */
  lemma ValidateSetpointsExact(s: Setpoints)
    ensures ValidateSetpoints(s).None? <==> ValidBundle(s)
  {
    assert ValidateZones(s.zones).None? <==> forall i :: 0 <= i < |s.zones| ==> ValidZone(s.zones[i]);
  }

  // ---- crop-safe envelopes ----

  datatype ClimateField = TemperatureDay | TemperatureNight | HumidityLow | HumidityHigh | HumidityDeadband
                        | Co2Target | Co2VentInterlock | VpdTarget | DliTarget

  const CLIMATE_FIELDS := [TemperatureDay, TemperatureNight, HumidityLow, HumidityHigh, HumidityDeadband,
                           Co2Target, Co2VentInterlock, VpdTarget, DliTarget]

  function Name(f: ClimateField): string {
    match f
    case TemperatureDay => "temperature_day_c"
    case TemperatureNight => "temperature_night_c"
    case HumidityLow => "humidity_low_pct"
    case HumidityHigh => "humidity_high_pct"
    case HumidityDeadband => "humidity_deadband_pct"
    case Co2Target => "co2_target_ppm"
    case Co2VentInterlock => "co2_vent_interlock_threshold_pct"
    case VpdTarget => "vpd_target_kpa"
    case DliTarget => "dli_target_mol"
  }

  function Value(f: ClimateField, s: Setpoints): real {
    match f
    case TemperatureDay => s.temperatureDay
    case TemperatureNight => s.temperatureNight
    case HumidityLow => s.humidityLow
    case HumidityHigh => s.humidityHigh
    case HumidityDeadband => s.humidityDeadband
    case Co2Target => s.co2Target as real
    case Co2VentInterlock => s.co2VentInterlock
    case VpdTarget => s.vpdTarget
    case DliTarget => s.dliTarget
  }

  function Envelope(f: ClimateField, b: StageBounds): Option<Bound> {
    match f
    case TemperatureDay => b.temperatureDay
    case TemperatureNight => b.temperatureNight
    case HumidityLow => b.humidityLow
    case HumidityHigh => b.humidityHigh
    case HumidityDeadband => b.humidityDeadband
    case Co2Target => b.co2Target
    case Co2VentInterlock => b.co2VentInterlock
    case VpdTarget => b.vpdTarget
    case DliTarget => b.dliTarget
  }

  function Lowest(f: ClimateField): real {
    if f.TemperatureDay? || f.TemperatureNight? then PHYS_TEMP_MIN_C else 0.0
  }

  /** None marks a target with no physical maximum. */
  function Highest(f: ClimateField): Option<real> {
    match f
    case TemperatureDay | TemperatureNight => Some(PHYS_TEMP_MAX_C)
    case HumidityLow | HumidityHigh | Co2VentInterlock => Some(PHYS_PCT_MAX)
    case HumidityDeadband => Some(PHYS_DEADBAND_MAX_PCT)
    case Co2Target => Some(PHYS_CO2_MAX_PPM as real)
    case VpdTarget | DliTarget => None
  }

  datatype ZoneField = MoistureLow | MoistureHigh | DrainPeriod

  const ZONE_FIELDS := [MoistureLow, MoistureHigh, DrainPeriod]

  function ZoneName(f: ZoneField): string {
    match f
    case MoistureLow => "moisture_low_threshold"
    case MoistureHigh => "moisture_high_threshold"
    case DrainPeriod => "drain_period_secs"
  }

  function ZoneValue(f: ZoneField, z: ZoneTargets): real {
    match f
    case MoistureLow => z.moistureLow
    case MoistureHigh => z.moistureHigh
    case DrainPeriod => z.drainPeriodSecs as real
  }

  function ZoneEnvelope(f: ZoneField, b: ZoneBounds): Option<Bound> {
    match f
    case MoistureLow => b.moistureLow
    case MoistureHigh => b.moistureHigh
    case DrainPeriod => b.drainPeriodSecs
  }

  function ZoneHighest(f: ZoneField): real {
    if f.DrainPeriod? then PHYS_DRAIN_MAX_SECS as real else 1.0
  }

  predicate Inside(v: real, b: Option<Bound>) {
    b.Some? ==> b.value.min <= v <= b.value.max
  }

  function BoundFault(field: string, b: Option<Bound>, lo: real, hi: Option<real>): Fault {
    if b.None? then None
    else if b.value.min > b.value.max || b.value.min < lo || (hi.Some? && b.value.max > hi.value) then Some(field)
    else None
  }

  function ClimateBoundFaults(fields: seq<ClimateField>, targets: Setpoints, b: StageBounds): Fault {
    if fields == [] then None
    else
      var f := fields[0];
      Then(BoundFault(Name(f), Envelope(f, b), Lowest(f), Highest(f)),
      Then(Check(Name(f), Inside(Value(f, targets), Envelope(f, b))),
           ClimateBoundFaults(fields[1..], targets, b)))
  }

  function ZonesInside(f: ZoneField, zones: seq<ZoneTargets>, b: ZoneBounds): (r: bool)
    ensures r <==> forall i :: 0 <= i < |zones| ==> Inside(ZoneValue(f, zones[i]), ZoneEnvelope(f, b))
  {
    zones == [] || (Inside(ZoneValue(f, zones[0]), ZoneEnvelope(f, b)) && ZonesInside(f, zones[1..], b))
  }

  function ZoneBoundFaults(fields: seq<ZoneField>, zones: seq<ZoneTargets>, b: ZoneBounds): Fault {
    if fields == [] then None
    else
      var f := fields[0];
      Then(BoundFault(ZoneName(f), ZoneEnvelope(f, b), 0.0, Some(ZoneHighest(f))),
      Then(Check(ZoneName(f), ZonesInside(f, zones, b)),
           ZoneBoundFaults(fields[1..], zones, b)))
  }

  function ValidateStageBounds(targets: Setpoints, bounds: Option<StageBounds>): Fault {
    if bounds.None? then None
    else
      Then(ClimateBoundFaults(CLIMATE_FIELDS, targets, bounds.value),
           if bounds.value.zones.None? then None
           else ZoneBoundFaults(ZONE_FIELDS, targets.zones, bounds.value.zones.value))
  }

  function ClimateOutside(fields: seq<ClimateField>, s: Setpoints, b: StageBounds): Fault {
    if fields == [] then None
    else Then(Check(Name(fields[0]), Inside(Value(fields[0], s), Envelope(fields[0], b))),
              ClimateOutside(fields[1..], s, b))
  }

  function ZoneOutside(fields: seq<ZoneField>, z: ZoneTargets, b: ZoneBounds): Fault {
    if fields == [] then None
    else
      Then(Check(ZoneName(fields[0]), Inside(ZoneValue(fields[0], z), ZoneEnvelope(fields[0], b))),
           ZoneOutside(fields[1..], z, b))
  }

  function ZonesOutside(zones: seq<ZoneTargets>, b: ZoneBounds): (r: Fault)
    ensures r.None? <==> forall i :: 0 <= i < |zones| ==> ZoneOutside(ZONE_FIELDS, zones[i], b).None?
  {
    if zones == [] then None else Then(ZoneOutside(ZONE_FIELDS, zones[0], b), ZonesOutside(zones[1..], b))
  }

  function ValidateSetpointsWithinBounds(s: Setpoints, b: StageBounds): Fault {
    Then(ClimateOutside(CLIMATE_FIELDS, s, b),
         if b.zones.None? then None else ZonesOutside(s.zones, b.zones.value))
  }

  /** Every target inside its envelope, where it has one. */
  predicate InEnvelope(s: Setpoints, b: StageBounds) {
    && (forall f: ClimateField :: Inside(Value(f, s), Envelope(f, b)))
    && (b.zones.Some? ==>
          forall i, f: ZoneField :: 0 <= i < |s.zones| ==>
              Inside(ZoneValue(f, s.zones[i]), ZoneEnvelope(f, b.zones.value)))
  }

  lemma {:induction false} ClimateOutsideExact(fields: seq<ClimateField>, s: Setpoints, b: StageBounds)
    ensures ClimateOutside(fields, s, b).None? <==> forall f :: f in fields ==> Inside(Value(f, s), Envelope(f, b))
  {
    if fields != [] {
      ClimateOutsideExact(fields[1..], s, b);
      assert forall f :: f in fields <==> f == fields[0] || f in fields[1..];
    }
  }

  lemma {:induction false} ZoneOutsideExact(fields: seq<ZoneField>, z: ZoneTargets, b: ZoneBounds)
    ensures ZoneOutside(fields, z, b).None? <==> forall f :: f in fields ==> Inside(ZoneValue(f, z), ZoneEnvelope(f, b))
  {
    if fields != [] {
      ZoneOutsideExact(fields[1..], z, b);
      assert forall f :: f in fields <==> f == fields[0] || f in fields[1..];
    }
  }

  lemma AllFieldsListed()
    ensures forall f: ClimateField :: f in CLIMATE_FIELDS
    ensures forall f: ZoneField :: f in ZONE_FIELDS
  {
    forall f: ClimateField ensures f in CLIMATE_FIELDS {
      var i := match f
        case TemperatureDay => 0 case TemperatureNight => 1 case HumidityLow => 2 case HumidityHigh => 3
        case HumidityDeadband => 4
        case Co2Target => 5 case Co2VentInterlock => 6 case VpdTarget => 7 case DliTarget => 8;
      assert CLIMATE_FIELDS[i] == f;
    }
    forall f: ZoneField ensures f in ZONE_FIELDS {
      var i := match f case MoistureLow => 0 case MoistureHigh => 1 case DrainPeriod => 2;
      assert ZONE_FIELDS[i] == f;
    }
  }

  /** The optimizer gate passes exactly the bundles inside the envelope. */
  lemma WithinBoundsExact(s: Setpoints, b: StageBounds)
    ensures ValidateSetpointsWithinBounds(s, b).None? <==> InEnvelope(s, b)
  {
    AllFieldsListed();
    ClimateOutsideExact(CLIMATE_FIELDS, s, b);
    if b.zones.Some? {
      forall i | 0 <= i < |s.zones|
        ensures ZoneOutside(ZONE_FIELDS, s.zones[i], b.zones.value).None? <==>
                forall f: ZoneField :: Inside(ZoneValue(f, s.zones[i]), ZoneEnvelope(f, b.zones.value))
      {
        ZoneOutsideExact(ZONE_FIELDS, s.zones[i], b.zones.value);
      }
    }
  }

  /** The limits leave room, and lie within what is physically possible. */
  predicate SaneBound(b: Option<Bound>, lo: real, hi: Option<real>) {
    b.Some? ==> lo <= b.value.min <= b.value.max && (hi.Some? ==> b.value.max <= hi.value)
  }

  predicate SaneBounds(b: StageBounds) {
    && SaneBound(b.temperatureDay, -20.0, Some(60.0)) && SaneBound(b.temperatureNight, -20.0, Some(60.0))
    && SaneBound(b.humidityLow, 0.0, Some(100.0)) && SaneBound(b.humidityHigh, 0.0, Some(100.0))
    && SaneBound(b.humidityDeadband, 0.0, Some(50.0)) && SaneBound(b.co2Target, 0.0, Some(5000.0))
    && SaneBound(b.co2VentInterlock, 0.0, Some(100.0))
    && SaneBound(b.vpdTarget, 0.0, None) && SaneBound(b.dliTarget, 0.0, None)
    && (b.zones.Some? ==>
          var z := b.zones.value;
          && SaneBound(z.moistureLow, 0.0, Some(1.0)) && SaneBound(z.moistureHigh, 0.0, Some(1.0))
          && SaneBound(z.drainPeriodSecs, 0.0, Some(2147483648.0)))
  }

  predicate Keeps(b: Option<Bound>, v: real) {
    b.Some? ==> b.value.min <= v && v <= b.value.max
  }

  /** Being in the envelope, field by field. */
  lemma EnvelopeFieldwise(s: Setpoints, b: StageBounds)
    ensures InEnvelope(s, b) <==>
            && Keeps(b.temperatureDay, s.temperatureDay) && Keeps(b.temperatureNight, s.temperatureNight)
            && Keeps(b.humidityLow, s.humidityLow) && Keeps(b.humidityHigh, s.humidityHigh)
            && Keeps(b.humidityDeadband, s.humidityDeadband) && Keeps(b.co2Target, s.co2Target as real)
            && Keeps(b.co2VentInterlock, s.co2VentInterlock)
            && Keeps(b.vpdTarget, s.vpdTarget) && Keeps(b.dliTarget, s.dliTarget)
            && (b.zones.Some? ==> forall i :: 0 <= i < |s.zones| ==> ZoneKept(s.zones[i], b.zones.value))
  {
    forall f: ClimateField ensures Inside(Value(f, s), Envelope(f, b)) == Keeps(Envelope(f, b), Value(f, s)) {
    }
    assert Inside(Value(TemperatureDay, s), Envelope(TemperatureDay, b)) == Keeps(b.temperatureDay, s.temperatureDay);
    assert Inside(Value(TemperatureNight, s), Envelope(TemperatureNight, b)) ==
        Keeps(b.temperatureNight, s.temperatureNight);
    assert Inside(Value(HumidityLow, s), Envelope(HumidityLow, b)) == Keeps(b.humidityLow, s.humidityLow);
    assert Inside(Value(HumidityHigh, s), Envelope(HumidityHigh, b)) == Keeps(b.humidityHigh, s.humidityHigh);
    assert Inside(Value(HumidityDeadband, s), Envelope(HumidityDeadband, b)) ==
        Keeps(b.humidityDeadband, s.humidityDeadband);
    assert Inside(Value(Co2Target, s), Envelope(Co2Target, b)) == Keeps(b.co2Target, s.co2Target as real);
    assert Inside(Value(Co2VentInterlock, s), Envelope(Co2VentInterlock, b)) ==
        Keeps(b.co2VentInterlock, s.co2VentInterlock);
    assert Inside(Value(VpdTarget, s), Envelope(VpdTarget, b)) == Keeps(b.vpdTarget, s.vpdTarget);
    assert Inside(Value(DliTarget, s), Envelope(DliTarget, b)) == Keeps(b.dliTarget, s.dliTarget);
    if b.zones.Some? {
      forall i | 0 <= i < |s.zones|
        ensures ZoneKept(s.zones[i], b.zones.value) <==>
                forall f: ZoneField :: Inside(ZoneValue(f, s.zones[i]), ZoneEnvelope(f, b.zones.value))
      {
        ZoneFieldwise(s.zones[i], b.zones.value);
      }
    }
  }

  predicate ZoneKept(z: ZoneTargets, b: ZoneBounds) {
    && Keeps(b.moistureLow, z.moistureLow) && Keeps(b.moistureHigh, z.moistureHigh)
    && Keeps(b.drainPeriodSecs, z.drainPeriodSecs as real)
  }

  lemma ZoneFieldwise(z: ZoneTargets, b: ZoneBounds)
    ensures ZoneKept(z, b) <==> forall f: ZoneField :: Inside(ZoneValue(f, z), ZoneEnvelope(f, b))
  {
    assert Inside(ZoneValue(MoistureLow, z), ZoneEnvelope(MoistureLow, b)) == Keeps(b.moistureLow, z.moistureLow);
    assert Inside(ZoneValue(MoistureHigh, z), ZoneEnvelope(MoistureHigh, b)) == Keeps(b.moistureHigh, z.moistureHigh);
    assert Inside(ZoneValue(DrainPeriod, z), ZoneEnvelope(DrainPeriod, b)) ==
        Keeps(b.drainPeriodSecs, z.drainPeriodSecs as real);
  }

  lemma {:induction false} ClimateFaultsExact(fields: seq<ClimateField>, targets: Setpoints, b: StageBounds)
    ensures ClimateBoundFaults(fields, targets, b).None? <==>
            forall f :: f in fields ==>
              BoundFault(Name(f), Envelope(f, b), Lowest(f), Highest(f)).None?
              && Inside(Value(f, targets), Envelope(f, b))
  {
    hide Name, Envelope, Lowest, Highest, BoundFault, Inside, Value;
    if fields != [] {
      ClimateFaultsExact(fields[1..], targets, b);
      assert forall f :: f in fields <==> f == fields[0] || f in fields[1..];
    }
  }

  lemma {:induction false} ZoneFaultsExact(fields: seq<ZoneField>, zones: seq<ZoneTargets>, b: ZoneBounds)
    ensures ZoneBoundFaults(fields, zones, b).None? <==>
            forall f :: f in fields ==>
              BoundFault(ZoneName(f), ZoneEnvelope(f, b), 0.0, Some(ZoneHighest(f))).None? && ZonesInside(f, zones, b)
  {
    hide ZoneName, ZoneEnvelope, ZoneHighest, BoundFault, ZonesInside;
    if fields != [] {
      ZoneFaultsExact(fields[1..], zones, b);
      assert forall f :: f in fields <==> f == fields[0] || f in fields[1..];
    }
  }

  lemma SaneIsFaultless(field: string, b: Option<Bound>, lo: real, hi: Option<real>)
    ensures BoundFault(field, b, lo, hi).None? <==> SaneBound(b, lo, hi)
  {
  }

  predicate SaneField(f: ClimateField, b: StageBounds) {
    SaneBound(Envelope(f, b), Lowest(f), Highest(f))
  }

  predicate SaneZoneField(f: ZoneField, b: ZoneBounds) {
    SaneBound(ZoneEnvelope(f, b), 0.0, Some(ZoneHighest(f)))
  }

  lemma SaneFieldwise(b: StageBounds)
    ensures SaneBounds(b) <==>
            && (forall f: ClimateField :: SaneField(f, b))
            && (b.zones.Some? ==> forall f: ZoneField :: SaneZoneField(f, b.zones.value))
  {
    assert SaneField(TemperatureDay, b) == SaneBound(b.temperatureDay, -20.0, Some(60.0));
    assert SaneField(TemperatureNight, b) == SaneBound(b.temperatureNight, -20.0, Some(60.0));
    assert SaneField(HumidityLow, b) == SaneBound(b.humidityLow, 0.0, Some(100.0));
    assert SaneField(HumidityHigh, b) == SaneBound(b.humidityHigh, 0.0, Some(100.0));
    assert SaneField(HumidityDeadband, b) == SaneBound(b.humidityDeadband, 0.0, Some(50.0));
    assert SaneField(Co2Target, b) == SaneBound(b.co2Target, 0.0, Some(5000.0));
    assert SaneField(Co2VentInterlock, b) == SaneBound(b.co2VentInterlock, 0.0, Some(100.0));
    assert SaneField(VpdTarget, b) == SaneBound(b.vpdTarget, 0.0, None);
    assert SaneField(DliTarget, b) == SaneBound(b.dliTarget, 0.0, None);
    if b.zones.Some? {
      var z := b.zones.value;
      assert SaneZoneField(MoistureLow, z) == SaneBound(z.moistureLow, 0.0, Some(1.0));
      assert SaneZoneField(MoistureHigh, z) == SaneBound(z.moistureHigh, 0.0, Some(1.0));
      assert SaneZoneField(DrainPeriod, z) == SaneBound(z.drainPeriodSecs, 0.0, Some(2147483648.0));
    }
  }

  /** A stage's envelope is accepted exactly when it is sane and holds the stage's own targets. */
  lemma StageBoundsExact(targets: Setpoints, b: StageBounds)
    ensures ValidateStageBounds(targets, Some(b)).None? <==> SaneBounds(b) && InEnvelope(targets, b)
    ensures ValidateStageBounds(targets, None).None?
  {
    hide Name, Envelope, Lowest, Highest, BoundFault, Inside, Value, ZoneName, ZoneEnvelope, ZoneHighest, ZoneValue,
      SaneBound, SaneBounds;
    AllFieldsListed();
    SaneFieldwise(b);
    ClimateFaultsExact(CLIMATE_FIELDS, targets, b);
    forall f: ClimateField
      ensures BoundFault(Name(f), Envelope(f, b), Lowest(f), Highest(f)).None? <==> SaneField(f, b)
    {
      SaneIsFaultless(Name(f), Envelope(f, b), Lowest(f), Highest(f));
    }
    if b.zones.Some? {
      var z := b.zones.value;
      ZoneFaultsExact(ZONE_FIELDS, targets.zones, z);
      forall f: ZoneField
        ensures BoundFault(ZoneName(f), ZoneEnvelope(f, z), 0.0, Some(ZoneHighest(f))).None? <==> SaneZoneField(f, z)
      {
        SaneIsFaultless(ZoneName(f), ZoneEnvelope(f, z), 0.0, Some(ZoneHighest(f)));
      }
    }
  }

  /** A stage the platform stores admits its own targets through the optimizer gate. */
  lemma StageAdmitsItsTargets(targets: Setpoints, b: StageBounds)
    requires ValidateStageBounds(targets, Some(b)).None?
    ensures ValidateSetpointsWithinBounds(targets, b).None?
  {
    hide InEnvelope, SaneBounds;
    StageBoundsExact(targets, b);
    WithinBoundsExact(targets, b);
  }

  // ---- profiles ----

  /** What is wrong with one stage taken alone. */
  function StageFault(s: ProfileStage): Fault {
    Then(Check("stage", !Blank(s.stage)),
    Then(ValidateSetpoints(s.targets), ValidateStageBounds(s.targets, s.bounds)))
  }

  function StageNames(stages: seq<ProfileStage>): set<string> {
    if stages == [] then {} else StageNames(stages[..|stages| - 1]) + {stages[|stages| - 1].stage}
  }

  /** Each stage sound by itself and named unlike the ones before it. */
  predicate SoundStages(stages: seq<ProfileStage>) {
    stages != [] ==>
      var n := |stages| - 1;
      SoundStages(stages[..n]) && stages[n].stage !in StageNames(stages[..n]) && StageFault(stages[n]).None?
  }

  predicate ValidStages(stages: seq<ProfileStage>) {
    stages != [] && SoundStages(stages)
  }

  lemma {:induction false} SoundPrefix(stages: seq<ProfileStage>, i: nat)
    requires SoundStages(stages) && i <= |stages|
    ensures SoundStages(stages[..i])
  {
    var n := |stages| - 1;
    if i == |stages| {
      assert stages[..i] == stages;
    } else {
      SoundPrefix(stages[..n], i);
      assert stages[..n][..i] == stages[..i];
    }
  }

  lemma UnsoundPrefix(stages: seq<ProfileStage>, i: nat)
    requires i <= |stages| && !SoundStages(stages[..i])
    ensures !SoundStages(stages)
  {
    if SoundStages(stages) {
      SoundPrefix(stages, i);
    }
  }

  lemma SoundExtend(stages: seq<ProfileStage>, i: nat)
    requires i < |stages|
    ensures SoundStages(stages[..i + 1]) <==>
            SoundStages(stages[..i]) && stages[i].stage !in StageNames(stages[..i]) && StageFault(stages[i]).None?
    ensures StageNames(stages[..i + 1]) == StageNames(stages[..i]) + {stages[i].stage}
  {
    assert stages[..i + 1][..i] == stages[..i];
  }

  lemma SoundMember(stages: seq<ProfileStage>, s: ProfileStage)
    requires SoundStages(stages) && s in stages
    ensures StageFault(s).None?
  {
    var i :| 0 <= i < |stages| && stages[i] == s;
    SoundPrefix(stages, i + 1);
    assert stages[..i + 1][i] == s;
  }

  predicate ValidProfile(p: CropProfile) {
    IsSlug(p.id) && !Blank(p.name) && !Blank(p.crop) && ValidStages(p.stages)
  }

  method ValidateStage(s: ProfileStage, seen: set<string>) returns (fault: Fault)
    ensures fault.None? <==> s.stage !in seen && StageFault(s).None?
  {
    if Blank(s.stage) || s.stage in seen {
      return Some("stage");
    }
    fault := ValidateSetpoints(s.targets);
    if fault.None? {
      fault := ValidateStageBounds(s.targets, s.bounds);
    }
  }

  /** Accepts exactly the valid stage lists. */
  method ValidateStages(stages: seq<ProfileStage>) returns (fault: Fault)
    ensures fault.None? <==> ValidStages(stages)
  {
    if |stages| == 0 {
      return Some("stages");
    }
    var seen: set<string> := {};
    for i := 0 to |stages|
      invariant SoundStages(stages[..i]) && seen == StageNames(stages[..i])
    {
      SoundExtend(stages, i);
      fault := ValidateStage(stages[i], seen);
      if fault.Some? {
        UnsoundPrefix(stages, i + 1);
        return;
      }
      seen := seen + {stages[i].stage};
    }
    assert stages[..|stages|] == stages;
    fault := None;
  }

  method ValidateProfile(p: CropProfile) returns (fault: Fault)
    ensures fault.None? <==> ValidProfile(p)
  {
    fault := Then(Check("id", IsSlug(p.id)), Then(Check("name", !Blank(p.name)), Check("crop", !Blank(p.crop))));
    if fault.None? {
      fault := ValidateStages(p.stages);
    }
  }
}
