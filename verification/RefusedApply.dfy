/**
 An Apply the controller answers but refuses half-way: what it leaves behind on the controller, when that is
 nothing, and when the reconciler's passes make up for it.
 */
module RefusedApply {
  import opened Text
  import opened Domain
  import opened Reconciler
  import opened ReconcilerRuns
  import opened Convergence
  import Rest = ControllerRest
  import PlatformValidation
  import Times

  /** The controller holds the bundle's globals and the given zones' targets; everything else is as before. */
  predicate Holds(c: Rest.LiveController, c': Rest.LiveController, b: Setpoints, zones: seq<ZoneTargets>) {
    && c'.setpoints.expectedPeakPar == c.setpoints.expectedPeakPar
    && Rest.Reported(c').(zones := b.zones) == b
    && SameZoneIds(c, c')
    && forall i :: 0 <= i < |c.zones| ==>
         var id := c.zones[i].id;
         Rest.TargetsOf(c'.zones[i]) == if id in ZoneMap(zones) then ZoneMap(zones)[id] else Rest.TargetsOf(c.zones[i])
  }

  /** The zones written before the first one the controller lacks. */
  function Written(c: Rest.Controller, b: Setpoints): seq<ZoneTargets> {
    b.zones[..FirstMissing(c, b.zones)]
  }

  lemma AnsweredDelivery(c: Rest.LiveController, b: Setpoints)
    requires PlatformValidation.ValidBundle(b)
    ensures var d := SendAll(c, Patches(b), [], 0);
            && Holds(c, d.ctl, b, Written(c, b))
            && d.answer == Status(if HasZones(c, b.zones) then Rest.OK else Rest.NOT_FOUND)
  {
    hide SendAll, Rest.Reported, Rest.TargetsOf, PlatformValidation.ValidBundle, ZoneMap, HasZones;
    var c1 := SendBundle(c, b, 0);
    assert ValidZones(b.zones) by { BundleZonesValid(b); }
    SendZones(c1, b.zones, 1);
    FirstMissingStays(c, c1, b.zones);
    SameHasZones(c, c1, b.zones);
    var d := SendAll(c, Patches(b), [], 0);
    SameReportedGlobals(c1, d.ctl, b);
  }

  lemma SameReportedGlobals(c1: Rest.LiveController, c2: Rest.LiveController, b: Setpoints)
    requires Rest.Reported(c1).(zones := b.zones) == b && c2.setpoints == c1.setpoints
    ensures Rest.Reported(c2).(zones := b.zones) == b
  {
    hide Rest.TargetsOf;
  }

  /**
   An answered Apply of a valid bundle is refused exactly when the controller lacks one of its zones. Refused, it
   stores and tells nothing, and leaves on the controller the bundle's globals and its zones before the missing one.
   */
  lemma RefusedExactly(s: State, b: Setpoints, source: Source, now: int)
    requires PlatformValidation.ValidBundle(b)
    ensures ApplyOutcome(s, b, CalmCall(now)) ==
            if HasZones(s.ctl, b.zones) then Recorded(NextNumber(s.ledger), true) else RefusedBy(Rest.NOT_FOUND)
    ensures var s' := ApplyState(s, b, source, CalmCall(now));
            && Holds(s.ctl, s'.ctl, b, Written(s.ctl, b))
            && (HasZones(s.ctl, b.zones) ==> s'.ledger == s.ledger + [Revision(NextNumber(s.ledger), source, b)])
            && (!HasZones(s.ctl, b.zones) ==> s' == s.(ctl := s'.ctl, log := s'.log))
  {
    hide SendAll, Holds, HasZones, PlatformValidation.ValidBundle;
    AnsweredDelivery(s.ctl, b);
  }

  /** The bundle's globals are in force already, and so are the targets of the zones that would be written. */
  predicate InForce(c: Rest.LiveController, b: Setpoints, zones: seq<ZoneTargets>) {
    && Rest.Reported(c).(zones := b.zones) == b
    && forall i :: 0 <= i < |c.zones| && c.zones[i].id in ZoneMap(zones) ==>
         Rest.TargetsOf(c.zones[i]) == ZoneMap(zones)[c.zones[i].id]
  }

  lemma TargetsTell(z: Rest.Zone, z': Rest.Zone)
    requires Rest.ValidZone(z) && Rest.ValidZone(z') && Rest.TargetsOf(z) == Rest.TargetsOf(z')
    ensures z == z'
  {
    Times.PrintParseSchedule(z.schedule);
    Times.PrintParseSchedule(z'.schedule);
  }

  lemma GlobalsTell(c: Rest.LiveController, c': Rest.LiveController, b: Setpoints)
    requires Rest.Reported(c).(zones := b.zones) == Rest.Reported(c').(zones := b.zones)
    requires c.setpoints.expectedPeakPar == c'.setpoints.expectedPeakPar
    ensures c.setpoints == c'.setpoints
  {
    hide Rest.TargetsOf, Times.PrintTime;
    Times.PrintParseTime(c.setpoints.dayStart);
    Times.PrintParseTime(c'.setpoints.dayStart);
    Times.PrintParseTime(c.setpoints.dayEnd);
    Times.PrintParseTime(c'.setpoints.dayEnd);
  }

  /** It leaves the controller as it was exactly when all it would write was in force already. */
  lemma TracelessExactly(c: Rest.LiveController, c': Rest.LiveController, b: Setpoints, zones: seq<ZoneTargets>)
    requires Holds(c, c', b, zones)
    ensures c' == c <==> InForce(c, b, zones)
  {
    hide Rest.Reported, Rest.TargetsOf, ZoneMap;
    if InForce(c, b, zones) {
      GlobalsTell(c, c', b);
      forall i | 0 <= i < |c.zones| ensures c'.zones[i] == c.zones[i] {
        TargetsTell(c.zones[i], c'.zones[i]);
      }
      assert c'.zones == c.zones;
    }
  }

  // ---- what the passes do about it ----

  /** With no intended state a pass does nothing, so what a refused first Apply left stays. */
  lemma {:induction false} NothingToRestore(s: State, max: nat, times: seq<int>)
    requires s.ledger == []
    ensures CalmPasses(s, max, times) == s
  {
    if times != [] {
      NothingToRestore(s, max, times[..|times| - 1]);
    }
  }

  lemma {:induction false} WrittenAreHeld(c: Rest.Controller, zones: seq<ZoneTargets>, m: nat, id: string)
    requires m <= FirstMissing(c, zones) && id in ZoneMap(zones[..m])
    ensures HasZone(c, id)
  {
    ZoneMapIsLast(zones[..m], id);
    var i :| 0 <= i < m && zones[..m][i].zoneId == id;
    assert zones[i].zoneId == id;
  }

  /** What the controller reports afterwards, zone by zone: its old report under the zones written. */
  lemma ReportedAfter(c: Rest.LiveController, c': Rest.LiveController, b: Setpoints)
    requires Holds(c, c', b, Written(c, b))
    ensures ZoneMap(Rest.Reported(c').zones) == ZoneMap(Rest.Reported(c).zones) + ZoneMap(Written(c, b))
  {
    hide Rest.Reported, Rest.TargetsOf, ZoneMap, FirstMissing;
    forall id
      ensures id in ZoneMap(Rest.Reported(c').zones) <==>
          id in ZoneMap(Rest.Reported(c).zones) || id in ZoneMap(Written(c, b))
      ensures id in ZoneMap(Rest.Reported(c').zones) ==>
                ZoneMap(Rest.Reported(c').zones)[id] ==
                if id in ZoneMap(Written(c, b)) then ZoneMap(Written(c, b))[id] else ZoneMap(Rest.Reported(c).zones)[id]
    {
      ReportedZone(c, id);
      ReportedZone(c', id);
      ZoneIndexOfIds(c, c', id);
      if id in ZoneMap(Written(c, b)) {
        WrittenAreHeld(c, b.zones, FirstMissing(c, b.zones), id);
      }
    }
  }

  /** The refused bundle happens to agree with the newest revision as far as it was written. */
  predicate AgreesAsWritten(s: State, b: Setpoints)
    requires s.ledger != []
  {
    var newest := Newest(s).setpoints;
    && TheRow(s).lastDelivered == Some(Newest(s).number)
    && GlobalEqual(newest, b)
    && ZonesCovered(newest.zones, ZoneMap(Rest.Reported(s.ctl).zones) + ZoneMap(Written(s.ctl, b)))
  }

  lemma GlobalsOf(c': Rest.LiveController, b: Setpoints, newest: Setpoints)
    requires Rest.Reported(c').(zones := b.zones) == b
    ensures GlobalEqual(newest, Rest.Reported(c')) <==> GlobalEqual(newest, b)
  {
    hide FloatsEqual;
    var r := Rest.Reported(c');
    assert r.(zones := b.zones).temperatureDay == r.temperatureDay;
  }

  /**
   With intended state, passes undo a refused Apply, back to the newest revision, exactly when what was written
   agrees with that revision anyway, or a retry is left and the controller can hold it.
   */
  lemma RestoredExactly(s: State, max: nat, b: Setpoints, source: Source, now: int, times: seq<int>)
    requires Governed(s) && PlatformValidation.ValidBundle(b) && !HasZones(s.ctl, b.zones) && |times| >= 2
    ensures var s' := CalmPasses(ApplyState(s, b, source, CalmCall(now)), max, times);
            && s'.ledger == s.ledger
            && (Settled(s') <==>
                  AgreesAsWritten(s, b) || (TheRow(s).failCount < max && Deliverable(s.ctl, Newest(s).setpoints)))
  {
    hide SendAll, ApplyState, CalmPasses, Settled, Deliverable, GlobalEqual, ZonesCovered, HasZones, ZoneMap,
      Rest.Reported, Written, PlatformValidation.ValidBundle;
    RefusedExactly(s, b, source, now);
    var refused := ApplyState(s, b, source, CalmCall(now));
    ConvergesExactly(refused, max, times);
    DeliverableStays(s.ctl, refused.ctl, Newest(s).setpoints);
    ReportedAfter(s.ctl, refused.ctl, b);
    GlobalsOf(refused.ctl, b, Newest(s).setpoints);
  }
}
