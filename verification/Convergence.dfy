/** Undisturbed passes: when they bring the controller to the intended bundle, and when they never will. */
module Convergence {
  import opened Text
  import opened Domain
  import opened Reconciler
  import opened ReconcilerRuns
  import Rest = ControllerRest
  import PlatformValidation

  // ---- the controller's side of a delivery ----

  predicate HasZone(c: Rest.Controller, id: string) {
    Rest.ZoneIndex(c.zones, id) < |c.zones|
  }

  predicate HasZones(c: Rest.Controller, zones: seq<ZoneTargets>) {
    forall i :: 0 <= i < |zones| ==> HasZone(c, zones[i].zoneId)
  }

  predicate ValidZones(zones: seq<ZoneTargets>) {
    forall i :: 0 <= i < |zones| ==> PlatformValidation.ValidZone(zones[i])
  }

  predicate SameZoneIds(c: Rest.Controller, c': Rest.Controller) {
    |c.zones| == |c'.zones| && forall i :: 0 <= i < |c.zones| ==> c.zones[i].id == c'.zones[i].id
  }

  lemma ZoneIndexOfIds(c: Rest.Controller, c': Rest.Controller, id: string)
    requires SameZoneIds(c, c')
    ensures Rest.ZoneIndex(c.zones, id) == Rest.ZoneIndex(c'.zones, id)
  {
  }

  lemma {:induction false} ZoneMapCons(z: ZoneTargets, zones: seq<ZoneTargets>)
    ensures ZoneMap([z] + zones) == map[z.zoneId := z] + ZoneMap(zones)
  {
    var all := [z] + zones;
    if zones == [] {
      assert all[..0] == [];
    } else {
      var n := |zones| - 1;
      ZoneMapCons(z, zones[..n]);
      assert all[..n + 1] == [z] + zones[..n];
    }
  }

  /** What the controller holds for each of its zones after the zone patches are accepted. */
  predicate ZonesWritten(c: Rest.LiveController, c': Rest.LiveController, zones: map<string, ZoneTargets>) {
    && c'.setpoints == c.setpoints
    && SameZoneIds(c, c')
    && forall i :: 0 <= i < |c.zones| ==>
         var id := c.zones[i].id;
         Rest.TargetsOf(c'.zones[i]) == if id in zones then zones[id] else Rest.TargetsOf(c.zones[i])
  }

  lemma SendZone(c: Rest.LiveController, z: ZoneTargets) returns (c': Rest.LiveController, answer: Answer)
    requires PlatformValidation.ValidZone(z)
    ensures Send(c, OfZone(z), Answered) == (c', answer)
    ensures answer == Status(if HasZone(c, z.zoneId) then Rest.OK else Rest.NOT_FOUND)
    ensures SameZoneIds(c, c') && c'.setpoints == c.setpoints
    ensures HasZone(c, z.zoneId) ==> ZonesWritten(c, c', map[z.zoneId := z])
    ensures !HasZone(c, z.zoneId) ==> c' == c
  {
    hide Rest.HandleZone;
    var r := Send(c, OfZone(z), Answered);
    c', answer := r.0, r.1;
    var c1, status := Rest.ZoneAccepted(c, z);
    assert c' == c1 && answer == Status(status);
    assert status == Rest.OK <==> HasZone(c, z.zoneId);
    if status != Rest.OK {
      assert status == Rest.NOT_FOUND && c' == c;
    }
  }

  lemma WrittenThen(c: Rest.LiveController, c1: Rest.LiveController, c2: Rest.LiveController,
                    first: map<string, ZoneTargets>, more: map<string, ZoneTargets>)
    requires ZonesWritten(c, c1, first) && ZonesWritten(c1, c2, more)
    ensures ZonesWritten(c, c2, first + more)
  {
    hide Rest.TargetsOf;
  }

  lemma SameHasZones(c: Rest.LiveController, c': Rest.LiveController, zones: seq<ZoneTargets>)
    requires SameZoneIds(c, c')
    ensures HasZones(c, zones) <==> HasZones(c', zones)
  {
    forall id ensures HasZone(c, id) <==> HasZone(c', id) {
      ZoneIndexOfIds(c, c', id);
    }
  }

  /** Position of the first zone the controller lacks, or `|zones|`. */
  function FirstMissing(c: Rest.Controller, zones: seq<ZoneTargets>): (m: nat)
    ensures m <= |zones|
    ensures m < |zones| ==> !HasZone(c, zones[m].zoneId)
    ensures forall i :: 0 <= i < m ==> HasZone(c, zones[i].zoneId)
  {
    if zones == [] || !HasZone(c, zones[0].zoneId) then 0 else 1 + FirstMissing(c, zones[1..])
  }

  lemma {:induction false} FirstMissingStays(c: Rest.Controller, c': Rest.Controller, zones: seq<ZoneTargets>)
    requires SameZoneIds(c, c')
    ensures FirstMissing(c, zones) == FirstMissing(c', zones)
  {
    if zones != [] {
      ZoneIndexOfIds(c, c', zones[0].zoneId);
      FirstMissingStays(c, c', zones[1..]);
    }
  }

  /**
   Answered throughout, a delivery of valid zones writes exactly those before the first one the controller lacks,
   where it is refused; it is accepted exactly when the controller has them all.
   */
  lemma {:induction false} SendZones(c: Rest.LiveController, zones: seq<ZoneTargets>, k: nat)
    requires ValidZones(zones)
    ensures var d, m := SendAll(c, ZonePatches(zones), [], k), FirstMissing(c, zones);
            && SameZoneIds(c, d.ctl) && d.ctl.setpoints == c.setpoints
            && ZonesWritten(c, d.ctl, ZoneMap(zones[..m]))
            && d.answer == Status(if m == |zones| then Rest.OK else Rest.NOT_FOUND)
    ensures FirstMissing(c, zones) == |zones| <==> HasZones(c, zones)
    decreases |zones|
  {
    hide Send, ZonesWritten, SameZoneIds, HasZone, PlatformValidation.ValidZone, ZoneMap;
    var m := FirstMissing(c, zones);
    NothingWritten(c);
    if m == 0 {
      assert zones[..0] == [];
    }
    if zones != [] {
      var rest := zones[1..];
      var c', answer := SendZone(c, zones[0]);
      assert ZonePatches(zones)[1..] == ZonePatches(rest);
      if m > 0 {
        SendZones(c', rest, k + 1);
        FirstMissingStays(c, c', rest);
        ZoneThenZones(c, c', SendAll(c', ZonePatches(rest), [], k + 1).ctl, zones, m);
      }
    }
  }

  lemma ZoneThenZones(c: Rest.LiveController, c1: Rest.LiveController, c2: Rest.LiveController,
                      zones: seq<ZoneTargets>, m: nat)
    requires 0 < m <= |zones|
    requires ZonesWritten(c, c1, map[zones[0].zoneId := zones[0]]) && ZonesWritten(c1, c2, ZoneMap(zones[1..][..m - 1]))
    ensures ZonesWritten(c, c2, ZoneMap(zones[..m])) && SameZoneIds(c, c2)
  {
    hide ZoneMap;
    var rest := zones[1..];
    WrittenThen(c, c1, c2, map[zones[0].zoneId := zones[0]], ZoneMap(rest[..m - 1]));
    ZoneMapCons(zones[0], rest[..m - 1]);
    assert zones[..m] == [zones[0]] + rest[..m - 1];
  }

  lemma NothingWritten(c: Rest.LiveController)
    ensures ZonesWritten(c, c, ZoneMap([])) && SameZoneIds(c, c)
  {
  }

  lemma ReportedZone(c: Rest.LiveController, id: string)
    ensures id in ZoneMap(Rest.Reported(c).zones) <==> HasZone(c, id)
    ensures HasZone(c, id) ==>
        ZoneMap(Rest.Reported(c).zones)[id] == Rest.TargetsOf(c.zones[Rest.ZoneIndex(c.zones, id)])
  {
    var zones := Rest.Reported(c).zones;
    ZoneMapIsLast(zones, id);
    var i := Rest.ZoneIndex(c.zones, id);
    if i < |c.zones| {
      assert zones[i].zoneId == id;
      ZoneMapDistinct(zones, i);
    }
  }

  /** Zones that can all be in force at once: those sharing an id agree with the last of them. */
  predicate ConsistentZones(zones: seq<ZoneTargets>) {
    ZonesCovered(zones, ZoneMap(zones))
  }

  lemma DistinctIsConsistent(zones: seq<ZoneTargets>)
    requires DistinctZones(zones)
    ensures ConsistentZones(zones)
  {
    forall i | 0 <= i < |zones|
      ensures zones[i].zoneId in ZoneMap(zones) && ZoneMap(zones)[zones[i].zoneId] == zones[i]
    {
      ZoneMapDistinct(zones, i);
    }
  }

  predicate Deliverable(c: Rest.LiveController, b: Setpoints) {
    HasZones(c, b.zones) && ConsistentZones(b.zones)
  }

  lemma WrittenZonesReadBack(c: Rest.LiveController, c': Rest.LiveController, zones: seq<ZoneTargets>)
    requires HasZones(c, zones) && ZonesWritten(c, c', ZoneMap(zones))
    ensures ZonesCovered(zones, ZoneMap(Rest.Reported(c').zones)) <==> ConsistentZones(zones)
  {
    forall i | 0 <= i < |zones|
      ensures var id := zones[i].zoneId;
              && id in ZoneMap(zones) && id in ZoneMap(Rest.Reported(c').zones)
              && ZoneMap(Rest.Reported(c').zones)[id] == ZoneMap(zones)[id]
    {
      var id := zones[i].zoneId;
      ZoneMapIsLast(zones, id);
      ZoneIndexOfIds(c, c', id);
      ReportedZone(c', id);
    }
  }

  lemma MissingZoneNotReported(c: Rest.LiveController, zones: seq<ZoneTargets>)
    requires !HasZones(c, zones)
    ensures !ZonesCovered(zones, ZoneMap(Rest.Reported(c).zones))
  {
    var i :| 0 <= i < |zones| && !HasZone(c, zones[i].zoneId);
    ReportedZone(c, zones[i].zoneId);
  }

  lemma GlobalsReadBack(c1: Rest.LiveController, c2: Rest.LiveController, b: Setpoints)
    requires Rest.Reported(c1).(zones := b.zones) == b && c2.setpoints == c1.setpoints
    ensures GlobalEqual(b, Rest.Reported(c2))
  {
    hide Rest.TargetsOf;
    assert Rest.Reported(c2).(zones := b.zones) == b;
  }

  /** What the controller holds after a global write: the bundle's globals, all else as before. */
  predicate GlobalsWritten(c: Rest.LiveController, c': Rest.LiveController, b: Setpoints) {
    && c'.zones == c.zones && c'.setpoints.expectedPeakPar == c.setpoints.expectedPeakPar
    && Rest.Reported(c').(zones := b.zones) == b
  }

  /** An answered delivery of a valid bundle: the global write succeeds, the zone writes follow from there. */
  lemma SendBundle(c: Rest.LiveController, b: Setpoints, k: nat) returns (c1: Rest.LiveController)
    requires PlatformValidation.ValidBundle(b)
    ensures GlobalsWritten(c, c1, b)
    ensures var d, zd := SendAll(c, Patches(b), [], k), SendAll(c1, ZonePatches(b.zones), [], k + 1);
            d.ctl == zd.ctl && d.answer == zd.answer
  {
    hide Rest.HandleSetpoints, Rest.Reported, PlatformValidation.ValidBundle;
    c1 := Rest.GlobalAccepted(c, b);
    assert Send(c, Globals(b), Answered) == (c1, Status(Rest.OK));
    assert Patches(b)[0] == Globals(b) && Patches(b)[1..] == ZonePatches(b.zones);
  }

  lemma BundleZonesValid(b: Setpoints)
    requires PlatformValidation.ValidBundle(b)
    ensures ValidZones(b.zones)
  {
  }

  /**
   An answered delivery of a valid bundle is accepted exactly when the controller has its zones, and the
   controller then reports it back as reconciled exactly when the bundle is deliverable.
   */
  lemma DeliveryReadsBack(c: Rest.LiveController, b: Setpoints, k: nat)
    requires PlatformValidation.ValidBundle(b)
    ensures var d := SendAll(c, Patches(b), [], k);
            && !d.answer.Died?
            && SameZoneIds(c, d.ctl)
            && (d.answer.Accepted() <==> HasZones(c, b.zones))
            && (IsReconciled(b, Rest.Reported(d.ctl)) <==> Deliverable(c, b))
  {
    hide SendAll, ZonesCovered, ZonesWritten, HasZones, Rest.Reported, GlobalEqual, PlatformValidation.ValidBundle;
    NoCrashNoDeath(c, Patches(b), [], k);
    var c1 := SendBundle(c, b, k);
    assert ValidZones(b.zones) by { BundleZonesValid(b); }
    SendZones(c1, b.zones, k + 1);
    var d := SendAll(c, Patches(b), [], k);
    GlobalsReadBack(c1, d.ctl, b);
    SameHasZones(c, c1, b.zones);
    SameHasZones(c, d.ctl, b.zones);
    if HasZones(c, b.zones) {
      assert b.zones[..|b.zones|] == b.zones;
      WrittenZonesReadBack(c1, d.ctl, b.zones);
    } else {
      MissingZoneNotReported(d.ctl, b.zones);
    }
  }

  // ---- undisturbed passes ----

  function CalmCall(now: int): Call {
    Call(true, true, now, [], Never)
  }

  /** One pass at each of the times, nothing going wrong. */
  function CalmPasses(s: State, max: nat, times: seq<int>): State {
    if times == [] then s
    else PassState(CalmPasses(s, max, times[..|times| - 1]), max, CalmCall(times[|times| - 1]))
  }

  /** Intended state exists and the platform's validator admits it. */
  predicate Governed(s: State) {
    s.ledger != [] && PlatformValidation.ValidBundle(Newest(s).setpoints)
  }

  /** The newest revision is marked delivered and the controller reports it. */
  predicate InStep(s: State)
    requires s.ledger != []
  {
    && TheRow(s).lastDelivered == Some(Newest(s).number)
    && IsReconciled(Newest(s).setpoints, Rest.Reported(s.ctl))
  }

  predicate Settled(s: State)
    requires s.ledger != []
  {
    InStep(s) && TheRow(s).status == Delivered && TheRow(s).failCount == 0 && !TheRow(s).drift
  }

  /** What can be checked beforehand: already in step, or retries left and a bundle this controller can hold. */
  predicate CanSettle(s: State, max: nat)
    requires s.ledger != []
  {
    InStep(s) || (TheRow(s).failCount < max && Deliverable(s.ctl, Newest(s).setpoints))
  }

  lemma DeliverableStays(c: Rest.LiveController, c': Rest.LiveController, b: Setpoints)
    requires SameZoneIds(c, c')
    ensures Deliverable(c, b) <==> Deliverable(c', b)
  {
    SameHasZones(c, c', b.zones);
  }

  /** The effect of an answered delivery on being in step. */
  predicate Delivers(s: State, d: Delivery) {
    && !d.answer.Died?
    && (s.ledger != [] ==>
          var b := Newest(s).setpoints;
          && (Deliverable(s.ctl, b) ==> d.answer.Accepted())
          && (IsReconciled(b, Rest.Reported(d.ctl)) <==> Deliverable(s.ctl, b))
          && (Deliverable(d.ctl, b) <==> Deliverable(s.ctl, b)))
  }

  lemma CalmDelivery(s: State, k: nat)
    requires Governed(s)
    ensures Delivers(s, SendAll(s.ctl, Patches(Newest(s).setpoints), [], k))
  {
    hide SendAll, Rest.Reported, IsReconciled, HasZones, ConsistentZones, PlatformValidation.ValidBundle, SameZoneIds;
    var b := Newest(s).setpoints;
    DeliveryReadsBack(s.ctl, b, k);
    var d := SendAll(s.ctl, Patches(b), [], k);
    DeliverableStays(s.ctl, d.ctl, b);
  }

  predicate Approaches(s: State, s': State, max: nat)
    requires s.ledger != []
  {
    && s'.ledger == s.ledger
    && (CanSettle(s, max) ==> InStep(s'))
    && (!CanSettle(s, max) ==> !CanSettle(s', max))
  }

  lemma ReassertApproaches(s: State, max: nat, now: int)
    requires Governed(s) && TheRow(s).lastDelivered != Some(Newest(s).number)
    ensures Approaches(s, ReassertState(s, TheRow(s), Newest(s), max, CalmCall(now)), max)
  {
    hide SendAll, Rest.Reported, IsReconciled, Deliverable, PlatformValidation.ValidBundle;
    CalmDelivery(s, 0);
  }

  lemma DriftCalmly(s: State, max: nat, now: int)
    requires s.ledger != []
    requires !SendAll(s.ctl, Patches(Newest(s).setpoints), [], 2).answer.Died?
    ensures var s' := DriftState(s, TheRow(s), Newest(s), max, CalmCall(now));
            var tries := TheRow(s).failCount < max;
            && s'.ledger == s.ledger
            && TheRow(s').lastDelivered == TheRow(s).lastDelivered
            && TheRow(s').failCount == TheRow(s).failCount + (if tries then 1 else 0)
            && s'.ctl == if tries then SendAll(s.ctl, Patches(Newest(s).setpoints), [], 2).ctl else s.ctl
  {
    hide SendAll;
  }

  lemma DriftApproaches(s: State, max: nat, now: int)
    requires Governed(s) && TheRow(s).lastDelivered == Some(Newest(s).number)
    requires !IsReconciled(Newest(s).setpoints, Rest.Reported(s.ctl))
    ensures Approaches(s, DriftState(s, TheRow(s), Newest(s), max, CalmCall(now)), max)
  {
    hide DriftState, SendAll, Rest.Reported, IsReconciled, Deliverable, PlatformValidation.ValidBundle;
    CalmDelivery(s, 2);
    DriftCalmly(s, max, now);
  }

  /** One pass reaches the controller if it can be reached, and otherwise changes nothing about that. */
  lemma FirstPass(s: State, max: nat, now: int)
    requires Governed(s)
    ensures Approaches(s, PassState(s, max, CalmCall(now)), max)
  {
    hide ReassertState, DriftState, Rest.Reported, IsReconciled, Deliverable, PlatformValidation.ValidBundle;
    if TheRow(s).lastDelivered != Some(Newest(s).number) {
      ReassertApproaches(s, max, now);
    } else if !IsReconciled(Newest(s).setpoints, Rest.Reported(s.ctl)) {
      DriftApproaches(s, max, now);
    }
  }

  lemma SecondPass(s: State, max: nat, now: int)
    requires s.ledger != [] && InStep(s)
    ensures var s' := PassState(s, max, CalmCall(now));
            s'.ledger == s.ledger && Settled(s') && (Settled(s) ==> s' == s)
  {
    hide SendAll, Rest.Reported, IsReconciled;
  }

  lemma {:induction false} CalmPassesFollow(s: State, max: nat, times: seq<int>)
    requires Governed(s)
    ensures var s' := CalmPasses(s, max, times);
            && s'.ledger == s.ledger
            && (CanSettle(s, max) && |times| >= 1 ==> InStep(s'))
            && (CanSettle(s, max) && |times| >= 2 ==> Settled(s'))
            && (!CanSettle(s, max) ==> !CanSettle(s', max))
  {
    hide PassState, InStep, CanSettle, PlatformValidation.ValidBundle;
    if times != [] {
      var n := |times| - 1;
      CalmPassesFollow(s, max, times[..n]);
      var before := CalmPasses(s, max, times[..n]);
      if n == 0 {
        FirstPass(s, max, times[n]);
      } else if CanSettle(s, max) {
        SecondPass(before, max, times[n]);
        assert InStep(CalmPasses(s, max, times)) by { SettledInStep(CalmPasses(s, max, times)); }
      } else {
        FirstPass(before, max, times[n]);
      }
    }
  }

  lemma SettledInStep(s: State)
    requires s.ledger != [] && Settled(s)
    ensures InStep(s)
  {
  }

  /**
   From any state, however it came about: undisturbed passes settle the greenhouse if and only if it can
   settle. One pass puts the controller in step, a second clears the bookkeeping, and from then on a pass
   writes nothing to the store and sends no PATCH.
   */
  lemma ConvergesExactly(s: State, max: nat, times: seq<int>)
    requires Governed(s)
    ensures var s' := CalmPasses(s, max, times);
            && s'.ledger == s.ledger
            && (CanSettle(s, max) && |times| >= 1 ==> InStep(s'))
            && (|times| >= 2 ==> (Settled(s') <==> CanSettle(s, max)))
            && (CanSettle(s, max) && |times| >= 3 ==> s' == CalmPasses(s, max, times[..2]))
  {
    hide PassState, PlatformValidation.ValidBundle, Deliverable, InStep;
    CalmPassesFollow(s, max, times);
    if CanSettle(s, max) && |times| >= 3 {
      Quiescent(s, max, times);
    }
  }

  lemma {:induction false} Quiescent(s: State, max: nat, times: seq<int>)
    requires Governed(s) && CanSettle(s, max) && |times| >= 2
    ensures CalmPasses(s, max, times) == CalmPasses(s, max, times[..2])
  {
    hide PassState, InStep, CanSettle, PlatformValidation.ValidBundle;
    if |times| == 2 {
      assert times[..2] == times;
    } else {
      var n := |times| - 1;
      Quiescent(s, max, times[..n]);
      assert times[..n][..2] == times[..2];
      CalmPassesFollow(s, max, times[..n]);
      SettledInStep(CalmPasses(s, max, times[..n]));
      SecondPass(CalmPasses(s, max, times[..n]), max, times[n]);
    }
  }

  // ---- what does not converge ----

  const HALF_OPEN := ZoneTargets("a", 0.2, 0.4, 300, "06:00")
  const WIDE_OPEN := ZoneTargets("a", 0.3, 0.6, 300, "06:00")
  const TWICE := Setpoints(24.0, 18.0, "06:00", "20:00", 65.0, 75.0, 5.0, 1000, 15.0, 1.0, 20.0, [HALF_OPEN, WIDE_OPEN])

  lemma SampleZones()
    ensures PlatformValidation.ValidZone(HALF_OPEN) && PlatformValidation.ValidZone(WIDE_OPEN)
  {
    assert Split("a", '-') == ["a"];
    assert "06:00"[..5] == "06:00";
  }

  lemma RepeatedZoneNeverReconciled(reported: Setpoints)
    ensures !IsReconciled(TWICE, reported) && !ConsistentZones(TWICE.zones)
  {
    assert TWICE.zones[0] == HALF_OPEN && TWICE.zones[1] == WIDE_OPEN;
  }

  lemma RepeatedZoneAdmitted()
    ensures PlatformValidation.ValidBundle(TWICE)
  {
    hide PlatformValidation.ValidZone;
    SampleZones();
    assert PlatformValidation.ValidZone(TWICE.zones[0]) && PlatformValidation.ValidZone(TWICE.zones[1]);
  }

  /**
   The platform's validator does not look for repeated zone ids: it admits a bundle that names one zone
   twice with different targets, and no number of undisturbed passes settles it on any controller.
   */
  lemma RepeatedZoneNeverSettles(s: State, max: nat, times: seq<int>)
    requires s.ledger != [] && Newest(s).setpoints == TWICE
    ensures PlatformValidation.ValidateSetpoints(TWICE).None?
    ensures CalmPasses(s, max, times).ledger == s.ledger && !Settled(CalmPasses(s, max, times))
  {
    hide PlatformValidation.ValidBundle, PlatformValidation.ValidateSetpoints, IsReconciled, ConsistentZones,
        Rest.Reported, PassState;
    RepeatedZoneAdmitted();
    PlatformValidation.ValidateSetpointsExact(TWICE);
    CalmPassesFollow(s, max, times);
    RepeatedZoneNeverReconciled(Rest.Reported(CalmPasses(s, max, times).ctl));
  }
}
