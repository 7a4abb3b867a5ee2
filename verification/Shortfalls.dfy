/** Concrete runs in which the reconciler falls short: a drift never told, a refusal that sticks, a zone named twice. */
module Shortfalls {
  import opened Text
  import opened Domain
  import opened Reconciler
  import opened ReconcilerRuns
  import opened Convergence
  import opened SetpointApi
  import opened RefusedApply
  import Rest = ControllerRest
  import V = PlatformValidation
  import Slugs

  // ---- an edit by hand whose drift is never told ----

  const WARM := TWICE.(temperatureDay := 26.0, zones := [])

  lemma WarmIsValid()
    ensures V.ValidBundle(WARM)
  {
    RepeatedZoneAdmitted();
  }

  /** A pass that ends just after storing the drift it found. */
  const CUT_PASS := PassStep(Call(true, true, 1, [], AtEvent))

  /** Apply a bundle, set the controller back by hand, find the drift in a pass cut short. */
  const SILENT := [ApplyStep(WARM, OperatorEdit, CalmCall(0)), EditStep(Rest.SAMPLE), CUT_PASS]

  lemma SilentStart()
    ensures var s := Run(Start(Rest.SAMPLE), 3, SILENT[..2]);
            && s.ledger == [Revision(1, OperatorEdit, WARM)] && s.ctl == Rest.SAMPLE
            && s.frames == [] && s.events == [Applied(OperatorEdit)]
            && TheRow(s).lastDelivered == Some(1) && TheRow(s).failCount == 0 && !TheRow(s).drift
  {
    hide SendAll, HasZones, Rest.Reported, V.ValidBundle;
    WarmIsValid();
    AnsweredDelivery(Rest.SAMPLE, WARM);
    assert HasZones(Rest.SAMPLE, WARM.zones) by { NoZones(Rest.SAMPLE); }
    assert SILENT[..2][..1] == SILENT[..1] && SILENT[..1][..0] == [];
    assert Run(Start(Rest.SAMPLE), 3, SILENT[..1]) == ApplyState(Start(Rest.SAMPLE), WARM, OperatorEdit, CalmCall(0));
  }

  lemma NoZones(c: Rest.Controller)
    ensures HasZones(c, [])
  {
  }

  lemma SampleIsCold()
    ensures !IsReconciled(WARM, Rest.Reported(Rest.SAMPLE))
  {
  }

  /** The cut pass itself: drift found and stored, a correction sent, nobody told. */
  lemma SilentPass(s: State)
    requires s.ledger == [Revision(1, OperatorEdit, WARM)] && s.ctl == Rest.SAMPLE
    requires TheRow(s).lastDelivered == Some(1) && TheRow(s).failCount == 0 && !TheRow(s).drift
    ensures WillFlip(s, 3, CUT_PASS)
    ensures var s' := PassState(s, 3, CUT_PASS.call);
            && s'.ledger == s.ledger && s'.frames == s.frames && s'.events == s.events
            && TheRow(s').drift && TheRow(s').lastDelivered == Some(1)
            && IsReconciled(WARM, Rest.Reported(s'.ctl))
  {
    hide SendAll, HasZones, ConsistentZones, IsReconciled, Rest.Reported, V.ValidBundle;
    WarmIsValid();
    SampleIsCold();
    NoZones(Rest.SAMPLE);
    DeliveryReadsBack(Rest.SAMPLE, WARM, 2);
    DistinctIsConsistent(WARM.zones);
  }

  /**
   The flag is set, no drift event and no frame say so; the next pass, undisturbed, clears it, and all the clients
   ever hear of this drift is that it is over.
   */
  lemma DriftNeverTold()
    ensures var before, s := Run(Start(Rest.SAMPLE), 3, SILENT[..2]), Run(Start(Rest.SAMPLE), 3, SILENT);
            && WillFlip(before, 3, CUT_PASS) && CutShort(CUT_PASS)
            && TheRow(s).drift && s.frames == [] && DriftEvents(s.events) == 0 && !Announced(s)
            && PassState(s, 3, CalmCall(2)).frames == [false] && DriftEvents(PassState(s, 3, CalmCall(2)).events) == 0
  {
    hide SendAll, IsReconciled, Rest.Reported, DriftState, WillFlip;
    SilentStart();
    var before := Run(Start(Rest.SAMPLE), 3, SILENT[..2]);
    SilentPass(before);
    assert Run(Start(Rest.SAMPLE), 3, SILENT) == PassState(before, 3, CUT_PASS.call);
    EventAppended([], Applied(OperatorEdit));
    assert [] + [Applied(OperatorEdit)] == [Applied(OperatorEdit)];
  }

  // ---- an assignment ----

  function ProfileOf(b: Setpoints): CropProfile {
    CropProfile("a", "n", "c", [ProfileStage("s", b, Option.None)])
  }

  function Assigning(b: Setpoints, call: Call): seq<Request> {
    [CreateProfile(ProfileOf(b)), SetAssignment("a", "s", call)]
  }

  lemma ProfileIsValid(b: Setpoints)
    requires V.ValidBundle(b)
    ensures V.ValidProfile(ProfileOf(b))
  {
    hide V.ValidBundle, V.ValidateSetpoints;
    V.ValidateSetpointsExact(b);
    OneLetter();
    var stages := ProfileOf(b).stages;
    assert stages[..0] == [] && V.SoundStages([]) && V.StageNames([]) == {};
    assert !V.Blank("n") && !V.Blank("c") && !V.Blank("s") by {
      assert !V.IsSpace("n"[0]) && !V.IsSpace("c"[0]) && !V.IsSpace("s"[0]);
    }
    assert V.StageFault(stages[0]).None?;
    assert V.SoundStages(stages);
  }

  lemma OneLetter()
    ensures Slugs.IsSlug("a")
  {
    Slugs.SlugAgreement("a");
  }

  /** From an empty platform: the profile is stored, then its stage assigned and applied. */
  lemma AssignedRun(ctl: Rest.LiveController, max: nat, b: Setpoints, call: Call)
    requires V.ValidBundle(b) && call.registered
    ensures var s := ServeAll(Empty(ctl), max, Assigning(b, call));
            s.assignment == Some(Assignment("a", "s")) && s.core == ApplyState(Start(ctl), b, Profile, call)
  {
    hide ApplyState, V.ValidBundle, V.ValidProfile, Slugs.IsSlug;
    ProfileIsValid(b);
    OneLetter();
    assert !V.Blank("s") by {
      assert !V.IsSpace("s"[0]);
    }
    var first := [CreateProfile(ProfileOf(b))];
    assert Assigning(b, call)[..1] == first && first[..0] == [];
    assert ServeAll(Empty(ctl), max, first) == Empty(ctl).(profiles := map["a" := ProfileOf(b)]);
  }

  // ---- a refusal that sticks ----

  const WARM_ELSEWHERE := WARM.(zones := [HALF_OPEN])

  /**
   The first assignment of a greenhouse names a zone its controller does not have. It is refused and no intended state
   is recorded; but the controller now runs the profile's globals, and no number of passes changes that.
   */
  lemma RefusedAssignmentSticks(max: nat, times: seq<int>)
    ensures var s := ServeAll(Empty(Rest.SAMPLE), max, Assigning(WARM_ELSEWHERE, CalmCall(0))).core;
            && ApplyOutcome(Start(Rest.SAMPLE), WARM_ELSEWHERE, CalmCall(0)) == RefusedBy(Rest.NOT_FOUND)
            && s.ledger == [] && s.row.None?
            && Rest.Reported(Rest.SAMPLE).temperatureDay == 24.0 && Rest.Reported(s.ctl).temperatureDay == 26.0
            && CalmPasses(s, max, times) == s
  {
    hide V.ValidBundle, ApplyState, SendAll, CalmPasses;
    ElsewhereIsValid();
    AssignedRun(Rest.SAMPLE, max, WARM_ELSEWHERE, CalmCall(0));
    RefusedExactly(Start(Rest.SAMPLE), WARM_ELSEWHERE, Profile, 0);
    assert !HasZone(Rest.SAMPLE, WARM_ELSEWHERE.zones[0].zoneId);
    NothingToRestore(ApplyState(Start(Rest.SAMPLE), WARM_ELSEWHERE, Profile, CalmCall(0)), max, times);
  }

  lemma ElsewhereIsValid()
    ensures V.ValidBundle(WARM_ELSEWHERE)
  {
    hide V.ValidZone;
    WarmIsValid();
    SampleZones();
    assert V.ValidZone(WARM_ELSEWHERE.zones[0]);
  }

  // ---- a zone named twice ----

  /**
   The repeated zone gets into the ledger through the front door: create the profile, assign it while the controller
   is away, and the newest revision is one that no undisturbed pass ever settles, on any controller.
   */
  lemma RepeatedZoneRecorded(ctl: Rest.LiveController, max: nat, times: seq<int>)
    ensures var s := ServeAll(Empty(ctl), max, Assigning(TWICE, CalmCall(0).(reachable := false))).core;
            && s.ledger == [Revision(1, Profile, TWICE)]
            && CalmPasses(s, max, times).ledger == s.ledger && !Settled(CalmPasses(s, max, times))
  {
    hide V.ValidBundle, CalmPasses, Settled;
    var call := CalmCall(0).(reachable := false);
    RepeatedZoneAdmitted();
    AssignedRun(ctl, max, TWICE, call);
    RepeatedZoneNeverSettles(ApplyState(Start(ctl), TWICE, Profile, call), max, times);
  }
}
