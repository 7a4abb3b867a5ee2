# Greenhouse climate control: a verified model

The repository runs greenhouses with three programs: a Rust controller that ticks once a second, a Go platform that
keeps each greenhouse's intended setpoints and pushes them down, and a TypeScript dashboard that patches its cache from
live frames. This project models their state machines, protocols and arithmetic in Dafny and proves what they keep over
whole runs. Methods perform the operations step by step as the programs do and are proved against functions on whole
states; lemmas then prove what the programs promise about those functions, over every run.

| part | files |
|---|---|
| strings, times, slugs, topics | Text, Times, Slugs, Topics |
| setpoint bundles and their validators on both sides | Domain, PlatformValidation, ControllerRest |
| the reconciler: intended-state ledger, bookkeeping row, remote controller | Reconciler, ReconcilerRuns, Bookkeeping, Convergence, RefusedApply |
| the platform's write path in front of it, and concrete runs that fall short | SetpointApi, Shortfalls |
| probe fusion | Fusion |
| the controller's tick | Actuators, ActuatorHealth, Overrides, Interlocks, Constraints, Pipeline |
| the tick over whole runs | TickRuns, SafetyRuns, HealthRuns, StuckRuns |
| irrigation, simulated hardware, injections | Irrigation, SimHal, Injections |
| live alert lists | LiveAlerts, LiveView |
| the ingest buffer | IngestBuffer |

The environment is adversarial where the programs face one: `Reconciler.Call` scripts reachability, every relay call
(answered, refused, lost with or without effect, process death) and the store or broadcast call at which an operation
ends early; runs mix Apply, passes, out-of-band controller edits and ledger pruning in any order. The control loops'
output, trusted readings, targets and readback are arbitrary inputs of every tick. Floats are reals and times integers.

## What the code does that its documentation does not say

- The bundle validator does not look for repeated zone ids. A bundle naming one zone twice with different targets is
  admitted and recorded (`Shortfalls.RepeatedZoneRecorded`), and then never reconciles
  (`Convergence.RepeatedZoneNeverSettles`); the exact condition is `CanSettle` in `Convergence.ConvergesExactly`.
- The controller's integer parse takes a leading '+', so it accepts times the platform's pattern rejects
  (`Times.SignedTimeIsControllerOnly`; exactly those: `Times.HhmmAgreement`).
- An actuator disabled for want of a response is judged against what was asked while it is held off, so it is later
  reported stuck although it obeys (`StuckRuns.CoolingIsCalledStuck`; exactly when:
  `StuckRuns.ObedientCalledStuckExactly`).
- A change of the drift flag stored by an operation that ends before its broadcast is never told
  (`Shortfalls.DriftNeverTold`; exactly when: `ReconcilerRuns.AnnouncedExactly`; not later either:
  `ReconcilerRuns.FramesAreToldFlips`).
- An Apply whose bundle names a zone the controller lacks is refused half-way and leaves the controller changed
  (`RefusedApply.RefusedExactly`; unchanged exactly when: `RefusedApply.TracelessExactly`). Passes bring the newest
  revision back exactly under `RefusedApply.RestoredExactly`; with no intended state yet, as on a first assignment,
  the change stays for good (`Shortfalls.RefusedAssignmentSticks`, `RefusedApply.NothingToRestore`).
- The temperature is given up with the message that no two probes agree, but what counts is agreement with the median:
  two probes may agree exactly and the temperature still be lost (`Fusion.HalfIsNotEnough`; exactly when:
  `Fusion.FusionLostExactly`).
- Injections of one probe and of all probes share channels: listing and effect part when their expiries differ
  (`Injections.OverlapExample`; exactly when: `Injections.MirroredExactly`).

## Model

| member | source | states |
|---|---|---|
| Text.JoinSplit | climate-platform/internal/ingest/topic.go:34-55 | joining the pieces of a split string gives the string back (the split every topic and schedule parser starts from) |
| Text.SplitJoin | climate-controller/src/domain.rs:148-169 | splitting undoes joining when no piece holds the separator |
| Times.HhmmAgreement | climate-platform/internal/api/validate.go:28-38 | a string matches the platform's time pattern iff the controller parses it and it has no '+'; then both read the same minutes and it prints back unchanged |
| Times.SignedTimeIsControllerOnly | climate-controller/src/domain.rs:111-124 | the converse fails: "+6:30" is a time to the controller and not to the platform |
| Times.PrintParseTime | climate-controller/src/domain.rs:111-130 | every valid time prints to the platform's pattern and parses back to itself |
| Times.OrderIsMinutes | climate-controller/src/domain.rs:84-105 | the controller's order of times is the order of their minutes, which is what the platform compares |
| Times.ScheduleAgreement | climate-platform/internal/api/validate.go:28-29 | the same agreement for whole irrigation schedules, with print-back |
| Times.PrintParseSchedule | climate-controller/src/domain.rs:148-169 | every non-empty valid schedule parses back from its print |
| Slugs.SlugAgreement | climate-controller/src/domain.rs:57-74 | the controller's segment-wise slug check and the platform's pattern accept exactly the same names, all non-empty and slash-free |
| Domain.ZonesCoveredBy | climate-platform/internal/domain/setpoints.go:74-86 | true iff every intended zone's id is reported and the last zone reported under it has equal targets |
| Domain.Reconciled | climate-platform/internal/domain/setpoints.go:52-69 | the pass's comparison: all global fields equal and all intended zones covered |
| Domain.ReconciledFieldwise | climate-platform/internal/domain/setpoints.go:52-86 | reconciled iff every global field is equal, numbers within 1e-6, and every intended zone so agrees with the last reported under its id |
| Domain.ZoneMapIsLast | climate-platform/internal/domain/setpoints.go:74-80 | the lookup built over a zone list holds exactly the ids that occur, each with its last zone |
| Domain.ZoneMapDistinct | climate-platform/internal/domain/setpoints.go:74-86 | with distinct ids each zone is found under its own id |
| PlatformValidation.WithinBoundsExact | climate-platform/internal/api/validate_bounds.go:180-208 | the optimizer gate passes iff every bounded field, climate and zone, lies inside its envelope |
| PlatformValidation.EnvelopeFieldwise | climate-platform/internal/api/validate_bounds.go:180-208 | being inside the envelope, spelled out for each of its fields and zones |
| PlatformValidation.StageAdmitsItsTargets | climate-platform/internal/api/validate_bounds.go:114-208 | a stage the validator stores always passes the optimizer gate with its own targets |
| PlatformValidation.StageBoundsExact | climate-platform/internal/api/validate_bounds.go:114-176 | an envelope is accepted iff each of its bounds is ordered and inside its hard limits, field by field, and it holds the stage's own targets |
| PlatformValidation.ValidateStage | climate-platform/internal/api/validate_profiles.go:97-113 | one stage passes iff its name is new and its targets and bounds validate |
| PlatformValidation.ValidateStages | climate-platform/internal/api/validate_profiles.go:92-115 | a stage list passes iff it is non-empty, names are distinct and non-blank, and every stage's targets and envelope are valid |
| PlatformValidation.ValidateProfile | climate-platform/internal/api/validate_profiles.go:78-89 | a profile passes iff its id is a slug, its name and crop are non-blank and its stages are valid |
| PlatformValidation.SoundMember | climate-platform/internal/api/validate_profiles.go:92-115 | every member of an accepted stage list has valid targets and a valid envelope |
| ControllerRest.ValidateSetpoints | climate-controller/src/config/setpoints.rs:59-122 | no violation is reported iff every setpoint bound and ordering holds |
| ControllerRest.ApplyTime | climate-controller/src/rest.rs:559-600 | an absent time keeps the current one, a present one must parse |
| ControllerRest.ApplySetpointsPatch | climate-controller/src/rest.rs:559-600 | the PATCH overlays exactly the fields it carries and fails iff a time does not parse |
| ControllerRest.SetpointsPatchExactly | climate-controller/src/rest.rs:532-600 | told field by field: the PATCH takes every field it carries and keeps the rest, is accepted iff it carries something and the result is valid, and otherwise changes nothing |
| ControllerRest.UnreadableTimeRefused | climate-controller/src/rest.rs:559-600 | a PATCH with a time that does not parse is refused and changes nothing |
| ControllerRest.ZonePatchExactly | climate-controller/src/rest.rs:624-687 | the same for a zone PATCH |
| ControllerRest.SetpointsWriteKeepsValid | climate-controller/src/rest.rs:532-600 | no PATCH, accepted or refused, leaves the controller with an invalid configuration |
| ControllerRest.ZoneWriteKeepsValid | climate-controller/src/rest.rs:624-687 | likewise for a zone PATCH |
| ControllerRest.GlobalAccepted | climate-platform/internal/reconcile/delivery.go:29-36 | every bundle the platform's validator admits gets 200 for its global PATCH on any valid controller and is read back unchanged, zones untouched |
| ControllerRest.ZoneAccepted | climate-platform/internal/reconcile/delivery.go:40-47 | every zone the platform admits is accepted iff the controller has that zone (404 otherwise), is read back unchanged, and no other zone changes |
| Reconciler.Reconciler.Do | climate-platform/internal/reconcile/reconcile.go:402-428 | one PATCH and the controller's state under every network outcome, appended to the exchange log |
| Reconciler.Reconciler.Deliver | climate-platform/internal/reconcile/reconcile.go:402-428 | the global PATCH, then zone by zone, up to the first that is not a 2xx or an abort |
| Reconciler.Reconciler.UpsertRow | climate-platform/internal/store/intended.go:130-147 | the bookkeeping row is replaced and one store write counted |
| Reconciler.Reconciler.Record | climate-platform/internal/reconcile/reconcile.go:151-208 | append, row, event and closing drift frame, cut short at any of these calls |
| Reconciler.Reconciler.Apply | climate-platform/internal/reconcile/reconcile.go:123-147 | deliver then record; a refusal leaves ledger, row, events and frames as they were, a recorded outcome appended exactly that revision |
| Reconciler.Reconciler.Reassert | climate-platform/internal/reconcile/reconcile.go:317-336 | re-delivery of the newest revision while retries are left; delivered on success, one more failure otherwise |
| Reconciler.Reconciler.HandleDrift | climate-platform/internal/reconcile/reconcile.go:340-368 | drift flagged with its first sighting kept, one counted correction while retries are left, event and frame only when newly flagged |
| Reconciler.Reconciler.MarkSynced | climate-platform/internal/reconcile/reconcile.go:371-397 | failures, drift and its first sighting cleared, one closing frame, and nothing written when already clean |
| Reconciler.Reconciler.ReconcileGreenhouse | climate-platform/internal/reconcile/reconcile.go:268-314 | the whole pass, for every reachability, network script and abort point |
| ReconcilerRuns.SendAllLog | climate-platform/internal/reconcile/reconcile.go:402-428 | a delivery logs a prefix of its patches, the whole list without a gap when accepted |
| ReconcilerRuns.AcceptedIsWhole | climate-platform/internal/reconcile/reconcile.go:402-428 | the exchanges of an accepted delivery are one uninterrupted run of 2xx for the global PATCH and every zone PATCH, and nothing else |
| ReconcilerRuns.StepKeepsSound | climate-platform/internal/reconcile/reconcile.go:123-208 | every step keeps the bookkeeping invariant and never lowers the next revision number |
| ReconcilerRuns.MarkMovesOnlyEarned | climate-platform/internal/reconcile/reconcile.go:176-188 | a step that moves the delivered mark moves it to the newest revision and, in that very step, delivered that revision's bundle whole |
| ReconcilerRuns.MarkIsEarned | climate-platform/internal/reconcile/reconcile.go:176-188 | over any run from any sound state the mark either never moved or stands on a revision some step of the run delivered whole; when that number is the newest, on that very revision, not an equal bundle under another number |
| ReconcilerRuns.BookkeepingSound | climate-platform/internal/reconcile/reconcile.go:268-397 | in every run: consecutive revision numbers; the delivered mark never exceeds the newest revision and stands on a revision only if some step got 2xx for that revision's global PATCH and all its zone PATCHes, uninterrupted; the failure count never exceeds MaxRetries; drift iff its first sighting is set |
| ReconcilerRuns.NumbersNeverReused | climate-platform/internal/store/intended.go:40-57 | the same from any sound state, and the next revision number never decreases, pruning included |
| ReconcilerRuns.ApplyAppends | climate-platform/internal/store/intended.go:40-57 | an Apply appends at most one revision, its own, with the next number |
| ReconcilerRuns.FlipsExactly | climate-platform/internal/reconcile/reconcile.go:176-199 | a step changes the stored drift flag iff a guard on the state before it and the network script holds, and tells the clients in that step or, if cut short, not at all |
| ReconcilerRuns.AnnouncedExactly | climate-platform/internal/reconcile/reconcile.go:176-199 | drift frames stay alternating from true, the last equal to the stored flag, one drift event per true frame, after a step iff it is not both cut short between storing and telling and, by that guard, about to change the flag |
| ReconcilerRuns.FramesAreToldFlips | climate-platform/internal/reconcile/reconcile.go:340-397 | over any run the frames sent are, in order, exactly the flag changes of steps not cut short: a change missed in its own step is never told later |
| ReconcilerRuns.EveryFlipAnnounced | climate-platform/internal/reconcile/reconcile.go:340-397 | a run with no step cut short there announces every change of the flag exactly once |
| Bookkeeping.FailCountExactly | climate-platform/internal/reconcile/reconcile.go:123-397 | what every step does to the failure count, told from the state before it and the network script: 0 iff an Apply stores its row, a re-assert is accepted or a pass finds the controller in step; one more iff a re-assert is answered but not accepted or a correction is sent; else unchanged |
| Bookkeeping.StatusExactly | climate-platform/internal/reconcile/reconcile.go:123-397 | likewise the delivery status: delivered, deferred or rejected exactly by what happened in the step |
| Bookkeeping.MarkExactly | climate-platform/internal/reconcile/reconcile.go:123-397 | likewise the delivered mark: moved by an accepted delivery alone, to the revision delivered |
| Bookkeeping.SightingsExactly | climate-platform/internal/reconcile/reconcile.go:176-397 | likewise both drift sightings: the first kept while drift lasts, the last renewed at every finding |
| Bookkeeping.DriftExactly | climate-platform/internal/reconcile/reconcile.go:176-397 | likewise the drift flag: set by a comparison that fails, cleared by one that succeeds or an accepted Apply |
| Bookkeeping.AttemptExactly | climate-platform/internal/reconcile/reconcile.go:176-368 | likewise the last attempt: the time of the last step that tried a delivery or deferred it |
| Bookkeeping.LedgerExactly | climate-platform/internal/reconcile/reconcile.go:123-208 | an Apply appends its revision with the next number iff it is registered, not refused and not cut short before |
| Bookkeeping.EventsExactly | climate-platform/internal/reconcile/reconcile.go:151-368 | one event for every Apply stored, one for drift newly found, no other |
| Bookkeeping.OutcomeExactly | climate-platform/internal/reconcile/reconcile.go:123-208 | the caller is told of a record iff ledger, row and event are written, delivered iff the row says so; refused or unregistered leaves all but the controller as it was |
| Bookkeeping.StartsAreCounted | climate-platform/internal/reconcile/reconcile.go:317-397 | over any run in which none of those three events happens, the deliveries the loop begins equal the growth of the failure count |
| Bookkeeping.CorrectionBounded | climate-platform/internal/reconcile/reconcile.go:317-397 | after any past, until one of those three events happens the loop begins at most MaxRetries deliveries, re-asserts and drift corrections together |
| Bookkeeping.BackedOff | climate-platform/internal/reconcile/reconcile.go:317-368 | with the count at MaxRetries, such a run begins no delivery at all |
| Convergence.SendZones | climate-platform/internal/reconcile/reconcile.go:402-428 | an answered delivery of valid zones writes exactly the zones before the first one the controller lacks, the last of several with one id, and is accepted iff there is none |
| Convergence.DeliveryReadsBack | climate-platform/internal/reconcile/reconcile.go:402-447 | an answered delivery of an admitted bundle is accepted iff the controller has its zones, and is then reported as reconciled iff moreover no zone id is repeated with different targets |
| Convergence.FirstPass | climate-platform/internal/reconcile/reconcile.go:268-336 | one undisturbed pass brings the controller in step if it can settle, and otherwise leaves it unable to |
| Convergence.SecondPass | climate-platform/internal/reconcile/reconcile.go:371-397 | a further pass on a controller in step clears status, failures and drift, and changes nothing when they are clear |
| Convergence.CalmPassesFollow | climate-platform/internal/reconcile/reconcile.go:268-397 | what every number of undisturbed passes keeps and reaches |
| Convergence.ConvergesExactly | climate-platform/internal/reconcile/reconcile.go:268-397 | from any state whatever its past (aborts, partial deliveries, outside edits): undisturbed passes settle a greenhouse iff it is in step already or has a retry left and a bundle its controller can hold; one pass to be in step, two to be settled, then no change at all |
| Convergence.Quiescent | climate-platform/internal/reconcile/reconcile.go:254-314 | from the third pass on the whole state, writes and PATCHes included, stays the same |
| Convergence.DistinctIsConsistent | climate-platform/internal/domain/setpoints.go:74-86 | distinct zone ids always reconcile |
| Convergence.RepeatedZoneNeverSettles | climate-platform/internal/api/validate_profiles.go:14-51 | a concrete bundle naming one zone twice passes the validator, and no number of passes settles it on any controller |
| Convergence.RepeatedZoneAdmitted | climate-platform/internal/api/validate_profiles.go:36-50 | the validator admits that bundle |
| RefusedApply.RefusedExactly | climate-platform/internal/reconcile/reconcile.go:123-147 | an answered Apply of an admitted bundle is refused iff the controller lacks one of its zones; refused, it records and tells nothing and leaves on the controller the bundle's globals and exactly its zones before the missing one |
| RefusedApply.TracelessExactly | climate-platform/internal/reconcile/reconcile.go:402-428 | it leaves the controller as it was iff all it would write was in force already |
| RefusedApply.ReportedAfter | climate-platform/internal/reconcile/reconcile.go:431-447 | the controller then reports its old zones under the zones written |
| RefusedApply.NothingToRestore | climate-platform/internal/reconcile/reconcile.go:268-286 | with no intended state any number of passes changes nothing |
| RefusedApply.RestoredExactly | climate-platform/internal/reconcile/reconcile.go:268-397 | with intended state passes bring the controller back to the newest revision iff what was written agrees with it, or a retry is left and the controller can hold it |
| Shortfalls.DriftNeverTold | climate-platform/internal/reconcile/reconcile.go:340-368 | a three-step run whose last pass ends between storing and telling: the flag is set, no event and no frame, and the next pass only tells that drift is over |
| Shortfalls.AssignedRun | climate-platform/internal/api/assignment.go:37-85 | creating a profile and assigning its stage amounts to one Apply of the stage's targets |
| Shortfalls.RefusedAssignmentSticks | climate-platform/internal/api/assignment.go:66-81 | the first assignment of a greenhouse naming a zone its controller lacks: refused, nothing recorded, the globals changed, and no number of passes changes that |
| Shortfalls.RepeatedZoneRecorded | climate-platform/internal/api/profiles.go:25-42 | the bundle naming a zone twice becomes the newest revision through profile and assignment, on any controller, and is then never settled |
| SetpointApi.MergeZonePatch | climate-platform/internal/api/setpoints.go:221-246 | a zone merge succeeds iff every entry is complete, known and not repeated; entries land on the last zone of that id |
| SetpointApi.MergeKeepsTopology | climate-platform/internal/api/setpoints.go:221-246 | a merge keeps the zone-id sequence; each named zone takes the patch's targets, the others stay |
| SetpointApi.MergeableExactly | climate-platform/internal/api/setpoints.go:221-246 | a merge can be made iff every entry names all its fields, its zone is on the baseline and no two entries name the same zone |
| SetpointApi.ApplyPatch | climate-platform/internal/api/setpoints.go:171-213 | a partial edit overlays exactly the fields it carries on its baseline, or fails with the zone merge |
| SetpointApi.PatchedIsEdit | climate-platform/internal/api/setpoints.go:171-246 | a bundle is the result iff field by field it is the edit where the edit carries the field and the baseline elsewhere, zones likewise; in particular it is unique |
| SetpointApi.PrecheckSound | climate-platform/internal/api/validate.go:96-164 | the check on the bare edit never turns away one whose resulting bundle would be valid |
| SetpointApi.Server.PostProfile | climate-platform/internal/api/profiles.go:25-42 | a profile is stored iff it is valid and its id new |
| SetpointApi.Server.PatchProfile | climate-platform/internal/api/profiles.go:55-86 | a profile changes by the given fields iff they are acceptable and it exists |
| SetpointApi.ProfileEdited | climate-platform/internal/api/profiles.go:55-86 | a profile edit changes the fields it carries, in that profile, and nothing else |
| SetpointApi.Server.PutAssignment | climate-platform/internal/api/assignment.go:37-85 | the assignment is stored and the stage's targets applied iff profile and stage exist |
| SetpointApi.AssignsExactly | climate-platform/internal/api/assignment.go:54-81 | assigning a stage, the first of its name in the profile, stores exactly that assignment, applies that stage's targets and puts its envelope in force |
| SetpointApi.UnknownAssignment | climate-platform/internal/api/assignment.go:44-64 | with no such greenhouse, profile or stage an assignment changes nothing |
| SetpointApi.Server.ApplySetpointWrite | climate-platform/internal/api/setpoints.go:95-165 | an edit is applied iff it is non-empty, its merge succeeds, the candidate is valid and, for the optimizer, inside the active envelope |
| SetpointApi.WriteExactly | climate-platform/internal/api/setpoints.go:95-165 | a write request hands the reconciler exactly the bundle that is its edit of the baseline, if that is valid and, for the optimizer, inside the active envelope; with no such bundle it changes nothing |
| SetpointApi.RevisionIsTheEdit | climate-platform/internal/api/setpoints.go:171-213 | field by field, the revision a write request appends equals the edit where the edit carries the field, elsewhere the newest revision or without one the controller's report; with no zones in the edit the zones stay |
| SetpointApi.Server.GetBaseline | climate-platform/internal/reconcile/reconcile.go:213-229 | edits merge onto the newest revision, or without one onto what the controller reports |
| SetpointApi.Server.ResolveStageBounds | climate-platform/internal/api/setpoints.go:59-73 | the envelope of the stage assigned at this moment, if any |
| SetpointApi.ActiveBoundsExactly | climate-platform/internal/api/setpoints.go:59-73 | they are those of the first stage of that name in the assigned profile, if there is one |
| SetpointApi.CandidateValid | climate-platform/internal/api/setpoints.go:95-165 | whatever an edit puts in force is valid, and for the optimizer inside the active envelope |
| SetpointApi.LedgerAlwaysValid | climate-platform/internal/api/setpoints.go:110-165 | in every run of profile writes, assignments, edits, optimizer writes, passes and outside changes, every stored profile and every ledger entry is valid |
| SetpointApi.OptimizerStaysInEnvelope | climate-platform/internal/api/setpoints.go:133-152 | whatever request appends an optimizer revision, its bundle lies inside the envelope assigned at that moment |
| SetpointApi.AssignmentRecordsItsStage | climate-platform/internal/api/assignment.go:54-85 | after any run, an assignment that appends records its stage's own targets, which pass that stage's optimizer gate |
| SetpointApi.EveryRunConverges | climate-platform/internal/reconcile/reconcile.go:254-314 | after any run of requests, failures and aborts, a greenhouse with intended state is settled by undisturbed passes iff it can settle |
| SetpointApi.OrdinaryGreenhouseSettles | climate-platform/internal/reconcile/reconcile.go:254-314 | with distinct zones, all on the controller, and a retry left, two undisturbed passes settle any greenhouse after any run |
| Fusion.FuseTemperature | climate-controller/src/sensing.rs:171-230 | with two probes or more the value times the number of probes within the limit of the median is their sum, and the finding says how many agree; one probe is taken as it is with lost redundancy reported; none gives no temperature |
| Fusion.MedianIsMiddle | climate-controller/src/sensing.rs:293-302 | the median is the middle of the probes in any ordered arrangement, or the mean of the middle two |
| Fusion.SortSorts | climate-controller/src/sensing.rs:293-302 | the sort the median takes is ordered and a permutation |
| Fusion.FusionIgnoresOrder | climate-controller/src/sensing.rs:171-230 | value and finding do not depend on the order of the probes |
| Fusion.FusionLostExactly | climate-controller/src/sensing.rs:190-228 | with redundancy the temperature is lost iff fewer than two probes lie within the limit of the median; disagreement is raised iff at least two but not all do |
| Fusion.MedianTracksMajority | climate-controller/src/sensing.rs:293-302 | a strict majority of probes within eps of the truth keeps the median within eps of it |
| Fusion.FusionTolerant | climate-controller/src/sensing.rs:171-230 | with a strict majority within eps of the truth and a limit of at least 2 eps, fusion yields a value within eps + limit of the truth and keeps every probe of the majority |
| Fusion.HalfIsNotEnough | climate-controller/src/sensing.rs:190-228 | exactly half is not enough: a four-probe input that loses the temperature |
| Fusion.StuckTracker.Observe | climate-controller/src/sensing.rs:55-62 | the count returned is the number of repeats ending the readings seen so far |
| Fusion.RepeatsExactly | climate-controller/src/sensing.rs:55-62 | the count reaches w iff the last w + 1 readings are equal |
| Fusion.DistrustedExactly | climate-controller/src/sensing.rs:235-275 | a channel is distrusted iff its reading is out of bounds, or strictly inside them and the last window + 1 readings are all the same |
| Constraints.Shape | climate-controller/src/safety/constraints.rs:72-116 | dwell, then rate, then clamp; ticks in state restart when on and off change |
| Constraints.EveryTickExactly | climate-controller/src/safety/constraints.rs:72-116 | in every run an actuator stays where it is iff an unwaived tick would end a run of on- or off-levels that is not yet minimum + 1 ticks long; in every other case it moves towards what is asked by the rate step at most, so a dwell runs out |
| Constraints.FirstTickExactly | climate-controller/src/safety/constraints.rs:72-116 | the first tick moves from 0 with no dwell in the way |
| Constraints.ConstraintState.Apply | climate-controller/src/safety/constraints.rs:59-68 | every commanded actuator is shaped from its own past and sent its shaped level; the rest keep theirs |
| Constraints.TicksCountTheRun | climate-controller/src/safety/constraints.rs:110-115 | the tick counter is the length so far of the current run of on- or off-levels |
| Constraints.MinimumOnTime | climate-controller/src/safety/constraints.rs:79-96 | an on-run ended by an unwaived tick lasted at least minimum on (or open) + 1 ticks, any rate limit included |
| Constraints.MinimumOffTime | climate-controller/src/safety/constraints.rs:79-96 | an off-run ended by an unwaived tick lasted at least minimum off + 1 ticks |
| Constraints.SlewBound | climate-controller/src/safety/constraints.rs:98-115 | between any two ticks of any run the level moves by at most rate times the elapsed ticks |
| Constraints.SettlesExactly | climate-controller/src/safety/constraints.rs:98-115 | a held target with no dwell in the way is at min(distance, k * rate) after k ticks, never passed, then kept |
| Constraints.LevelsInRange | climate-controller/src/safety/constraints.rs:106-110 | levels stay in [0, 100] in every run |
| Interlocks.Latch.Update | climate-controller/src/safety/interlocks.rs:29-40 | assert over the threshold; clear only when recovered and held long enough |
| Interlocks.RaisesExactly | climate-controller/src/safety/interlocks.rs:29-40 | a clear latch is raised exactly by a trusted reading over the threshold |
| Interlocks.ClearsExactly | climate-controller/src/safety/interlocks.rs:29-40 | a standing latch clears exactly at the first tick that releases it: held long enough with a reading below the margin, or a loss where that releases |
| Interlocks.InterlockState.Apply | climate-controller/src/safety/interlocks.rs:58-131 | both latches updated, the imposed levels written over the command, exactly those actuators forced, faults while asserted |
| Interlocks.InterlockState.GuardTemperature | climate-controller/src/safety/interlocks.rs:70-104 | no trusted temperature: heater, fans and vents off and the latch reset; critical: heater off, fans and vents full |
| Interlocks.InterlockState.GuardCo2 | climate-controller/src/safety/interlocks.rs:106-121 | a CO₂ latch asserted on a trusted reading opens the vents and stops the injector |
| Interlocks.AssertsAtOnce | climate-controller/src/safety/interlocks.rs:29-40 | a trusted reading over the threshold leaves the latch asserted in its own tick, whatever came before |
| Interlocks.StandsUntilCleared | climate-controller/src/safety/interlocks.rs:29-40 | over any readings, trusted or not, the latch stands from an assertion until a tick at least the minimum hold later with a reading below threshold minus margin, or for the temperature latch a lost reading |
| Interlocks.BetweenAsserts | climate-controller/src/safety/interlocks.rs:29-40 | between two assertions lies a tick that released the latch in that way |
| Interlocks.NoChatter | climate-controller/src/safety/interlocks.rs:29-40 | readings that never fall below the margin, and are never lost where a loss releases, assert at most once |
| ActuatorHealth.HealthState.Monitor | climate-controller/src/safety/actuator_health.rs:60-239 | one monitor step: all three counters advanced, the disabled set rebuilt from exactly this tick's alarms |
| ActuatorHealth.HealthState.MonitorStuck | climate-controller/src/safety/actuator_health.rs:77-99 | divergence counted per readback, reset on agreement, failing at the window |
| ActuatorHealth.HealthState.MonitorValves | climate-controller/src/safety/actuator_health.rs:101-140 | per zone: dry ticks counted while the valve is open and the soil does not rise |
| ActuatorHealth.HealthState.MonitorPusher | climate-controller/src/safety/actuator_health.rs:142-238 | a challenge opened, answered, failed or dropped |
| HealthRuns.LastSoilIsLatest | climate-controller/src/safety/actuator_health.rs:101-140 | over any run the soil remembered for a zone is its latest trusted reading |
| HealthRuns.FlatExactly | climate-controller/src/safety/actuator_health.rs:101-140 | over any run the dry count reaches w iff each of the last w ticks had the valve open and a trusted reading not above the latest before |
| HealthRuns.ValveAlarmExactly | climate-controller/src/safety/actuator_health.rs:101-140 | a valve is called unresponsive iff the whole window was dry |
| HealthRuns.ChallengeIsMark | climate-controller/src/safety/actuator_health.rs:142-238 | a challenge is open iff the last tick challenged the actuator, and its baseline is the best value since it began (for lamps the first) |
| HealthRuns.ChallengedMeans | climate-controller/src/safety/actuator_health.rs:142-238 | whom a tick challenges: each actuator by the variable it drives while that is short of its own target |
| HealthRuns.UnansweredMeans | climate-controller/src/safety/actuator_health.rs:142-238 | and what is no answer: short of the mark by 0.2 degrees, 1 % humidity or 10 ppm CO₂, or for lamps not 10 of light above it |
| HealthRuns.TicksExactly | climate-controller/src/safety/actuator_health.rs:142-238 | a challenge's count reaches w iff each of the last w ticks fell short of that mark by the margin |
| HealthRuns.PusherAlarmExactly | climate-controller/src/safety/actuator_health.rs:142-238 | an actuator is called unresponsive iff the whole window went unanswered |
| Overrides.OverrideState.Set | climate-controller/src/overrides.rs:39-48 | the level clamped, the expiry set (saturating), an earlier override replaced |
| Overrides.OverrideState.Clear | climate-controller/src/overrides.rs:51-53 | exactly that actuator's override goes |
| Overrides.OverrideState.Expire | climate-controller/src/overrides.rs:56-59 | exactly the overrides at or past their expiry go |
| Overrides.OverrideState.Apply | climate-controller/src/overrides.rs:72-76 | every active override replaces the loops' level; other levels stay |
| Overrides.InForceExactly | climate-controller/src/overrides.rs:39-59 | an override neither replaced nor cleared is in force on exactly ttl consecutive ticks, whatever is written for other actuators |
| Pipeline.Pipeline.Tick | climate-controller/src/pipeline.rs:62-160 | health, loops, override, interlocks, health force, fail-closed, constraints and the next baseline, in that order, for any loop output |
| Pipeline.ForceOff | climate-controller/src/pipeline.rs:119-122 | every disabled actuator is commanded 0 and forced |
| Pipeline.RestoreIntended | climate-controller/src/pipeline.rs:150-157 | the next baseline is what was sent, but for disabled actuators what was intended |
| Pipeline.RunInRange | climate-controller/src/pipeline.rs:62-160 | levels stay in [0, 100] in every run of the controller |
| Pipeline.NeverHeatsBlindOrCritical | climate-controller/src/pipeline.rs:102-129 | with no trusted temperature or the critical latch asserted the heater is sent max(0, previous - step), 0 without a rate limit, for any loops, overrides and health |
| Pipeline.CriticalCools | climate-controller/src/pipeline.rs:102-129 | under the critical latch fans and vents are sent min(100, previous + step) unless disabled by health |
| Pipeline.CeilingStopsInjection | climate-controller/src/pipeline.rs:102-129 | under the CO₂ latch the injector goes down and the vents up, overrides notwithstanding |
| Pipeline.CriticalWithinOneTick | climate-controller/src/safety/interlocks.rs:58-100 | in every run the tick of an over-critical reading already does all of this |
| SafetyRuns.RunLatches | climate-controller/src/safety/interlocks.rs:58-124 | in every run of the controller each interlock's latch is the latch run over that run's own readings |
| SafetyRuns.Hysteresis | climate-controller/src/safety/interlocks.rs:58-124 | in every run, between two ticks that raise an interlock lies one with a trusted reading below threshold minus margin at least the minimum hold after the first, or one that lost the temperature |
| SafetyRuns.RaisesExactly | climate-controller/src/safety/interlocks.rs:58-124 | in every run of the controller a clear interlock is raised exactly by a trusted reading over its configured threshold |
| SafetyRuns.ClearsExactly | climate-controller/src/safety/interlocks.rs:58-124 | in every run of the controller a raised interlock is cleared exactly by the first tick that lets go of it |
| SafetyRuns.LetsHeatAgain | climate-controller/src/pipeline.rs:102-129 | and in that tick the heater is again left to overrides and loops |
| SafetyRuns.AskedExactly | climate-controller/src/pipeline.rs:93-117 | who decides the level asked of an actuator: CO₂ interlock over temperature interlock over override over loops, with the levels each imposes |
| SafetyRuns.DemandedExactly | climate-controller/src/pipeline.rs:111-129 | a health fault turns what is asked into 0, and the dwell is waived iff health, an interlock or a loop failing closed says so |
| SafetyRuns.RunOverrides | climate-controller/src/pipeline.rs:102-104 | in every run the overrides left by the last tick are those in force over the run's writes |
| SafetyRuns.OverrideLasts | climate-controller/src/pipeline.rs:102-104 | in every run of the controller an override neither replaced nor cleared is applied on exactly ttl ticks, and is then what is asked of the actuator unless an interlock imposes a level |
| SafetyRuns.ClearedIsGone | climate-controller/src/overrides.rs:51-53 | in every run an override cleared and not written again is applied in no tick from there on |
| TickRuns.SentIsShaped | climate-controller/src/pipeline.rs:122-129 | in every run the level sent to an actuator is the shaper's level over that actuator's own demands |
| TickRuns.SentExactly | climate-controller/src/safety/constraints.rs:72-116 | every level sent in every run of the controller, exactly: held while an unwaived tick would end a run before its minimum time, otherwise moved towards what is demanded by the rate step at most |
| TickRuns.FirstSentExactly | climate-controller/src/safety/constraints.rs:72-116 | likewise the first level sent, from 0 |
| TickRuns.NoShortCycles | climate-controller/src/safety/constraints.rs:72-116 | no short cycling over whole runs of the controller, safety moves excepted |
| TickRuns.SentSlewBound | climate-controller/src/safety/constraints.rs:98-115 | levels sent obey the rate over whole runs, safety moves included |
| TickRuns.SentInRange | climate-controller/src/hal/mod.rs:84-94 | every level sent lies in [0, 100] |
| TickRuns.StuckExactly | climate-controller/src/safety/actuator_health.rs:77-99 | over any run the stuck count reaches w iff the readback diverged on each of the last w ticks |
| StuckRuns.JudgedAgainst | climate-controller/src/pipeline.rs:150-157 | a readback diverges iff it is off what was sent the tick before, or for a disabled actuator off what was asked |
| StuckRuns.DisabledExactly | climate-controller/src/safety/actuator_health.rs:60-99 | after a tick an actuator is disabled iff its stuck count is at the window or it raised a no-response alarm in that tick |
| StuckRuns.FrozenIsDisabled | climate-controller/src/pipeline.rs:111-157 | a readback that freezes after any tick of any run, off both what is asked and what is sent from there on, is disabled from the window-th tick after that on |
| StuckRuns.StuckAtExactly | climate-controller/src/safety/actuator_health.rs:77-99 | anywhere in a run an actuator is called stuck iff its readback diverged on each of the window's last ticks |
| StuckRuns.StaysStuckExactly | climate-controller/src/pipeline.rs:150-157 | once stuck, an actuator stays so exactly as long as its readback is off what is asked |
| StuckRuns.SimulatedTracks | climate-controller/src/hal/sim.rs:182-201 | in a loop with the simulated hardware an actuator without a stuck fault reads back what was sent |
| StuckRuns.TrackingIsHealthy | climate-controller/src/safety/actuator_health.rs:77-99 | a tracking actuator with no no-response alarm so far has stuck count 0 and is not disabled, in every reachable state |
| StuckRuns.TrackingDivergesExactly | climate-controller/src/pipeline.rs:150-157 | a tracking actuator looks divergent iff it is disabled and held more than the tolerance off what is asked |
| StuckRuns.ObedientCalledStuckExactly | climate-controller/src/pipeline.rs:111-157 | a tracking actuator, rate limit or not, is called stuck iff each of the window's last ticks found it disabled and its sent level more than the tolerance off what was asked |
| StuckRuns.ObedientCalledStuck | climate-controller/src/pipeline.rs:111-157 | without a rate limit: kept disabled while more than the tolerance is asked, it is called stuck after the window |
| StuckRuns.CoolingIsCalledStuck | climate-controller/src/pipeline.rs:150-157 | a four-tick run in which a heater that reads back exactly what was sent is called stuck |
| LiveAlerts.ActiveFaults | climate-platform/internal/ingest/decode.go:214-223 | a state frame's faults by component and zone, the last report of each |
| LiveAlerts.Restamp | climate-platform/internal/state/snapshot.go:98-108 | a fault that keeps its grading keeps its start, others start now; the flag is set iff some fault is new or graded anew |
| LiveAlerts.Fleet.SetActiveFaults | climate-platform/internal/state/snapshot.go:94-111 | the set is replaced, and changed is reported iff the (type, severity) map differs |
| LiveAlerts.SameGradings | climate-platform/internal/state/snapshot.go:99-108 | equal size and every key kept is the same map: the size test plus the loop miss no clearing |
| LiveAlerts.UnchangedIsIdentical | climate-platform/internal/state/snapshot.go:94-111 | an unchanged frame leaves the set as it was, every start included |
| LiveAlerts.SinceIsOnset | climate-platform/internal/state/snapshot.go:94-111 | over any run of frames a fault's start is the time of the frame from which on every frame carries it with its grading |
| LiveAlerts.ListActiveAlerts | climate-platform/internal/api/active_alerts.go:14-60 | the listing holds each standing alert of each registered greenhouse that passes the filters exactly once, sorted by start |
| LiveAlerts.ListingExactly | climate-platform/internal/api/active_alerts.go:14-60 | an alert is listed iff a registered greenhouse has the fault it tells of, kind and severity spelled out, and the greenhouse, kind and severity filters let it through |
| LiveAlerts.RefetchIsUnique | climate-platform/internal/api/active_alerts.go:14-60 | two listings of the same fleet and scope are equal as multisets |
| LiveAlerts.NewActiveAlerts | climate-platform/internal/ws/frames.go:137-156 | a frame holds the greenhouse's whole set, each alert once, kind and severity mapped as in the listing |
| LiveAlerts.QueryCache.Apply | climate-frontend/src/lib/livePatch.ts:157-182 | every cached list the frame concerns loses that greenhouse's alerts and gains the frame's that pass its filter; the others stay |
| LiveAlerts.FiltersAgree | climate-frontend/src/lib/livePatch.ts:171-175 | the dashboard's filter and the server's agree on every well-typed scope |
| LiveAlerts.FrameRepairs | climate-frontend/src/lib/livePatch.ts:157-182 | a frame makes a list exact for its greenhouse whatever the list held before |
| LiveAlerts.FrameKeepsOthers | climate-frontend/src/lib/livePatch.ts:176-180 | and leaves what the list holds for other greenhouses exact |
| LiveView.LiveView.OnState | climate-platform/internal/ingest/ingest.go:258-298 | one state message: dropped for unknown or mismatched greenhouses, else stored, broadcast iff changed, and patched into the cache if delivered |
| LiveView.LiveView.Fetch | climate-platform/internal/api/active_alerts.go:14-60 | a fetch caches the server's listing |
| LiveView.StepKeepsUpToDate | climate-platform/internal/ingest/ingest.go:294-298 | every step keeps each list exact for every greenhouse whose latest frame reached it |
| LiveView.RunIsUpToDate | climate-platform/internal/ws/hub.go:39-54 | so does every run, frames shed for a slow subscriber included |
| LiveView.FleetIsSeen | climate-platform/internal/ingest/ingest.go:258-298 | at every point of every run a greenhouse's set is what its own frames so far make of it; unregistered or mismatched messages leave no trace |
| LiveView.CachedEqualsRefetch | climate-frontend/src/lib/livePatch.ts:157-182 | with no frame lost, at every point of every run each cached list equals what a refetch would return, as a multiset |
| IngestBuffer.Writer.Push | climate-platform/internal/ingest/buffer.go:46-59 | a push nothing interferes with: one round, or two and the oldest shed when full |
| IngestBuffer.Writer.Flush | climate-platform/internal/ingest/buffer.go:78-91 | non-empty batches are handed over, readings first, and emptied |
| IngestBuffer.Writer.Receive | climate-platform/internal/ingest/buffer.go:99-112 | one record batched or, for an event, handed over at once; a flush at 256 |
| IngestBuffer.Writer.Run | climate-platform/internal/ingest/buffer.go:71-115 | the writer's loop over whatever its select picks, a last flush when cancelled |
| IngestBuffer.LoopIsRun | climate-platform/internal/ingest/buffer.go:71-115 | what the loop leaves in channel and batches is what the interleaved machine leaves after the same writer steps |
| IngestBuffer.FlushHandsOverAll | climate-platform/internal/ingest/buffer.go:78-91 | in every interleaving, after a tick of the flush timer or the stop everything consumed has been handed to the store |
| IngestBuffer.TakeBatches | climate-platform/internal/ingest/buffer.go:99-112 | an event is handed over at once, a reading or sample only when it makes the 256th pending |
| IngestBuffer.RunIsSound | climate-platform/internal/ingest/buffer.go:46-59 | in every interleaving of any number of producers and the writer: length at most the capacity; removed records then the queue are the accepted sequence; counted plus not-yet-counted drops are the records shed |
| IngestBuffer.AcceptedIsConserved | climate-platform/internal/ingest/buffer.go:46-115 | consumed and shed are in-order subsequences of what was accepted, and with the queue they make it up exactly |
| IngestBuffer.RunIsAccounted | climate-platform/internal/ingest/buffer.go:71-115 | in every interleaving, kind by kind and in order, what was handed to the store then what is pending is what was consumed; fewer than 256 pending at the loop head, at most 256 a call, none pending after the stop |
| IngestBuffer.LonePush | climate-platform/internal/ingest/buffer.go:46-59 | with one producer, whatever the writer does between, a push takes at most two rounds and sheds at most one record |
| IngestBuffer.PushIsAlone | climate-platform/internal/ingest/buffer.go:46-59 | the push method is the uninterrupted run of those atomic steps |
| Topics.ParseBuild | climate-platform/internal/ingest/topic.go:34-55 | parsing a printed topic gives its parts back iff no name holds a slash and the greenhouse is named |
| Topics.BuildParse | climate-platform/internal/ingest/topic.go:34-55 | rebuilding any accepted topic gives the original string |
| Topics.BuildIsInjective | climate-controller/src/telemetry.rs:302-373 | no two topics with slash-free names and a named greenhouse are printed alike |
| Topics.TelemetryFrames | climate-controller/src/telemetry.rs:273-379 | the platform reads a tick's frames, one for one, as the trusted sensors, the actuators, the newly active faults and the state; only the last is retained |
| Irrigation.Clock.Advance | climate-controller/src/clock.rs:66-69 | a tick is one simulated second |
| Irrigation.IrrigationLoop.ScheduledNow | climate-controller/src/control/irrigation.rs:102-108 | true iff some scheduled minute starts at this second of the day |
| Irrigation.IrrigationLoop.Compute | climate-controller/src/control/irrigation.rs:60-99 | the valve is open iff irrigating; without a trusted reading it is shut and failed closed |
| Irrigation.LastEndIsLatest | climate-controller/src/control/irrigation.rs:67-83 | over any run the recorded end is the latest completed cycle; an abort on sensor loss is not recorded |
| Irrigation.StartsExactly | climate-controller/src/control/irrigation.rs:60-108 | a cycle starts iff idle, scheduled this second, soil trusted and below low, and the drain period has passed since every completed cycle |
| Irrigation.GoesOnExactly | climate-controller/src/control/irrigation.rs:67-83 | a cycle in progress goes on iff the reading is trusted and below the high threshold |
| Irrigation.StartsPerDay | climate-controller/src/clock.rs:72-74 | any 86,400 consecutive ticks hold at most as many starts as the schedule has distinct times |
| SimHal.SimulatedHal.Read | climate-controller/src/hal/sim.rs:317-339 | forced channels replace measured ones, no channel appears or disappears |
| SimHal.SimulatedHal.Command | climate-controller/src/hal/sim.rs:341-348 | levels clamped over all-off |
| SimHal.SimulatedHal.Step | climate-controller/src/hal/sim.rs:182-201 | readback is 100 or 0 under a stuck fault, else the command; lifetimes go down by one |
| SimHal.StuckReads | climate-controller/src/hal/sim.rs:182-201 | a stuck actuator reads 100 or 0 whatever it is sent |
| SimHal.FaultLasts | climate-controller/src/hal/sim.rs:182-201 | a stuck fault is there for exactly its remaining steps |
| SimHal.HealthyTracks | climate-controller/src/hal/sim.rs:182-201 | without a stuck fault the readback is what was sent |
| Injections.Runtime.Inject | climate-controller/src/runtime.rs:241-258 | every channel of the key forced for max(ttl, 1) steps and the record listed until now + ttl |
| Injections.Runtime.Clear | climate-controller/src/runtime.rs:259-264 | the key's channels released and every record of that metric and zone dropped |
| Injections.Runtime.Prune | climate-controller/src/runtime.rs:274-291 | exactly the expired records go, and with them every channel one of them covers |
| Injections.Runtime.Tick | climate-controller/src/runtime.rs:174-177 | prune, read, age, advance |
| Injections.RunIsGood | climate-controller/src/runtime.rs:220-291 | in every run without clashing expiries each forced channel was written by a record still listed, with that record's value and time left |
| Injections.EveryTickIsMirrored | climate-controller/src/runtime.rs:272-291 | at every tick of such a run a channel is forced iff a listed record covers it |
| Injections.MirroredExactly | climate-controller/src/runtime.rs:272-291 | listing and effect stay together from here on iff no two listed records on one channel have different expiries |
| Injections.DisjointKeysNeverClash | climate-controller/src/runtime.rs:294-312 | keys sharing no channel always qualify |
| Injections.ForcedForItsTtl | climate-controller/src/hal/sim.rs:304-313 | an injection forces its channels on exactly the next ttl ticks |
| Injections.ForcedToItsValue | climate-controller/src/hal/sim.rs:304-339 | while it is forced the channel reads the injected value |
| Injections.ClearReleases | climate-controller/src/runtime.rs:259-312 | a clear releases exactly the key's channels, each key's spelled out, and unlists exactly the records of its metric and zone |
| Injections.OverlapExample | climate-controller/src/runtime.rs:241-291 | all probes for ten seconds and one for five: at the fifth tick the first record lists a channel no longer forced |

## Left out

- HTTP routing, authentication, JSON codecs, MQTT clients, SQL and process supervision: replaced by state and scripted outcomes.
- Interleavings inside one reconciliation pass or Apply, and the loop over greenhouses with its jitter: Apply and a pass on one greenhouse are single steps here.
- Failures of the event table's insert and of reading the row or ledger: the programs log the first and carry on, the second ends the operation like any early stop.
- Message strings of faults, events and validation errors, the field paths of violations, and which of several violations comes first on the controller.
- NaN, rounding and the u64 saturation of ticks, except where `Overrides.InForceExactly` names it.
- The control loops' internals (PID, humidity, CO₂, lighting): their output is arbitrary here; irrigation alone is modelled.
- The plant simulation (trigonometry, noise, couplings), dew point, vapour pressure and DLI.
- The optimizer, its proxy and aggregate, and the planning-context read.
- The dashboard's components, hooks and query client beyond the cached alert lists, and the other frame kinds.
- Actuator health and sensor-fault maps of the live snapshot: same shape as the active faults, with no broadcast attached.
- LiveView.CachedEqualsRefetch: compares lists as multisets, because a patched list keeps frame order while a refetch is sorted by start; a fetch and a frame are single steps, and each list is well typed as the dashboard's types demand.
- IngestBuffer.RunIsAccounted: counts what is handed to the store; the program logs a failed insert and drops that batch, which the model does not tell apart.
- HealthRuns.PusherAlarmExactly: the two maps the program keeps per challenge, baseline and ticks, are one map here, since it always writes both.
- Topics.TelemetryFrames: models topics and the retain flag, not payloads.
- Deleting a greenhouse, and profile deletion beyond the foreign key that protects the assigned one.
- Actuator faults on the simulated hardware have no registry to mirror; their lifetimes are modelled in `SimHal` only.
