/** What every run of the reconciler keeps, and when its passes bring a controller into line. */
module ReconcilerRuns {
  import opened Text
  import opened Domain
  import opened Reconciler
  import Rest = ControllerRest
  import PlatformValidation

  /**
   One step of a run: an intended-state change, a reconciliation pass, an out-of-band change of the
   controller's configuration, or the pruning of superseded ledger rows.
   */
  datatype Step =
    | ApplyStep(bundle: Setpoints, source: Source, call: Call)
    | PassStep(call: Call)
    | EditStep(ctl: Rest.LiveController)
    | PruneStep(dropped: nat)

  function Start(ctl: Rest.LiveController): State {
    State([], None, ctl, [], [], [], 0)
  }

  /** The oldest rows go; the newest always stays. */
  function Pruned(ledger: seq<Revision>, dropped: nat): seq<Revision> {
    if ledger == [] then [] else ledger[if dropped < |ledger| then dropped else |ledger| - 1..]
  }

  function Next(s: State, max: nat, step: Step): State {
    match step
    case ApplyStep(b, source, call) => ApplyState(s, b, source, call)
    case PassStep(call) => PassState(s, max, call)
    case EditStep(ctl) => s.(ctl := ctl)
    case PruneStep(dropped) => s.(ledger := Pruned(s.ledger, dropped))
  }

  function Run(s: State, max: nat, steps: seq<Step>): State {
    if steps == [] then s else Next(Run(s, max, steps[..|steps| - 1]), max, steps[|steps| - 1])
  }

  function Newest(s: State): Revision
    requires s.ledger != []
  {
    s.ledger[|s.ledger| - 1]
  }

  function TheRow(s: State): Row {
    s.row.GetOr(NO_ROW)
  }

  // ---- what one delivery leaves in the exchange log ----

  /** From position `k` on, the log holds an accepted exchange for each patch, without a gap. */
  predicate AcceptedFrom(log: seq<Exchange>, patches: seq<Patch>, k: nat) {
    k + |patches| <= |log| &&
    forall i :: 0 <= i < |patches| ==> log[k + i].patch == patches[i] && log[k + i].answer.Accepted()
  }

  /** These exchanges are one uninterrupted delivery of the whole bundle: a 2xx for every PATCH, and nothing else. */
  predicate WholeDelivery(log: seq<Exchange>, b: Setpoints) {
    |log| == |Patches(b)| && AcceptedFrom(log, Patches(b), 0)
  }

  lemma {:induction false} SendAllLog(c: Rest.LiveController, patches: seq<Patch>, net: seq<Reply>, k: nat)
    ensures var d := SendAll(c, patches, net, k);
            && |d.log| <= |patches| && (patches != [] ==> d.log != [])
            && (forall i :: 0 <= i < |d.log| ==> d.log[i].patch == patches[i])
            && (d.answer.Accepted() ==> AcceptedFrom(d.log, patches, 0))
    decreases |patches|
  {
    hide Send;
    if patches != [] {
      var (c', answer) := Send(c, patches[0], ReplyAt(net, k));
      if answer.Accepted() {
        SendAllLog(c', patches[1..], net, k + 1);
      }
    }
  }

  lemma AcceptedIsWhole(log: seq<Exchange>, c: Rest.LiveController, b: Setpoints, net: seq<Reply>, k: nat)
    requires SendAll(c, Patches(b), net, k).answer.Accepted()
    ensures WholeDelivery((log + SendAll(c, Patches(b), net, k).log)[|log|..], b)
  {
    hide SendAll;
    SendAllLog(c, Patches(b), net, k);
    var d := SendAll(c, Patches(b), net, k);
    assert (log + d.log)[|log|..] == d.log;
  }

  // ---- bookkeeping ----

  predicate Dense(ledger: seq<Revision>) {
    forall i :: 0 < i < |ledger| ==> ledger[i].number == ledger[i - 1].number + 1
  }

  predicate Sound(s: State, max: nat) {
    && Dense(s.ledger)
    && (TheRow(s).lastDelivered.Some? ==> s.ledger != [] && TheRow(s).lastDelivered.value <= Newest(s).number)
    && TheRow(s).failCount <= max
    && (TheRow(s).drift <==> TheRow(s).driftFirstSeen.Some?)
  }

  lemma RecordKeepsSound(s: State, max: nat, b: Setpoints, source: Source, delivered: bool, call: Call)
    requires Sound(s, max)
    ensures Sound(RecordState(s, b, source, delivered, call), max)
  {
  }

  lemma ApplyKeepsSound(s: State, max: nat, b: Setpoints, source: Source, call: Call)
    requires Sound(s, max)
    ensures Sound(ApplyState(s, b, source, call), max)
  {
    hide SendAll, RecordState;
    var d := SendAll(s.ctl, Patches(b), call.net, 0);
    var sent := s.(ctl := d.ctl, log := s.log + d.log);
    RecordKeepsSound(s, max, b, source, false, call);
    RecordKeepsSound(sent, max, b, source, false, call);
    RecordKeepsSound(sent, max, b, source, true, call);
  }

  /** The row a pass stores: same or newest mark, no failure beyond the limit, drift with its first sighting. */
  predicate SoundRow(s: State, row: Row, max: nat) {
    && (row.lastDelivered == TheRow(s).lastDelivered || (s.ledger != [] && row.lastDelivered == Some(Newest(s).number)))
    && row.failCount <= max
    && (row.drift <==> row.driftFirstSeen.Some?)
  }

  lemma StoredRowSound(s: State, s': State, max: nat)
    requires Sound(s, max) && s'.ledger == s.ledger && SoundRow(s, TheRow(s'), max)
    ensures Sound(s', max)
  {
  }

  lemma PassStoresSound(s: State, max: nat, call: Call)
    requires SoundRow(s, TheRow(s), max)
    ensures SoundRow(s, TheRow(PassState(s, max, call)), max)
  {
    hide SendAll, IsReconciled, Rest.Reported, Patches;
  }

  lemma PassKeepsSound(s: State, max: nat, call: Call)
    requires Sound(s, max)
    ensures Sound(PassState(s, max, call), max)
  {
    hide Dense, PassState;
    PassKeepsLedger(s, max, call);
    PassStoresSound(s, max, call);
    StoredRowSound(s, PassState(s, max, call), max);
  }

  lemma StepKeepsSound(s: State, max: nat, step: Step)
    requires Sound(s, max)
    ensures Sound(Next(s, max, step), max)
    ensures NextNumber(Next(s, max, step).ledger) >= NextNumber(s.ledger)
  {
    hide ApplyState, PassState;
    match step
    case ApplyStep(b, source, call) =>
      ApplyKeepsSound(s, max, b, source, call);
      ApplyAppends(s, b, source, call);
    case PassStep(call) =>
      PassKeepsSound(s, max, call);
      PassKeepsLedger(s, max, call);
    case _ =>
  }

  /** An Apply appends at most one revision, its own; a refused or failed one may append none. */
  lemma ApplyAppends(s: State, b: Setpoints, source: Source, call: Call)
    ensures var s' := ApplyState(s, b, source, call);
            s'.ledger == s.ledger || s'.ledger == s.ledger + [Revision(NextNumber(s.ledger), source, b)]
  {
    hide SendAll;
  }

  lemma PassKeepsLedger(s: State, max: nat, call: Call)
    ensures PassState(s, max, call).ledger == s.ledger
  {
    hide SendAll, IsReconciled, Rest.Reported;
  }

  // ---- the delivered mark ----

  /** The step put the mark on the newest revision, and in this very step that revision's bundle was delivered whole. */
  predicate Earns(s: State, s': State) {
    && s'.ledger != [] && |s.log| <= |s'.log|
    && TheRow(s').lastDelivered == Some(Newest(s').number)
    && WholeDelivery(s'.log[|s.log|..], Newest(s').setpoints)
  }

  lemma RecordEarns(s: State, sent: State, b: Setpoints, source: Source, delivered: bool, call: Call)
    requires sent == s.(ctl := sent.ctl, log := sent.log) && |s.log| <= |sent.log|
    requires delivered ==> WholeDelivery(sent.log[|s.log|..], b)
    ensures var s' := RecordState(sent, b, source, delivered, call);
            TheRow(s').lastDelivered != TheRow(s).lastDelivered ==> Earns(s, s')
  {
    hide WholeDelivery;
  }

  lemma ApplyEarns(s: State, b: Setpoints, source: Source, call: Call)
    ensures var s' := ApplyState(s, b, source, call);
            TheRow(s').lastDelivered != TheRow(s).lastDelivered ==> Earns(s, s')
  {
    hide SendAll, RecordState, WholeDelivery;
    var d := SendAll(s.ctl, Patches(b), call.net, 0);
    var sent := s.(ctl := d.ctl, log := s.log + d.log);
    if d.answer.Accepted() {
      AcceptedIsWhole(s.log, s.ctl, b, call.net, 0);
      RecordEarns(s, sent, b, source, true, call);
    }
    RecordEarns(s, s, b, source, false, call);
    RecordEarns(s, sent, b, source, false, call);
  }

  lemma PassEarns(s: State, max: nat, call: Call)
    ensures var s' := PassState(s, max, call);
            TheRow(s').lastDelivered != TheRow(s).lastDelivered ==> Earns(s, s')
  {
    hide SendAll, IsReconciled, Rest.Reported, WholeDelivery;
    if s.ledger != [] {
      var d := SendAll(s.ctl, Patches(Newest(s).setpoints), call.net, 0);
      if d.answer.Accepted() {
        AcceptedIsWhole(s.log, s.ctl, Newest(s).setpoints, call.net, 0);
      }
    }
  }

  /** A step moves the delivered mark only by delivering the newest revision whole. */
  lemma MarkMovesOnlyEarned(s: State, max: nat, step: Step)
    ensures var s' := Next(s, max, step);
            TheRow(s').lastDelivered != TheRow(s).lastDelivered ==> Earns(s, s')
  {
    hide ApplyState, PassState, WholeDelivery;
    match step
    case ApplyStep(b, source, call) => ApplyEarns(s, b, source, call);
    case PassStep(call) => PassEarns(s, max, call);
    case _ =>
  }

  /** The newest revision changes only for one with a higher number. */
  lemma NewestKept(s: State, max: nat, step: Step)
    requires s.ledger != [] && Next(s, max, step).ledger != []
    ensures var s' := Next(s, max, step);
            Newest(s') == Newest(s) || Newest(s').number > Newest(s).number
  {
    hide ApplyState, PassState;
    match step
    case ApplyStep(b, source, call) => ApplyAppends(s, b, source, call);
    case PassStep(call) => PassKeepsLedger(s, max, call);
    case _ =>
  }

  /**
   Step j of the run delivered, whole and uninterrupted, the revision the mark stands on at the end; and if that is
   the newest revision, it is the very revision, not one that looks like it.
   */
  predicate EarnedBy(start: State, max: nat, steps: seq<Step>, j: nat)
    requires j < |steps|
  {
    var s, before, after := Run(start, max, steps), Run(start, max, steps[..j]), Run(start, max, steps[..j + 1]);
    && Earns(before, after)
    && TheRow(s).lastDelivered == Some(Newest(after).number)
    && (s.ledger != [] && Newest(s).number == Newest(after).number ==> Newest(s) == Newest(after))
  }

  predicate Earned(start: State, max: nat, steps: seq<Step>) {
    exists j :: 0 <= j < |steps| && EarnedBy(start, max, steps, j)
  }

  lemma {:induction false} MarkIsEarned(start: State, max: nat, steps: seq<Step>)
    requires Sound(start, max)
    ensures TheRow(Run(start, max, steps)).lastDelivered == TheRow(start).lastDelivered || Earned(start, max, steps)
  {
    hide Next, Sound, Earns;
    if steps != [] {
      var n := |steps| - 1;
      MarkIsEarned(start, max, steps[..n]);
      var before, s := Run(start, max, steps[..n]), Run(start, max, steps);
      MarkMovesOnlyEarned(before, max, steps[n]);
      assert steps[..n + 1] == steps;
      if TheRow(s).lastDelivered != TheRow(before).lastDelivered {
        EarnedNow(start, max, steps);
      } else if Earned(start, max, steps[..n]) {
        var j :| 0 <= j < n && EarnedBy(start, max, steps[..n], j);
        StaysEarned(start, max, steps, j);
      }
    }
  }

  lemma EarnedNow(start: State, max: nat, steps: seq<Step>)
    requires steps != [] && Earns(Run(start, max, steps[..|steps| - 1]), Run(start, max, steps))
    ensures EarnedBy(start, max, steps, |steps| - 1)
  {
    hide Next, WholeDelivery;
    assert steps[..|steps| - 1 + 1] == steps;
  }

  lemma StaysEarned(start: State, max: nat, steps: seq<Step>, j: nat)
    requires Sound(start, max) && j < |steps| - 1 && EarnedBy(start, max, steps[..|steps| - 1], j)
    requires var n := |steps| - 1;
             TheRow(Run(start, max, steps)).lastDelivered == TheRow(Run(start, max, steps[..n])).lastDelivered
    ensures EarnedBy(start, max, steps, j)
  {
    hide Next, Earns, Run, Sound;
    var n := |steps| - 1;
    assert steps[..n][..j] == steps[..j] && steps[..n][..j + 1] == steps[..j + 1];
    NumbersNeverReused(start, max, steps[..n]);
    MarkStaysBehind(Run(start, max, steps[..n]), max);
    RunLast(start, max, steps);
    var before := Run(start, max, steps[..n]);
    if before.ledger != [] && Run(start, max, steps).ledger != [] {
      NewestKept(before, max, steps[n]);
    }
  }

  lemma MarkStaysBehind(s: State, max: nat)
    requires Sound(s, max) && TheRow(s).lastDelivered.Some?
    ensures s.ledger != [] && TheRow(s).lastDelivered.value <= Newest(s).number
  {
  }

  lemma RunLast(start: State, max: nat, steps: seq<Step>)
    requires steps != []
    ensures Run(start, max, steps) == Next(Run(start, max, steps[..|steps| - 1]), max, steps[|steps| - 1])
  {
  }

  /**
   Every run, whatever the network and wherever operations are cut short, keeps the bookkeeping sound; and the
   delivered mark stands on a revision only because some step of the run got 2xx for that revision's global PATCH
   and all its zone PATCHes, one after the other.
   */
  lemma BookkeepingSound(ctl: Rest.LiveController, max: nat, steps: seq<Step>)
    ensures var s := Run(Start(ctl), max, steps);
            Sound(s, max) && (TheRow(s).lastDelivered.Some? ==> Earned(Start(ctl), max, steps))
  {
    hide Next, Earned;
    NumbersNeverReused(Start(ctl), max, steps);
    MarkIsEarned(Start(ctl), max, steps);
  }

  /** No revision number is ever given twice, pruning included. */
  lemma {:induction false} NumbersNeverReused(s: State, max: nat, steps: seq<Step>)
    requires Sound(s, max)
    ensures Sound(Run(s, max, steps), max)
    ensures NextNumber(Run(s, max, steps).ledger) >= NextNumber(s.ledger)
  {
    if steps != [] {
      NumbersNeverReused(s, max, steps[..|steps| - 1]);
      StepKeepsSound(Run(s, max, steps[..|steps| - 1]), max, steps[|steps| - 1]);
    }
  }

  // ---- drift frames and events ----

  function DriftEvents(events: seq<Event>): nat {
    if events == [] then 0
    else DriftEvents(events[..|events| - 1]) + if events[|events| - 1].DriftDetected? then 1 else 0
  }

  /** Frames alternate from true, the last one tells the stored flag, and each true frame has its event. */
  predicate Announced(s: State) {
    && (forall i :: 0 <= i < |s.frames| ==> (s.frames[i] <==> i % 2 == 0))
    && (TheRow(s).drift <==> |s.frames| % 2 == 1)
    && DriftEvents(s.events) == (|s.frames| + 1) / 2
  }

  /** The step ends between storing the row and telling the clients. */
  predicate CutShort(step: Step) {
    (step.ApplyStep? || step.PassStep?) && (step.call.stop.AtEvent? || step.call.stop.AtFrame?)
  }

  lemma EventAppended(events: seq<Event>, e: Event)
    ensures DriftEvents(events + [e]) == DriftEvents(events) + if e.DriftDetected? then 1 else 0
  {
    assert (events + [e])[..|events|] == events;
  }

  /** A drift found here is stored: no retry is left, or the correction is not cut off by the process dying. */
  predicate StoresDrift(s: State, max: nat, call: Call)
    requires s.ledger != []
  {
    TheRow(s).failCount >= max || !SendAll(s.ctl, Patches(Newest(s).setpoints), call.net, 2).answer.Died?
  }

  /** The guard, on the state before and the network's script, of a stored change of the drift flag. */
  predicate WillFlip(s: State, max: nat, step: Step) {
    match step
    case ApplyStep(b, _, call) =>
      && TheRow(s).drift && call.registered && call.reachable && call.stop !in {AtStart, AtAppend, AtRow}
      && SendAll(s.ctl, Patches(b), call.net, 0).answer.Accepted()
    case PassStep(call) =>
      && s.ledger != [] && call.registered && call.reachable && call.stop !in {AtStart, AtRow}
      && TheRow(s).lastDelivered == Some(Newest(s).number) && Readable(call.net)
      && (IsReconciled(Newest(s).setpoints, Rest.Reported(s.ctl)) <==> TheRow(s).drift)
      && (!TheRow(s).drift ==> StoresDrift(s, max, call))
    case _ => false
  }

  /** What a step does to the flag and tells about it: a change is told in the step that stores it or not at all. */
  predicate Tells(s: State, s': State, flips: bool, stop: Stop) {
    && (TheRow(s').drift <==> TheRow(s).drift != flips)
    && s'.frames == (if flips && stop !in {AtEvent, AtFrame} then s.frames + [!TheRow(s).drift] else s.frames)
    && DriftEvents(s'.events) == DriftEvents(s.events) + if flips && !TheRow(s).drift && !stop.AtEvent? then 1 else 0
  }

  lemma ApplyTells(s: State, max: nat, b: Setpoints, source: Source, call: Call)
    ensures Tells(s, ApplyState(s, b, source, call), WillFlip(s, max, ApplyStep(b, source, call)), call.stop)
  {
    hide SendAll, DriftEvents;
    EventAppended(s.events, Applied(source));
  }

  lemma PassTells(s: State, max: nat, call: Call)
    ensures Tells(s, PassState(s, max, call), WillFlip(s, max, PassStep(call)), call.stop)
  {
    hide SendAll, IsReconciled, Rest.Reported, DriftEvents;
    EventAppended(s.events, DriftDetected);
  }

  function StopOf(step: Step): Stop {
    if step.ApplyStep? || step.PassStep? then step.call.stop else Never
  }

  /** The flag changes exactly under the guard, and is told in that step unless it is cut short. */
  lemma FlipsExactly(s: State, max: nat, step: Step)
    ensures Tells(s, Next(s, max, step), WillFlip(s, max, step), StopOf(step))
    ensures CutShort(step) <==> StopOf(step) in {AtEvent, AtFrame}
  {
    hide ApplyState, PassState, WillFlip;
    match step
    case ApplyStep(b, source, call) => ApplyTells(s, max, b, source, call);
    case PassStep(call) => PassTells(s, max, call);
    case _ => assert !WillFlip(s, max, step) by { NothingFlips(s, max, step); }
  }

  lemma NothingFlips(s: State, max: nat, step: Step)
    requires step.EditStep? || step.PruneStep?
    ensures !WillFlip(s, max, step)
  {
  }

  /** The accounting breaks in exactly one way: a step that will flip the flag is cut short after storing it. */
  lemma AnnouncedExactly(s: State, max: nat, step: Step)
    requires Announced(s)
    ensures Announced(Next(s, max, step)) <==> !(CutShort(step) && WillFlip(s, max, step))
  {
    hide Next, WillFlip;
    FlipsExactly(s, max, step);
  }

  /** The new values of the flag at the changes of a run that were not cut short, in order. */
  function Told(s: State, max: nat, steps: seq<Step>): seq<bool> {
    if steps == [] then []
    else
      var n := |steps| - 1;
      var before := Run(s, max, steps[..n]);
      Told(s, max, steps[..n]) +
      if WillFlip(before, max, steps[n]) && !CutShort(steps[n]) then [!TheRow(before).drift] else []
  }

  /** Over any run the clients are told exactly those: a change missed in its own step is never told later. */
  lemma {:induction false} FramesAreToldFlips(s: State, max: nat, steps: seq<Step>)
    ensures Run(s, max, steps).frames == s.frames + Told(s, max, steps)
  {
    hide Next, WillFlip, CutShort;
    if steps != [] {
      var n := |steps| - 1;
      FramesAreToldFlips(s, max, steps[..n]);
      FlipsExactly(Run(s, max, steps[..n]), max, steps[n]);
    }
  }

  /** In a run where no step is cut short there, clients hear every change of the flag exactly once. */
  lemma {:induction false} EveryFlipAnnounced(ctl: Rest.LiveController, max: nat, steps: seq<Step>)
    requires forall step :: step in steps ==> !CutShort(step)
    ensures Announced(Run(Start(ctl), max, steps))
  {
    if steps != [] {
      EveryFlipAnnounced(ctl, max, steps[..|steps| - 1]);
      AnnouncedExactly(Run(Start(ctl), max, steps[..|steps| - 1]), max, steps[|steps| - 1]);
    }
  }

  // ---- bounded correction ----

  /** Deliveries begun: each begins with its one global PATCH. */
  function Starts(log: seq<Exchange>): nat {
    if log == [] then 0 else Starts(log[..|log| - 1]) + if log[|log| - 1].patch.Globals? then 1 else 0
  }

  lemma {:induction false} StartsOfZones(log: seq<Exchange>, more: seq<Exchange>)
    requires forall i :: 0 <= i < |more| ==> more[i].patch.OfZone?
    ensures Starts(log + more) == Starts(log)
  {
    if more == [] {
      assert log + more == log;
    } else {
      var n := |more| - 1;
      StartsOfZones(log, more[..n]);
      assert (log + more)[..|log + more| - 1] == log + more[..n];
    }
  }

  lemma DeliveryStartsOnce(log: seq<Exchange>, c: Rest.LiveController, b: Setpoints, net: seq<Reply>, k: nat)
    ensures Starts(log + SendAll(c, Patches(b), net, k).log) == Starts(log) + 1
  {
    hide SendAll;
    SendAllLog(c, Patches(b), net, k);
    var d := SendAll(c, Patches(b), net, k).log;
    var first := log + [d[0]];
    assert first[..|log|] == log;
    StartsOfZones(first, d[1..]);
    assert log + d == first + d[1..];
  }

  /** A pass whose bookkeeping write goes through: no store error there and no abort on the wire. */
  predicate WritesThrough(call: Call) {
    !call.stop.AtRow? && forall i :: 0 <= i < |call.net| ==> !call.net[i].Crash?
  }

  lemma {:induction false} NoCrashNoDeath(c: Rest.LiveController, patches: seq<Patch>, net: seq<Reply>, k: nat)
    requires forall i :: 0 <= i < |net| ==> !net[i].Crash?
    ensures !SendAll(c, patches, net, k).answer.Died?
    decreases |patches|
  {
    if patches != [] {
      hide Handle;
      var (c', answer) := Send(c, patches[0], ReplyAt(net, k));
      NoCrashNoDeath(c', patches[1..], net, k + 1);
    }
  }
}
