/**
 The control-down reconciler for one greenhouse: the intended-state ledger, the bookkeeping row and
 the remote controller, with an adversarial network and aborts between any two calls. The functions
 say what each operation does to the whole state; the class performs it step by step.
 */
module Reconciler {
  import opened Text
  import opened Domain
  import opened ControllerRest

  // ---- one relay call ----

  predicate Ok2xx(status: int) {
    200 <= status < 300
  }

  type Refusal = s: int | !Ok2xx(s) witness 500

  /**
   What happens to one request: the controller answers; something on the way refuses it; the answer
   is lost, whether or not the controller handled the request; or the platform process dies around it.
   */
  datatype Reply = Answered | Refused(status: Refusal) | Lost(handled: bool) | Crash(handled: bool)

  datatype Patch = Globals(bundle: Setpoints) | OfZone(zone: ZoneTargets)

  datatype Answer = Status(code: int) | NoAnswer | Died {
    predicate Accepted() {
      Status? && Ok2xx(code)
    }
  }

  datatype Exchange = Exchange(patch: Patch, answer: Answer)

  /** Replies in call order; calls past the end are answered. */
  function ReplyAt(net: seq<Reply>, k: nat): Reply {
    if k < |net| then net[k] else Answered
  }

  function Handle(c: LiveController, p: Patch): (LiveController, int) {
    match p
    case Globals(b) => SetpointsWriteKeepsValid(c, GlobalBody(b)); HandleSetpoints(c, GlobalBody(b))
    case OfZone(z) => ZoneWriteKeepsValid(c, z.zoneId, ZoneBody(z)); HandleZone(c, z.zoneId, ZoneBody(z))
  }

  function Send(c: LiveController, p: Patch, reply: Reply): (LiveController, Answer) {
    var (c', status) := Handle(c, p);
    match reply
    case Answered => (c', Status(status))
    case Refused(code) => (c, Status(code))
    case Lost(handled) => (if handled then c' else c, NoAnswer)
    case Crash(handled) => (if handled then c' else c, Died)
  }

  // ---- delivering a bundle ----

  function Patches(b: Setpoints): seq<Patch> {
    [Globals(b)] + ZonePatches(b.zones)
  }

  function ZonePatches(zones: seq<ZoneTargets>): (patches: seq<Patch>)
    ensures |patches| == |zones|
    ensures forall i :: 0 <= i < |zones| ==> patches[i] == OfZone(zones[i])
  {
    seq(|zones|, i requires 0 <= i < |zones| => OfZone(zones[i]))
  }

  datatype Delivery = Delivery(ctl: LiveController, log: seq<Exchange>, answer: Answer)

  /** Patches sent in order until one is not accepted. */
  function SendAll(c: LiveController, patches: seq<Patch>, net: seq<Reply>, k: nat): Delivery
    decreases |patches|
  {
    if patches == [] then Delivery(c, [], Status(OK))
    else
      var (c', answer) := Send(c, patches[0], ReplyAt(net, k));
      var sent := [Exchange(patches[0], answer)];
      if !answer.Accepted() then Delivery(c', sent, answer)
      else
        var rest := SendAll(c', patches[1..], net, k + 1);
        Delivery(rest.ctl, sent + rest.log, rest.answer)
  }

  // ---- the stored state ----

  datatype Revision = Revision(number: nat, source: Source, setpoints: Setpoints)

  datatype DeliveryStatus = Unset | Delivered | Deferred | Rejected

  datatype Row = Row(
    lastDelivered: Option<nat>,
    status: DeliveryStatus,
    drift: bool,
    driftFirstSeen: Option<int>,
    driftLastSeen: Option<int>,
    lastAttempt: Option<int>,
    failCount: nat)

  const NO_ROW := Row(None, Unset, false, None, None, None, 0)

  datatype Event = Applied(source: Source) | DriftDetected

  /** `log` is every PATCH exchange so far, `frames` the broadcast drift frames, `writes` the store writes made. */
  datatype State = State(
    ledger: seq<Revision>,
    row: Option<Row>,
    ctl: LiveController,
    log: seq<Exchange>,
    events: seq<Event>,
    frames: seq<bool>,
    writes: nat)

  function NextNumber(ledger: seq<Revision>): nat {
    if ledger == [] then 1 else ledger[|ledger| - 1].number + 1
  }

  /** Where an operation ends early, by a store error or an abort: just before the named effect. */
  datatype Stop = Never | AtStart | AtAppend | AtRow | AtEvent | AtFrame

  datatype Call = Call(registered: bool, reachable: bool, now: int, net: seq<Reply>, stop: Stop)

  function WithRow(s: State, row: Row, stop: Stop): State {
    if stop.AtRow? then s else s.(row := Some(row), writes := s.writes + 1)
  }

  // ---- Apply ----

  datatype Outcome = Unregistered | RefusedBy(status: int) | Recorded(number: nat, delivered: bool) | Failed

  function RecordedRow(row: Row, number: nat, delivered: bool, now: int): Row {
    var touched := row.(lastAttempt := Some(now), status := if delivered then Delivered else Deferred, failCount := 0);
    if delivered then touched.(lastDelivered := Some(number), drift := false, driftFirstSeen := None) else touched
  }

  function RecordState(s: State, b: Setpoints, source: Source, delivered: bool, call: Call): State {
    if call.stop.AtAppend? then s
    else
      var number := NextNumber(s.ledger);
      var appended := s.(ledger := s.ledger + [Revision(number, source, b)], writes := s.writes + 1);
      var row := s.row.GetOr(NO_ROW);
      var stored := WithRow(appended, RecordedRow(row, number, delivered, call.now), call.stop);
      if call.stop.AtRow? || call.stop.AtEvent? then stored
      else
        var told := stored.(events := s.events + [Applied(source)]);
        if row.drift && delivered && !call.stop.AtFrame? then told.(frames := s.frames + [false]) else told
  }

  function ApplyState(s: State, b: Setpoints, source: Source, call: Call): State {
    if call.stop.AtStart? || !call.registered then s
    else if !call.reachable then RecordState(s, b, source, false, call)
    else
      var d := SendAll(s.ctl, Patches(b), call.net, 0);
      var sent := s.(ctl := d.ctl, log := s.log + d.log);
      match d.answer
      case Died => sent
      case NoAnswer => RecordState(sent, b, source, false, call)
      case Status(code) => if Ok2xx(code) then RecordState(sent, b, source, true, call) else sent
  }

  /** What the caller of Record, and then of Apply, is told. */
  function RecordOutcome(ledger: seq<Revision>, delivered: bool, stop: Stop): Outcome {
    if stop.Never? || stop.AtStart? then Recorded(NextNumber(ledger), delivered) else Failed
  }

  function ApplyOutcome(s: State, b: Setpoints, call: Call): Outcome {
    if call.stop.AtStart? then Failed
    else if !call.registered then Unregistered
    else if !call.reachable then RecordOutcome(s.ledger, false, call.stop)
    else
      match SendAll(s.ctl, Patches(b), call.net, 0).answer
      case Died => Failed
      case NoAnswer => RecordOutcome(s.ledger, false, call.stop)
      case Status(code) => if Ok2xx(code) then RecordOutcome(s.ledger, true, call.stop) else RefusedBy(code)
  }

  // ---- one reconciliation pass ----

  /** Both GETs of the comparison came back. */
  predicate Readable(net: seq<Reply>) {
    ReplyAt(net, 0).Answered? && ReplyAt(net, 1).Answered?
  }

  function SyncedState(s: State, row: Row, stop: Stop): State {
    if row.status == Delivered && row.failCount == 0 && !row.drift then s
    else
      var clear := row.(status := Delivered, failCount := 0, drift := false,
                        driftFirstSeen := if row.drift then None else row.driftFirstSeen);
      var stored := WithRow(s, clear, stop);
      if row.drift && stop !in {AtRow, AtEvent, AtFrame} then stored.(frames := s.frames + [false]) else stored
  }

  function ReassertState(s: State, row: Row, current: Revision, max: nat, call: Call): State {
    if row.failCount >= max then s
    else
      var d := SendAll(s.ctl, Patches(current.setpoints), call.net, 0);
      var sent := s.(ctl := d.ctl, log := s.log + d.log);
      var tried := row.(lastAttempt := Some(call.now));
      if d.answer.Died? then sent
      else if d.answer.Accepted() then
        WithRow(sent, tried.(lastDelivered := Some(current.number), status := Delivered, failCount := 0), call.stop)
      else
        WithRow(sent, tried.(status := Rejected, failCount := row.failCount + 1), call.stop)
  }

  function FlaggedRow(row: Row, now: int): Row {
    row.(drift := true, driftLastSeen := Some(now),
         driftFirstSeen := if row.driftFirstSeen.None? then Some(now) else row.driftFirstSeen)
  }

  function AnnounceState(s: State, row: Row, newly: bool, stop: Stop): State {
    var stored := WithRow(s, row, stop);
    if !newly || stop.AtRow? || stop.AtEvent? then stored
    else
      var told := stored.(events := s.events + [DriftDetected]);
      if stop.AtFrame? then told else told.(frames := s.frames + [true])
  }

  function DriftState(s: State, row: Row, current: Revision, max: nat, call: Call): State {
    var flagged := FlaggedRow(row, call.now);
    if row.failCount >= max then AnnounceState(s, flagged, !row.drift, call.stop)
    else
      var d := SendAll(s.ctl, Patches(current.setpoints), call.net, 2);
      var sent := s.(ctl := d.ctl, log := s.log + d.log);
      if d.answer.Died? then sent
      else
        var counted := flagged.(lastAttempt := Some(call.now), failCount := row.failCount + 1);
        AnnounceState(sent, counted, !row.drift, call.stop)
  }

  function PassState(s: State, max: nat, call: Call): State {
    if call.stop.AtStart? || s.ledger == [] || !call.registered then s
    else
      var current := s.ledger[|s.ledger| - 1];
      var row := s.row.GetOr(NO_ROW);
      if !call.reachable then
        if row.status == Deferred then s else WithRow(s, row.(status := Deferred), call.stop)
      else if row.lastDelivered != Some(current.number) then ReassertState(s, row, current, max, call)
      else if !Readable(call.net) then s
      else if IsReconciled(current.setpoints, Reported(s.ctl)) then SyncedState(s, row, call.stop)
      else DriftState(s, row, current, max, call)
  }

  // ---- the reconciler itself ----

  class Reconciler {
    const maxRetries: nat
    var ledger: seq<Revision>
    var row: Option<Row>
    var ctl: LiveController
    var log: seq<Exchange>
    var events: seq<Event>
    var frames: seq<bool>
    var writes: nat

    ghost function Now(): State
      reads this
    {
      State(ledger, row, ctl, log, events, frames, writes)
    }

    constructor (maxRetries: nat, ctl: LiveController)
      ensures this.maxRetries == maxRetries && Now() == State([], None, ctl, [], [], [], 0)
    {
      this.maxRetries := maxRetries;
      this.ctl := ctl;
      ledger, row, log, events, frames, writes := [], None, [], [], [], 0;
    }

    method UpsertRow(recon: Row)
      modifies this`row, this`writes
      ensures row == Some(recon) && writes == old(writes) + 1
    {
      row := Some(recon);
      writes := writes + 1;
    }

    method Do(patch: Patch, reply: Reply) returns (answer: Answer)
      modifies this`ctl, this`log
      ensures (ctl, answer) == Send(old(ctl), patch, reply)
      ensures log == old(log) + [Exchange(patch, answer)]
    {
      var r := Send(ctl, patch, reply);
      ctl, answer := r.0, r.1;
      log := log + [Exchange(patch, answer)];
    }

    /** The global PATCH, then each zone's, up to the first that is not accepted. */
    method Deliver(b: Setpoints, net: seq<Reply>, first: nat) returns (answer: Answer)
      modifies this`ctl, this`log
      ensures var d := SendAll(old(ctl), Patches(b), net, first);
              ctl == d.ctl && log == old(log) + d.log && answer == d.answer
    {
      hide Send;
      ghost var all := Patches(b);
      answer := Do(Globals(b), ReplyAt(net, first));
      if !answer.Accepted() {
        return;
      }
      ghost var sent := [Exchange(Globals(b), answer)];
      assert all[1..] == ZonePatches(b.zones);
      for i := 0 to |b.zones|
        invariant log == old(log) + sent
        invariant var rest := SendAll(ctl, ZonePatches(b.zones)[i..], net, first + 1 + i);
                  SendAll(old(ctl), all, net, first) == Delivery(rest.ctl, sent + rest.log, rest.answer)
      {
        ghost var left := ZonePatches(b.zones)[i..];
        assert left[0] == OfZone(b.zones[i]) && left[1..] == ZonePatches(b.zones)[i + 1..];
        answer := Do(OfZone(b.zones[i]), ReplyAt(net, first + 1 + i));
        sent := sent + [Exchange(OfZone(b.zones[i]), answer)];
        if !answer.Accepted() {
          return;
        }
      }
      answer := Status(OK);
    }

    method Record(b: Setpoints, source: Source, delivered: bool, call: Call) returns (outcome: Outcome)
      modifies this
      ensures Now() == RecordState(old(Now()), b, source, delivered, call)
      ensures outcome == RecordOutcome(old(ledger), delivered, call.stop)
    {
      outcome := Failed;
      if call.stop.AtAppend? { return; }
      var number := NextNumber(ledger);
      ledger := ledger + [Revision(number, source, b)];
      writes := writes + 1;

      var recon := row.GetOr(NO_ROW);
      recon := recon.(lastAttempt := Some(call.now), failCount := 0);
      recon := recon.(status := if delivered then Delivered else Deferred);
      var wasDrift := recon.drift;
      if delivered {
        recon := recon.(lastDelivered := Some(number), drift := false, driftFirstSeen := None);
      }
      if call.stop.AtRow? { return; }
      UpsertRow(recon);
      if call.stop.AtEvent? { return; }
      events := events + [Applied(source)];
      if call.stop.AtFrame? { return; }
      if wasDrift && delivered {
        frames := frames + [false];
      }
      outcome := Recorded(number, delivered);
    }

    /** Deliver, then record; a refusal by the controller is handed back and records nothing. */
    method Apply(b: Setpoints, source: Source, call: Call) returns (outcome: Outcome)
      modifies this
      ensures Now() == ApplyState(old(Now()), b, source, call) && outcome == ApplyOutcome(old(Now()), b, call)
      ensures outcome.RefusedBy? ==>
          ledger == old(ledger) && row == old(row) && events == old(events) && frames == old(frames)
      ensures outcome.Recorded? ==> ledger == old(ledger) + [Revision(outcome.number, source, b)]
    {
      if call.stop.AtStart? { return Failed; }
      if !call.registered { return Unregistered; }
      if !call.reachable {
        outcome := Record(b, source, false, call);
        return;
      }
      var answer := Deliver(b, call.net, 0);
      match answer
      case Died => outcome := Failed;
      case NoAnswer => outcome := Record(b, source, false, call);
      case Status(code) =>
        if !Ok2xx(code) { return RefusedBy(code); }
        outcome := Record(b, source, true, call);
    }

    method Reassert(current: Revision, row0: Row, call: Call)
      modifies this
      ensures Now() == ReassertState(old(Now()), row0, current, maxRetries, call)
    {
      var recon := row0;
      if recon.failCount >= maxRetries { return; }
      var answer := Deliver(current.setpoints, call.net, 0);
      if answer.Died? { return; }
      recon := recon.(lastAttempt := Some(call.now));
      if !answer.Accepted() {
        recon := recon.(failCount := recon.failCount + 1, status := Rejected);
      } else {
        recon := recon.(lastDelivered := Some(current.number), status := Delivered, failCount := 0);
      }
      if !call.stop.AtRow? {
        UpsertRow(recon);
      }
    }

    method HandleDrift(current: Revision, row0: Row, call: Call)
      modifies this
      ensures Now() == DriftState(old(Now()), row0, current, maxRetries, call)
    {
      var recon := row0;
      var newlyDrifted := !recon.drift;
      recon := recon.(drift := true, driftLastSeen := Some(call.now));
      if recon.driftFirstSeen.None? {
        recon := recon.(driftFirstSeen := Some(call.now));
      }
      if recon.failCount < maxRetries {
        var answer := Deliver(current.setpoints, call.net, 2);
        if answer.Died? { return; }
        recon := recon.(lastAttempt := Some(call.now), failCount := recon.failCount + 1);
      }
      if call.stop.AtRow? { return; }
      UpsertRow(recon);
      if newlyDrifted && !call.stop.AtEvent? {
        events := events + [DriftDetected];
        if !call.stop.AtFrame? {
          frames := frames + [true];
        }
      }
    }

    method MarkSynced(row0: Row, call: Call)
      modifies this
      ensures Now() == SyncedState(old(Now()), row0, call.stop)
    {
      var recon, changed := row0, false;
      if recon.status != Delivered {
        recon, changed := recon.(status := Delivered), true;
      }
      if recon.failCount != 0 {
        recon, changed := recon.(failCount := 0), true;
      }
      var wasDrift := recon.drift;
      if recon.drift {
        recon, changed := recon.(drift := false, driftFirstSeen := None), true;
      }
      if !changed || call.stop.AtRow? { return; }
      UpsertRow(recon);
      if wasDrift && !call.stop.AtEvent? && !call.stop.AtFrame? {
        frames := frames + [false];
      }
    }

    method ReconcileGreenhouse(call: Call)
      modifies this
      ensures Now() == PassState(old(Now()), maxRetries, call)
    {
      hide Send;
      if call.stop.AtStart? || |ledger| == 0 { return; }
      var current := ledger[|ledger| - 1];
      var recon := row.GetOr(NO_ROW);
      if !call.registered { return; }
      if !call.reachable {
        if recon.status != Deferred && !call.stop.AtRow? {
          UpsertRow(recon.(status := Deferred));
        }
        return;
      }
      if recon.lastDelivered != Some(current.number) {
        Reassert(current, recon, call);
        return;
      }
      if !ReplyAt(call.net, 0).Answered? { return; }
      if !ReplyAt(call.net, 1).Answered? { return; }
      var reported := Reported(ctl);
      var same := Reconciled(current.setpoints, reported);
      if same {
        MarkSynced(recon, call);
      } else {
        HandleDrift(current, recon, call);
      }
    }
  }
}
