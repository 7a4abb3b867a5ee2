/**
 The bookkeeping row, exactly: what each step does to every column, told from the state before it and the network's
 script; and the retry budget this gives.
 */
module Bookkeeping {
  import opened Text
  import opened Domain
  import opened Reconciler
  import opened ReconcilerRuns
  import Rest = ControllerRest

  // ---- what happens in a step ----

  /** What the controller says to the newest bundle, the delivery being the k-th call of the step. */
  function AnswerToNewest(s: State, call: Call, k: nat): Answer
    requires s.ledger != []
  {
    SendAll(s.ctl, Patches(Newest(s).setpoints), call.net, k).answer
  }

  /** An Apply that gets to store its row: not refused, not cut short before. */
  predicate ApplyStores(s: State, b: Setpoints, call: Call) {
    && call.registered && call.stop !in {AtStart, AtAppend, AtRow}
    && (call.reachable ==>
          var answer := SendAll(s.ctl, Patches(b), call.net, 0).answer;
          answer.Accepted() || answer.NoAnswer?)
  }

  predicate ApplyDelivers(s: State, b: Setpoints, call: Call) {
    ApplyStores(s, b, call) && call.reachable && SendAll(s.ctl, Patches(b), call.net, 0).answer.Accepted()
  }

  /** A pass with something to do and leave to store it. */
  predicate Runs(s: State, call: Call) {
    s.ledger != [] && call.registered && call.stop !in {AtStart, AtRow}
  }

  predicate Defers(s: State, call: Call) {
    Runs(s, call) && !call.reachable
  }

  /** The newest revision is not marked delivered, and a retry is left. */
  predicate Reasserts(s: State, max: nat, call: Call) {
    && Runs(s, call) && call.reachable
    && TheRow(s).lastDelivered != Some(Newest(s).number) && TheRow(s).failCount < max
  }

  predicate ReassertLands(s: State, max: nat, call: Call) {
    Reasserts(s, max, call) && AnswerToNewest(s, call, 0).Accepted()
  }

  predicate ReassertFails(s: State, max: nat, call: Call) {
    Reasserts(s, max, call) && !AnswerToNewest(s, call, 0).Accepted() && !AnswerToNewest(s, call, 0).Died?
  }

  /** The newest revision is marked delivered, and the pass gets to compare. */
  predicate Compares(s: State, call: Call) {
    && Runs(s, call) && call.reachable && Readable(call.net)
    && TheRow(s).lastDelivered == Some(Newest(s).number)
  }

  predicate FindsInStep(s: State, call: Call) {
    Compares(s, call) && IsReconciled(Newest(s).setpoints, Rest.Reported(s.ctl))
  }

  predicate FindsDrift(s: State, call: Call) {
    Compares(s, call) && !IsReconciled(Newest(s).setpoints, Rest.Reported(s.ctl))
  }

  /** Drift with a retry left: a correction is sent, and the process lives to count it. */
  predicate Corrects(s: State, max: nat, call: Call) {
    FindsDrift(s, call) && TheRow(s).failCount < max && !AnswerToNewest(s, call, 2).Died?
  }

  predicate Flags(s: State, max: nat, call: Call) {
    FindsDrift(s, call) && (TheRow(s).failCount < max ==> !AnswerToNewest(s, call, 2).Died?)
  }

  // ---- the columns ----

  /** The retry budget is given back. */
  predicate Clears(s: State, max: nat, step: Step) {
    match step
    case ApplyStep(b, _, call) => ApplyStores(s, b, call)
    case PassStep(call) => ReassertLands(s, max, call) || FindsInStep(s, call)
    case _ => false
  }

  /** One of the budget is spent. */
  predicate Spends(s: State, max: nat, step: Step) {
    step.PassStep? && (ReassertFails(s, max, step.call) || Corrects(s, max, step.call))
  }

  /**
   The failure count goes to 0 when an Apply stores its row, a re-assert is accepted or a pass finds the controller in
   step; it goes up by one when a re-assert is answered but not accepted or a correction is sent; nothing else moves it.
   */
  lemma FailCountExactly(s: State, max: nat, step: Step)
    ensures TheRow(Next(s, max, step)).failCount ==
            if Clears(s, max, step) then 0
            else if Spends(s, max, step) then TheRow(s).failCount + 1
            else TheRow(s).failCount
  {
    hide SendAll, IsReconciled, Rest.Reported;
  }

  lemma StatusExactly(s: State, max: nat, step: Step)
    ensures TheRow(Next(s, max, step)).status ==
            match step
            case ApplyStep(b, _, call) =>
              if ApplyDelivers(s, b, call) then Delivered
              else if ApplyStores(s, b, call) then Deferred else TheRow(s).status
            case PassStep(call) =>
              if ReassertLands(s, max, call) || FindsInStep(s, call) then Delivered
              else if ReassertFails(s, max, call) then Rejected
              else if Defers(s, call) then Deferred else TheRow(s).status
            case _ => TheRow(s).status
  {
    hide SendAll, IsReconciled, Rest.Reported;
  }

  /** The delivered mark moves on an accepted delivery only, and to the revision delivered. */
  lemma MarkExactly(s: State, max: nat, step: Step)
    ensures TheRow(Next(s, max, step)).lastDelivered ==
            match step
            case ApplyStep(b, _, call) =>
              if ApplyDelivers(s, b, call) then Some(NextNumber(s.ledger)) else TheRow(s).lastDelivered
            case PassStep(call) =>
              if ReassertLands(s, max, call) then Some(Newest(s).number) else TheRow(s).lastDelivered
            case _ => TheRow(s).lastDelivered
  {
    hide SendAll, IsReconciled, Rest.Reported;
  }

  /** Drift is set by a comparison that fails, and cleared by one that succeeds or by an accepted Apply. */
  lemma DriftExactly(s: State, max: nat, step: Step)
    ensures TheRow(Next(s, max, step)).drift ==
            match step
            case ApplyStep(b, _, call) => TheRow(s).drift && !ApplyDelivers(s, b, call)
            case PassStep(call) => Flags(s, max, call) || (TheRow(s).drift && !FindsInStep(s, call))
            case _ => TheRow(s).drift
  {
    hide SendAll, IsReconciled, Rest.Reported;
  }

  /** The last attempt is that of the last step that tried, deferred Applies included. */
  lemma AttemptExactly(s: State, max: nat, step: Step)
    ensures TheRow(Next(s, max, step)).lastAttempt ==
            match step
            case ApplyStep(b, _, call) =>
              if ApplyStores(s, b, call) then Some(call.now) else TheRow(s).lastAttempt
            case PassStep(call) =>
              if ReassertLands(s, max, call) || ReassertFails(s, max, call) || Corrects(s, max, call)
              then Some(call.now) else TheRow(s).lastAttempt
            case _ => TheRow(s).lastAttempt
  {
    hide SendAll, IsReconciled, Rest.Reported;
  }

  /** Drift's first sighting is kept as long as drift lasts, its last one renewed at every finding. */
  lemma SightingsExactly(s: State, max: nat, step: Step)
    requires TheRow(s).drift <==> TheRow(s).driftFirstSeen.Some?
    ensures var r, r' := TheRow(s), TheRow(Next(s, max, step));
            match step
            case ApplyStep(b, _, call) =>
              && r'.driftFirstSeen == (if ApplyDelivers(s, b, call) then None else r.driftFirstSeen)
              && r'.driftLastSeen == r.driftLastSeen
            case PassStep(call) =>
              && r'.driftFirstSeen ==
                 (if FindsInStep(s, call) then None
                  else if Flags(s, max, call) && !r.drift then Some(call.now) else r.driftFirstSeen)
              && r'.driftLastSeen == (if Flags(s, max, call) then Some(call.now) else r.driftLastSeen)
            case _ => r' == r
  {
    hide SendAll, IsReconciled, Rest.Reported;
  }

  // ---- ledger, events and what the caller is told ----

  /** An Apply that gets to append its revision. */
  predicate Records(s: State, b: Setpoints, call: Call) {
    && call.registered && call.stop !in {AtStart, AtAppend}
    && (call.reachable ==>
          var answer := SendAll(s.ctl, Patches(b), call.net, 0).answer;
          answer.Accepted() || answer.NoAnswer?)
  }

  lemma LedgerExactly(s: State, b: Setpoints, source: Source, call: Call)
    ensures ApplyState(s, b, source, call).ledger ==
            if Records(s, b, call) then s.ledger + [Revision(NextNumber(s.ledger), source, b)] else s.ledger
  {
    hide SendAll;
  }

  /** One event for every Apply stored, one for drift newly found, and no other. */
  lemma EventsExactly(s: State, max: nat, step: Step)
    ensures Next(s, max, step).events ==
            s.events +
            match step
            case ApplyStep(b, source, call) =>
              if ApplyStores(s, b, call) && call.stop != AtEvent then [Applied(source)] else []
            case PassStep(call) =>
              if Flags(s, max, call) && !TheRow(s).drift && call.stop != AtEvent then [DriftDetected] else []
            case _ => []
  {
    hide SendAll, IsReconciled, Rest.Reported;
  }

  /** What the caller of Apply is told is true of the state it leaves. */
  lemma OutcomeExactly(s: State, b: Setpoints, source: Source, call: Call)
    ensures var s', outcome := ApplyState(s, b, source, call), ApplyOutcome(s, b, call);
            && (outcome.Recorded? <==> Records(s, b, call) && call.stop.Never?)
            && (outcome.Recorded? ==>
                  s'.ledger == s.ledger + [Revision(outcome.number, source, b)]
                  && s'.events == s.events + [Applied(source)]
                  && (outcome.delivered <==> TheRow(s').status == Delivered)
                  && (outcome.delivered ==> TheRow(s').lastDelivered == Some(outcome.number)))
            && (outcome.Unregistered? || outcome.RefusedBy? ==>
                  s'.(ctl := s.ctl, log := s.log) == s)
            && (outcome.Unregistered? ==> !call.registered && s' == s)
  {
    hide SendAll;
  }

  // ---- the retry budget ----

  /** Deliveries a pass begins; each begins with its one global PATCH. */
  function Begun(s: State, max: nat, step: Step): int {
    if step.PassStep? then Starts(Next(s, max, step).log) - Starts(s.log) else 0
  }

  function BegunByLoop(s: State, max: nat, steps: seq<Step>): int {
    if steps == [] then 0
    else
      var n := |steps| - 1;
      BegunByLoop(s, max, steps[..n]) + Begun(Run(s, max, steps[..n]), max, steps[n])
  }

  lemma PassBegins(s: State, max: nat, call: Call)
    ensures var begun := Begun(s, max, PassStep(call));
            && 0 <= begun <= 1
            && (WritesThrough(call) && !Clears(s, max, PassStep(call)) ==>
                  (begun == 1 <==> Spends(s, max, PassStep(call))))
  {
    hide SendAll, Starts, IsReconciled, Rest.Reported;
    if s.ledger != [] {
      DeliveryStartsOnce(s.log, s.ctl, Newest(s).setpoints, call.net, 0);
      DeliveryStartsOnce(s.log, s.ctl, Newest(s).setpoints, call.net, 2);
      if WritesThrough(call) {
        NoCrashNoDeath(s.ctl, Patches(Newest(s).setpoints), call.net, 0);
        NoCrashNoDeath(s.ctl, Patches(Newest(s).setpoints), call.net, 2);
      }
    }
  }

  /** In these steps every pass writes through and nothing gives the budget back. */
  predicate NeverClears(s: State, max: nat, steps: seq<Step>) {
    steps != [] ==>
      var n := |steps| - 1;
      && NeverClears(s, max, steps[..n])
      && !Clears(Run(s, max, steps[..n]), max, steps[n])
      && (steps[n].PassStep? ==> WritesThrough(steps[n].call))
  }

  /** Then the deliveries the loop begins are exactly what the failure count grows by. */
  lemma {:induction false} StartsAreCounted(s: State, max: nat, steps: seq<Step>)
    requires NeverClears(s, max, steps)
    ensures BegunByLoop(s, max, steps) == TheRow(Run(s, max, steps)).failCount - TheRow(s).failCount
  {
    hide Next, Begun, Clears, Spends, WritesThrough;
    if steps != [] {
      var n := |steps| - 1;
      var before := Run(s, max, steps[..n]);
      StartsAreCounted(s, max, steps[..n]);
      FailCountExactly(before, max, steps[n]);
      BegunBySpending(before, max, steps[n]);
    }
  }

  lemma BegunBySpending(s: State, max: nat, step: Step)
    requires !Clears(s, max, step) && (step.PassStep? ==> WritesThrough(step.call))
    ensures Begun(s, max, step) == if Spends(s, max, step) then 1 else 0
  {
    hide Next, Clears, Spends, WritesThrough;
    if step.PassStep? {
      PassBegins(s, max, step.call);
    } else {
      OnlyPassesSpend(s, max, step);
    }
  }

  lemma OnlyPassesSpend(s: State, max: nat, step: Step)
    requires !step.PassStep?
    ensures !Spends(s, max, step)
  {
  }

  /**
   After any past: until an Apply stores its row, a re-assert is accepted or a pass finds the controller in step, the
   loop begins at most MaxRetries deliveries, re-asserts and drift corrections together, whatever refused Applies,
   outside edits and pruning come between.
   */
  lemma CorrectionBounded(ctl: Rest.LiveController, max: nat, past: seq<Step>, steps: seq<Step>)
    requires NeverClears(Run(Start(ctl), max, past), max, steps)
    ensures BegunByLoop(Run(Start(ctl), max, past), max, steps) <= max
  {
    hide NeverClears, Next;
    var s := Run(Start(ctl), max, past);
    NumbersNeverReused(Start(ctl), max, past);
    NumbersNeverReused(s, max, steps);
    StartsAreCounted(s, max, steps);
  }

  /** At the limit the loop has backed off: such a run begins nothing more. */
  lemma BackedOff(s: State, max: nat, steps: seq<Step>)
    requires Sound(s, max) && TheRow(s).failCount == max && NeverClears(s, max, steps)
    ensures BegunByLoop(s, max, steps) == 0
  {
    hide NeverClears, Next;
    NumbersNeverReused(s, max, steps);
    StartsAreCounted(s, max, steps);
    BegunNever(s, max, steps);
  }

  lemma {:induction false} BegunNever(s: State, max: nat, steps: seq<Step>)
    ensures BegunByLoop(s, max, steps) >= 0
  {
    hide Begun;
    if steps != [] {
      BegunNever(s, max, steps[..|steps| - 1]);
      var before := Run(s, max, steps[..|steps| - 1]);
      assert Begun(before, max, steps[|steps| - 1]) >= 0 by {
        AtLeastNone(before, max, steps[|steps| - 1]);
      }
    }
  }

  lemma AtLeastNone(s: State, max: nat, step: Step)
    ensures Begun(s, max, step) >= 0
  {
    hide Starts, Next;
    if step.PassStep? {
      PassBegins(s, max, step.call);
    }
  }
}
