/** Whole runs of the tick: dwell and slew of the levels actually sent, and when a health disable holds. */
module TickRuns {
  import opened Text
  import opened Actuators
  import opened Pipeline
  import C = Constraints
  import H = ActuatorHealth

  // ---- each actuator's sent levels are one run of the shaper ----

  function DemandOn(s: State, i: Input, c: Config, id: ActuatorId): C.Demand {
    C.Demand(Get(Demanded(s, i, c), id), id in Waived(s, i, c))
  }

  function DemandsOn(turns: seq<Turn>, c: Config, id: ActuatorId): (demands: seq<C.Demand>)
    ensures |demands| == |turns|
  {
    if turns == [] then []
    else
      var n := |turns| - 1;
      DemandsOn(turns[..n], c, id) + [DemandOn(Before(START, turns, c, n), turns[n].input, c, id)]
  }

  /** The loops command the actuator every tick, as they do every one they know. */
  predicate Commanded(turns: seq<Turn>, id: ActuatorId) {
    forall k :: 0 <= k < |turns| ==> id in turns[k].input.loops
  }

  lemma CommandedIsDemanded(s: State, i: Input, c: Config, id: ActuatorId)
    requires id in i.loops
    ensures id in Demanded(s, i, c)
  {
  }

  lemma NextShapes(s: State, i: Input, c: Config, id: ActuatorId)
    requires id in i.loops
    ensures var d, s' := DemandOn(s, i, c, id), Next(s, i, c);
            && C.AppliedTo(s'.applied, id) ==
                C.Shaped(C.AppliedTo(s.applied, id), d.desired, C.LimitsFor(c.limits, id), d.waived)
            && id in SentBy(s, i, c) && SentBy(s, i, c)[id] == C.AppliedTo(s'.applied, id).level
  {
    hide Demanded, Waived, C.Shaped, HealthAfter, LatchesAfter, Intended, Baseline;
    CommandedIsDemanded(s, i, c, id);
  }

  lemma {:induction false} RunShapes(turns: seq<Turn>, c: Config, id: ActuatorId)
    requires Commanded(turns, id)
    ensures C.AppliedTo(Run(START, turns, c).applied, id) == C.After(C.LimitsFor(c.limits, id), DemandsOn(turns, c, id))
  {
    hide Next, DemandOn, C.Shaped, C.LimitsFor;
    if turns != [] {
      var n := |turns| - 1;
      RunShapes(turns[..n], c, id);
      NextShapes(Before(START, turns, c, n), turns[n].input, c, id);
      var demands := DemandsOn(turns, c, id);
      assert demands[..n] == DemandsOn(turns[..n], c, id);
    }
  }

  lemma {:induction false} DemandsPrefix(turns: seq<Turn>, c: Config, id: ActuatorId, k: nat)
    requires k <= |turns|
    ensures DemandsOn(turns[..k], c, id) == DemandsOn(turns, c, id)[..k]
  {
    hide DemandOn, Before;
    if k == |turns| {
      assert turns[..k] == turns;
    } else {
      DemandsPrefix(turns[..|turns| - 1], c, id, k);
      assert turns[..|turns| - 1][..k] == turns[..k];
    }
  }

  lemma LastSent(turns: seq<Turn>, c: Config, id: ActuatorId)
    requires Commanded(turns, id) && turns != []
    ensures var n := |turns| - 1;
            && id in SentAt(START, turns, c, n)
            && SentAt(START, turns, c, n)[id] == C.After(C.LimitsFor(c.limits, id), DemandsOn(turns, c, id)).level
            && (DemandsOn(turns, c, id)[n].waived <==> id in Waived(Before(START, turns, c, n), turns[n].input, c))
  {
    hide Next, SentBy, C.After, C.LimitsFor, Waived, Demanded;
    var n := |turns| - 1;
    RunShapes(turns, c, id);
    NextShapes(Before(START, turns, c, n), turns[n].input, c, id);
  }

  lemma BeforePrefix(turns: seq<Turn>, c: Config, k: nat)
    requires k < |turns|
    ensures Before(START, turns[..k + 1], c, k) == Before(START, turns, c, k)
    ensures SentAt(START, turns[..k + 1], c, k) == SentAt(START, turns, c, k)
  {
    hide Run, SentBy;
    assert turns[..k + 1][..k] == turns[..k];
  }

  function SentLevel(turns: seq<Turn>, c: Config, id: ActuatorId, k: nat): real
    requires k < |turns|
  {
    Get(SentAt(START, turns, c, k), id)
  }

  /** The level sent at tick k is the shaper's level there. */
  lemma SentIsShaped(turns: seq<Turn>, c: Config, id: ActuatorId, k: nat)
    requires Commanded(turns, id) && k < |turns|
    ensures SentLevel(turns, c, id, k) == C.At(C.LimitsFor(c.limits, id), DemandsOn(turns, c, id), k).level
    ensures DemandsOn(turns, c, id)[k].waived <==> id in Waived(Before(START, turns, c, k), turns[k].input, c)
  {
    hide DemandsOn, SentAt, Before, C.After, C.LimitsFor, Waived;
    LastSent(turns[..k + 1], c, id);
    DemandsPrefix(turns, c, id, k + 1);
    BeforePrefix(turns, c, k);
  }

  /** Ticks a..b are one run of on- or off-levels sent, begun at a. */
  predicate SentRun(turns: seq<Turn>, c: Config, id: ActuatorId, a: nat, b: nat, on: bool)
    requires a <= b < |turns|
  {
    && (forall k :: a <= k <= b ==> (SentLevel(turns, c, id, k) > 0.0) == on)
    && (a > 0 ==> (SentLevel(turns, c, id, a - 1) > 0.0) != on)
  }

  lemma SentRunIsShaperRun(turns: seq<Turn>, c: Config, id: ActuatorId, a: nat, b: nat, on: bool)
    requires Commanded(turns, id) && a <= b < |turns| && SentRun(turns, c, id, a, b, on)
    ensures C.RunUpTo(C.LimitsFor(c.limits, id), DemandsOn(turns, c, id), a, b)
  {
    hide SentLevel, DemandsOn, C.At, C.LimitsFor;
    forall k | 0 <= k < |turns|
      ensures SentLevel(turns, c, id, k) == C.At(C.LimitsFor(c.limits, id), DemandsOn(turns, c, id), k).level
    {
      SentIsShaped(turns, c, id, k);
    }
  }

  lemma LimitsValid(c: Config, id: ActuatorId)
    requires c.Valid()
    ensures C.LimitsFor(c.limits, id).Valid()
  {
  }

  /**
   No short cycling over any run of the whole controller: an on-run of the levels sent, ended at a tick that
   does not waive the dwell, lasted the minimum on (or open) time plus one; an off-run the minimum off time plus one.
   */
  lemma NoShortCycles(turns: seq<Turn>, c: Config, id: ActuatorId, a: nat, b: nat, on: bool)
    requires c.Valid() && Commanded(turns, id) && a <= b && b + 1 < |turns|
    requires SentRun(turns, c, id, a, b, on) && (SentLevel(turns, c, id, b + 1) > 0.0) != on
    requires id !in Waived(Before(START, turns, c, b + 1), turns[b + 1].input, c)
    ensures var limits := C.LimitsFor(c.limits, id);
            b - a + 1 >= (if on then limits.MinOn() else limits.minOff).GetOr(0) + 1
  {
    hide SentLevel, Before, DemandsOn, C.At, C.LimitsFor, C.RunUpTo, Waived, C.Limits.Valid, C.Limits.MinOn,
        Config.Valid;
    assert (SentLevel(turns, c, id, b) > 0.0) == on;
    LimitsValid(c, id);
    SentRunIsShaperRun(turns, c, id, a, b, on);
    SentIsShaped(turns, c, id, b);
    SentIsShaped(turns, c, id, b + 1);
    if on {
      C.MinimumOnTime(C.LimitsFor(c.limits, id), DemandsOn(turns, c, id), a, b);
    } else {
      C.MinimumOffTime(C.LimitsFor(c.limits, id), DemandsOn(turns, c, id), a, b);
    }
  }

  /** What loops, operators and interlocks ask of the actuator at tick k, 0 when a health fault forces it off. */
  function DemandedLevel(turns: seq<Turn>, c: Config, id: ActuatorId, k: nat): real
    requires k < |turns|
  {
    Clamp(Get(Demanded(Before(START, turns, c, k), turns[k].input, c), id), 0.0, 100.0)
  }

  lemma DemandIsDemanded(turns: seq<Turn>, c: Config, id: ActuatorId, k: nat)
    requires k < |turns|
    ensures Clamp(DemandsOn(turns, c, id)[k].desired, 0.0, 100.0) == DemandedLevel(turns, c, id, k)
  {
    hide Before, Demanded, Waived;
    var upto := turns[..k + 1];
    DemandsPrefix(turns, c, id, k + 1);
    assert DemandsOn(upto, c, id)[k] == DemandOn(Before(START, upto, c, k), upto[k].input, c, id);
    BeforePrefix(turns, c, k);
  }

  /** The first tick moves from 0, no dwell in the way. */
  lemma FirstSentExactly(turns: seq<Turn>, c: Config, id: ActuatorId)
    requires c.Valid() && Commanded(turns, id) && turns != []
    ensures C.MovesTowards(0.0, DemandedLevel(turns, c, id, 0), C.LimitsFor(c.limits, id).Rate(),
                           SentLevel(turns, c, id, 0))
  {
    hide SentLevel, DemandedLevel, DemandsOn, C.At, C.LimitsFor, C.Limits.Valid, C.MovesTowards;
    LimitsValid(c, id);
    SentIsShaped(turns, c, id, 0);
    DemandIsDemanded(turns, c, id, 0);
    C.FirstTickExactly(C.LimitsFor(c.limits, id), DemandsOn(turns, c, id));
  }

  /**
   The level sent at every tick of every run of the controller, exactly: held while an unwaived tick would end a run of
   on- or off-levels before its minimum time, and otherwise moved towards what is demanded, by the rate step at most.
   */
  lemma SentExactly(turns: seq<Turn>, c: Config, id: ActuatorId, a: nat, b: nat, on: bool)
    requires c.Valid() && Commanded(turns, id) && a <= b && b + 1 < |turns| && SentRun(turns, c, id, a, b, on)
    ensures var kind := match id case House(a) => a case Valve(_) => IrrigationValve;
            var limits := if kind in c.limits then c.limits[kind] else C.UNLIMITED;
            var level, next := SentLevel(turns, c, id, b), SentLevel(turns, c, id, b + 1);
            var want := DemandedLevel(turns, c, id, b + 1);
            var waived := id in Waived(Before(START, turns, c, b + 1), turns[b + 1].input, c);
            if !waived && on != (want > 0.0) && C.Dwelling(if on then limits.MinOn() else limits.minOff, a, b)
            then next == level
            else C.MovesTowards(level, want, limits.Rate(), next)
  {
    hide SentLevel, DemandedLevel, Before, DemandsOn, C.At, C.RunUpTo, Waived, C.Limits.Valid, Config.Valid,
         C.MovesTowards, C.Dwelling;
    assert (SentLevel(turns, c, id, b) > 0.0) == on;
    LimitsValid(c, id);
    SentRunIsShaperRun(turns, c, id, a, b, on);
    SentIsShaped(turns, c, id, b);
    SentIsShaped(turns, c, id, b + 1);
    DemandIsDemanded(turns, c, id, b + 1);
    C.EveryTickExactly(C.LimitsFor(c.limits, id), DemandsOn(turns, c, id), a, b);
  }

  lemma SentInRange(turns: seq<Turn>, c: Config, id: ActuatorId, k: nat)
    requires Commanded(turns, id) && k < |turns|
    ensures 0.0 <= SentLevel(turns, c, id, k) <= 100.0
  {
    hide SentLevel, DemandsOn, C.At, C.LimitsFor;
    SentIsShaped(turns, c, id, k);
    C.LevelsInRange(C.LimitsFor(c.limits, id), DemandsOn(turns, c, id), k);
  }

  /** Levels sent move by at most rate times the elapsed ticks over any run, safety moves included. */
  lemma SentSlewBound(turns: seq<Turn>, c: Config, id: ActuatorId, s: nat, t: nat, rate: real)
    requires c.Valid() && Commanded(turns, id) && s <= t < |turns|
    requires C.LimitsFor(c.limits, id).Rate() == Some(rate)
    ensures var moved := SentLevel(turns, c, id, t) - SentLevel(turns, c, id, s);
            -(rate * (t - s) as real) <= moved <= rate * (t - s) as real
  {
    hide SentLevel, DemandsOn, C.At, C.LimitsFor, C.Limits.Valid, Config.Valid, C.Limits.Rate;
    LimitsValid(c, id);
    SentIsShaped(turns, c, id, s);
    SentIsShaped(turns, c, id, t);
    C.SlewBound(C.LimitsFor(c.limits, id), DemandsOn(turns, c, id), s, t, rate);
  }

  // ---- when an actuator counts as stuck ----

  /** At tick k the readback is off the baseline left by the tick before. */
  predicate DivergedAt(turns: seq<Turn>, c: Config, id: ActuatorId, k: nat)
    requires k < |turns|
  {
    var prev := Run(START, turns[..k], c).prev;
    prev.Some? && H.Diverged(turns[k].input.observed, prev.value, id, c.sensing.tolerance)
  }

  predicate ReadBack(turns: seq<Turn>, id: ActuatorId) {
    forall k :: 0 <= k < |turns| ==> id in turns[k].input.observed
  }

  function StuckCount(turns: seq<Turn>, c: Config, id: ActuatorId): nat {
    H.CountOf(Run(START, turns, c).health.stuck, id)
  }

  lemma StuckStep(turns: seq<Turn>, c: Config, id: ActuatorId)
    requires turns != [] && ReadBack(turns, id)
    ensures var n := |turns| - 1;
            && (n == 0 ==> StuckCount(turns, c, id) == 0)
            && (n > 0 ==> StuckCount(turns, c, id) ==
                          if DivergedAt(turns, c, id, n) then StuckCount(turns[..n], c, id) + 1 else 0)
            && (DivergedAt(turns, c, id, n) ==> n > 0)
  {
    hide SentBy, Intended, LatchesAfter, AppliedAfter, H.Diverged, H.FlatNext, H.LastSoilNext, H.ChallengesNext,
        H.Alarms;
    var n := |turns| - 1;
    PrevAfterFirst(turns[..n], c);
    if n == 0 {
      assert turns[..0] == [];
    }
  }

  lemma PrevAfterFirst(turns: seq<Turn>, c: Config)
    ensures Run(START, turns, c).prev.Some? <==> turns != []
  {
    hide SentBy, Intended, LatchesAfter, AppliedAfter, HealthAfter;
  }

  /** The stuck count reaches w exactly when the readback diverged on each of the last w ticks. */
  lemma {:induction false} StuckExactly(turns: seq<Turn>, c: Config, id: ActuatorId, w: nat)
    requires turns != [] && ReadBack(turns, id)
    ensures StuckCount(turns, c, id) >= w <==>
            w <= |turns| && forall k :: |turns| - w <= k < |turns| ==> DivergedAt(turns, c, id, k)
  {
    hide StuckCount, Run;
    var n := |turns| - 1;
    StuckStep(turns, c, id);
    if w > 0 && n > 0 {
      StuckExactly(turns[..n], c, id, w - 1);
      assert forall k :: 0 <= k < n ==> DivergedAt(turns[..n], c, id, k) == DivergedAt(turns, c, id, k) by {
        DivergedPrefix(turns, c, id);
      }
    } else if w > 0 {
      assert !DivergedAt(turns, c, id, 0);
    }
  }

  lemma DivergedPrefix(turns: seq<Turn>, c: Config, id: ActuatorId)
    requires turns != []
    ensures var n := |turns| - 1;
            forall k :: 0 <= k < n ==> DivergedAt(turns[..n], c, id, k) == DivergedAt(turns, c, id, k)
  {
    hide Run;
    var n := |turns| - 1;
    forall k | 0 <= k < n ensures DivergedAt(turns[..n], c, id, k) == DivergedAt(turns, c, id, k) {
      assert turns[..n][..k] == turns[..k];
    }
  }
}
