/**
 No-response detection over whole runs: exactly which stretches of the run raise the alarm for a valve whose soil
 does not get wetter, and for a heater, mister, injector or lamp whose driven variable does not respond.
 */
module HealthRuns {
  import opened Text
  import opened Actuators
  import opened Pipeline
  import opened TickRuns
  import H = ActuatorHealth

  /** The baseline the k-th tick is judged against; the first tick has none. */
  function PrevAt(turns: seq<Turn>, c: Config, k: nat): Option<Commands>
    requires k < |turns|
  {
    Run(START, turns[..k], c).prev
  }

  function Trusted(turns: seq<Turn>, k: nat): H.Trusted
    requires k < |turns|
  {
    turns[k].input.trusted
  }

  function HealthOf(turns: seq<Turn>, c: Config): H.Health {
    Run(START, turns, c).health
  }

  lemma HealthStep(turns: seq<Turn>, c: Config)
    requires turns != []
    ensures var n := |turns| - 1; var i := turns[n].input;
            && HealthOf(turns, c) ==
               H.Monitored(HealthOf(turns[..n], c), PrevAt(turns, c, n), i.observed, i.trusted, i.targets, c.sensing)
            && (PrevAt(turns, c, n).Some? <==> n > 0)
  {
    hide SentBy, Intended, LatchesAfter, AppliedAfter, H.Monitored;
    PrevAfterFirst(turns[..|turns| - 1], c);
  }

  lemma {:induction false} PrefixPrev(turns: seq<Turn>, c: Config, k: nat)
    requires k + 1 < |turns|
    ensures PrevAt(turns[..|turns| - 1], c, k) == PrevAt(turns, c, k)
  {
    hide Run;
    assert turns[..|turns| - 1][..k] == turns[..k];
  }

  // ---- valves ----

  predicate ZoneRead(turns: seq<Turn>, z: string) {
    forall k :: 0 <= k < |turns| ==> z in turns[k].input.trusted.soil
  }

  function Soil(turns: seq<Turn>, z: string, k: nat): Option<real>
    requires ZoneRead(turns, z) && k < |turns|
  {
    turns[k].input.trusted.soil[z]
  }

  /** The latest trusted reading of the zone before tick k; the first tick's is not kept. */
  function Latest(turns: seq<Turn>, z: string, k: nat): Option<real>
    requires ZoneRead(turns, z) && k <= |turns|
  {
    if k <= 1 then None else if Soil(turns, z, k - 1).Some? then Soil(turns, z, k - 1) else Latest(turns, z, k - 1)
  }

  /** At tick k the valve was open and a trusted reading shows no rise over the latest one before. */
  predicate DryAt(turns: seq<Turn>, c: Config, z: string, k: nat)
    requires ZoneRead(turns, z) && k < |turns|
  {
    && PrevAt(turns, c, k).Some? && Get(PrevAt(turns, c, k).value, Valve(z)) > 1.0
    && Soil(turns, z, k).Some?
    && (Latest(turns, z, k).Some? ==> Soil(turns, z, k).value <= Latest(turns, z, k).value + H.SOIL_RISE)
  }

  lemma {:induction false} LatestPrefix(turns: seq<Turn>, z: string, k: nat)
    requires ZoneRead(turns, z) && k < |turns|
    ensures Latest(turns[..|turns| - 1], z, k) == Latest(turns, z, k)
  {
    if k > 1 {
      LatestPrefix(turns, z, k - 1);
    }
  }

  /** What the monitor remembers of the zone's soil is its latest trusted reading. */
  lemma {:induction false} LastSoilIsLatest(turns: seq<Turn>, c: Config, z: string)
    requires ZoneRead(turns, z)
    ensures var last := HealthOf(turns, c).lastSoil;
            (if z in last then Some(last[z]) else None) == Latest(turns, z, |turns|)
  {
    hide Run, H.StuckNext, H.FlatNext, H.ChallengesNext, H.Alarms;
    if turns == [] {
      NothingYet(c);
    } else {
      var n := |turns| - 1;
      LastSoilIsLatest(turns[..n], c, z);
      HealthStep(turns, c);
      LatestPrefix(turns, z, n);
      if n == 0 {
        assert turns[..0] == [];
        NothingYet(c);
      }
    }
  }

  lemma NothingYet(c: Config)
    ensures HealthOf([], c) == H.HEALTHY
  {
  }

  lemma FlatStep(turns: seq<Turn>, c: Config, z: string)
    requires turns != [] && ZoneRead(turns, z)
    ensures var n := |turns| - 1;
            && (DryAt(turns, c, z, n) ==> n > 0)
            && H.CountOf(HealthOf(turns, c).flat, z) ==
               if DryAt(turns, c, z, n) then H.CountOf(HealthOf(turns[..n], c).flat, z) + 1 else 0
  {
    hide Run, H.StuckNext, H.LastSoilNext, H.ChallengesNext, H.Alarms;
    var n := |turns| - 1;
    HealthStep(turns, c);
    LastSoilIsLatest(turns[..n], c, z);
    LatestPrefix(turns, z, n);
    if n == 0 {
      assert turns[..0] == [];
      NothingYet(c);
    }
  }

  lemma DryPrefix(turns: seq<Turn>, c: Config, z: string, k: nat)
    requires ZoneRead(turns, z) && k + 1 < |turns|
    ensures DryAt(turns[..|turns| - 1], c, z, k) == DryAt(turns, c, z, k)
  {
    hide PrevAt, Latest;
    PrefixPrev(turns, c, k);
    LatestPrefix(turns, z, k);
  }

  /** The dry count reaches w exactly when every one of the last w ticks was dry. */
  lemma {:induction false} FlatExactly(turns: seq<Turn>, c: Config, z: string, w: nat)
    requires turns != [] && ZoneRead(turns, z)
    ensures H.CountOf(HealthOf(turns, c).flat, z) >= w <==>
            w <= |turns| && forall k :: |turns| - w <= k < |turns| ==> DryAt(turns, c, z, k)
  {
    hide HealthOf, DryAt, Soil;
    var n := |turns| - 1;
    FlatStep(turns, c, z);
    if w > 0 && n > 0 {
      FlatExactly(turns[..n], c, z, w - 1);
      forall k | 0 <= k < n ensures DryAt(turns[..n], c, z, k) == DryAt(turns, c, z, k) {
        DryPrefix(turns, c, z, k);
      }
    } else if w > 0 {
      assert !DryAt(turns, c, z, 0);
    }
  }

  /** The valve's alarm at the last tick: exactly when the whole window was dry. */
  lemma ValveAlarmExactly(turns: seq<Turn>, c: Config, z: string)
    requires c.sensing.window >= 1 && turns != [] && ZoneRead(turns, z)
    ensures var n, w := |turns| - 1, c.sensing.window;
            z in H.FlatZones(HealthOf(turns, c).flat, Trusted(turns, n).soil, w) <==>
            w <= |turns| && forall k :: |turns| - w <= k < |turns| ==> DryAt(turns, c, z, k)
  {
    hide HealthOf, PrevAt, Latest;
    FlatExactly(turns, c, z, c.sensing.window);
    if c.sensing.window <= |turns| && forall k :: |turns| - c.sensing.window <= k < |turns| ==> DryAt(turns, c, z, k) {
      assert DryAt(turns, c, z, |turns| - 1);
    }
  }

  // ---- push actuators ----

  predicate ChallengedAt(turns: seq<Turn>, c: Config, a: Actuator, k: nat)
    requires k < |turns|
  {
    PrevAt(turns, c, k).Some? && H.Challenged(a, PrevAt(turns, c, k).value, Trusted(turns, k), turns[k].input.targets)
  }

  function ValueAt(turns: seq<Turn>, a: Actuator, k: nat): real
    requires k < |turns|
  {
    H.Level(a, Trusted(turns, k))
  }

  /** Where the challenge in progress before tick k began; k itself when there is none. */
  function Begun(turns: seq<Turn>, c: Config, a: Actuator, k: nat): (s: nat)
    requires k <= |turns|
    ensures s <= k
  {
    if k == 0 || !ChallengedAt(turns, c, a, k - 1) then k else Begun(turns, c, a, k - 1)
  }

  /** The level to beat at tick k: the best value since the challenge began, for lamps the first. */
  function Mark(turns: seq<Turn>, a: Actuator, s: nat, k: nat): real
    requires s < k <= |turns|
  {
    if k == s + 1 || a.GrowLights? then ValueAt(turns, a, s)
    else if ValueAt(turns, a, k - 1) > Mark(turns, a, s, k - 1) then ValueAt(turns, a, k - 1)
    else Mark(turns, a, s, k - 1)
  }

  /** At tick k a challenge was under way and the driven variable fell short of its mark by the margin. */
  predicate UnansweredAt(turns: seq<Turn>, c: Config, a: Actuator, k: nat)
    requires k < |turns|
  {
    var s := Begun(turns, c, a, k);
    ChallengedAt(turns, c, a, k) && s < k && !H.Responded(a, Mark(turns, a, s, k), ValueAt(turns, a, k))
  }

  lemma {:induction false} BegunPrefix(turns: seq<Turn>, c: Config, a: Actuator, k: nat)
    requires k < |turns|
    ensures Begun(turns[..|turns| - 1], c, a, k) == Begun(turns, c, a, k)
  {
    hide PrevAt;
    if k > 0 {
      PrefixPrev(turns, c, k - 1);
      BegunPrefix(turns, c, a, k - 1);
    }
  }

  lemma {:induction false} MarkPrefix(turns: seq<Turn>, a: Actuator, s: nat, k: nat)
    requires s < k < |turns|
    ensures Mark(turns[..|turns| - 1], a, s, k) == Mark(turns, a, s, k)
  {
    if k > s + 1 {
      MarkPrefix(turns, a, s, k - 1);
    }
  }

  lemma UnansweredPrefix(turns: seq<Turn>, c: Config, a: Actuator, k: nat)
    requires k + 1 < |turns|
    ensures UnansweredAt(turns[..|turns| - 1], c, a, k) == UnansweredAt(turns, c, a, k)
  {
    hide PrevAt, H.Challenged, H.Responded;
    PrefixPrev(turns, c, k);
    BegunPrefix(turns, c, a, k);
    if Begun(turns, c, a, k) < k {
      MarkPrefix(turns, a, Begun(turns, c, a, k), k);
    }
  }

  function ChallengeIn(turns: seq<Turn>, c: Config, a: Actuator): Option<H.Challenge> {
    H.ChallengeOf(HealthOf(turns, c).challenges, a)
  }

  lemma ChallengeStep(turns: seq<Turn>, c: Config, a: Actuator)
    requires turns != [] && a in H.PUSHERS
    ensures var n := |turns| - 1;
            && (ChallengedAt(turns, c, a, n) ==> n > 0)
            && (n == 0 ==> ChallengeIn(turns, c, a).None?)
            && (n > 0 && ChallengedAt(turns, c, a, n) ==>
                  ChallengeIn(turns, c, a) ==
                      Some(H.ChallengeNext(a, ChallengeIn(turns[..n], c, a), ValueAt(turns, a, n))))
            && (n > 0 && !ChallengedAt(turns, c, a, n) ==> ChallengeIn(turns, c, a).None?)
  {
    hide Run, H.StuckNext, H.FlatNext, H.LastSoilNext, H.Alarms, H.Challenged, H.ChallengeNext, H.Level;
    HealthStep(turns, c);
    if |turns| == 1 {
      assert turns[..0] == [];
      NothingYet(c);
    }
  }

  /** A challenge stands exactly from its first challenged tick on, and its baseline is the mark. */
  lemma {:induction false} ChallengeIsMark(turns: seq<Turn>, c: Config, a: Actuator)
    requires a in H.PUSHERS
    ensures var n, s := |turns|, Begun(turns, c, a, |turns|);
            && (ChallengeIn(turns, c, a).Some? <==> s < n)
            && (s < n ==> ChallengeIn(turns, c, a).value.baseline == Mark(turns, a, s, n))
  {
    hide PrevAt, HealthOf, H.Challenged, H.Level;
    if turns == [] {
      NothingYet(c);
    } else {
      var n := |turns| - 1;
      ChallengeIsMark(turns[..n], c, a);
      ChallengeStep(turns, c, a);
      BegunPrefix(turns, c, a, n);
      if Begun(turns, c, a, n) < n {
        MarkPrefix(turns, a, Begun(turns, c, a, n), n);
      }
    }
  }

  lemma TicksStep(turns: seq<Turn>, c: Config, a: Actuator)
    requires turns != [] && a in H.PUSHERS && ChallengeIn(turns, c, a).Some?
    ensures var n := |turns| - 1; var ticks := ChallengeIn(turns, c, a).value.ticks;
            && (UnansweredAt(turns, c, a, n) ==>
                  ChallengeIn(turns[..n], c, a).Some? && ticks == ChallengeIn(turns[..n], c, a).value.ticks + 1)
            && (!UnansweredAt(turns, c, a, n) ==> ticks == 0)
  {
    hide HealthOf, PrevAt, ChallengeIn, H.Challenged, H.Level, H.Responded, Mark;
    var n := |turns| - 1;
    ChallengeStep(turns, c, a);
    ChallengeIsMark(turns[..n], c, a);
    BegunPrefix(turns, c, a, n);
    if Begun(turns, c, a, n) < n {
      MarkPrefix(turns, a, Begun(turns, c, a, n), n);
    }
  }

  lemma UnansweredIsChallenge(turns: seq<Turn>, c: Config, a: Actuator)
    requires turns != [] && a in H.PUSHERS && UnansweredAt(turns, c, a, |turns| - 1)
    ensures ChallengeIn(turns, c, a).Some? && |turns| > 1
  {
    hide HealthOf, PrevAt, ChallengeIn, H.Challenged;
    ChallengeIsMark(turns, c, a);
  }

  /** A challenge's count reaches w exactly when each of the last w ticks went unanswered. */
  lemma {:induction false} TicksExactly(turns: seq<Turn>, c: Config, a: Actuator, w: nat)
    requires turns != [] && a in H.PUSHERS && w >= 1
    ensures (ChallengeIn(turns, c, a).Some? && ChallengeIn(turns, c, a).value.ticks >= w) <==>
            w <= |turns| && forall k :: |turns| - w <= k < |turns| ==> UnansweredAt(turns, c, a, k)
  {
    hide ChallengeIn, UnansweredAt;
    var n := |turns| - 1;
    if UnansweredAt(turns, c, a, n) {
      UnansweredIsChallenge(turns, c, a);
      TicksStep(turns, c, a);
      if w > 1 {
        TicksExactly(turns[..n], c, a, w - 1);
        forall k | 0 <= k < n ensures UnansweredAt(turns[..n], c, a, k) == UnansweredAt(turns, c, a, k) {
          UnansweredPrefix(turns, c, a, k);
        }
      }
    } else if ChallengeIn(turns, c, a).Some? {
      TicksStep(turns, c, a);
    }
  }

  /** The no-response alarm at the last tick: exactly when the whole window went unanswered. */
  lemma PusherAlarmExactly(turns: seq<Turn>, c: Config, a: Actuator)
    requires c.sensing.window >= 1 && |turns| > 1 && a in H.PUSHERS
    ensures var n, w := |turns| - 1, c.sensing.window;
            && PrevAt(turns, c, n).Some?
            && (a in H.FailedPushers(HealthOf(turns[..n], c).challenges, PrevAt(turns, c, n).value, Trusted(turns, n),
                                  turns[n].input.targets, w) <==>
                (w <= |turns| && forall k :: |turns| - w <= k < |turns| ==> UnansweredAt(turns, c, a, k)))
  {
    hide HealthOf, PrevAt, Trusted, UnansweredAt, H.Challenged, H.Level, H.Responded;
    var n, w := |turns| - 1, c.sensing.window;
    HealthStep(turns, c);
    ChallengeStep(turns, c, a);
    TicksExactly(turns, c, a, w);
    FailsWhenCounted(turns, c, a);
  }

  lemma FailsWhenCounted(turns: seq<Turn>, c: Config, a: Actuator)
    requires c.sensing.window >= 1 && |turns| > 1 && a in H.PUSHERS && PrevAt(turns, c, |turns| - 1).Some?
    ensures var n, w := |turns| - 1, c.sensing.window;
            H.Fails(HealthOf(turns[..n], c).challenges, a, PrevAt(turns, c, n).value, Trusted(turns, n),
                    turns[n].input.targets, w) <==>
            ChallengeIn(turns, c, a).Some? && ChallengeIn(turns, c, a).value.ticks >= w
  {
    hide HealthOf, PrevAt, Trusted, H.Challenged, H.Level, H.Responded;
    ChallengeStep(turns, c, a);
  }

  /** The actuator was sent at least half of its range the tick before. */
  predicate WasOn(turns: seq<Turn>, c: Config, a: Actuator, k: nat)
    requires k < |turns|
  {
    PrevAt(turns, c, k).Some? && Get(PrevAt(turns, c, k).value, House(a)) >= 50.0
  }

  predicate Below(v: Option<real>, target: real) {
    v.Some? && v.value < target
  }

  /** Whom a tick challenges: each actuator by the variable it drives, while that is short of its own target. */
  lemma ChallengedMeans(turns: seq<Turn>, c: Config, k: nat)
    requires k < |turns|
    ensures var t, r := Trusted(turns, k), turns[k].input.targets;
            && (ChallengedAt(turns, c, Heater, k) <==>
                  WasOn(turns, c, Heater, k) && Below(t.temperature, r.temperature))
            && (ChallengedAt(turns, c, Misters, k) <==>
                  WasOn(turns, c, Misters, k) && Below(t.humidity, r.humidity.GetOr(r.humidityLow)))
            && (ChallengedAt(turns, c, Co2Injector, k) <==> WasOn(turns, c, Co2Injector, k) && Below(t.co2, r.co2))
            && (ChallengedAt(turns, c, GrowLights, k) <==> WasOn(turns, c, GrowLights, k) && t.par.Some?)
  {
    hide PrevAt;
  }

  /** What a challenge measures, and by how much an answer may fall short of it; lamps have to gain as much. */
  lemma UnansweredMeans(turns: seq<Turn>, c: Config, k: nat)
    requires k < |turns|
    ensures var t := Trusted(turns, k);
            && ValueAt(turns, Heater, k) == t.temperature.GetOr(0.0)
            && ValueAt(turns, Misters, k) == t.humidity.GetOr(0.0)
            && ValueAt(turns, Co2Injector, k) == t.co2.GetOr(0.0) && ValueAt(turns, GrowLights, k) == t.par.GetOr(0.0)
    ensures forall a, slack ::
              (a, slack) in {(Heater, 0.2), (Misters, 1.0), (Co2Injector, 10.0), (GrowLights, -10.0)} ==>
              (UnansweredAt(turns, c, a, k) <==>
                 var s := Begun(turns, c, a, k);
                 && ChallengedAt(turns, c, a, k) && s < k
                 && if a.GrowLights? then ValueAt(turns, a, k) <= Mark(turns, a, s, k) - slack
                    else ValueAt(turns, a, k) < Mark(turns, a, s, k) - slack)
  {
    hide PrevAt, ChallengedAt, Mark, Begun;
  }
}
