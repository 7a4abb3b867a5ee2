/** One zone's irrigation scheduler on the simulated clock, over whole runs. */
module Irrigation {
  import opened Text
  import opened Actuators

  // ---- the clock ----

  const DAY_SECS := 86400

  datatype Time = Time(tick: nat, seconds: nat)

  function SecondOfDay(seconds: nat): nat {
    seconds % DAY_SECS
  }

  class Clock {
    var tick: nat
    var seconds: nat

    ghost function Now(): Time
      reads this
    {
      Time(tick, seconds)
    }

    constructor (start: nat)
      ensures Now() == Time(0, start)
    {
      tick, seconds := 0, start;
    }

    /** One tick is one simulated second. */
    method Advance()
      modifies this
      ensures Now() == Time(old(tick) + 1, old(seconds) + 1)
    {
      tick, seconds := tick + 1, seconds + 1;
    }
  }

  // ---- the scheduler ----

  /** `times` are the schedule's minutes since midnight. */
  datatype Zone = Zone(id: string, low: real, high: real, drain: nat, times: seq<nat>)

  datatype Loop = Loop(irrigating: bool, lastEnd: Option<nat>)

  const IDLE := Loop(false, None)

  predicate ScheduledAt(zone: Zone, seconds: nat) {
    exists i :: 0 <= i < |zone.times| && zone.times[i] * 60 == SecondOfDay(seconds)
  }

  /** The gap since the last completed cycle has passed. */
  predicate Drained(l: Loop, zone: Zone, tick: nat) {
    l.lastEnd.Some? ==> (if tick >= l.lastEnd.value then tick - l.lastEnd.value else 0) >= zone.drain
  }

  function LoopNext(l: Loop, zone: Zone, soil: Option<real>, now: Time): Loop {
    if soil.None? then l.(irrigating := false)
    else if l.irrigating then
      if soil.value >= zone.high then Loop(false, Some(now.tick)) else l
    else if Drained(l, zone, now.tick) && ScheduledAt(zone, now.seconds) && soil.value < zone.low then
        l.(irrigating := true)
    else l
  }

  class IrrigationLoop {
    const zone: Zone
    var irrigating: bool
    var lastEnd: Option<nat>

    ghost function Now(): Loop
      reads this
    {
      Loop(irrigating, lastEnd)
    }

    constructor (zone: Zone)
      ensures this.zone == zone && Now() == IDLE
    {
      this.zone := zone;
      irrigating, lastEnd := false, None;
    }

    method ScheduledNow(clock: Clock) returns (r: bool)
      ensures r <==> ScheduledAt(zone, clock.seconds)
    {
      for i := 0 to |zone.times|
        invariant forall j :: 0 <= j < i ==> zone.times[j] * 60 != SecondOfDay(clock.seconds)
      {
        if zone.times[i] * 60 == SecondOfDay(clock.seconds) {
          return true;
        }
      }
      return false;
    }

    /** The valve is open exactly while irrigating; without a trusted reading it is shut, dwell waived. */
    method Compute(soil: Option<real>, clock: Clock, failClosed: set<ActuatorId>)
      returns (level: real, closed: set<ActuatorId>)
      modifies this
      ensures Now() == LoopNext(old(Now()), zone, soil, clock.Now())
      ensures level == if irrigating then 100.0 else 0.0
      ensures closed == if soil.None? then failClosed + {Valve(zone.id)} else failClosed
    {
      hide ScheduledAt;
      closed := failClosed;
      if soil.None? {
        irrigating := false;
        return 0.0, failClosed + {Valve(zone.id)};
      }
      if irrigating {
        if soil.value >= zone.high {
          irrigating := false;
          lastEnd := Some(clock.tick);
          return 0.0, closed;
        }
        return 100.0, closed;
      }
      if lastEnd.Some? {
        var since := if clock.tick >= lastEnd.value then clock.tick - lastEnd.value else 0;
        if since < zone.drain {
          return 0.0, closed;
        }
      }
      var due := ScheduledNow(clock);
      if due && soil.value < zone.low {
        irrigating := true;
        return 100.0, closed;
      }
      return 0.0, closed;
    }
  }

  // ---- runs ----

  /** The scheduler after a run of readings, the clock having started `start` seconds into the epoch. */
  function After(zone: Zone, start: nat, soil: seq<Option<real>>): Loop {
    if soil == [] then IDLE
    else
      var n := |soil| - 1;
      LoopNext(After(zone, start, soil[..n]), zone, soil[n], Time(n, start + n))
  }

  function Before(zone: Zone, start: nat, soil: seq<Option<real>>, k: nat): Loop
    requires k <= |soil|
  {
    After(zone, start, soil[..k])
  }

  lemma StepAt(zone: Zone, start: nat, soil: seq<Option<real>>, k: nat)
    requires k < |soil|
    ensures Before(zone, start, soil, k + 1) ==
        LoopNext(Before(zone, start, soil, k), zone, soil[k], Time(k, start + k))
  {
    assert soil[..k + 1][..k] == soil[..k];
  }

  predicate Starts(zone: Zone, start: nat, soil: seq<Option<real>>, k: nat)
    requires k < |soil|
  {
    !Before(zone, start, soil, k).irrigating && Before(zone, start, soil, k + 1).irrigating
  }

  /** A cycle in progress reached its high threshold at tick k. */
  predicate Completes(zone: Zone, start: nat, soil: seq<Option<real>>, k: nat)
    requires k < |soil|
  {
    Before(zone, start, soil, k).irrigating && soil[k].Some? && soil[k].value >= zone.high
  }

  /** The recorded end is the latest completed cycle; an abort for want of a reading leaves no trace. */
  lemma {:induction false} LastEndIsLatest(zone: Zone, start: nat, soil: seq<Option<real>>, k: nat)
    requires k <= |soil|
    ensures var e := Before(zone, start, soil, k).lastEnd;
            && (e.None? ==> forall j :: 0 <= j < k ==> !Completes(zone, start, soil, j))
            && (e.Some? ==> e.value < k && Completes(zone, start, soil, e.value) &&
                            forall j :: e.value < j < k ==> !Completes(zone, start, soil, j))
  {
    hide After, ScheduledAt, Drained;
    if k > 0 {
      LastEndIsLatest(zone, start, soil, k - 1);
      StepAt(zone, start, soil, k - 1);
    } else {
      NothingYet(zone, start, soil);
    }
  }

  lemma NothingYet(zone: Zone, start: nat, soil: seq<Option<real>>)
    ensures Before(zone, start, soil, 0) == IDLE
  {
    assert soil[..0] == [];
  }

  predicate DrainedSince(zone: Zone, start: nat, soil: seq<Option<real>>, j: nat, k: nat)
    requires j < k < |soil|
  {
    Completes(zone, start, soil, j) ==> k - j >= zone.drain
  }

  /**
   A cycle starts exactly on a scheduled second, from idle, with a trusted reading below the low threshold, and
   with the drain period passed since every completed cycle before it.
   */
  lemma StartsExactly(zone: Zone, start: nat, soil: seq<Option<real>>, k: nat)
    requires k < |soil|
    ensures Starts(zone, start, soil, k) <==>
            && !Before(zone, start, soil, k).irrigating
            && soil[k].Some? && soil[k].value < zone.low
            && ScheduledAt(zone, start + k)
            && forall j :: 0 <= j < k ==> DrainedSince(zone, start, soil, j, k)
  {
    hide After, ScheduledAt, Completes;
    StepAt(zone, start, soil, k);
    LastEndIsLatest(zone, start, soil, k);
    var e := Before(zone, start, soil, k).lastEnd;
    if e.Some? {
      assert DrainedSince(zone, start, soil, e.value, k) <==> k - e.value >= zone.drain;
    }
  }

  /** The valve never runs without a reading, nor past the high threshold. */
  lemma NeverWatersBlind(zone: Zone, start: nat, soil: seq<Option<real>>, k: nat)
    requires k < |soil|
    ensures soil[k].None? ==> !Before(zone, start, soil, k + 1).irrigating
    ensures Completes(zone, start, soil, k) ==> !Before(zone, start, soil, k + 1).irrigating
  {
    StepAt(zone, start, soil, k);
  }

  /** A cycle in progress goes on exactly as long as the reading is trusted and below the high threshold. */
  lemma GoesOnExactly(zone: Zone, start: nat, soil: seq<Option<real>>, k: nat)
    requires k < |soil| && Before(zone, start, soil, k).irrigating
    ensures Before(zone, start, soil, k + 1).irrigating <==> soil[k].Some? && soil[k].value < zone.high
  {
    StepAt(zone, start, soil, k);
  }

  /** The minutes of the schedule, each once. */
  function Minutes(zone: Zone): set<nat> {
    set t | t in zone.times
  }

  function MinuteAt(start: nat, k: nat): nat {
    SecondOfDay(start + k) / 60
  }

  ghost function StartsIn(zone: Zone, start: nat, soil: seq<Option<real>>, a: nat): set<nat> {
    set k: nat | a <= k < a + DAY_SECS && k < |soil| && Starts(zone, start, soil, k)
  }

  /** Two scheduled ticks of one day-long window that fall on the same minute are the same tick. */
  lemma OneTickPerMinute(zone: Zone, start: nat, a: nat, j: nat, k: nat)
    requires a <= j < a + DAY_SECS && a <= k < a + DAY_SECS
    requires ScheduledAt(zone, start + j) && ScheduledAt(zone, start + k) && MinuteAt(start, j) == MinuteAt(start, k)
    ensures j == k
  {
    assert SecondOfDay(start + j) == SecondOfDay(start + k);
    SameSecond(start + j, start + k);
  }

  lemma SameSecond(x: nat, y: nat)
    requires x % DAY_SECS == y % DAY_SECS && -DAY_SECS < x - y < DAY_SECS
    ensures x == y
  {
    assert x == DAY_SECS * (x / DAY_SECS) + x % DAY_SECS;
    assert y == DAY_SECS * (y / DAY_SECS) + y % DAY_SECS;
  }

  lemma ScheduledMinute(zone: Zone, start: nat, k: nat)
    requires ScheduledAt(zone, start + k)
    ensures MinuteAt(start, k) in Minutes(zone)
  {
    var i :| 0 <= i < |zone.times| && zone.times[i] * 60 == SecondOfDay(start + k);
    assert zone.times[i] in zone.times;
  }

  /** Scheduled ticks of one window inject into the schedule's minutes. */
  lemma {:induction false} NoMoreThanMinutes(zone: Zone, start: nat, a: nat, ticks: set<nat>, minutes: set<nat>)
    requires forall k :: k in ticks ==>
        a <= k < a + DAY_SECS && ScheduledAt(zone, start + k) && MinuteAt(start, k) in minutes
    ensures |ticks| <= |minutes|
    decreases ticks
  {
    hide ScheduledAt, MinuteAt;
    if ticks != {} {
      var k :| k in ticks;
      forall j | j in ticks - {k} ensures MinuteAt(start, j) in minutes - {MinuteAt(start, k)} {
        if MinuteAt(start, j) == MinuteAt(start, k) {
          OneTickPerMinute(zone, start, a, j, k);
        }
      }
      NoMoreThanMinutes(zone, start, a, ticks - {k}, minutes - {MinuteAt(start, k)});
    }
  }

  /** Any 86,400 consecutive ticks hold at most as many starts as the schedule has distinct times. */
  lemma StartsPerDay(zone: Zone, start: nat, soil: seq<Option<real>>, a: nat)
    ensures |StartsIn(zone, start, soil, a)| <= |Minutes(zone)|
  {
    hide Starts, ScheduledAt, MinuteAt, Minutes, DrainedSince;
    forall k | k in StartsIn(zone, start, soil, a)
      ensures ScheduledAt(zone, start + k) && MinuteAt(start, k) in Minutes(zone)
    {
      StartsExactly(zone, start, soil, k);
      ScheduledMinute(zone, start, k);
    }
    NoMoreThanMinutes(zone, start, a, StartsIn(zone, start, soil, a), Minutes(zone));
  }
}
