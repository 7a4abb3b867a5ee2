/**
 The registry of sensor injections beside the hardware channels they force: commands between ticks, pruning
 before each tick, one step of the hardware's own lifetimes in it.
 */
module Injections {
  import opened Text
  import opened SimHal

  datatype Key = Temperature(probe: Option<nat>) | Humidity | Co2 | Par | Soil(zone: string)

  datatype Record = Record(value: real, created: nat, expires: nat)

  function ChannelsFor(key: Key, probes: nat): seq<Channel> {
    match key
    case Temperature(None) => seq(probes, i requires 0 <= i < probes => TemperatureProbe(i))
    case Temperature(Some(i)) => [TemperatureProbe(i)]
    case Humidity => [HumiditySensor]
    case Co2 => [Co2Sensor]
    case Par => [ParSensor]
    case Soil(zone) => [SoilMoisture(zone)]
  }

  predicate Covers(key: Key, ch: Channel, probes: nat) {
    ch in ChannelsFor(key, probes)
  }

  /** What the REST surface lets through: a probe in range. */
  predicate ValidKey(key: Key, probes: nat) {
    key.Temperature? && key.probe.Some? ==> key.probe.value < probes
  }

  /** Same metric and zone, whatever the probe. */
  predicate SameSensor(a: Key, b: Key) {
    (a.Temperature? && b.Temperature?) || a == b
  }

  datatype State = State(hal: map<Channel, Injection>, registry: map<Key, Record>, now: nat)

  const START := State(map[], map[], 0)

  // ---- commands and the tick ----

  function Forced(hal: map<Channel, Injection>, chs: seq<Channel>, injection: Injection): map<Channel, Injection> {
    hal + map ch | ch in chs :: injection
  }

  function Injected(s: State, key: Key, value: real, ttl: nat, probes: nat): State {
    s.(hal := Forced(s.hal, ChannelsFor(key, probes), Injection(value, Lifetime(ttl))),
       registry := s.registry[key := Record(value, s.now, s.now + ttl)])
  }

  function Released(hal: map<Channel, Injection>, chs: seq<Channel>): map<Channel, Injection> {
    map ch | ch in hal && ch !in chs :: hal[ch]
  }

  function Cleared(s: State, key: Key, probes: nat): State {
    s.(hal := Released(s.hal, ChannelsFor(key, probes)),
       registry := map k | k in s.registry && !SameSensor(k, key) :: s.registry[k])
  }

  predicate Expired(s: State, key: Key) {
    key in s.registry && s.registry[key].expires <= s.now
  }

  /** Some expired record covers the channel. */
  predicate Doomed(s: State, ch: Channel, probes: nat) {
    exists k :: k in s.registry && Expired(s, k) && Covers(k, ch, probes)
  }

  function Pruned(s: State, probes: nat): State {
    s.(hal := map ch | ch in s.hal && !Doomed(s, ch, probes) :: s.hal[ch],
       registry := map k | k in s.registry && !Expired(s, k) :: s.registry[k])
  }

  /** The tick reads the pruned state; then the hardware ages and the clock advances. */
  function Ticked(s: State, probes: nat): State {
    var p := Pruned(s, probes);
    State(Aged(p.hal), p.registry, s.now + 1)
  }

  lemma NoneForced(hal: map<Channel, Injection>, injection: Injection)
    ensures Forced(hal, [], injection) == hal
  {
  }

  lemma OneMoreForced(hal: map<Channel, Injection>, chs: seq<Channel>, ch: Channel, injection: Injection)
    ensures Forced(hal, chs + [ch], injection) == Forced(hal, chs, injection)[ch := injection]
  {
  }

  class Runtime {
    const hal: SimulatedHal
    const probes: nat
    var registry: map<Key, Record>
    var now: nat

    ghost function Now(): State
      reads this, hal
    {
      State(hal.injections, registry, now)
    }

    constructor (hal: SimulatedHal, probes: nat)
      requires hal.injections == map[]
      ensures this.hal == hal && this.probes == probes && Now() == START
    {
      this.hal, this.probes := hal, probes;
      registry, now := map[], 0;
    }

    method Inject(key: Key, value: real, ttl: nat)
      modifies this, hal
      ensures Now() == Injected(old(Now()), key, value, ttl, probes)
    {
      hide ChannelsFor, Forced, Lifetime;
      var chs := ChannelsFor(key, probes);
      NoneForced(hal.injections, Injection(value, Lifetime(ttl)));
      assert chs[..0] == [];
      for i := 0 to |chs|
        invariant registry == old(registry) && now == old(now)
        invariant hal.injections == Forced(old(hal.injections), chs[..i], Injection(value, Lifetime(ttl)))
      {
        OneMoreForced(old(hal.injections), chs[..i], chs[i], Injection(value, Lifetime(ttl)));
        assert chs[..i + 1] == chs[..i] + [chs[i]];
        hal.InjectSensor(chs[i], value, ttl);
      }
      assert chs[..|chs|] == chs;
      registry := registry[key := Record(value, now, now + ttl)];
    }

    method Release(chs: seq<Channel>)
      modifies hal
      ensures hal.injections == Released(old(hal.injections), chs)
    {
      for i := 0 to |chs|
        invariant hal.injections == Released(old(hal.injections), chs[..i])
      {
        hal.ClearSensor(chs[i]);
      }
      assert chs[..|chs|] == chs;
    }

    method Clear(key: Key)
      modifies this, hal
      ensures Now() == Cleared(old(Now()), key, probes)
    {
      Release(ChannelsFor(key, probes));
      registry := map k | k in registry && !SameSensor(k, key) :: registry[k];
    }

    method Prune()
      modifies this, hal
      ensures Now() == Pruned(old(Now()), probes)
    {
      hide Covers;
      var expired := set k | k in registry && registry[k].expires <= now;
      var left := expired;
      while left != {}
        invariant now == old(now) && left <= expired
        invariant forall ch :: ch in hal.injections <==>
                    ch in old(hal.injections) && !exists k :: k in expired && k !in left && Covers(k, ch, probes)
        invariant forall ch :: ch in hal.injections ==> hal.injections[ch] == old(hal.injections)[ch]
        invariant registry == map k | k in old(registry) && !(k in expired && k !in left) :: old(registry)[k]
        decreases left
      {
        var key :| key in left;
        left := left - {key};
        Release(ChannelsFor(key, probes));
        assert forall ch :: Covers(key, ch, probes) <==> ch in ChannelsFor(key, probes) by {
          CoversIsMember(key, probes);
        }
        registry := registry - {key};
      }
    }

    /** Prune, let the controller read, step the hardware, advance the clock. */
    method Tick(readings: map<Channel, real>) returns (seen: map<Channel, real>)
      modifies this, hal
      ensures Now() == Ticked(old(Now()), probes)
      ensures seen == Overlaid(readings, Pruned(old(Now()), probes).hal)
    {
      hide Pruned, Aged, Overlaid;
      PrunedRegistry(Now(), probes);
      Prune();
      seen := hal.Read(readings);
      hal.Step();
      now := now + 1;
    }
  }

  lemma CoversIsMember(key: Key, probes: nat)
    ensures forall ch :: Covers(key, ch, probes) <==> ch in ChannelsFor(key, probes)
  {
  }

  // ---- what the registry and the channels have to do with each other ----

  /** The record that last wrote a forced channel: same value, and the same time left. */
  predicate Matches(injection: Injection, r: Record, now: nat) {
    r.expires >= now && injection == Injection(r.value, if r.expires > now then r.expires - now else 1)
  }

  predicate WrittenBy(s: State, ch: Channel, key: Key, probes: nat) {
    ch in s.hal && key in s.registry && Covers(key, ch, probes) && Matches(s.hal[ch], s.registry[key], s.now)
  }

  predicate Written(s: State, ch: Channel, probes: nat) {
    exists key :: key in s.registry && WrittenBy(s, ch, key, probes)
  }

  predicate Reaches(s: State, key: Key, probes: nat)
    requires key in s.registry
  {
    && ValidKey(key, probes) && s.registry[key].expires >= s.now
    && (s.registry[key].expires > s.now ==> forall ch :: ch in ChannelsFor(key, probes) ==> ch in s.hal)
  }

  /** Every forced channel was written by a record still there, and every live record reaches its channels. */
  predicate Good(s: State, probes: nat) {
    && (forall ch :: ch in s.hal ==> Written(s, ch, probes))
    && (forall key :: key in s.registry ==> Reaches(s, key, probes))
  }

  /** Records that share a channel run out together. */
  ghost predicate ClashFree(s: State, probes: nat) {
    forall a, b, ch :: a in s.registry && b in s.registry && Covers(a, ch, probes) && Covers(b, ch, probes) ==>
      s.registry[a].expires == s.registry[b].expires
  }

  predicate Listed(s: State, ch: Channel, probes: nat) {
    exists key :: key in s.registry && Covers(key, ch, probes)
  }

  /** A channel is forced exactly when a listed record covers it. */
  ghost predicate Mirrored(s: State, probes: nat) {
    forall ch :: ch in s.hal <==> Listed(s, ch, probes)
  }

  lemma InjectKeepsGood(s: State, key: Key, value: real, ttl: nat, probes: nat)
    requires Good(s, probes) && ValidKey(key, probes)
    ensures Good(Injected(s, key, value, ttl, probes), probes)
  {
    hide ChannelsFor, ValidKey;
    var s' := Injected(s, key, value, ttl, probes);
    forall ch | ch in s'.hal ensures Written(s', ch, probes) {
      if ch in ChannelsFor(key, probes) {
        assert WrittenBy(s', ch, key, probes);
      } else {
        var k :| k in s.registry && WrittenBy(s, ch, k, probes);
        assert WrittenBy(s', ch, k, probes);
      }
    }
    forall k | k in s'.registry ensures Reaches(s', k, probes) {
      if k != key {
        assert Reaches(s, k, probes);
      }
    }
  }

  lemma SameSensorCovered(k: Key, key: Key, ch: Channel, probes: nat)
    requires ValidKey(k, probes) && Covers(k, ch, probes) && (key.Temperature? ==> key.probe.None?)
    ensures SameSensor(k, key) <==> ch in ChannelsFor(key, probes)
  {
    if k.Temperature? && key.Temperature? {
      assert ch == TemperatureProbe(ch.i) && ChannelsFor(key, probes)[ch.i] == ch;
    }
  }

  lemma ClearKeepsGood(s: State, key: Key, probes: nat)
    requires Good(s, probes) && (key.Temperature? ==> key.probe.None?)
    ensures Good(Cleared(s, key, probes), probes)
  {
    hide ChannelsFor, ValidKey, SameSensor;
    var s' := Cleared(s, key, probes);
    forall ch | ch in s'.hal ensures Written(s', ch, probes) {
      var k :| k in s.registry && WrittenBy(s, ch, k, probes);
      assert Reaches(s, k, probes);
      SameSensorCovered(k, key, ch, probes);
      assert WrittenBy(s', ch, k, probes);
    }
    forall k | k in s'.registry ensures Reaches(s', k, probes) {
      assert Reaches(s, k, probes);
      forall ch | ch in ChannelsFor(k, probes) ensures s.registry[k].expires > s.now ==> ch in s'.hal {
        SameSensorCovered(k, key, ch, probes);
      }
    }
  }

  /** With no clash, what the tick reads is what the registry lists. */
  lemma PrunedIsMirrored(s: State, probes: nat)
    requires Good(s, probes) && ClashFree(s, probes)
    ensures Good(Pruned(s, probes), probes) && Mirrored(Pruned(s, probes), probes)
  {
    hide ChannelsFor, ValidKey;
    var p := Pruned(s, probes);
    forall ch | ch in p.hal ensures Written(p, ch, probes) {
      var k :| k in s.registry && WrittenBy(s, ch, k, probes);
      assert !Expired(s, k);
      assert WrittenBy(p, ch, k, probes);
    }
    forall k | k in p.registry ensures Reaches(p, k, probes) {
      assert Reaches(s, k, probes);
      forall ch | ch in ChannelsFor(k, probes) ensures ch in p.hal {
        assert Covers(k, ch, probes);
      }
    }
  }

  function Older(p: State): State {
    State(Aged(p.hal), p.registry, p.now + 1)
  }

  predicate AllLive(p: State) {
    forall k :: k in p.registry ==> p.registry[k].expires > p.now
  }

  lemma OlderMatches(injection: Injection, r: Record, now: nat)
    requires Matches(injection, r, now) && r.expires > now
    ensures injection.remaining > 1 <==> r.expires > now + 1
    ensures r.expires > now + 1 ==> Matches(Injection(injection.value, injection.remaining - 1), r, now + 1)
  {
  }

  lemma OlderWritten(p: State, ch: Channel, probes: nat)
    requires Good(p, probes) && AllLive(p) && ch in Older(p).hal
    ensures Written(Older(p), ch, probes)
  {
    hide Covers, ValidKey, ChannelsFor, Matches;
    assert Written(p, ch, probes);
    var k :| k in p.registry && WrittenBy(p, ch, k, probes);
    OlderMatches(p.hal[ch], p.registry[k], p.now);
    assert WrittenBy(Older(p), ch, k, probes);
  }

  lemma OlderReaches(p: State, k: Key, ch: Channel, probes: nat)
    requires Good(p, probes) && AllLive(p) && ClashFree(p, probes)
    requires k in p.registry && Covers(k, ch, probes) && p.registry[k].expires > p.now + 1
    ensures ch in Older(p).hal
  {
    hide ValidKey, ChannelsFor, Matches;
    assert Reaches(p, k, probes);
    assert Written(p, ch, probes);
    var w :| w in p.registry && WrittenBy(p, ch, w, probes);
    OlderMatches(p.hal[ch], p.registry[w], p.now);
  }

  lemma TickKeepsGood(s: State, probes: nat)
    requires Good(s, probes) && ClashFree(s, probes)
    ensures Good(Ticked(s, probes), probes) && ClashFree(Ticked(s, probes), probes)
  {
    hide ChannelsFor, ValidKey, Pruned, Aged, Written;
    PrunedIsMirrored(s, probes);
    PrunedRegistry(s, probes);
    var p, t := Pruned(s, probes), Ticked(s, probes);
    assert t == Older(p) && AllLive(p) && ClashFree(p, probes);
    forall ch | ch in t.hal ensures Written(t, ch, probes) {
      OlderWritten(p, ch, probes);
    }
    forall k | k in t.registry ensures Reaches(t, k, probes) {
      assert Reaches(p, k, probes);
      forall ch | ch in ChannelsFor(k, probes) ensures t.registry[k].expires > t.now ==> ch in t.hal {
        if t.registry[k].expires > t.now {
          OlderReaches(p, k, ch, probes);
        }
      }
    }
  }

  lemma PrunedRegistry(s: State, probes: nat)
    ensures Pruned(s, probes).now == s.now
    ensures forall k :: k in Pruned(s, probes).registry <==> k in s.registry && s.registry[k].expires > s.now
    ensures forall k :: k in Pruned(s, probes).registry ==> Pruned(s, probes).registry[k] == s.registry[k]
  {
  }

  // ---- runs ----

  datatype Event = Inject(key: Key, value: real, ttl: nat) | Clear(key: Key) | Tick

  /** What the REST surface sends: probes in range, and a clear for all probes at once. */
  predicate ValidEvent(e: Event, probes: nat) {
    match e
    case Inject(key, _, _) => ValidKey(key, probes)
    case Clear(key) => key.Temperature? ==> key.probe.None?
    case Tick => true
  }

  function Next(s: State, e: Event, probes: nat): State {
    match e
    case Inject(key, value, ttl) => Injected(s, key, value, ttl, probes)
    case Clear(key) => Cleared(s, key, probes)
    case Tick => Ticked(s, probes)
  }

  function Run(events: seq<Event>, probes: nat): State {
    if events == [] then START
    else
      var n := |events| - 1;
      Next(Run(events[..n], probes), events[n], probes)
  }

  /** At every tick of the run, records that share a channel run out together. */
  ghost predicate NeverClashes(events: seq<Event>, probes: nat) {
    forall k :: 0 <= k < |events| && events[k].Tick? ==> ClashFree(Run(events[..k], probes), probes)
  }

  lemma StartIsGood(probes: nat)
    ensures Good(START, probes)
  {
  }

  lemma {:induction false} RunIsGood(events: seq<Event>, probes: nat)
    requires NeverClashes(events, probes) && forall k :: 0 <= k < |events| ==> ValidEvent(events[k], probes)
    ensures Good(Run(events, probes), probes)
  {
    hide Good, ClashFree, Injected, Cleared, Ticked, ValidKey;
    if events == [] {
      StartIsGood(probes);
    } else {
      var n := |events| - 1;
      forall k | 0 <= k < n && events[..n][k].Tick? ensures ClashFree(Run(events[..n][..k], probes), probes) {
        assert events[..n][..k] == events[..k];
      }
      RunIsGood(events[..n], probes);
      var s := Run(events[..n], probes);
      match events[n]
      case Inject(key, value, ttl) => InjectKeepsGood(s, key, value, ttl, probes);
      case Clear(key) => ClearKeepsGood(s, key, probes);
      case Tick => TickKeepsGood(s, probes);
    }
  }

  /** At every tick of such a run, a channel is forced exactly when the registry lists an injection for it. */
  lemma EveryTickIsMirrored(events: seq<Event>, probes: nat, k: nat)
    requires NeverClashes(events, probes) && forall j :: 0 <= j < |events| ==> ValidEvent(events[j], probes)
    requires k < |events| && events[k].Tick?
    ensures Mirrored(Pruned(Run(events[..k], probes), probes), probes)
  {
    hide Good, ClashFree, Mirrored, ValidEvent, Run;
    forall j | 0 <= j < k && events[..k][j].Tick? ensures ClashFree(Run(events[..k][..j], probes), probes) {
      assert events[..k][..j] == events[..j];
    }
    RunIsGood(events[..k], probes);
    PrunedIsMirrored(Run(events[..k], probes), probes);
  }

  // ---- exactly when ----

  /** The state m ticks on, with no command in between. */
  function Idle(s: State, m: nat, probes: nat): State {
    if m == 0 then s else Ticked(Idle(s, m - 1, probes), probes)
  }

  lemma {:induction false} IdleRegistry(s: State, m: nat, probes: nat)
    requires forall k :: k in s.registry ==> s.registry[k].expires >= s.now
    ensures var t := Idle(s, m, probes);
            && t.now == s.now + m
            && (forall k :: k in t.registry <==> k in s.registry && s.registry[k].expires >= s.now + m)
            && forall k :: k in t.registry ==> t.registry[k] == s.registry[k]
  {
    hide Pruned, Aged;
    if m > 0 {
      IdleRegistry(s, m - 1, probes);
      PrunedRegistry(Idle(s, m - 1, probes), probes);
    }
  }

  lemma {:induction false} IdleIsGood(s: State, m: nat, probes: nat)
    requires Good(s, probes) && ClashFree(s, probes)
    ensures Good(Idle(s, m, probes), probes) && ClashFree(Idle(s, m, probes), probes)
  {
    hide Good, ClashFree, Ticked;
    if m > 0 {
      IdleIsGood(s, m - 1, probes);
      TickKeepsGood(Idle(s, m - 1, probes), probes);
    }
  }

  /**
   Two records on one channel that run out apart: when the first does, the second is still listed, its channel
   released.
   */
  lemma ClashUnmirrors(s: State, a: Key, b: Key, ch: Channel, probes: nat)
    requires Good(s, probes) && a in s.registry && b in s.registry && Covers(a, ch, probes) && Covers(b, ch, probes)
    requires s.registry[a].expires < s.registry[b].expires
    ensures var m := s.registry[a].expires - s.now; m >= 0 && !Mirrored(Pruned(Idle(s, m, probes), probes), probes)
  {
    hide Covers, Written, ChannelsFor, ValidKey, Idle;
    AllAhead(s, probes);
    var m := s.registry[a].expires - s.now;
    IdleRegistry(s, m, probes);
    var t := Idle(s, m, probes);
    assert Expired(t, a);
    assert Doomed(t, ch, probes);
    assert ch !in Pruned(t, probes).hal;
    assert b in Pruned(t, probes).registry;
    assert Listed(Pruned(t, probes), ch, probes);
  }

  /**
   Listing and effect expire together from here on, commands aside, if and only if no two registered injections on
   one channel have different expiries now.
   */
  lemma MirroredExactly(s: State, probes: nat)
    requires Good(s, probes)
    ensures (forall m: nat :: Mirrored(Pruned(Idle(s, m, probes), probes), probes)) <==> ClashFree(s, probes)
  {
    hide Good, Mirrored, Covers, Pruned, Idle;
    if ClashFree(s, probes) {
      forall m: nat ensures Mirrored(Pruned(Idle(s, m, probes), probes), probes) {
        IdleIsGood(s, m, probes);
        PrunedIsMirrored(Idle(s, m, probes), probes);
      }
    } else {
      var a, b, ch :| a in s.registry && b in s.registry && Covers(a, ch, probes) && Covers(b, ch, probes) &&
                      s.registry[a].expires != s.registry[b].expires;
      if s.registry[a].expires < s.registry[b].expires {
        ClashUnmirrors(s, a, b, ch, probes);
      } else {
        ClashUnmirrors(s, b, a, ch, probes);
      }
    }
  }

  /** An injection forces its channels on exactly the next `ttl` ticks, none when the time to live is zero. */
  lemma ForcedForItsTtl(s: State, key: Key, value: real, ttl: nat, ch: Channel, m: nat, probes: nat)
    requires Good(s, probes) && ValidKey(key, probes) && Covers(key, ch, probes)
    requires ClashFree(Injected(s, key, value, ttl, probes), probes)
    ensures ch in Pruned(Idle(Injected(s, key, value, ttl, probes), m, probes), probes).hal <==> m < ttl
  {
    hide Good, Covers, ChannelsFor, ValidKey, Idle, Pruned;
    InjectKeepsGood(s, key, value, ttl, probes);
    var i := Injected(s, key, value, ttl, probes);
    MirroredExactly(i, probes);
    AllAhead(i, probes);
    IdleRegistry(i, m, probes);
    var t := Idle(i, m, probes);
    PrunedRegistry(t, probes);
    assert Mirrored(Pruned(t, probes), probes);
    assert key in i.registry && i.registry[key].expires == i.now + ttl;
    if Listed(Pruned(t, probes), ch, probes) {
      var k :| k in Pruned(t, probes).registry && Covers(k, ch, probes);
      assert i.registry[k].expires == i.registry[key].expires;
    }
  }

  lemma {:induction false} IdleKeepsValue(s: State, ch: Channel, m: nat, probes: nat)
    ensures ch in Idle(s, m, probes).hal ==> ch in s.hal && Idle(s, m, probes).hal[ch].value == s.hal[ch].value
  {
    if m > 0 {
      IdleKeepsValue(s, ch, m - 1, probes);
    }
  }

  /** While it is forced, the channel reads the injected value; otherwise it reads as measured. */
  lemma ForcedToItsValue(s: State, key: Key, value: real, ttl: nat, ch: Channel, m: nat, probes: nat)
    requires Covers(key, ch, probes)
    ensures var p := Pruned(Idle(Injected(s, key, value, ttl, probes), m, probes), probes);
            forall readings :: ch in readings ==>
                Overlaid(readings, p.hal)[ch] == if ch in p.hal then value else readings[ch]
  {
    hide ChannelsFor;
    IdleKeepsValue(Injected(s, key, value, ttl, probes), ch, m, probes);
  }

  /** A clear lets go of the key's channels and of no other, and unlists every record of its metric and zone. */
  lemma ClearReleases(s: State, key: Key, ch: Channel, probes: nat)
    ensures var s' := Cleared(s, key, probes);
            var own := match key
              case Temperature(None) => ch.TemperatureProbe? && ch.i < probes
              case Temperature(Some(i)) => ch == TemperatureProbe(i)
              case Humidity => ch.HumiditySensor?
              case Co2 => ch.Co2Sensor?
              case Par => ch.ParSensor?
              case Soil(zone) => ch == SoilMoisture(zone);
            && (own ==> ch !in s'.hal)
            && (!own ==> (ch in s'.hal <==> ch in s.hal) && (ch in s.hal ==> s'.hal[ch] == s.hal[ch]))
            && (forall k :: k in s'.registry <==>
                  k in s.registry && k != key && !(k.Temperature? && key.Temperature?))
  {
    if key.Temperature? && key.probe.None? && ch.TemperatureProbe? && ch.i < probes {
      assert ChannelsFor(key, probes)[ch.i] == ch;
    }
  }

  lemma AllAhead(s: State, probes: nat)
    requires Good(s, probes)
    ensures forall k :: k in s.registry ==> s.registry[k].expires >= s.now
  {
    forall k | k in s.registry ensures s.registry[k].expires >= s.now {
      assert Reaches(s, k, probes);
    }
  }

  /** Keys that share no channel cannot clash. */
  lemma DisjointKeysNeverClash(s: State, probes: nat)
    requires forall a, b, ch ::
        a in s.registry && b in s.registry && Covers(a, ch, probes) && Covers(b, ch, probes) ==> a == b
    ensures ClashFree(s, probes)
  {
    hide Covers;
  }

  /** All probes for ten seconds, then the first one for five: at the fifth tick it is listed and no longer forced. */
  lemma OverlapExample()
    ensures var s := Run([Inject(Temperature(None), 40.0, 10), Inject(Temperature(Some(0)), 45.0, 5)], 2);
            Good(s, 2) && !ClashFree(s, 2) && !Mirrored(Pruned(Idle(s, 5, 2), 2), 2)
  {
    hide Good, Mirrored, Idle, Pruned;
    var first, both := [Inject(Temperature(None), 40.0, 10)],
        [Inject(Temperature(None), 40.0, 10), Inject(Temperature(Some(0)), 45.0, 5)];
    assert both[..1] == first && first[..0] == [];
    var s := Run(both, 2);
    StartIsGood(2);
    assert Run([], 2) == START;
    InjectKeepsGood(START, Temperature(None), 40.0, 10, 2);
    assert Run(first, 2) == Injected(START, Temperature(None), 40.0, 10, 2);
    InjectKeepsGood(Run(first, 2), Temperature(Some(0)), 45.0, 5, 2);
    assert s == Injected(Run(first, 2), Temperature(Some(0)), 45.0, 5, 2);
    var ch := TemperatureProbe(0);
    assert ChannelsFor(Temperature(None), 2)[0] == ch && ChannelsFor(Temperature(Some(0)), 2)[0] == ch;
    ClashUnmirrors(s, Temperature(Some(0)), Temperature(None), ch, 2);
  }
}
