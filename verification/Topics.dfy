/**
 Telemetry topics: the controller prints them, the platform parses them, and the two undo each other. Levels are
 separated as in section 4.7.1.1 of MQTT 3.1.1.
 */
module Topics {
  import opened Slugs
  import opened Text

  datatype Topic =
    | SensorHouse(greenhouse: string, metric: string)
    | SensorZone(greenhouse: string, zone: string, metric: string)
    | ActuatorState(greenhouse: string, actuator: string)
    | FaultEvent(greenhouse: string)
    | SystemState(greenhouse: string)

  /** The topic string the controller publishes on. */
  function Build(t: Topic): string {
    match t
    case SensorHouse(gh, metric) => "gh/" + (gh + ("/sensor/" + metric))
    case SensorZone(gh, zone, metric) => "gh/" + (gh + ("/zone/" + (zone + ("/sensor/" + metric))))
    case ActuatorState(gh, actuator) => "gh/" + (gh + ("/actuator/" + (actuator + "/state")))
    case FaultEvent(gh) => "gh/" + (gh + "/fault")
    case SystemState(gh) => "gh/" + (gh + "/state")
  }

  /** The platform's reading of a topic's levels. */
  function Parse(topic: string): Option<Topic> {
    var parts := Split(topic, '/');
    if |parts| < 3 || parts[0] != "gh" || parts[1] == "" then None
    else if |parts| == 4 && parts[2] == "sensor" then Some(SensorHouse(parts[1], parts[3]))
    else if |parts| == 6 && parts[2] == "zone" && parts[4] == "sensor" then
        Some(SensorZone(parts[1], parts[3], parts[5]))
    else if |parts| == 5 && parts[2] == "actuator" && parts[4] == "state" then Some(ActuatorState(parts[1], parts[3]))
    else if |parts| == 3 && parts[2] == "fault" then Some(FaultEvent(parts[1]))
    else if |parts| == 3 && parts[2] == "state" then Some(SystemState(parts[1]))
    else None
  }

  /** The levels a topic is meant to have. */
  function Levels(t: Topic): (parts: seq<string>)
    ensures |parts| >= 3
  {
    match t
    case SensorHouse(gh, metric) => ["gh", gh, "sensor", metric]
    case SensorZone(gh, zone, metric) => ["gh", gh, "zone", zone, "sensor", metric]
    case ActuatorState(gh, actuator) => ["gh", gh, "actuator", actuator, "state"]
    case FaultEvent(gh) => ["gh", gh, "fault"]
    case SystemState(gh) => ["gh", gh, "state"]
  }

  /** The names a topic carries. */
  function Names(t: Topic): seq<string> {
    match t
    case SensorHouse(gh, metric) => [gh, metric]
    case SensorZone(gh, zone, metric) => [gh, zone, metric]
    case ActuatorState(gh, actuator) => [gh, actuator]
    case _ => [t.greenhouse]
  }

  predicate SlashFree(names: seq<string>) {
    forall n :: n in names ==> '/' !in n
  }

  lemma Regroup(a: string, b: string, c: string)
    ensures (a + b) + c == a + (b + c)
  {
  }

  /** One more level in front of a path that starts at its slash. */
  lemma JoinLevel(level: string, rest: seq<string>)
    requires |rest| >= 1
    ensures Join([level] + rest, '/') == level + ("/" + Join(rest, '/'))
  {
    JoinCons(level, rest, '/');
    Regroup(level, "/", Join(rest, '/'));
  }

  /** A fixed level spelled together with its two slashes. */
  lemma JoinFixed(fixed: string, rest: seq<string>)
    requires |rest| >= 1
    ensures "/" + Join([fixed] + rest, '/') == ("/" + fixed + "/") + Join(rest, '/')
  {
    hide Join;
    JoinLevel(fixed, rest);
    var tail := Join(rest, '/');
    Regroup("/", fixed, "/" + tail);
    Regroup("/" + fixed, "/", tail);
  }

  lemma JoinUnder(root: string, gh: string, rest: seq<string>)
    requires |rest| >= 1
    ensures Join([root, gh] + rest, '/') == (root + "/") + (gh + ("/" + Join(rest, '/')))
  {
    hide Join;
    JoinLevel(gh, rest);
    JoinLevel(root, [gh] + rest);
    assert [root] + ([gh] + rest) == [root, gh] + rest;
    Regroup(root, "/", Join([gh] + rest, '/'));
  }

  /** Printing a topic is joining its levels. */
  lemma BuildJoins(t: Topic)
    ensures Build(t) == Join(Levels(t), '/')
  {
    hide Join, Levels, Build;
    JoinUnder("gh", t.greenhouse, Levels(t)[2..]);
    LevelsUnder(t);
    BuildUnder(t);
    assert "gh" + "/" == "gh/";
  }

  lemma LevelsUnder(t: Topic)
    ensures Levels(t) == ["gh", t.greenhouse] + Levels(t)[2..]
  {
  }

  lemma JoinOne(level: string)
    ensures Join([level], '/') == level
  {
  }

  lemma SensorPath(metric: string)
    ensures "/" + Join(["sensor", metric], '/') == "/sensor/" + metric
  {
    hide Join;
    JoinOne(metric);
    JoinFixed("sensor", [metric]);
    assert ["sensor"] + [metric] == ["sensor", metric];
  }

  lemma ZonePath(zone: string, metric: string)
    ensures "/" + Join(["zone", zone, "sensor", metric], '/') == "/zone/" + (zone + ("/sensor/" + metric))
  {
    hide Join;
    SensorPath(metric);
    JoinLevel(zone, ["sensor", metric]);
    JoinFixed("zone", [zone] + ["sensor", metric]);
    assert ["zone"] + ([zone] + ["sensor", metric]) == ["zone", zone, "sensor", metric];
  }

  lemma ActuatorPath(actuator: string)
    ensures "/" + Join(["actuator", actuator, "state"], '/') == "/actuator/" + (actuator + "/state")
  {
    hide Join;
    JoinOne("state");
    JoinLevel(actuator, ["state"]);
    JoinFixed("actuator", [actuator] + ["state"]);
    assert ["actuator"] + ([actuator] + ["state"]) == ["actuator", actuator, "state"];
  }

  lemma BuildUnder(t: Topic)
    ensures Build(t) == "gh/" + (t.greenhouse + ("/" + Join(Levels(t)[2..], '/')))
  {
    hide Join;
    match t
    case SensorHouse(_, metric) =>
      SensorPath(metric);
      assert Levels(t)[2..] == ["sensor", metric];
    case SensorZone(_, zone, metric) =>
      ZonePath(zone, metric);
      assert Levels(t)[2..] == ["zone", zone, "sensor", metric];
    case ActuatorState(_, actuator) =>
      ActuatorPath(actuator);
      assert Levels(t)[2..] == ["actuator", actuator, "state"];
    case FaultEvent(_) =>
      JoinOne("fault");
      assert Levels(t)[2..] == ["fault"];
    case SystemState(_) =>
      JoinOne("state");
      assert Levels(t)[2..] == ["state"];
  }

  lemma LevelsSlashFree(t: Topic)
    requires SlashFree(Names(t))
    ensures forall p :: p in Levels(t) ==> '/' !in p
  {
    assert forall n :: n in Names(t) ==> '/' !in n;
    assert t.greenhouse in Names(t);
    match t
    case SensorHouse(_, metric) => assert metric in Names(t);
    case SensorZone(_, zone, metric) => assert zone in Names(t) && metric in Names(t);
    case ActuatorState(_, actuator) => assert actuator in Names(t);
    case _ =>
  }

  /** An accepted topic has exactly the levels of what it is read as. */
  lemma ParsedLevels(topic: string)
    requires Parse(topic).Some?
    ensures Split(topic, '/') == Levels(Parse(topic).value)
  {
    hide Split;
  }

  /** Rebuilding what was read gives the topic back. */
  lemma BuildParse(topic: string)
    requires Parse(topic).Some?
    ensures Build(Parse(topic).value) == topic
  {
    hide Parse;
    ParsedLevels(topic);
    BuildJoins(Parse(topic).value);
    JoinSplit(topic, '/');
  }

  /** Reading what was printed gives the topic back exactly when no name holds a slash and the greenhouse is named. */
  lemma ParseBuild(t: Topic)
    ensures Parse(Build(t)) == Some(t) <==> SlashFree(Names(t)) && t.greenhouse != ""
  {
    hide Split, SlashFree;
    BuildJoins(t);
    if SlashFree(Names(t)) {
      LevelsSlashFree(t);
      SplitJoin(Levels(t), '/');
    } else if Parse(Build(t)) == Some(t) {
      ParsedLevels(Build(t));
      PiecesHaveNoSeparator(Build(t), '/');
      NamesAreLevels(t);
    }
  }

  lemma NamesAreLevels(t: Topic)
    requires forall p :: p in Levels(t) ==> '/' !in p
    ensures SlashFree(Names(t))
  {
  }

  /** No two topics are printed alike, short of slashes in names. */
  lemma BuildIsInjective(t: Topic, u: Topic)
    requires SlashFree(Names(t)) && SlashFree(Names(u)) && t.greenhouse != "" && u.greenhouse != "" &&
        Build(t) == Build(u)
    ensures t == u
  {
    hide Parse, Build;
    ParseBuild(t);
    ParseBuild(u);
  }

  // ---- the frames of one tick ----

  datatype Frame = Frame(topic: string, retain: bool)

  datatype FaultId = FaultId(component: string, zone: Option<string>, faultType: string)

  /** What the frames of a tick depend on: the readings trusted, the zones with theirs, and the active faults. */
  datatype Snapshot = Snapshot(trusted: set<string>, zones: seq<(string, bool)>, faults: seq<FaultId>)

  const METRICS := ["temperature", "humidity", "co2", "par", "vpd"]

  const ACTUATORS := ["heater", "fans", "roof_vents", "misters", "co2_injector", "grow_lights", "shade_screen"]

  function HouseTopics(gh: string, metrics: seq<string>, trusted: set<string>): seq<Topic> {
    if metrics == [] then []
    else
      var n := |metrics| - 1;
      HouseTopics(gh, metrics[..n], trusted) + if metrics[n] in trusted then [SensorHouse(gh, metrics[n])] else []
  }

  function ZoneTopics(gh: string, zones: seq<(string, bool)>): seq<Topic> {
    if zones == [] then []
    else
      var n := |zones| - 1;
      ZoneTopics(gh, zones[..n]) + if zones[n].1 then [SensorZone(gh, zones[n].0, "soil_moisture")] else []
  }

  function ActuatorTopics(gh: string, actuators: seq<string>): seq<Topic> {
    seq(|actuators|, i requires 0 <= i < |actuators| => ActuatorState(gh, actuators[i]))
  }

  function FaultTopics(gh: string, faults: seq<FaultId>, before: set<FaultId>): seq<Topic> {
    if faults == [] then []
    else
      var n := |faults| - 1;
      FaultTopics(gh, faults[..n], before) + if faults[n] in before then [] else [FaultEvent(gh)]
  }

  /** What the platform should read: trusted sensors, all actuators, the faults that are new, then the whole state. */
  function Intended(gh: string, s: Snapshot, before: set<FaultId>): seq<Topic> {
    HouseTopics(gh, METRICS, s.trusted) + ZoneTopics(gh, s.zones) + ActuatorTopics(gh, ACTUATORS) +
    FaultTopics(gh, s.faults, before) + [SystemState(gh)]
  }

  /** The frames are read as those topics, one for one. */
  predicate ReadAs(frames: seq<Frame>, topics: seq<Topic>) {
    |frames| == |topics| && forall k :: 0 <= k < |frames| ==> Parse(frames[k].topic) == Some(topics[k])
  }

  predicate NoneRetained(frames: seq<Frame>) {
    forall k :: 0 <= k < |frames| ==> !frames[k].retain
  }

  lemma OneMore(frames: seq<Frame>, topics: seq<Topic>, t: Topic, retain: bool)
    requires ReadAs(frames, topics) && SlashFree(Names(t)) && t.greenhouse != ""
    ensures ReadAs(frames + [Frame(Build(t), retain)], topics + [t])
  {
    hide Parse, Build;
    ParseBuild(t);
  }

  lemma NothingRead()
    ensures ReadAs([], [])
  {
  }

  lemma HouseStep(gh: string, metrics: seq<string>, trusted: set<string>)
    requires metrics != []
    ensures var n := |metrics| - 1; var before := HouseTopics(gh, metrics[..n], trusted);
            HouseTopics(gh, metrics, trusted) ==
            if metrics[n] in trusted then before + [SensorHouse(gh, metrics[n])] else before
  {
  }

  lemma ZoneStep(gh: string, zones: seq<(string, bool)>)
    requires zones != []
    ensures var n := |zones| - 1; var before := ZoneTopics(gh, zones[..n]);
            ZoneTopics(gh, zones) ==
            if zones[n].1 then before + [SensorZone(gh, zones[n].0, "soil_moisture")] else before
  {
  }

  method HouseFrames(gh: string, metrics: seq<string>, trusted: set<string>) returns (frames: seq<Frame>)
    requires SlashFree([gh] + metrics) && gh != ""
    ensures ReadAs(frames, HouseTopics(gh, metrics, trusted)) && NoneRetained(frames)
  {
    hide Parse, Build, ReadAs;
    NothingRead();
    frames := [];
    for i := 0 to |metrics|
      invariant ReadAs(frames, HouseTopics(gh, metrics[..i], trusted)) && NoneRetained(frames)
    {
      assert metrics[..i + 1][..i] == metrics[..i];
      assert metrics[i] in [gh] + metrics && gh in [gh] + metrics;
      HouseStep(gh, metrics[..i + 1], trusted);
      if metrics[i] in trusted {
        var t := SensorHouse(gh, metrics[i]);
        OneMore(frames, HouseTopics(gh, metrics[..i], trusted), t, false);
        frames := frames + [Frame(Build(t), false)];
      }
    }
    assert metrics[..|metrics|] == metrics;
  }

  method ZoneFrames(gh: string, zones: seq<(string, bool)>) returns (frames: seq<Frame>)
    requires IsSlug(gh) && forall i :: 0 <= i < |zones| ==> IsSlug(zones[i].0)
    ensures ReadAs(frames, ZoneTopics(gh, zones)) && NoneRetained(frames)
  {
    hide Parse, Build, ReadAs, IsSlug;
    NothingRead();
    SlugAgreement(gh);
    frames := [];
    for i := 0 to |zones|
      invariant ReadAs(frames, ZoneTopics(gh, zones[..i])) && NoneRetained(frames)
    {
      assert zones[..i + 1][..i] == zones[..i];
      ZoneStep(gh, zones[..i + 1]);
      if zones[i].1 {
        SlugAgreement(zones[i].0);
        var t := SensorZone(gh, zones[i].0, "soil_moisture");
        OneMore(frames, ZoneTopics(gh, zones[..i]), t, false);
        frames := frames + [Frame(Build(t), false)];
      }
    }
    assert zones[..|zones|] == zones;
  }

  method ActuatorFrames(gh: string, actuators: seq<string>) returns (frames: seq<Frame>)
    requires SlashFree([gh] + actuators) && gh != ""
    ensures ReadAs(frames, ActuatorTopics(gh, actuators)) && NoneRetained(frames)
  {
    hide Parse, Build, ReadAs;
    NothingRead();
    frames := [];
    assert ActuatorTopics(gh, actuators[..0]) == [];
    for i := 0 to |actuators|
      invariant ReadAs(frames, ActuatorTopics(gh, actuators[..i])) && NoneRetained(frames)
    {
      assert actuators[i] in [gh] + actuators && gh in [gh] + actuators;
      var t := ActuatorState(gh, actuators[i]);
      OneMore(frames, ActuatorTopics(gh, actuators[..i]), t, false);
      assert ActuatorTopics(gh, actuators[..i + 1]) == ActuatorTopics(gh, actuators[..i]) + [t];
      frames := frames + [Frame(Build(t), false)];
    }
    assert actuators[..|actuators|] == actuators;
  }

  /** One event frame per fault that was not active before. */
  method FaultFrames(gh: string, faults: seq<FaultId>, before: set<FaultId>) returns (frames: seq<Frame>)
    requires SlashFree([gh]) && gh != ""
    ensures ReadAs(frames, FaultTopics(gh, faults, before)) && NoneRetained(frames)
  {
    hide Parse, Build, ReadAs;
    NothingRead();
    frames := [];
    for i := 0 to |faults|
      invariant ReadAs(frames, FaultTopics(gh, faults[..i], before)) && NoneRetained(frames)
    {
      assert faults[..i + 1][..i] == faults[..i];
      if faults[i] in before {
        assert FaultTopics(gh, faults[..i + 1], before) == FaultTopics(gh, faults[..i], before);
        continue;
      }
      OneMore(frames, FaultTopics(gh, faults[..i], before), FaultEvent(gh), false);
      frames := frames + [Frame(Build(FaultEvent(gh)), false)];
    }
    assert faults[..|faults|] == faults;
  }

  lemma ReadTogether(a: seq<Frame>, b: seq<Frame>, s: seq<Topic>, t: seq<Topic>)
    requires ReadAs(a, s) && ReadAs(b, t)
    ensures ReadAs(a + b, s + t)
  {
    hide Parse;
  }

  lemma FixedNames(gh: string)
    requires '/' !in gh
    ensures SlashFree([gh] + METRICS) && SlashFree([gh] + ACTUATORS)
  {
  }

  /** All frames of a tick: the platform reads each as what it was meant to be, and retains the last one only. */
  method TelemetryFrames(gh: string, s: Snapshot, before: set<FaultId>) returns (frames: seq<Frame>)
    requires IsSlug(gh) && forall i :: 0 <= i < |s.zones| ==> IsSlug(s.zones[i].0)
    ensures ReadAs(frames, Intended(gh, s, before))
    ensures frames != [] && frames[|frames| - 1].retain && NoneRetained(frames[..|frames| - 1])
  {
    hide Parse, Build, ReadAs, IsSlug, HouseTopics, ZoneTopics, ActuatorTopics, FaultTopics;
    SlugAgreement(gh);
    FixedNames(gh);
    frames := HouseFrames(gh, METRICS, s.trusted);
    ghost var topics := HouseTopics(gh, METRICS, s.trusted);
    var more := ZoneFrames(gh, s.zones);
    ReadTogether(frames, more, topics, ZoneTopics(gh, s.zones));
    frames, topics := frames + more, topics + ZoneTopics(gh, s.zones);
    more := ActuatorFrames(gh, ACTUATORS);
    ReadTogether(frames, more, topics, ActuatorTopics(gh, ACTUATORS));
    frames, topics := frames + more, topics + ActuatorTopics(gh, ACTUATORS);
    more := FaultFrames(gh, s.faults, before);
    ReadTogether(frames, more, topics, FaultTopics(gh, s.faults, before));
    frames, topics := frames + more, topics + FaultTopics(gh, s.faults, before);
    OneMore(frames, topics, SystemState(gh), true);
    frames := frames + [Frame(Build(SystemState(gh)), true)];
  }
}
