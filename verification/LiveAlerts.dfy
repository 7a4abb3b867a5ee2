/**
 The live alert view: the fleet's active-fault sets kept by the platform, the listing it serves, the frames it
 broadcasts, and the lists a dashboard caches and patches. A cached list always equals what a refetch returns.
 */
module LiveAlerts {
  import opened Text

  datatype FaultKey = FaultKey(component: string, zone: string)

  /** The controller's own grading of one fault. */
  datatype Grading = Grading(faultType: string, severity: string)

  datatype Fault = Fault(grading: Grading, since: int)

  type Faults = map<FaultKey, Fault>

  /** One fault as a state frame reports it. */
  datatype Reported = Reported(component: string, zone: Option<string>, grading: Grading)

  // ---- the fleet's fault sets ----

  function ReportedKey(r: Reported): FaultKey {
    FaultKey(r.component, r.zone.GetOr(""))
  }

  /** What a frame says about each key: the last report wins. */
  function Projected(reported: seq<Reported>): map<FaultKey, Grading> {
    if reported == [] then map[]
    else
      var n := |reported| - 1;
      Projected(reported[..n])[ReportedKey(reported[n]) := reported[n].grading]
  }

  method ActiveFaults(reported: seq<Reported>) returns (faults: map<FaultKey, Grading>)
    ensures faults == Projected(reported)
  {
    faults := map[];
    for i := 0 to |reported|
      invariant faults == Projected(reported[..i])
    {
      faults := faults[ReportedKey(reported[i]) := reported[i].grading];
      assert reported[..i + 1][..i] == reported[..i];
    }
    assert reported[..|reported|] == reported;
  }

  function Graded(faults: Faults): map<FaultKey, Grading> {
    map k | k in faults :: faults[k].grading
  }

  /** The fault was there before with the grading it has now. */
  predicate Keeps(previous: Faults, faults: map<FaultKey, Grading>, k: FaultKey)
    requires k in faults
  {
    k in previous && previous[k].grading == faults[k]
  }

  /** A fault that keeps its grading keeps its start; anything else starts now. */
  function Stamp(previous: Faults, faults: map<FaultKey, Grading>, k: FaultKey, ts: int): Fault
    requires k in faults
  {
    Fault(faults[k], if Keeps(previous, faults, k) then KeptSince(previous, faults, k) else ts)
  }

  function Stamped(previous: Faults, faults: map<FaultKey, Grading>, ts: int): Faults {
    map k | k in faults :: Stamp(previous, faults, k, ts)
  }

  function FaultsOf(fleet: map<string, Faults>, id: string): Faults {
    if id in fleet then fleet[id] else map[]
  }

  predicate AllKept(previous: Faults, faults: map<FaultKey, Grading>, keys: set<FaultKey>)
    requires keys <= faults.Keys
  {
    forall k :: k in keys ==> Keeps(previous, faults, k)
  }

  lemma NoneToKeep(previous: Faults, faults: map<FaultKey, Grading>)
    ensures AllKept(previous, faults, {})
  {
  }

  lemma OneMoreKept(previous: Faults, faults: map<FaultKey, Grading>, keys: set<FaultKey>, k: FaultKey)
    requires keys <= faults.Keys && k in faults
    ensures AllKept(previous, faults, keys + {k}) <==> AllKept(previous, faults, keys) && Keeps(previous, faults, k)
  {
  }

  lemma StampedAll(previous: Faults, faults: map<FaultKey, Grading>, ts: int, active: Faults)
    requires active.Keys == faults.Keys
    requires forall k :: k in active ==> active[k] == Stamp(previous, faults, k, ts)
    ensures active == Stamped(previous, faults, ts)
  {
  }

  /** The pass over a new fault set: every fault stamped, and whether one of them is new or graded anew. */
  method Restamp(previous: Faults, faults: map<FaultKey, Grading>, ts: int) returns (active: Faults, regraded: bool)
    ensures active == Stamped(previous, faults, ts)
    ensures regraded <==> !AllKept(previous, faults, faults.Keys)
  {
    hide AllKept, Stamped, Keeps;
    active, regraded := map[], false;
    NoneToKeep(previous, faults);
    assert active.Keys == {};
    var left := faults.Keys;
    while left != {}
      invariant forall k :: k in left <==> k in faults && k !in active
      invariant active.Keys <= faults.Keys
      invariant forall k :: k in active ==> active[k] == Stamp(previous, faults, k, ts)
      invariant regraded <==> !AllKept(previous, faults, active.Keys)
      decreases left
    {
      var k :| k in left;
      left := left - {k};
      OneMoreKept(previous, faults, active.Keys, k);
      var since := ts;
      if Keeps(previous, faults, k) {
        since := KeptSince(previous, faults, k);
      } else {
        regraded := true;
      }
      assert active[k := Fault(faults[k], since)].Keys == active.Keys + {k};
      active := active[k := Fault(faults[k], since)];
    }
    assert active.Keys == faults.Keys;
    StampedAll(previous, faults, ts, active);
  }

  function KeptSince(previous: Faults, faults: map<FaultKey, Grading>, k: FaultKey): int
    requires k in faults && Keeps(previous, faults, k)
  {
    previous[k].since
  }

  class Fleet {
    var entries: map<string, Faults>

    constructor ()
      ensures entries == map[]
    {
      entries := map[];
    }

    /** `changed` is exactly "the gradings differ": nothing raised, cleared or regraded goes unannounced. */
    method SetActiveFaults(id: string, faults: map<FaultKey, Grading>, ts: int) returns (changed: bool)
      modifies this
      ensures entries == old(entries)[id := Stamped(FaultsOf(old(entries), id), faults, ts)]
      ensures changed <==> Graded(FaultsOf(old(entries), id)) != faults
    {
      var previous := FaultsOf(entries, id);
      var active, regraded := Restamp(previous, faults, ts);
      SameGradings(previous, faults);
      changed := |previous| != |faults| || regraded;
      entries := entries[id := active];
    }
  }

  /** Equally many keys, all of them there with the same grading, is the same map. */
  lemma SameGradings(previous: Faults, faults: map<FaultKey, Grading>)
    ensures Graded(previous) == faults <==>
            |previous| == |faults| && AllKept(previous, faults, faults.Keys)
  {
    assert Graded(previous).Keys == previous.Keys;
    assert |Graded(previous)| == |Graded(previous).Keys| && |previous| == |previous.Keys| && |faults| == |faults.Keys|;
    if |previous| == |faults| && AllKept(previous, faults, faults.Keys) {
      SubsetOfSameSize(faults.Keys, previous.Keys);
    }
  }

  lemma SubsetOfSameSize<T>(a: set<T>, b: set<T>)
    requires a <= b && |a| == |b|
    ensures a == b
  {
    assert b == a + (b - a);
  }

  /** A frame that changes no grading leaves the whole set as it was, starts included. */
  lemma UnchangedIsIdentical(previous: Faults, ts: int)
    ensures Stamped(previous, Graded(previous), ts) == previous
  {
  }

  // ---- when a standing fault began ----

  datatype StateFrame = StateFrame(faults: map<FaultKey, Grading>, ts: int)

  /** A greenhouse's set after these frames. */
  function Seen(frames: seq<StateFrame>): Faults {
    if frames == [] then map[]
    else
      var n := |frames| - 1;
      Stamped(Seen(frames[..n]), frames[n].faults, frames[n].ts)
  }

  predicate Carries(frame: StateFrame, k: FaultKey, g: Grading) {
    k in frame.faults && frame.faults[k] == g
  }

  lemma SeenIsLast(frames: seq<StateFrame>)
    requires frames != []
    ensures Graded(Seen(frames)) == frames[|frames| - 1].faults
  {
  }

  /** Over any run of frames, a fault's start is the time of the frame from which on all carry it with its grading. */
  lemma {:induction false} SinceIsOnset(frames: seq<StateFrame>, k: FaultKey, g: Grading, j: nat)
    requires j < |frames| && forall i :: j <= i < |frames| ==> Carries(frames[i], k, g)
    requires j > 0 ==> !Carries(frames[j - 1], k, g)
    ensures k in Seen(frames) && Seen(frames)[k] == Fault(g, frames[j].ts)
  {
    var n := |frames| - 1;
    assert Carries(frames[n], k, g);
    if j < n {
      SinceIsOnset(frames[..n], k, g, j);
    } else if n > 0 {
      SeenIsLast(frames[..n]);
      assert Graded(Seen(frames[..n])) == frames[n - 1].faults;
    }
  }

  // ---- the listing ----

  datatype Alert = Alert(
    greenhouse: string,
    component: string,
    zone: Option<string>,
    faultType: string,
    kind: string,
    severity: string,
    since: int)

  /** A listing's filters; "" leaves one open. */
  datatype Scope = Scope(greenhouse: string, kind: string, severity: string)

  const ALL := Scope("", "", "")

  const INTERLOCK_FAULTS := {"critical_temperature", "co2_ceiling", "irrigation_no_response"}

  const EVENT_SEVERITIES := {"info", "warning", "critical"}

  const EVENT_KINDS := {
    "fault", "interlock", "profile_applied", "setpoint_edit", "drift", "optimizer_plan_applied",
    "optimizer_plan_held", "optimizer_plan_escalated", "optimizer_resolved", "optimizer_run_failed"}

  function Describe(id: string, key: FaultKey, fault: Fault): Alert {
    Alert(id, key.component, if key.zone == "" then None else Some(key.zone), fault.grading.faultType,
          if fault.grading.faultType in INTERLOCK_FAULTS then "interlock" else "fault",
          if fault.grading.severity == "alarm" then "critical" else "warning",
          fault.since)
  }

  function KeyOf(a: Alert): FaultKey {
    FaultKey(a.component, a.zone.GetOr(""))
  }

  lemma DescribeIsInjective(id: string, key: FaultKey, fault: Fault)
    ensures KeyOf(Describe(id, key, fault)) == key
  {
  }

  function Rank(severity: string): nat {
    if severity == "critical" then 2 else if severity == "warning" then 1 else 0
  }

  predicate MeetsMinimum(severity: string, minimum: string) {
    minimum == "" || Rank(severity) >= Rank(minimum)
  }

  /** The server drops filter values it does not know. */
  predicate Listed(a: Alert, scope: Scope) {
    var kind := if scope.kind in EVENT_KINDS then scope.kind else "";
    var minimum := if scope.severity in EVENT_SEVERITIES then scope.severity else "";
    && (scope.greenhouse == "" || a.greenhouse == scope.greenhouse)
    && (kind == "" || a.kind == kind)
    && MeetsMinimum(a.severity, minimum)
  }

  /** The alert describes a fault in this greenhouse's set. */
  predicate Describes(a: Alert, id: string, faults: Faults) {
    a.greenhouse == id && KeyOf(a) in faults && a == Describe(id, KeyOf(a), faults[KeyOf(a)])
  }

  /** The list holds each standing alert of one greenhouse that passes the filter, exactly once. */
  ghost predicate ListsFaults(list: seq<Alert>, id: string, faults: Faults, scope: Scope) {
    forall a: Alert :: multiset(list)[a] == if Describes(a, id, faults) && Listed(a, scope) then 1 else 0
  }

  predicate Stands(a: Alert, fleet: map<string, Faults>, registry: set<string>) {
    a.greenhouse in registry && Describes(a, a.greenhouse, FaultsOf(fleet, a.greenhouse))
  }

  /** As far as one greenhouse goes, the list is what the server would list. */
  ghost predicate ExactFor(list: seq<Alert>, fleet: map<string, Faults>, registry: set<string>, scope: Scope,
                           id: string) {
    forall a: Alert :: a.greenhouse == id ==>
        multiset(list)[a] == if Stands(a, fleet, registry) && Listed(a, scope) then 1 else 0
  }

  ghost predicate Refetched(list: seq<Alert>, fleet: map<string, Faults>, registry: set<string>, scope: Scope) {
    forall id :: ExactFor(list, fleet, registry, scope, id)
  }

  lemma RefetchIsUnique(a: seq<Alert>, b: seq<Alert>, fleet: map<string, Faults>, registry: set<string>, scope: Scope)
    requires Refetched(a, fleet, registry, scope) && Refetched(b, fleet, registry, scope)
    ensures multiset(a) == multiset(b)
  {
    hide Stands, Listed;
    forall x: Alert ensures multiset(a)[x] == multiset(b)[x] {
      assert ExactFor(a, fleet, registry, scope, x.greenhouse) && ExactFor(b, fleet, registry, scope, x.greenhouse);
    }
  }

  /** One greenhouse's part of the listing, in whatever order the map yields its keys. */
  method ListOne(id: string, faults: Faults, scope: Scope) returns (alerts: seq<Alert>)
    ensures ListsFaults(alerts, id, faults, scope)
  {
    hide Listed, Describe;
    alerts := [];
    var left := faults.Keys;
    while left != {}
      invariant left <= faults.Keys
      invariant forall a: Alert :: multiset(alerts)[a] ==
                  if Describes(a, id, faults) && KeyOf(a) !in left && Listed(a, scope) then 1 else 0
      decreases left
    {
      var k :| k in left;
      var a := Describe(id, k, faults[k]);
      DescribeIsInjective(id, k, faults[k]);
      DescribesItsGreenhouse(id, k, faults[k]);
      left := left - {k};
      if Listed(a, scope) {
        alerts := alerts + [a];
      }
    }
  }

  lemma DescribesItsGreenhouse(id: string, key: FaultKey, fault: Fault)
    ensures Describe(id, key, fault).greenhouse == id
  {
  }

  predicate SortedBySince(alerts: seq<Alert>) {
    forall i, j :: 0 <= i < j < |alerts| ==> alerts[i].since <= alerts[j].since
  }

  lemma InsertedInOrder(sorted: seq<Alert>, a: Alert, at: nat)
    requires SortedBySince(sorted) && at <= |sorted|
    requires at > 0 ==> sorted[at - 1].since <= a.since
    requires at < |sorted| ==> a.since <= sorted[at].since
    ensures SortedBySince(sorted[..at] + [a] + sorted[at..])
  {
    var r := sorted[..at] + [a] + sorted[at..];
    assert forall i :: 0 <= i < at ==> r[i] == sorted[i];
    assert forall i :: at < i < |r| ==> r[i] == sorted[i - 1];
  }

  /** One more alert at its place by start. */
  method InsertBySince(sorted: seq<Alert>, a: Alert) returns (r: seq<Alert>)
    requires SortedBySince(sorted)
    ensures multiset(r) == multiset(sorted) + multiset{a} && SortedBySince(r)
  {
    hide SortedBySince;
    var at := 0;
    while at < |sorted| && sorted[at].since <= a.since
      invariant at <= |sorted| && (at > 0 ==> sorted[at - 1].since <= a.since)
    {
      at := at + 1;
    }
    InsertedInOrder(sorted, a, at);
    r := sorted[..at] + [a] + sorted[at..];
    assert sorted == sorted[..at] + sorted[at..];
  }

  method SortBySince(alerts: seq<Alert>) returns (sorted: seq<Alert>)
    ensures multiset(sorted) == multiset(alerts) && SortedBySince(sorted)
  {
    sorted := [];
    for i := 0 to |alerts|
      invariant multiset(sorted) == multiset(alerts[..i]) && SortedBySince(sorted)
    {
      assert alerts[..i + 1] == alerts[..i] + [alerts[i]];
      sorted := InsertBySince(sorted, alerts[i]);
    }
    assert alerts[..|alerts|] == alerts;
  }

  function ToSet(ids: seq<string>): set<string> {
    set id | id in ids
  }

  predicate Distinct(ids: seq<string>) {
    forall i, j :: 0 <= i < j < |ids| ==> ids[i] != ids[j]
  }

  method ListActiveAlerts(fleet: map<string, Faults>, registry: seq<string>, scope: Scope) returns (alerts: seq<Alert>)
    requires Distinct(registry)
    ensures Refetched(alerts, fleet, ToSet(registry), scope) && SortedBySince(alerts)
  {
    hide Listed, Describes;
    alerts := [];
    for i := 0 to |registry|
      invariant forall a: Alert :: multiset(alerts)[a] ==
                  if Stands(a, fleet, ToSet(registry[..i])) && Listed(a, scope) then 1 else 0
    {
      var id := registry[i];
      assert id !in registry[..i];
      assert ToSet(registry[..i + 1]) == ToSet(registry[..i]) + {id};
      if (scope.greenhouse == "" || id == scope.greenhouse) && id in fleet {
        var found := ListOne(id, fleet[id], scope);
        OwnGreenhouseOnly(fleet[id], id);
        alerts := alerts + found;
      } else {
        NothingListed(fleet, id, scope);
      }
    }
    assert registry[..|registry|] == registry;
    alerts := SortBySince(alerts);
  }

  lemma OwnGreenhouseOnly(faults: Faults, id: string)
    ensures forall a :: Describes(a, id, faults) ==> a.greenhouse == id
  {
  }

  lemma NothingListed(fleet: map<string, Faults>, id: string, scope: Scope)
    requires !((scope.greenhouse == "" || id == scope.greenhouse) && id in fleet)
    ensures forall a: Alert :: a.greenhouse == id && Listed(a, scope) ==> !Describes(a, id, FaultsOf(fleet, id))
  {
  }

  // ---- the frame and the cache ----

  /** The frame broadcast for one greenhouse: its whole set, unfiltered. */
  method NewActiveAlerts(id: string, faults: Faults) returns (alerts: seq<Alert>)
    ensures ListsFaults(alerts, id, faults, ALL)
  {
    hide Describe;
    alerts := [];
    var left := faults.Keys;
    while left != {}
      invariant left <= faults.Keys
      invariant forall a: Alert :: multiset(alerts)[a] == if Describes(a, id, faults) && KeyOf(a) !in left then 1 else 0
      decreases left
    {
      var k :| k in left;
      DescribeIsInjective(id, k, faults[k]);
      DescribesItsGreenhouse(id, k, faults[k]);
      left := left - {k};
      alerts := alerts + [Describe(id, k, faults[k])];
    }
  }

  function Filtered(list: seq<Alert>, keep: Alert -> bool): seq<Alert> {
    if list == [] then []
    else
      var n := |list| - 1;
      Filtered(list[..n], keep) + if keep(list[n]) then [list[n]] else []
  }

  lemma {:induction false} FilteredCount(list: seq<Alert>, keep: Alert -> bool, a: Alert)
    ensures multiset(Filtered(list, keep))[a] == if keep(a) then multiset(list)[a] else 0
  {
    if list != [] {
      var n := |list| - 1;
      FilteredCount(list[..n], keep, a);
      assert list == list[..n] + [list[n]];
    }
  }

  /** The dashboard's own filter over a frame's alerts. */
  predicate Shown(a: Alert, scope: Scope) {
    (scope.kind == "" || a.kind == scope.kind) && MeetsMinimum(a.severity, scope.severity)
  }

  /** Scopes hold one of the known kinds and severities, or leave them open. */
  predicate WellTyped(scope: Scope) {
    scope.kind in EVENT_KINDS + {""} && scope.severity in EVENT_SEVERITIES + {""}
  }

  /** Whether a list can hold alerts of this greenhouse at all. */
  predicate Concerns(scope: Scope, id: string) {
    scope.greenhouse == "" || scope.greenhouse == id
  }

  function Patched(list: seq<Alert>, id: string, frame: seq<Alert>, scope: Scope): seq<Alert> {
    if !Concerns(scope, id) then list
    else Filtered(list, (a: Alert) => a.greenhouse != id) + Filtered(frame, (a: Alert) => Shown(a, scope))
  }

  class QueryCache {
    var lists: map<Scope, seq<Alert>>

    constructor ()
      ensures lists == map[]
    {
      lists := map[];
    }

    method Apply(id: string, frame: seq<Alert>)
      modifies this
      ensures lists == map s | s in old(lists) :: Patched(old(lists)[s], id, frame, s)
    {
      var queries := lists.Keys;
      while queries != {}
        invariant queries <= old(lists).Keys == lists.Keys
        invariant forall s :: s in lists ==>
                    lists[s] == if s in queries then old(lists)[s] else Patched(old(lists)[s], id, frame, s)
        decreases queries
      {
        var s :| s in queries;
        queries := queries - {s};
        if s.greenhouse == "" || s.greenhouse == id {
          var others := Filtered(lists[s], (a: Alert) => a.greenhouse != id);
          lists := lists[s := others + Filtered(frame, (a: Alert) => Shown(a, s))];
        }
      }
    }

    method Loaded(scope: Scope, list: seq<Alert>)
      modifies this
      ensures lists == old(lists)[scope := list]
    {
      lists := lists[scope := list];
    }
  }

  lemma FiltersAgree(a: Alert, scope: Scope)
    requires WellTyped(scope)
    ensures Listed(a, scope) <==> (scope.greenhouse == "" || scope.greenhouse == a.greenhouse) && Shown(a, scope)
  {
  }

  lemma PatchedCount(list: seq<Alert>, id: string, frame: seq<Alert>, scope: Scope, a: Alert)
    requires Concerns(scope, id)
    ensures multiset(Patched(list, id, frame, scope))[a] ==
            (if a.greenhouse != id then multiset(list)[a] else 0) + (if Shown(a, scope) then multiset(frame)[a] else 0)
  {
    hide Shown;
    FilteredCount(list, (x: Alert) => x.greenhouse != id, a);
    FilteredCount(frame, (x: Alert) => Shown(x, scope), a);
  }

  /** Whatever the list held for this greenhouse before, a frame makes it exact. */
  lemma FrameRepairs(list: seq<Alert>, fleet: map<string, Faults>, registry: set<string>, scope: Scope, id: string,
                     frame: seq<Alert>)
    requires WellTyped(scope) && id in registry && ListsFaults(frame, id, FaultsOf(fleet, id), ALL)
    requires Concerns(scope, id)
    ensures ExactFor(Patched(list, id, frame, scope), fleet, registry, scope, id)
  {
    hide Patched, Describes, Shown, Listed;
    forall a: Alert | a.greenhouse == id
      ensures multiset(Patched(list, id, frame, scope))[a] ==
              if Stands(a, fleet, registry) && Listed(a, scope) then 1 else 0
    {
      PatchedCount(list, id, frame, scope, a);
      FiltersAgree(a, scope);
      AllIsOpen(a);
    }
  }

  lemma AllIsOpen(a: Alert)
    ensures Listed(a, ALL)
  {
  }

  /** A list scoped to another greenhouse shows nothing of this one, before and after. */
  lemma OutOfScope(list: seq<Alert>, fleet: map<string, Faults>, fleet': map<string, Faults>, registry: set<string>,
                   scope: Scope, id: string)
    requires !Concerns(scope, id)
    ensures ExactFor(list, fleet, registry, scope, id) <==> ExactFor(list, fleet', registry, scope, id)
  {
    assert forall a: Alert :: a.greenhouse == id ==> !Listed(a, scope);
  }

  /** A frame about one greenhouse leaves what a list holds for the others alone. */
  lemma FrameKeepsOthers(list: seq<Alert>, fleet: map<string, Faults>, faults: Faults, registry: set<string>,
                         scope: Scope,
                         id: string, frame: seq<Alert>, other: string)
    requires other != id && ListsFaults(frame, id, faults, ALL) && ExactFor(list, fleet, registry, scope, other)
    ensures ExactFor(Patched(list, id, frame, scope), fleet[id := faults], registry, scope, other)
  {
    hide Shown, Listed, Describe;
    forall a: Alert | a.greenhouse == other
      ensures multiset(Patched(list, id, frame, scope))[a] == multiset(list)[a]
    {
      if Concerns(scope, id) {
        PatchedCount(list, id, frame, scope, a);
        assert multiset(frame)[a] == 0;
      }
    }
  }

  /** The fault an alert tells of, column by column. */
  predicate TellsOf(a: Alert, fault: Fault) {
    && a.faultType == fault.grading.faultType && a.since == fault.since
    && a.kind == (if a.faultType in {"critical_temperature", "co2_ceiling", "irrigation_no_response"}
                  then "interlock" else "fault")
    && a.severity == (if fault.grading.severity == "alarm" then "critical" else "warning")
  }

  /** What a filter lets through: the named greenhouse and kind only; alarms only when it asks for critical ones. */
  predicate PassesFilter(a: Alert, alarm: bool, scope: Scope) {
    && scope.greenhouse in {"", a.greenhouse} && scope.kind in {"", a.kind}
    && (scope.severity == "critical" ==> alarm)
  }

  /**
   The listing in terms of the faults: it holds an alert exactly when a registered greenhouse has the fault under that
   component and zone, the alert tells of it, and the filter lets it through.
   */
  lemma ListingExactly(list: seq<Alert>, fleet: map<string, Faults>, registry: set<string>, scope: Scope, a: Alert)
    requires Refetched(list, fleet, registry, scope) && WellTyped(scope)
    ensures a in list <==>
            && a.greenhouse in registry && a.greenhouse in fleet && a.zone != Some("")
            && var key := FaultKey(a.component, a.zone.GetOr(""));
               && key in fleet[a.greenhouse] && TellsOf(a, fleet[a.greenhouse][key])
               && PassesFilter(a, fleet[a.greenhouse][key].grading.severity == "alarm", scope)
  {
    assert ExactFor(list, fleet, registry, scope, a.greenhouse);
    assert a in list <==> multiset(list)[a] > 0;
    assert a in list <==> Stands(a, fleet, registry) && Listed(a, scope);
  }
}
