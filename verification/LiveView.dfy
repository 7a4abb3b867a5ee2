/**
 Runs of the live alert view: state messages, their broadcasts (delivered, shed, or not sent at all because
 nothing changed) and fetches. Every list a dashboard holds equals a refetch but for frames it never got.
 */
module LiveView {
  import opened Text
  import opened LiveAlerts

  /** The fleet's sets, the lists one dashboard caches, and for each list the greenhouses whose last frame it missed. */
  datatype View = View(fleet: map<string, Faults>, lists: map<Scope, seq<Alert>>, missed: map<Scope, set<string>>)

  /** A state message from the broker, its broadcast reaching the dashboard or shed; or a list being fetched. */
  datatype Event =
    | StateMessage(topic: string, payload: string, reported: seq<Reported>, ts: int, delivered: bool)
    | Fetch(scope: Scope)

  const START := View(map[], map[], map[])

  /** Messages of unregistered greenhouses, or whose payload names another one, are dropped. */
  predicate Accepted(e: Event, registry: set<string>) {
    e.StateMessage? && e.topic in registry && e.payload == e.topic
  }

  function NewFaults(v: View, e: Event): Faults
    requires e.StateMessage?
  {
    Stamped(FaultsOf(v.fleet, e.topic), Projected(e.reported), e.ts)
  }

  predicate Changes(v: View, e: Event)
    requires e.StateMessage?
  {
    Graded(FaultsOf(v.fleet, e.topic)) != Projected(e.reported)
  }

  ghost predicate Delivered(v: View, e: Event, v': View)
    requires e.StateMessage?
  {
    && v'.missed == (map s | s in v.missed :: if Concerns(s, e.topic) then v.missed[s] - {e.topic} else v.missed[s])
    && exists frame :: IsPatchedBy(v, e, v', frame)
  }

  ghost predicate IsPatchedBy(v: View, e: Event, v': View, frame: seq<Alert>)
    requires e.StateMessage?
  {
    && ListsFaults(frame, e.topic, NewFaults(v, e), ALL)
    && v'.lists == map s | s in v.lists :: Patched(v.lists[s], e.topic, frame, s)
  }

  predicate Missed(v: View, e: Event, v': View)
    requires e.StateMessage?
  {
    && v'.lists == v.lists
    && v'.missed == map s | s in v.missed :: if Concerns(s, e.topic) then v.missed[s] + {e.topic} else v.missed[s]
  }

  ghost predicate Fetched(v: View, scope: Scope, v': View, registry: set<string>) {
    && scope in v'.lists && v'.lists == v.lists[scope := v'.lists[scope]]
    && v'.fleet == v.fleet && v'.missed == v.missed[scope := {}]
    && Refetched(v'.lists[scope], v.fleet, registry, scope)
  }

  ghost predicate Step(v: View, e: Event, v': View, registry: set<string>) {
    if e.Fetch? then Fetched(v, e.scope, v', registry)
    else if !Accepted(e, registry) then v' == v
    else
      && v'.fleet == v.fleet[e.topic := NewFaults(v, e)]
      && if !Changes(v, e) then v'.lists == v.lists && v'.missed == v.missed
         else if e.delivered then Delivered(v, e, v')
         else Missed(v, e, v')
  }

  /** Every list is exact for every greenhouse whose last frame it got. */
  ghost predicate UpToDate(v: View, registry: set<string>) {
    && v.lists.Keys == v.missed.Keys
    && forall s, id :: s in v.lists && id !in v.missed[s] ==> ExactFor(v.lists[s], v.fleet, registry, s, id)
  }

  lemma DeliveredKeepsUpToDate(v: View, e: Event, v': View, registry: set<string>, s: Scope, id: string)
    requires UpToDate(v, registry) && Accepted(e, registry) && v'.fleet == v.fleet[e.topic := NewFaults(v, e)] &&
        Delivered(v, e, v')
    requires s in v.lists && WellTyped(s) && id !in v'.missed[s]
    ensures ExactFor(v'.lists[s], v'.fleet, registry, s, id)
  {
    hide ListsFaults, Patched, NewFaults, WellTyped, ExactFor, Concerns;
    var frame :| IsPatchedBy(v, e, v', frame);
    if id != e.topic {
      FrameKeepsOthers(v.lists[s], v.fleet, NewFaults(v, e), registry, s, e.topic, frame, id);
    } else if Concerns(s, id) {
      FrameRepairs(v.lists[s], v'.fleet, registry, s, id, frame);
    } else {
      OutOfScopePatch(v.lists[s], s, id, frame);
      OutOfScope(v.lists[s], v.fleet, v'.fleet, registry, s, id);
    }
  }

  lemma OutOfScopePatch(list: seq<Alert>, scope: Scope, id: string, frame: seq<Alert>)
    requires !Concerns(scope, id)
    ensures Patched(list, id, frame, scope) == list
  {
  }

  lemma ExactWithoutMention(list: seq<Alert>, fleet: map<string, Faults>, faults: Faults, registry: set<string>,
                            scope: Scope, id: string, other: string)
    requires other != id
    ensures ExactFor(list, fleet, registry, scope, other) <==>
        ExactFor(list, fleet[id := faults], registry, scope, other)
  {
    hide Describes, Listed;
  }

  lemma MissedKeepsUpToDate(v: View, e: Event, v': View, registry: set<string>, s: Scope, id: string)
    requires UpToDate(v, registry) && Accepted(e, registry) && v'.fleet == v.fleet[e.topic := NewFaults(v, e)] &&
        Missed(v, e, v')
    requires s in v.lists && id !in v'.missed[s]
    ensures ExactFor(v'.lists[s], v'.fleet, registry, s, id)
  {
    hide NewFaults, ExactFor, Concerns;
    if id != e.topic {
      ExactWithoutMention(v.lists[s], v.fleet, NewFaults(v, e), registry, s, e.topic, id);
    } else {
      OutOfScope(v.lists[s], v.fleet, v'.fleet, registry, s, id);
    }
  }

  /** A frame that is not sent because nothing changed is not needed: the whole set, starts included, is as before. */
  lemma QuietKeepsExact(v: View, e: Event, registry: set<string>, list: seq<Alert>, s: Scope, id: string)
    requires e.StateMessage? && !Changes(v, e) && ExactFor(list, v.fleet, registry, s, id)
    ensures ExactFor(list, v.fleet[e.topic := NewFaults(v, e)], registry, s, id)
  {
    hide Describes, Listed, Stamped;
    UnchangedIsIdentical(FaultsOf(v.fleet, e.topic), e.ts);
    assert forall a: Alert :: Stands(a, v.fleet, registry) == Stands(a, v.fleet[e.topic := NewFaults(v, e)], registry);
  }

  lemma StepKeepsUpToDate(v: View, e: Event, v': View, registry: set<string>)
    requires Step(v, e, v', registry) && UpToDate(v, registry)
    requires forall s :: s in v.lists ==> WellTyped(s)
    ensures UpToDate(v', registry)
  {
    hide ExactFor, NewFaults, Changes, WellTyped, Refetched, Concerns;
    forall s, id | s in v'.lists && id !in v'.missed[s] ensures ExactFor(v'.lists[s], v'.fleet, registry, s, id) {
      if e.Fetch? {
        if s == e.scope {
          RefetchedFor(v'.lists[s], v.fleet, registry, s, id);
        }
      } else if Accepted(e, registry) {
        if !Changes(v, e) {
          QuietKeepsExact(v, e, registry, v.lists[s], s, id);
        } else if e.delivered {
          DeliveredKeepsUpToDate(v, e, v', registry, s, id);
        } else {
          MissedKeepsUpToDate(v, e, v', registry, s, id);
        }
      }
    }
  }

  lemma RefetchedFor(list: seq<Alert>, fleet: map<string, Faults>, registry: set<string>, scope: Scope, id: string)
    requires Refetched(list, fleet, registry, scope)
    ensures ExactFor(list, fleet, registry, scope, id)
  {
  }

  /** `trace` is a run over `events` from the empty view; every list fetched has a well-typed scope. */
  ghost predicate IsRun(trace: seq<View>, events: seq<Event>, registry: set<string>) {
    && |trace| == |events| + 1 && trace[0] == START
    && (forall k :: 0 <= k < |events| ==> Step(trace[k], events[k], trace[k + 1], registry))
    && (forall k :: 0 <= k < |events| && events[k].Fetch? ==> WellTyped(events[k].scope))
  }

  predicate ScopesWellTyped(v: View) {
    forall s :: s in v.lists ==> WellTyped(s)
  }

  lemma {:induction false} RunIsUpToDate(trace: seq<View>, events: seq<Event>, registry: set<string>, k: nat)
    requires IsRun(trace, events, registry) && k < |trace|
    ensures UpToDate(trace[k], registry) && ScopesWellTyped(trace[k])
  {
    hide UpToDate, Accepted, WellTyped, NewFaults, Changes, Refetched;
    if k == 0 {
      StartIsUpToDate(registry);
    } else {
      RunIsUpToDate(trace, events, registry, k - 1);
      StepKeepsUpToDate(trace[k - 1], events[k - 1], trace[k], registry);
      assert Step(trace[k - 1], events[k - 1], trace[k - 1 + 1], registry);
    }
  }

  lemma StartIsUpToDate(registry: set<string>)
    ensures UpToDate(START, registry)
  {
  }

  predicate AllDelivered(events: seq<Event>) {
    forall k :: 0 <= k < |events| && events[k].StateMessage? ==> events[k].delivered
  }

  predicate NothingMissed(v: View) {
    forall s :: s in v.missed ==> v.missed[s] == {}
  }

  lemma {:induction false} DeliveredMissesNothing(trace: seq<View>, events: seq<Event>, registry: set<string>, k: nat)
    requires IsRun(trace, events, registry) && AllDelivered(events) && k < |trace|
    ensures NothingMissed(trace[k])
  {
    hide Accepted, WellTyped, NewFaults, Changes, Refetched, IsPatchedBy, Concerns;
    if k > 0 {
      DeliveredMissesNothing(trace, events, registry, k - 1);
      assert Step(trace[k - 1], events[k - 1], trace[k - 1 + 1], registry);
    }
  }

  /** Incremental equals refetch: with no frame lost, whatever the server would list now is what is cached. */
  lemma CachedEqualsRefetch(trace: seq<View>, events: seq<Event>, registry: set<string>, k: nat, s: Scope,
                            refetch: seq<Alert>)
    requires IsRun(trace, events, registry) && AllDelivered(events) && k < |trace|
    requires s in trace[k].lists && Refetched(refetch, trace[k].fleet, registry, s)
    ensures multiset(trace[k].lists[s]) == multiset(refetch)
  {
    hide IsRun, ExactFor;
    RunIsUpToDate(trace, events, registry, k);
    DeliveredMissesNothing(trace, events, registry, k);
    RefetchIsUnique(trace[k].lists[s], refetch, trace[k].fleet, registry, s);
  }

  /** A state message for this greenhouse, registered and naming itself. */
  predicate ReportsOn(e: Event, registry: set<string>, id: string) {
    e.StateMessage? && id in registry && e.topic == id && e.payload == id
  }

  /** The state frames of one greenhouse among these events. */
  function FramesOf(events: seq<Event>, registry: set<string>, id: string): seq<StateFrame> {
    if events == [] then []
    else
      var n := |events| - 1;
      var e, earlier := events[n], FramesOf(events[..n], registry, id);
      if ReportsOn(e, registry, id) then earlier + [StateFrame(Projected(e.reported), e.ts)] else earlier
  }

  lemma StepReports(v: View, e: Event, v': View, registry: set<string>, id: string)
    requires Step(v, e, v', registry)
    ensures FaultsOf(v'.fleet, id) ==
            if ReportsOn(e, registry, id) then Stamped(FaultsOf(v.fleet, id), Projected(e.reported), e.ts)
            else FaultsOf(v.fleet, id)
  {
    hide Changes, Delivered, Missed, Refetched, Projected, Stamped;
  }

  lemma SeenMore(frames: seq<StateFrame>, frame: StateFrame)
    ensures Seen(frames + [frame]) == Stamped(Seen(frames), frame.faults, frame.ts)
  {
    hide Stamped;
    assert (frames + [frame])[..|frames|] == frames;
  }

  /** At every point of every run a greenhouse's set is what its own frames so far make of it, and nothing else. */
  lemma {:induction false} FleetIsSeen(trace: seq<View>, events: seq<Event>, registry: set<string>, k: nat, id: string)
    requires IsRun(trace, events, registry) && k < |trace|
    ensures FaultsOf(trace[k].fleet, id) == Seen(FramesOf(events[..k], registry, id))
  {
    hide Step, WellTyped, Projected, Stamped, ReportsOn;
    if k == 0 {
      assert events[..k] == [];
    } else {
      FleetIsSeen(trace, events, registry, k - 1, id);
      var e := events[k - 1];
      assert events[..k][..k - 1] == events[..k - 1];
      assert Step(trace[k - 1], e, trace[k - 1 + 1], registry);
      StepReports(trace[k - 1], e, trace[k], registry, id);
      if e.StateMessage? {
        SeenMore(FramesOf(events[..k - 1], registry, id), StateFrame(Projected(e.reported), e.ts));
      }
    }
  }

  // ---- the system ----

  class LiveView {
    const registry: seq<string>
    const fleet: Fleet
    const cache: QueryCache
    ghost var missed: map<Scope, set<string>>

    ghost predicate Valid() {
      Distinct(registry)
    }

    ghost function Now(): View
      reads this, fleet, cache
    {
      View(fleet.entries, cache.lists, missed)
    }

    constructor (registry: seq<string>)
      requires Distinct(registry)
      ensures Valid() && this.registry == registry && Now() == START
    {
      this.registry := registry;
      fleet := new Fleet();
      cache := new QueryCache();
      missed := map[];
    }

    /** One state message through the ingester, the hub and the dashboard's stream handler. */
    method OnState(topic: string, payload: string, reported: seq<Reported>, ts: int, delivered: bool)
      requires Valid()
      modifies this, fleet, cache
      ensures Step(old(Now()), StateMessage(topic, payload, reported, ts, delivered), Now(), ToSet(registry))
    {
      hide ListsFaults, Patched, Stamped, Graded, Concerns;
      if topic !in registry || payload != topic {
        return;
      }
      var faults := ActiveFaults(reported);
      var changed := fleet.SetActiveFaults(topic, faults, ts);
      if changed {
        var frame := NewActiveAlerts(topic, FaultsOf(fleet.entries, topic));
        if delivered {
          cache.Apply(topic, frame);
          missed := map s | s in missed :: if Concerns(s, topic) then missed[s] - {topic} else missed[s];
          assert IsPatchedBy(old(Now()), StateMessage(topic, payload, reported, ts, delivered), Now(), frame);
        } else {
          missed := map s | s in missed :: if Concerns(s, topic) then missed[s] + {topic} else missed[s];
        }
      }
    }

    method Fetch(scope: Scope)
      requires Valid()
      modifies this, cache
      ensures Step(old(Now()), Event.Fetch(scope), Now(), ToSet(registry))
    {
      hide Refetched;
      var alerts := ListActiveAlerts(fleet.entries, registry, scope);
      cache.Loaded(scope, alerts);
      missed := missed[scope := {}];
    }
  }
}
