/**
 The bounded buffer between message receipt and the database writer: producers that shed the oldest record rather
 than block, one writer that batches, in any interleaving of their atomic channel operations.
 */
module IngestBuffer {
  import opened Text

  datatype Kind = AReading | AnActuator | AnEvent

  datatype Record = Record(kind: Kind, id: nat)

  /** What the writer hands to the store in one call. */
  datatype Insert = Insert(kind: Kind, ids: seq<nat>)

  const MAX_BATCH := 256

  // ---- the pieces a lone caller sees ----

  function Capacity(size: int): (cap: nat)
    ensures cap >= 1 && (size >= 1 ==> cap == size)
  {
    if size < 1 then 1 else size
  }

  /** A push by a producer nothing interferes with: one record in, the oldest out when full. */
  function Pushed(queue: seq<Record>, cap: nat, rec: Record): seq<Record>
    requires cap >= 1
  {
    (if |queue| >= cap then queue[|queue| - cap + 1..] else queue) + [rec]
  }

  datatype Batches = Batches(readings: seq<nat>, actuators: seq<nat>, handed: seq<Insert>)

  const NO_BATCHES := Batches([], [], [])

  function HandedOver(handed: seq<Insert>, kind: Kind, ids: seq<nat>): seq<Insert> {
    if ids == [] then handed else handed + [Insert(kind, ids)]
  }

  function Flushed(b: Batches): Batches {
    Batches([], [], HandedOver(HandedOver(b.handed, AReading, b.readings), AnActuator, b.actuators))
  }

  function Collected(b: Batches, rec: Record): Batches {
    match rec.kind
    case AReading => b.(readings := b.readings + [rec.id])
    case AnActuator => b.(actuators := b.actuators + [rec.id])
    case AnEvent => b.(handed := b.handed + [Insert(AnEvent, [rec.id])])
  }

  function Received(b: Batches, rec: Record): Batches {
    var c := Collected(b, rec);
    if |c.readings| + |c.actuators| >= MAX_BATCH then Flushed(c) else c
  }

  class Writer {
    const capacity: nat
    var queue: seq<Record>
    var dropped: nat
    var readings: seq<nat>
    var actuators: seq<nat>
    var handed: seq<Insert>

    ghost predicate Valid()
      reads this
    {
      capacity >= 1 && |queue| <= capacity && |readings| + |actuators| < MAX_BATCH
    }

    ghost function Now(): Batches
      reads this
    {
      Batches(readings, actuators, handed)
    }

    constructor (size: int)
      ensures Valid() && capacity == Capacity(size) && queue == [] && dropped == 0 && Now() == NO_BATCHES
    {
      capacity := if size < 1 then 1 else size;
      queue, dropped, readings, actuators, handed := [], 0, [], [], [];
    }

    /** A push with no one else at the channel: at most two rounds, and one record shed exactly when it was full. */
    method Push(rec: Record) returns (rounds: nat)
      requires Valid()
      modifies this`queue, this`dropped
      ensures Valid() && queue == Pushed(old(queue), capacity, rec)
      ensures dropped == old(dropped) + (if |old(queue)| == capacity then 1 else 0)
      ensures rounds == (if |old(queue)| == capacity then 2 else 1)
    {
      rounds := 0;
      while true
        invariant rounds == 0 ==> queue == old(queue) && dropped == old(dropped)
        invariant rounds != 0 ==>
            rounds == 1 && |old(queue)| == capacity && queue == old(queue)[1..] && dropped == old(dropped) + 1
        decreases 2 - rounds
      {
        rounds := rounds + 1;
        if |queue| < capacity {
          queue := queue + [rec];
          return;
        }
        if queue != [] {
          queue := queue[1..];
          dropped := dropped + 1;
        }
      }
    }

    method Flush()
      modifies this`readings, this`actuators, this`handed
      ensures Now() == Flushed(old(Now()))
    {
      if |readings| > 0 {
        handed := handed + [Insert(AReading, readings)];
        readings := [];
      }
      if |actuators| > 0 {
        handed := handed + [Insert(AnActuator, actuators)];
        actuators := [];
      }
    }

    method Receive(rec: Record)
      modifies this`readings, this`actuators, this`handed
      ensures Now() == Received(old(Now()), rec)
    {
      match rec.kind {
        case AReading => readings := readings + [rec.id];
        case AnActuator => actuators := actuators + [rec.id];
        case AnEvent => handed := handed + [Insert(AnEvent, [rec.id])];
      }
      if |readings| + |actuators| >= MAX_BATCH {
        Flush();
      }
    }

    /** The writer's loop over whatever its select picks next, until cancelled or `choices` run out. */
    method Run(choices: seq<Choice>)
      requires Valid()
      modifies this`queue, this`readings, this`actuators, this`handed
      ensures Valid()
      ensures (queue, Now()) == Drained(old(queue), old(Now()), choices)
    {
      var i := 0;
      while i < |choices|
        invariant i <= |choices| && Valid()
        invariant Drained(queue, Now(), choices[i..]) == Drained(old(queue), old(Now()), choices)
      {
        assert choices[i..][1..] == choices[i + 1..];
        match choices[i] {
          case Cancelled =>
            Flush();
            return;
          case Ticker => Flush();
          case FromChannel =>
            if queue != [] {
              var rec := queue[0];
              queue := queue[1..];
              Receive(rec);
            }
        }
        i := i + 1;
      }
    }
  }

  /** The branch the writer's select takes; an empty channel is never ready. */
  datatype Choice = FromChannel | Ticker | Cancelled

  function Drained(queue: seq<Record>, b: Batches, choices: seq<Choice>): (seq<Record>, Batches)
    decreases choices
  {
    if choices == [] then (queue, b)
    else
      match choices[0]
      case Cancelled => (queue, Flushed(b))
      case Ticker => Drained(queue, Flushed(b), choices[1..])
      case FromChannel =>
        if queue == [] then Drained(queue, b, choices[1..])
        else Drained(queue[1..], Received(b, queue[0]), choices[1..])
  }

  // ---- every interleaving ----

  /** Where a producer is in its push: about to try the send, about to take the head, about to count the drop. */
  datatype Phase =
    | Offering(rec: Record, rounds: nat)
    | Shedding(rec: Record, rounds: nat)
    | Counting(rec: Record, rounds: nat)

  datatype Removal = Removal(rec: Record, kept: bool)

  /** The shared state, with the history of what went in and what came out at the head. */
  datatype State = State(
    queue: seq<Record>,
    producers: map<nat, Phase>,
    dropped: nat,
    batches: Batches,
    stopped: bool,
    accepted: seq<Record>,
    removed: seq<Removal>)

  const START := State([], map[], 0, NO_BATCHES, false, [], [])

  /** One atomic step: a producer's, or the writer's. */
  datatype Step = Begin(p: nat, rec: Record) | Offer(p: nat) | Shed(p: nat) | Count(p: nat) | Take | Tick | Cancel

  function Removing(s: State, kept: bool): State
    requires s.queue != []
  {
    s.(queue := s.queue[1..], removed := s.removed + [Removal(s.queue[0], kept)])
  }

  function AfterOffer(s: State, p: nat, rec: Record, rounds: nat, cap: nat): State {
    if |s.queue| < cap
    then s.(queue := s.queue + [rec], accepted := s.accepted + [rec], producers := s.producers - {p})
    else s.(producers := s.producers[p := Shedding(rec, rounds + 1)])
  }

  function AfterShed(s: State, p: nat, rec: Record, rounds: nat): State {
    if s.queue == [] then s.(producers := s.producers[p := Offering(rec, rounds)])
    else Removing(s, false).(producers := s.producers[p := Counting(rec, rounds)])
  }

  /** A step that is not enabled leaves the state as it is. */
  function Next(s: State, step: Step, cap: nat): State {
    match step
    case Begin(p, rec) => if p in s.producers then s else s.(producers := s.producers[p := Offering(rec, 0)])
    case Offer(p) =>
      if p in s.producers && s.producers[p].Offering?
      then AfterOffer(s, p, s.producers[p].rec, s.producers[p].rounds, cap)
      else s
    case Shed(p) =>
      if p in s.producers && s.producers[p].Shedding?
      then AfterShed(s, p, s.producers[p].rec, s.producers[p].rounds)
      else s
    case Count(p) =>
      if p in s.producers && s.producers[p].Counting?
      then s.(dropped := s.dropped + 1,
              producers := s.producers[p := Offering(s.producers[p].rec, s.producers[p].rounds)])
      else s
    case Take =>
      if s.stopped || s.queue == [] then s else Removing(s, true).(batches := Received(s.batches, s.queue[0]))
    case Tick => if s.stopped then s else s.(batches := Flushed(s.batches))
    case Cancel => if s.stopped then s else s.(batches := Flushed(s.batches), stopped := true)
  }

  function RunFrom(s: State, steps: seq<Step>, cap: nat): State {
    if steps == [] then s else Next(RunFrom(s, steps[..|steps| - 1], cap), steps[|steps| - 1], cap)
  }

  function Run(steps: seq<Step>, cap: nat): State {
    RunFrom(START, steps, cap)
  }

  // ---- what the history says ----

  function Records(removed: seq<Removal>): (r: seq<Record>)
    ensures |r| == |removed|
  {
    if removed == [] then [] else Records(removed[..|removed| - 1]) + [removed[|removed| - 1].rec]
  }

  /** The removals of one sort, in order: taken by the writer, or shed by a producer. */
  function RemovedAs(removed: seq<Removal>, kept: bool): seq<Record> {
    if removed == [] then []
    else
      var n := |removed| - 1;
      RemovedAs(removed[..n], kept) + if removed[n].kept == kept then [removed[n].rec] else []
  }

  function Consumed(s: State): seq<Record> {
    RemovedAs(s.removed, true)
  }

  function Lost(s: State): seq<Record> {
    RemovedAs(s.removed, false)
  }

  /** The producers that have shed a record and not yet counted it. */
  function Uncounted(producers: map<nat, Phase>): set<nat> {
    set p | p in producers && producers[p].Counting?
  }

  /** Bounded, first in first out, and every shed record counted once. */
  predicate Sound(s: State, cap: nat) {
    && |s.queue| <= cap
    && Records(s.removed) + s.queue == s.accepted
    && s.dropped + |Uncounted(s.producers)| == |Lost(s)|
  }

  lemma RecordsAppend(removed: seq<Removal>, r: Removal)
    ensures Records(removed + [r]) == Records(removed) + [r.rec]
    ensures forall kept ::
              RemovedAs(removed + [r], kept) == RemovedAs(removed, kept) + if r.kept == kept then [r.rec] else []
  {
    assert (removed + [r])[..|removed|] == removed;
  }

  lemma UncountedUpdate(producers: map<nat, Phase>, p: nat, phase: Phase)
    ensures Uncounted(producers[p := phase]) ==
            if phase.Counting? then Uncounted(producers) + {p} else Uncounted(producers) - {p}
    ensures Uncounted(producers - {p}) == Uncounted(producers) - {p}
  {
  }

  lemma RemovingTakesTheOldest(s: State, kept: bool)
    requires s.queue != [] && Records(s.removed) + s.queue == s.accepted
    ensures Records(Removing(s, kept).removed) + Removing(s, kept).queue == s.accepted
    ensures Consumed(Removing(s, kept)) == if kept then Consumed(s) + [s.queue[0]] else Consumed(s)
    ensures Lost(Removing(s, kept)) == if kept then Lost(s) else Lost(s) + [s.queue[0]]
  {
    RecordsAppend(s.removed, Removal(s.queue[0], kept));
  }

  lemma OfferKeepsSound(s: State, p: nat, cap: nat)
    requires Sound(s, cap) && p in s.producers && s.producers[p].Offering?
    ensures Sound(AfterOffer(s, p, s.producers[p].rec, s.producers[p].rounds, cap), cap)
  {
    hide Records, RemovedAs, Uncounted;
    UncountedMember(s.producers, p);
    UncountedUpdate(s.producers, p, Shedding(s.producers[p].rec, s.producers[p].rounds + 1));
  }

  lemma ShedKeepsSound(s: State, p: nat, cap: nat)
    requires Sound(s, cap) && p in s.producers && s.producers[p].Shedding?
    ensures Sound(AfterShed(s, p, s.producers[p].rec, s.producers[p].rounds), cap)
  {
    hide Records, RemovedAs, Uncounted;
    UncountedMember(s.producers, p);
    UncountedUpdate(s.producers, p, Offering(s.producers[p].rec, s.producers[p].rounds));
    UncountedUpdate(s.producers, p, Counting(s.producers[p].rec, s.producers[p].rounds));
    if s.queue != [] {
      RemovingTakesTheOldest(s, false);
    }
  }

  lemma CountKeepsSound(s: State, p: nat, cap: nat)
    requires Sound(s, cap) && p in s.producers && s.producers[p].Counting?
    ensures Sound(Next(s, Count(p), cap), cap)
  {
    hide Records, RemovedAs, Uncounted;
    UncountedMember(s.producers, p);
    UncountedUpdate(s.producers, p, Offering(s.producers[p].rec, s.producers[p].rounds));
  }

  lemma StepKeepsSound(s: State, step: Step, cap: nat)
    requires Sound(s, cap)
    ensures Sound(Next(s, step, cap), cap)
  {
    hide Records, RemovedAs, Uncounted, Received, Flushed, AfterOffer, AfterShed;
    match step
    case Begin(p, rec) =>
      UncountedMember(s.producers, p);
      UncountedUpdate(s.producers, p, Offering(rec, 0));
    case Offer(p) =>
      if p in s.producers && s.producers[p].Offering? {
        OfferKeepsSound(s, p, cap);
      }
    case Shed(p) =>
      if p in s.producers && s.producers[p].Shedding? {
        ShedKeepsSound(s, p, cap);
      }
    case Count(p) =>
      if p in s.producers && s.producers[p].Counting? {
        CountKeepsSound(s, p, cap);
      }
    case Take =>
      if s.queue != [] {
        RemovingTakesTheOldest(s, true);
      }
    case _ =>
  }

  lemma UncountedMember(producers: map<nat, Phase>, p: nat)
    ensures p in Uncounted(producers) <==> p in producers && producers[p].Counting?
  {
  }

  /** In every interleaving: bounded, first in first out, every shed record counted once its producer gets to it. */
  lemma {:induction false} RunIsSound(steps: seq<Step>, cap: nat)
    ensures Sound(Run(steps, cap), cap)
  {
    hide Next;
    if steps != [] {
      RunIsSound(steps[..|steps| - 1], cap);
      StepKeepsSound(Run(steps[..|steps| - 1], cap), steps[|steps| - 1], cap);
    }
  }

  /** `a` is `b` with some elements left out, in order. */
  predicate IsSubsequence<T(==)>(a: seq<T>, b: seq<T>) {
    a == [] ||
    (b != [] &&
     (IsSubsequence(a, b[..|b| - 1]) || (a[|a| - 1] == b[|b| - 1] && IsSubsequence(a[..|a| - 1], b[..|b| - 1]))))
  }

  lemma {:induction false} SubsequenceOfLonger<T>(a: seq<T>, b: seq<T>, more: seq<T>)
    requires IsSubsequence(a, b)
    ensures IsSubsequence(a, b + more)
  {
    if more == [] {
      assert b + more == b;
    } else {
      SubsequenceOfLonger(a, b, more[..|more| - 1]);
      assert (b + more)[..|b + more| - 1] == b + more[..|more| - 1];
    }
  }

  lemma {:induction false} RemovalsAreSubsequence(removed: seq<Removal>, kept: bool)
    ensures IsSubsequence(RemovedAs(removed, kept), Records(removed))
  {
    if removed != [] {
      var n := |removed| - 1;
      RemovalsAreSubsequence(removed[..n], kept);
      var all, some := Records(removed), RemovedAs(removed, kept);
      assert all[..|all| - 1] == Records(removed[..n]);
      assert all[|all| - 1] == removed[n].rec && removed != [] && all != [];
      if removed[n].kept == kept {
        assert some[..|some| - 1] == RemovedAs(removed[..n], kept);
      } else {
        assert some == RemovedAs(removed[..n], kept);
      }
    }
  }

  lemma {:induction false} RemovalsSplit(removed: seq<Removal>)
    ensures multiset(RemovedAs(removed, true)) + multiset(RemovedAs(removed, false)) == multiset(Records(removed))
  {
    if removed != [] {
      RemovalsSplit(removed[..|removed| - 1]);
    }
  }

  /** What the writer sees is what was accepted, in order, less what was shed; and nothing is lost track of. */
  lemma AcceptedIsConserved(steps: seq<Step>, cap: nat)
    ensures var s := Run(steps, cap);
            && IsSubsequence(Consumed(s), s.accepted) && IsSubsequence(Lost(s), s.accepted)
            && multiset(s.accepted) == multiset(Consumed(s)) + multiset(Lost(s)) + multiset(s.queue)
  {
    hide Run;
    var s := Run(steps, cap);
    RunIsSound(steps, cap);
    RemovalsAreSubsequence(s.removed, true);
    RemovalsAreSubsequence(s.removed, false);
    SubsequenceOfLonger(Consumed(s), Records(s.removed), s.queue);
    SubsequenceOfLonger(Lost(s), Records(s.removed), s.queue);
    RemovalsSplit(s.removed);
  }

  // ---- the writer's batches ----

  /** The records of one kind, in order. */
  function Ids(records: seq<Record>, kind: Kind): seq<nat> {
    if records == [] then []
    else
      var last := records[|records| - 1];
      Ids(records[..|records| - 1], kind) + if last.kind == kind then [last.id] else []
  }

  function IdsHanded(handed: seq<Insert>, kind: Kind): seq<nat> {
    if handed == [] then []
    else
      var last := handed[|handed| - 1];
      IdsHanded(handed[..|handed| - 1], kind) + if last.kind == kind then last.ids else []
  }

  function Pending(b: Batches, kind: Kind): seq<nat> {
    match kind
    case AReading => b.readings
    case AnActuator => b.actuators
    case AnEvent => []
  }

  /** Handed to the store, then still pending, is what the writer has consumed of each kind. */
  predicate Accounted(b: Batches, consumed: seq<Record>) {
    forall kind :: IdsHanded(b.handed, kind) + Pending(b, kind) == Ids(consumed, kind)
  }

  predicate SmallBatches(b: Batches) {
    && |b.readings| + |b.actuators| < MAX_BATCH
    && forall i :: 0 <= i < |b.handed| ==> 1 <= |b.handed[i].ids| <= MAX_BATCH
  }

  lemma HandOver(handed: seq<Insert>, of: Kind, ids: seq<nat>, kind: Kind)
    ensures IdsHanded(HandedOver(handed, of, ids), kind) == IdsHanded(handed, kind) + if kind == of then ids else []
  {
    if ids != [] {
      assert HandedOver(handed, of, ids)[..|handed|] == handed;
    }
  }

  lemma FlushKeepsAccounts(b: Batches, consumed: seq<Record>)
    requires Accounted(b, consumed)
    ensures Accounted(Flushed(b), consumed)
  {
    hide HandedOver, IdsHanded, Ids;
    forall kind ensures IdsHanded(Flushed(b).handed, kind) + Pending(Flushed(b), kind) == Ids(consumed, kind) {
      HandOver(b.handed, AReading, b.readings, kind);
      HandOver(HandedOver(b.handed, AReading, b.readings), AnActuator, b.actuators, kind);
      assert IdsHanded(b.handed, kind) + Pending(b, kind) == Ids(consumed, kind);
    }
  }

  lemma IdsAppend(records: seq<Record>, rec: Record, kind: Kind)
    ensures Ids(records + [rec], kind) == Ids(records, kind) + if rec.kind == kind then [rec.id] else []
  {
    assert (records + [rec])[..|records|] == records;
  }

  /** Collecting a record adds its id to what is handed or pending of its kind. */
  lemma CollectAppends(b: Batches, rec: Record, kind: Kind)
    ensures IdsHanded(Collected(b, rec).handed, kind) + Pending(Collected(b, rec), kind) ==
            IdsHanded(b.handed, kind) + Pending(b, kind) + if rec.kind == kind then [rec.id] else []
  {
    hide IdsHanded;
    HandOver(b.handed, AnEvent, [rec.id], kind);
    assert rec.kind.AnEvent? ==> Collected(b, rec).handed == HandedOver(b.handed, AnEvent, [rec.id]);
    assert rec.kind != kind ==> Pending(Collected(b, rec), kind) == Pending(b, kind);
  }

  lemma CollectKeepsAccounts(b: Batches, consumed: seq<Record>, rec: Record)
    requires Accounted(b, consumed)
    ensures Accounted(Collected(b, rec), consumed + [rec])
  {
    hide IdsHanded, Ids, Collected, Pending;
    var c := Collected(b, rec);
    forall kind ensures IdsHanded(c.handed, kind) + Pending(c, kind) == Ids(consumed + [rec], kind) {
      CollectAppends(b, rec, kind);
      IdsAppend(consumed, rec, kind);
    }
  }

  lemma SmallStay(b: Batches, rec: Record)
    requires SmallBatches(b)
    ensures SmallBatches(Flushed(b)) && SmallBatches(Received(b, rec))
  {
  }

  lemma StepKeepsAccounts(s: State, step: Step, cap: nat)
    requires Sound(s, cap) && Accounted(s.batches, Consumed(s)) && SmallBatches(s.batches)
    ensures var s' := Next(s, step, cap); Accounted(s'.batches, Consumed(s')) && SmallBatches(s'.batches)
  {
    hide Accounted, SmallBatches, Uncounted, Records, RemovedAs, Flushed, Collected;
    FlushKeepsAccounts(s.batches, Consumed(s));
    SmallStay(s.batches, Record(AnEvent, 0));
    if s.queue != [] {
      RemovingTakesTheOldest(s, true);
      RemovingTakesTheOldest(s, false);
      SmallStay(s.batches, s.queue[0]);
      CollectKeepsAccounts(s.batches, Consumed(s), s.queue[0]);
      FlushKeepsAccounts(Collected(s.batches, s.queue[0]), Consumed(s) + [s.queue[0]]);
    }
  }

  /**
   In every interleaving the store is handed, kind by kind and in order, exactly what the writer consumed less
   what is pending; at most 256 records in one call; and nothing pending once the writer has stopped.
   */
  lemma {:induction false} RunIsAccounted(steps: seq<Step>, cap: nat)
    ensures var s := Run(steps, cap);
            && Accounted(s.batches, Consumed(s)) && SmallBatches(s.batches)
            && (s.stopped ==> s.batches.readings == [] && s.batches.actuators == [])
  {
    hide Sound, RemovedAs, Accounted, SmallBatches, Received;
    if steps != [] {
      var before := steps[..|steps| - 1];
      RunIsAccounted(before, cap);
      RunIsSound(before, cap);
      StepKeepsAccounts(Run(before, cap), steps[|steps| - 1], cap);
    } else {
      NothingYet();
    }
  }

  lemma NothingYet()
    ensures Accounted(START.batches, Consumed(START)) && SmallBatches(START.batches)
  {
  }

  // ---- one producer ----

  predicate OnlyProducer(steps: seq<Step>, p: nat) {
    forall k :: 0 <= k < |steps| ==>
      (steps[k].Begin? || steps[k].Offer? || steps[k].Shed? || steps[k].Count? ==> steps[k].p == p)
  }

  /** After a failed first round there is room, so the second succeeds; and each push sheds at most one record. */
  predicate Lone(s: State, p: nat, cap: nat) {
    && s.producers.Keys <= {p}
    && |Lost(s)| <= |s.accepted| +
        (if p in s.producers && s.producers[p].rounds == 1 && !s.producers[p].Shedding? then 1 else 0)
    && (p in s.producers ==>
         match s.producers[p]
         case Offering(_, rounds) => rounds <= 1 && (rounds == 1 ==> |s.queue| < cap)
         case Shedding(_, rounds) => rounds == 1
         case Counting(_, rounds) => rounds == 1 && |s.queue| < cap)
  }

  lemma LoneStep(s: State, step: Step, p: nat, cap: nat)
    requires cap >= 1 && OnlyProducer([step], p) && Lone(s, p, cap) && Sound(s, cap)
    ensures Lone(Next(s, step, cap), p, cap)
  {
    hide RemovedAs, Records, Uncounted, Received, Flushed;
    assert step == [step][0];
    if s.queue != [] {
      RemovingTakesTheOldest(s, true);
      RemovingTakesTheOldest(s, false);
    }
  }

  lemma {:induction false} LonePush(steps: seq<Step>, p: nat, cap: nat)
    requires cap >= 1 && OnlyProducer(steps, p)
    ensures Lone(Run(steps, cap), p, cap)
  {
    hide Next, Lone, Sound;
    if steps != [] {
      LonePush(steps[..|steps| - 1], p, cap);
      RunIsSound(steps[..|steps| - 1], cap);
      LoneStep(Run(steps[..|steps| - 1], cap), steps[|steps| - 1], p, cap);
    } else {
      StartsLone(p, cap);
    }
  }

  lemma StartsLone(p: nat, cap: nat)
    ensures Lone(START, p, cap)
  {
    assert Lost(START) == [];
  }

  /** A push no other step comes between. */
  function Alone(s: State, p: nat, rec: Record, cap: nat): State {
    var tried := Next(Next(s, Begin(p, rec), cap), Offer(p), cap);
    if p !in tried.producers then tried else Next(Next(Next(tried, Shed(p), cap), Count(p), cap), Offer(p), cap)
  }

  /** The push method is that run of the machine: same queue, same drop count, the producer done. */
  lemma PushIsAlone(s: State, p: nat, rec: Record, cap: nat)
    requires cap >= 1 && |s.queue| <= cap && p !in s.producers
    ensures var s' := Alone(s, p, rec, cap);
            && s'.queue == Pushed(s.queue, cap, rec) && s'.accepted == s.accepted + [rec] && s'.producers == s.producers
            && s'.dropped == s.dropped + if |s.queue| == cap then 1 else 0
  {
    hide Records, RemovedAs, Uncounted, Received, Flushed;
    var begun := Next(s, Begin(p, rec), cap);
    assert begun.producers - {p} == s.producers;
    if |s.queue| == cap {
      var tried := Next(begun, Offer(p), cap);
      var counted := Next(Next(tried, Shed(p), cap), Count(p), cap);
      assert counted.producers - {p} == s.producers;
    }
  }

  // ---- when batches are handed over ----

  /** After a tick of the flush timer, or the stop, everything consumed has been handed to the store. */
  lemma FlushHandsOverAll(steps: seq<Step>, step: Step, cap: nat)
    requires step.Tick? || step.Cancel?
    ensures var s := Run(steps + [step], cap);
            forall kind :: IdsHanded(s.batches.handed, kind) == Ids(Consumed(s), kind)
  {
    hide RemovedAs, Accounted, SmallBatches, IdsHanded, Ids;
    var all := steps + [step];
    assert all[..|all| - 1] == steps;
    RunIsAccounted(steps, cap);
    RunIsAccounted(all, cap);
    var s := Run(all, cap);
    assert s.batches.readings == [] && s.batches.actuators == [];
    forall kind ensures IdsHanded(s.batches.handed, kind) == Ids(Consumed(s), kind) {
      AccountedFor(s.batches, Consumed(s), kind);
      assert Pending(s.batches, kind) == [];
    }
  }

  lemma AccountedFor(b: Batches, consumed: seq<Record>, kind: Kind)
    requires Accounted(b, consumed)
    ensures IdsHanded(b.handed, kind) + Pending(b, kind) == Ids(consumed, kind)
  {
  }

  /** Taking a record hands readings and samples over only when it makes the 256th pending; an event goes at once. */
  lemma TakeBatches(s: State, cap: nat)
    requires !s.stopped && s.queue != [] && |s.batches.readings| + |s.batches.actuators| < 256
    ensures var b, b', rec := s.batches, Next(s, Take, cap).batches, s.queue[0];
            && (rec.kind.AnEvent? ==> b' == b.(handed := b.handed + [Insert(AnEvent, [rec.id])]))
            && (!rec.kind.AnEvent? && |b.readings| + |b.actuators| < 255 ==>
                  b'.handed == b.handed && Pending(b', rec.kind) == Pending(b, rec.kind) + [rec.id]
                  && |b'.readings| + |b'.actuators| == |b.readings| + |b.actuators| + 1)
            && (!rec.kind.AnEvent? && |b.readings| + |b.actuators| == 255 ==> b'.readings == [] && b'.actuators == [])
  {
    hide Records, RemovedAs;
  }

  // ---- the writer's loop is a run of the machine ----

  function WriterStep(choice: Choice): Step {
    match choice
    case FromChannel => Take
    case Ticker => Tick
    case Cancelled => Cancel
  }

  function WriterSteps(choices: seq<Choice>): seq<Step> {
    if choices == [] then [] else [WriterStep(choices[0])] + WriterSteps(choices[1..])
  }

  lemma {:induction false} RunCons(s: State, step: Step, steps: seq<Step>, cap: nat)
    ensures RunFrom(s, [step] + steps, cap) == RunFrom(Next(s, step, cap), steps, cap)
  {
    hide Next;
    var all := [step] + steps;
    var n := |all| - 1;
    if steps == [] {
      assert all[..n] == [] && all == [step];
    } else {
      assert all[..n] == [step] + steps[..|steps| - 1] && all[n] == steps[|steps| - 1];
      RunCons(s, step, steps[..|steps| - 1], cap);
    }
  }

  lemma {:induction false} StoppedStays(s: State, choices: seq<Choice>, cap: nat)
    requires s.stopped
    ensures RunFrom(s, WriterSteps(choices), cap) == s
  {
    if choices != [] {
      RunCons(s, WriterStep(choices[0]), WriterSteps(choices[1..]), cap);
      StoppedStays(s, choices[1..], cap);
    }
  }

  /** What the loop leaves in the channel and in its batches is what those steps of the machine leave. */
  lemma {:induction false} LoopIsRun(s: State, choices: seq<Choice>, cap: nat)
    requires !s.stopped
    ensures var s' := RunFrom(s, WriterSteps(choices), cap);
            Drained(s.queue, s.batches, choices) == (s'.queue, s'.batches)
    decreases choices
  {
    hide Received, Flushed;
    if choices != [] {
      var next := Next(s, WriterStep(choices[0]), cap);
      RunCons(s, WriterStep(choices[0]), WriterSteps(choices[1..]), cap);
      if choices[0].Cancelled? {
        StoppedStays(next, choices[1..], cap);
      } else {
        LoopIsRun(next, choices[1..], cap);
      }
    }
  }
}
