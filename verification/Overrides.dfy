/** Stage 4 of the tick: manual overrides that expire by themselves. */
module Overrides {
  import opened Actuators

  datatype Override = Override(level: real, createdAt: nat, expiresAt: nat)

  const U64_MAX := 0xFFFF_FFFF_FFFF_FFFF

  /** Rust's `u64::saturating_add`. */
  function SaturatingAdd(a: nat, b: nat): nat {
    if a + b > U64_MAX then U64_MAX else a + b
  }

  function WithOverride(active: map<ActuatorId, Override>, id: ActuatorId, level: real, now: nat,
                        ttl: nat): map<ActuatorId, Override> {
    active[id := Override(Clamp(level, 0.0, 100.0), now, SaturatingAdd(now, ttl))]
  }

  function Live(active: map<ActuatorId, Override>, now: nat): map<ActuatorId, Override> {
    map id | id in active && active[id].expiresAt > now :: active[id]
  }

  function Overridden(active: map<ActuatorId, Override>, cmd: Commands): Commands {
    cmd + map id | id in active :: Clamp(active[id].level, 0.0, 100.0)
  }

  class OverrideState {
    var active: map<ActuatorId, Override>

    constructor ()
      ensures active == map[]
    {
      active := map[];
    }

    method Set(id: ActuatorId, level: real, now: nat, ttl: nat)
      modifies this
      ensures active == WithOverride(old(active), id, level, now, ttl)
    {
      active := active[id := Override(Clamp(level, 0.0, 100.0), now, SaturatingAdd(now, ttl))];
    }

    method Clear(id: ActuatorId)
      modifies this
      ensures active == old(active) - {id}
    {
      active := active - {id};
    }

    method Expire(now: nat)
      modifies this
      ensures active == Live(old(active), now)
    {
      var ids := active.Keys;
      while ids != {}
        invariant ids <= active.Keys <= old(active).Keys
        invariant forall id :: id in active ==>
            active[id] == old(active)[id] && (id in ids || active[id].expiresAt > now)
        invariant forall id :: id in old(active) && id !in active ==> old(active)[id].expiresAt <= now
        decreases ids
      {
        var id :| id in ids;
        ids := ids - {id};
        if active[id].expiresAt <= now {
          active := active - {id};
        }
      }
    }

    method Apply(cmd: Commands) returns (out: Commands)
      ensures out == Overridden(active, cmd)
    {
      out := cmd;
      var ids := active.Keys;
      while ids != {}
        invariant ids <= active.Keys
        invariant out.Keys == cmd.Keys + (active.Keys - ids)
        invariant forall id :: id in out ==>
                    out[id] == if id in active && id !in ids then Clamp(active[id].level, 0.0, 100.0) else cmd[id]
        decreases ids
      {
        var id :| id in ids;
        ids := ids - {id};
        out := Actuators.Set(out, id, active[id].level);
      }
    }
  }

  // ---- over a run ----

  /** An operator's write between two ticks. */
  datatype Write = SetOverride(id: ActuatorId, level: real, ttl: nat) | ClearOverride(id: ActuatorId)

  function Written(active: map<ActuatorId, Override>, w: Write, now: nat): map<ActuatorId, Override> {
    match w
    case SetOverride(id, level, ttl) => WithOverride(active, id, level, now, ttl)
    case ClearOverride(id) => active - {id}
  }

  function AllWritten(active: map<ActuatorId, Override>, ws: seq<Write>, now: nat): map<ActuatorId, Override> {
    if ws == [] then active else Written(AllWritten(active, ws[..|ws| - 1], now), ws[|ws| - 1], now)
  }

  /** What is in force at the last of `|ticks|` ticks from `now` on; each tick takes in its writes and expires first. */
  function InForce(active: map<ActuatorId, Override>, ticks: seq<seq<Write>>, now: nat): map<ActuatorId, Override> {
    if ticks == [] then active
    else
      var n := |ticks| - 1;
      Live(AllWritten(InForce(active, ticks[..n], now), ticks[n], now + n), now + n)
  }

  lemma {:induction false} WritesElsewhere(active: map<ActuatorId, Override>, ws: seq<Write>, now: nat, id: ActuatorId)
    requires forall w :: w in ws ==> w.id != id
    ensures id in AllWritten(active, ws, now) <==> id in active
    ensures id in active ==> AllWritten(active, ws, now)[id] == active[id]
  {
    if ws != [] {
      assert ws[|ws| - 1] in ws;
      WritesElsewhere(active, ws[..|ws| - 1], now, id);
    }
  }

  /**
   An override set at tick `now` and then neither replaced nor cleared is in force at tick now + k exactly
   when k < ttl (short of the counter's saturation), whatever is written for other actuators meanwhile.
   */
  lemma {:induction false} InForceExactly(
    active: map<ActuatorId, Override>, id: ActuatorId, level: real, ttl: nat, now: nat, ticks: seq<seq<Write>>)
    requires now + ttl <= U64_MAX && ticks != []
    requires forall ws, w :: ws in ticks && w in ws ==> w.id != id
    ensures var held := InForce(WithOverride(active, id, level, now, ttl), ticks, now);
            && (id in held <==> |ticks| - 1 < ttl)
            && (id in held ==> held[id] == Override(Clamp(level, 0.0, 100.0), now, now + ttl))
  {
    var start := WithOverride(active, id, level, now, ttl);
    var n := |ticks| - 1;
    assert ticks[n] in ticks;
    if n == 0 {
      assert ticks[..0] == [];
    } else {
      assert forall ws :: ws in ticks[..n] ==> ws in ticks;
      InForceExactly(active, id, level, ttl, now, ticks[..n]);
    }
    WritesElsewhere(InForce(start, ticks[..n], now), ticks[n], now + n, id);
  }

  lemma {:induction false} StaysAbsent(active: map<ActuatorId, Override>, id: ActuatorId, now: nat,
                                       ticks: seq<seq<Write>>)
    requires id !in active && forall ws, w :: ws in ticks && w in ws ==> w.id != id
    ensures id !in InForce(active, ticks, now)
  {
    if ticks != [] {
      var n := |ticks| - 1;
      assert ticks[n] in ticks && forall ws :: ws in ticks[..n] ==> ws in ticks;
      StaysAbsent(active, id, now, ticks[..n]);
      WritesElsewhere(InForce(active, ticks[..n], now), ticks[n], now + n, id);
    }
  }

  lemma {:induction false} AllWrittenSplits(active: map<ActuatorId, Override>, first: seq<Write>, more: seq<Write>,
                                            now: nat)
    ensures AllWritten(active, first + more, now) == AllWritten(AllWritten(active, first, now), more, now)
  {
    if more == [] {
      assert first + more == first;
    } else {
      var n := |more| - 1;
      AllWrittenSplits(active, first, more[..n], now);
      assert (first + more)[..|first| + n] == first + more[..n];
    }
  }

  lemma {:induction false} InForceSplits(active: map<ActuatorId, Override>, first: seq<seq<Write>>,
                                         more: seq<seq<Write>>, now: nat)
    ensures InForce(active, first + more, now) == InForce(InForce(active, first, now), more, now + |first|)
  {
    hide AllWritten, Live;
    if more == [] {
      assert first + more == first;
    } else {
      var n := |more| - 1;
      InForceSplits(active, first, more[..n], now);
      assert (first + more)[..|first| + n] == first + more[..n];
    }
  }

  /** The writes of a tick before and up to one of them may be done ahead of it. */
  lemma {:induction false} SetInTick(active: map<ActuatorId, Override>, before: seq<Write>, w: Write, after: seq<Write>,
                                     later: seq<seq<Write>>, now: nat)
    ensures InForce(active, [before + [w] + after] + later, now) ==
            InForce(Written(AllWritten(active, before, now), w, now), [after] + later, now)
  {
    hide AllWritten, Live, Written;
    var ahead := Written(AllWritten(active, before, now), w, now);
    var whole, rest := [before + [w] + after] + later, [after] + later;
    var n := |later|;
    assert whole[..1] == [before + [w] + after] && rest[..1] == [after];
    if n == 0 {
      AllWrittenSplits(active, before + [w], after, now);
      WrittenLast(active, before, w, now);
      assert whole[..0] == [] && rest[..0] == [];
    } else {
      SetInTick(active, before, w, after, later[..n - 1], now);
      assert whole[..n] == [before + [w] + after] + later[..n - 1] && rest[..n] == [after] + later[..n - 1];
    }
  }

  lemma WrittenLast(active: map<ActuatorId, Override>, before: seq<Write>, w: Write, now: nat)
    ensures AllWritten(active, before + [w], now) == Written(AllWritten(active, before, now), w, now)
  {
    assert (before + [w])[..|before|] == before;
  }
}
