/** The server's per-client bookkeeping, mutated in place (replicated_clients.rs). */
module ReplicatedClients {
  import opened Domain
  import opened Visibility
  import opened Tracker

  class ReplicatedClient {
    var mutationTicks: map<Entity, nat>
    const visibility: ClientVisibility
    var updateTick: nat
    var mutations: map<nat, MutateInfo>
    var nextMutateIndex: nat

    constructor (policy: Policy)
      ensures State() == Fresh(policy) && fresh(visibility)
    {
      mutationTicks, updateTick, mutations, nextMutateIndex := map[], 0, map[], 0;
      visibility := new ClientVisibility(policy);
    }

    function State(): Tracked
      reads this, visibility
    {
      Tracked(mutationTicks, visibility.filter, updateTick, mutations, nextMutateIndex)
    }

    method SetUpdateTick(tick: nat)
      modifies this`updateTick
      ensures State() == old(State()).(updateTick := tick)
    {
      updateTick := tick;
    }

    /** Registers a message without entities and returns its index. */
    method RegisterMutateMessage(tick: nat, timestamp: nat) returns (index: nat)
      modifies this`mutations, this`nextMutateIndex
      ensures index == old(nextMutateIndex)
      ensures State() == Registered(old(State()), MutateInfo(tick, timestamp, []))
    {
      index := nextMutateIndex;
      nextMutateIndex := (nextMutateIndex + 1) % 0x1_0000;
      mutations := mutations[index := MutateInfo(tick, timestamp, [])];
    }

    /** Adds an entity to a registered message. */
    method PushEntity(index: nat, e: Entity)
      requires index in mutations
      modifies this`mutations
      ensures
        var info := old(mutations)[index];
        State() == old(State()).(mutations := old(mutations)[index := info.(entities := info.entities + [e])])
    {
      mutations := mutations[index := mutations[index].(entities := mutations[index].entities + [e])];
    }

    method SetMutationTick(e: Entity, tick: nat)
      modifies this`mutationTicks
      ensures State() == old(State()).(baseline := old(mutationTicks)[e := tick])
    {
      mutationTicks := mutationTicks[e := tick];
    }

    method MutationTick(e: Entity) returns (tick: Option<nat>)
      ensures tick == if e in State().baseline then Some(State().baseline[e]) else None
    {
      tick := if e in mutationTicks then Some(mutationTicks[e]) else None;
    }

    /** An unknown index changes nothing; entities that are not tracked any more are left alone. */
    method AckMutateMessage(index: nat)
      modifies this`mutationTicks, this`mutations
      ensures State() == Acked(old(State()), index)
    {
      if index !in mutations {
        return;
      }
      var info := mutations[index];
      mutations := mutations - {index};
      var i := 0;
      AckedNone(mutationTicks, info);
      while i < |info.entities|
        invariant 0 <= i <= |info.entities|
        invariant mutationTicks == AckedBaseline(old(mutationTicks), info.(entities := info.entities[..i]))
        invariant mutations == old(mutations) - {index}
      {
        var e := info.entities[i];
        if e in mutationTicks {
          var lastTick := mutationTicks[e];
          if !(lastTick > info.tick) {
            mutationTicks := mutationTicks[e := info.tick];
          }
        }
        AckedOneMore(old(mutationTicks), info, info.entities[..i], e);
        assert info.entities[..i + 1] == info.entities[..i] + [e];
        i := i + 1;
      }
      assert info.(entities := info.entities[..i]) == info;
    }

    method RemoveDespawned(e: Entity)
      modifies this`mutationTicks, visibility
      ensures State() == WithoutEntity(old(State()), e)
    {
      mutationTicks := mutationTicks - {e};
      visibility.RemoveDespawned(e);
    }

    /** The entities whose visibility was lost are not tracked any more. */
    method DrainLostVisibility() returns (lost: set<Entity>)
      modifies this`mutationTicks, visibility
      ensures lost == Lost(old(visibility.filter)) && State() == WithoutLost(old(State()))
    {
      lost := visibility.DrainLost();
      var rest := lost;
      while rest != {}
        invariant rest <= lost && mutationTicks == old(mutationTicks) - (lost - rest)
        invariant visibility.filter == Drained(old(visibility.filter))
        decreases rest
      {
        var e :| e in rest;
        assert lost - (rest - {e}) == lost - rest + {e};
        mutationTicks, rest := mutationTicks - {e}, rest - {e};
      }
      assert lost - {} == lost;
    }

    method CleanupOlderMutations(minTimestamp: nat)
      modifies this`mutations
      ensures State() == CleanedUp(old(State()), minTimestamp)
      ensures State() == old(State()).(mutations := mutations)
      ensures forall i :: i in mutations <==> i in old(mutations) && old(mutations)[i].timestamp >= minTimestamp
      ensures forall i <- mutations :: mutations[i] == old(mutations)[i]
    {
      var rest := mutations.Keys;
      while rest != {}
        invariant rest <= old(mutations).Keys && mutations.Keys <= old(mutations).Keys
        invariant forall i <- mutations :: mutations[i] == old(mutations)[i]
        invariant forall i <- old(mutations) ::
          i in mutations <==> i in rest || old(mutations)[i].timestamp >= minTimestamp
        decreases rest
      {
        var i :| i in rest;
        if mutations[i].timestamp < minTimestamp {
          mutations := mutations - {i};
        }
        rest := rest - {i};
      }
    }
  }

  lemma AckedNone(baseline: map<Entity, nat>, info: MutateInfo)
    ensures AckedBaseline(baseline, info.(entities := info.entities[..0])) == baseline
  {
  }

  /** Acknowledging entity by entity is the same as acknowledging all of them. */
  lemma AckedOneMore(baseline: map<Entity, nat>, info: MutateInfo, es: seq<Entity>, e: Entity)
    ensures
      var before := AckedBaseline(baseline, info.(entities := es));
      AckedBaseline(baseline, info.(entities := es + [e])) ==
        if e in before && before[e] <= info.tick then before[e := info.tick] else before
  {
    var before := AckedBaseline(baseline, info.(entities := es));
    var all := AckedBaseline(baseline, info.(entities := es + [e]));
    assert forall x <- baseline :: x in es + [e] <==> x in es || x == e;
    assert all.Keys == before.Keys == baseline.Keys;
  }
}
