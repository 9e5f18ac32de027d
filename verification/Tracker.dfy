/** What the server remembers about one replicating client (replicated_clients.rs). */
module Tracker {
  import opened Domain
  import opened Visibility

  datatype MutateInfo = MutateInfo(tick: nat, timestamp: nat, entities: seq<Entity>)

  /** `baseline` is the source's `mutation_ticks`. */
  datatype Tracked = Tracked(
    baseline: map<Entity, nat>,
    filter: Filter,
    updateTick: nat,
    mutations: map<nat, MutateInfo>,
    nextIndex: nat)

  const INDEX_SPACE: nat := 0x1_0000

  /** The index of the `k`-th message from now on: indices wrap around. */
  function IndexAt(next: nat, k: nat): (i: nat)
    ensures i < INDEX_SPACE
  {
    (next + k) % 0x1_0000
  }

  function Fresh(policy: Policy): Tracked {
    Tracked(map[], NewFilter(policy), 0, map[], 0)
  }

  function Registered(t: Tracked, info: MutateInfo): Tracked {
    t.(mutations := t.mutations[t.nextIndex := info], nextIndex := IndexAt(t.nextIndex, 1))
  }

  function AckedBaseline(baseline: map<Entity, nat>, info: MutateInfo): map<Entity, nat> {
    map e | e in baseline ::
      if e in info.entities && baseline[e] <= info.tick then info.tick else baseline[e]
  }

  function Acked(t: Tracked, index: nat): Tracked {
    if index in t.mutations
    then t.(baseline := AckedBaseline(t.baseline, t.mutations[index]), mutations := t.mutations - {index})
    else t
  }

  function CleanedUp(t: Tracked, minTimestamp: nat): Tracked {
    t.(mutations := map i | i in t.mutations && t.mutations[i].timestamp >= minTimestamp :: t.mutations[i])
  }

  function WithoutEntity(t: Tracked, e: Entity): Tracked {
    t.(baseline := t.baseline - {e}, filter := WithoutDespawned(t.filter, e))
  }

  function WithoutLost(t: Tracked): Tracked {
    t.(baseline := t.baseline - Lost(t.filter), filter := Drained(t.filter))
  }

  /** Registers one message per group of entities. */
  function RegisteredAll(t: Tracked, tick: nat, timestamp: nat, groups: seq<seq<Entity>>): Tracked {
    if groups == [] then t
    else Registered(RegisteredAll(t, tick, timestamp, groups[..|groups| - 1]),
                    MutateInfo(tick, timestamp, groups[|groups| - 1]))
  }

  /** How many messages come before the one that takes `index`. */
  function Distance(next: nat, index: nat): nat {
    (index - next) % 0x1_0000
  }

  lemma NextAfter(next: nat, k: nat)
    ensures IndexAt(IndexAt(next, k), 1) == IndexAt(next, k + 1)
  {
  }

  /** The indices are consecutive modulo 2^16. */
  lemma {:induction false} IndicesAreConsecutive(t: Tracked, tick: nat, timestamp: nat, groups: seq<seq<Entity>>)
    requires t.nextIndex < INDEX_SPACE
    ensures
      var t' := RegisteredAll(t, tick, timestamp, groups);
      && t'.nextIndex == IndexAt(t.nextIndex, |groups|)
      && t'.baseline == t.baseline && t'.filter == t.filter && t'.updateTick == t.updateTick
  {
    if groups != [] {
      IndicesAreConsecutive(t, tick, timestamp, groups[..|groups| - 1]);
      NextAfter(t.nextIndex, |groups| - 1);
    }
  }

  /**
   Registering messages keeps an unresolved one if and only if there are not more of them than there are indices
   before its own: indices are reused after 2^16 messages, and the older entry is overwritten then.
   */
  lemma {:induction false} OverwrittenIff(t: Tracked, tick: nat, timestamp: nat, groups: seq<seq<Entity>>, index: nat)
    requires t.nextIndex < INDEX_SPACE && index in t.mutations && index < INDEX_SPACE
    requires forall g <- groups :: MutateInfo(tick, timestamp, g) != t.mutations[index]
    ensures
      var t' := RegisteredAll(t, tick, timestamp, groups);
      && index in t'.mutations
      && (t'.mutations[index] == t.mutations[index] <==> |groups| <= Distance(t.nextIndex, index))
  {
    if groups != [] {
      var init := groups[..|groups| - 1];
      assert forall g <- init :: g in groups;
      OverwrittenIff(t, tick, timestamp, init, index);
      IndicesAreConsecutive(t, tick, timestamp, init);
      assert groups[|groups| - 1] in groups;
      if |init| <= Distance(t.nextIndex, index) {
        NextIndexIs(t.nextIndex, |init|, index);
      }
    }
  }

  lemma NextIndexIs(next: nat, n: nat, index: nat)
    requires next < INDEX_SPACE && index < INDEX_SPACE && n <= Distance(next, index)
    ensures IndexAt(next, n) == index <==> n == Distance(next, index)
  {
  }
}
