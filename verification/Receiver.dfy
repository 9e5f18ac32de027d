/** What the client does with parsed messages (client.rs). */
module Receiver {
  import opened Domain
  import opened Changes
  import opened Messages

  /** A replicated client entity: the last tick of its confirm history and its components. */
  datatype ClientEntity = ClientEntity(confirmed: nat, comps: Comps)

  /** Client entities, under the server entities they are mapped to. */
  type Replica = map<Entity, ClientEntity>

  datatype Client = Client(entities: Replica, updateTick: nat, buffered: seq<MutateMsg>)

  function BaseComps(r: Replica, u: UpdateMsg, e: Entity): Comps {
    if e in r && e !in u.despawns then r[e].comps else map[]
  }

  /** Despawns, then removals, then changes; entities that are not mapped yet are spawned. */
  function ApplyUpdate(r: Replica, u: UpdateMsg): Replica {
    map e | e in r.Keys + u.removals.Keys + u.changes.Keys && (u.Touches(e) || e !in u.despawns) ::
      if u.Touches(e)
      then ClientEntity(u.tick, (BaseComps(r, u, e) - u.Removed(e)) + u.Changed(e))
      else r[e]
  }

  function ReceiveUpdate(c: Client, u: UpdateMsg): Client {
    c.(entities := ApplyUpdate(c.entities, u), updateTick := u.tick)
  }

  /** Entities that are not mapped or already confirmed for this tick or a later one are skipped. */
  function ApplyMutations(r: Replica, m: MutateMsg): Replica {
    map e | e in r ::
      if e in m.mutations && m.tick > r[e].confirmed
      then ClientEntity(m.tick, r[e].comps + m.mutations[e])
      else r[e]
  }

  /** The number of buffered messages that are newer than `m`: where `m` is inserted. */
  function PartitionPoint(buffered: seq<MutateMsg>, m: MutateMsg): (i: nat)
    ensures i <= |buffered|
    ensures forall j :: 0 <= j < i ==> m.tick < buffered[j].tick
    ensures i < |buffered| ==> m.tick >= buffered[i].tick
  {
    if buffered == [] || m.tick >= buffered[0].tick then 0
    else 1 + PartitionPoint(buffered[1..], m)
  }

  function Insert(buffered: seq<MutateMsg>, m: MutateMsg): seq<MutateMsg> {
    var i := PartitionPoint(buffered, m);
    buffered[..i] + [m] + buffered[i..]
  }

  function Buffer(c: Client, m: MutateMsg): Client {
    c.(buffered := Insert(c.buffered, m))
  }

  /** Applies the buffered message at `j` and takes it out of the buffer. */
  function ApplyAt(c: Client, j: nat): Client
    requires j < |c.buffered|
  {
    c.(entities := ApplyMutations(c.entities, c.buffered[j]), buffered := c.buffered[..j] + c.buffered[j + 1..])
  }

  ghost predicate Descending(buffered: seq<MutateMsg>) {
    forall i, j :: 0 <= i < j < |buffered| ==> buffered[i].tick >= buffered[j].tick
  }

  lemma InsertKeepsDescending(buffered: seq<MutateMsg>, m: MutateMsg)
    requires Descending(buffered)
    ensures Descending(Insert(buffered, m))
    ensures multiset(Insert(buffered, m)) == multiset(buffered) + multiset{m}
  {
    var i := PartitionPoint(buffered, m);
    assert buffered == buffered[..i] + buffered[i..];
  }
}
