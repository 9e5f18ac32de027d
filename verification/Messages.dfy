/** The two kinds of replication messages, as data. */
module Messages {
  import opened Domain
  import opened Changes

  /** Sent reliably and in order. */
  datatype UpdateMsg = UpdateMsg(
    tick: nat,
    despawns: set<Entity>,
    removals: map<Entity, set<FnsId>>,
    changes: map<Entity, Comps>)
  {
    predicate IsEmpty() {
      despawns == {} && removals == map[] && changes == map[]
    }

    /** The client has `e` after this message because the message says something about it. */
    predicate Touches(e: Entity) {
      e in removals || e in changes
    }

    function Removed(e: Entity): set<FnsId> {
      if e in removals then removals[e] else {}
    }

    function Changed(e: Entity): Comps {
      if e in changes then changes[e] else map[]
    }
  }

  /** May be lost, duplicated and reordered. */
  datatype MutateMsg = MutateMsg(updateTick: nat, tick: nat, index: nat, mutations: map<Entity, Comps>)
}
