/** Vocabulary shared by every module: entities, components and optional values. */
module Domain {

  type U32 = x: int | 0 <= x < 0x1_0000_0000

  type NonZeroU32 = x: int | 1 <= x < 0x1_0000_0000 witness 1

  /** An ECS entity. The generation of a live entity starts at 1. */
  datatype Entity = Entity(index: U32, generation: NonZeroU32)

  /** Identifies a replicated component together with its rule functions. */
  type FnsId = nat

  /** The value of a component, as far as replication can tell two values apart. */
  type Value = nat

  datatype Option<+T> = None | Some(value: T)
}
