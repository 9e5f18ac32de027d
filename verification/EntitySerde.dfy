/** The compressed entity codec (entity_serde.rs). */
module EntitySerde {
  import opened Domain
  import opened Wire

  /** The index with a flag for whether the generation follows. */
  function EntityBytes(e: Entity): Bytes {
    if e.generation > 1 then Varint(2 * e.index + 1) + Varint(e.generation - 1) else Varint(2 * e.index)
  }

  function Pow2(k: nat): (p: nat)
    ensures p >= 1
  {
    if k == 0 then 1 else 2 * Pow2(k - 1)
  }

  /** The bitwise or of numbers of `k` bits. */
  function Or(k: nat, a: nat, b: nat): (r: nat)
    requires a < Pow2(k) && b < Pow2(k)
    ensures a <= r < Pow2(k) && (b == 0 ==> r == a)
  {
    if k == 0 then 0 else 2 * Or(k - 1, a / 2, b / 2) + if a % 2 == 1 || b % 2 == 1 then 1 else 0
  }

  lemma Pow2Is()
    ensures Pow2(32) == 0x1_0000_0000
  {
    assert Pow2(8) == 0x100 && Pow2(16) == 0x100 * Pow2(8) && Pow2(24) == 0x100 * Pow2(16) && Pow2(32) == 0x100 * Pow2(24) by {
      Pow2Next(0);
      Pow2Next(8);
      Pow2Next(16);
      Pow2Next(24);
    }
  }

  lemma Pow2Next(k: nat)
    ensures Pow2(k + 8) == 0x100 * Pow2(k)
  {
    assert Pow2(k + 4) == 2 * Pow2(k + 3) == 4 * Pow2(k + 2) == 8 * Pow2(k + 1) == 16 * Pow2(k);
    assert Pow2(k + 8) == 2 * Pow2(k + 7) == 4 * Pow2(k + 6) == 8 * Pow2(k + 5) == 16 * Pow2(k + 4);
  }

  /** The index is a number of 64 bits: what does not fit the 32 bits of an index ends up in the generation. */
  function Assemble(index: nat, generation: NonZeroU32): (e: Entity)
    requires index < 0x8000_0000_0000_0000
    ensures index < 0x1_0000_0000 ==> e == Entity(index, generation)
  {
    Pow2Is();
    Entity(index % 0x1_0000_0000, Or(32, generation, index / 0x1_0000_0000))
  }

  function ReadEntity(s: Bytes): (p: Parsed<Entity>)
    ensures p.Parsed? ==> |p.rest| < |s| && IsSuffix(p.rest, s)
  {
    match ReadVarint(s)
    case Failure => Failure
    case Parsed(flagged, s') => if flagged >= 0x1_0000_0000_0000_0000 then Failure else ReadGeneration(flagged, s')
  }

  function ReadGeneration(flagged: nat, s: Bytes): (p: Parsed<Entity>)
    requires flagged < 0x1_0000_0000_0000_0000
    ensures p.Parsed? ==> IsSuffix(p.rest, s)
  {
    if flagged % 2 == 0 then Parsed(Assemble(flagged / 2, 1), s)
    else match ReadVarint(s)
      case Failure => Failure
      case Parsed(g, rest) =>
        if g + 1 >= 0x1_0000_0000 then Failure else Parsed(Assemble(flagged / 2, g + 1), rest)
  }

  function EntityCodec(): Codec<Entity> {
    Codec(EntityBytes, ReadEntity)
  }

  /** Every entity survives the trip, and the reader stops exactly where the writer did. */
  lemma EntityRoundTrip(e: Entity, rest: Bytes)
    ensures ReadEntity(EntityBytes(e) + rest) == Parsed(e, rest)
  {
    hide Varint, ReadVarint, ReadGeneration;
    var flagged := if e.generation > 1 then 2 * e.index + 1 else 2 * e.index;
    var generation := if e.generation > 1 then Varint(e.generation - 1) else [];
    assert flagged / 2 == e.index;
    assert EntityBytes(e) == Varint(flagged) + generation;
    Associative(Varint(flagged), generation, rest);
    VarintRoundTrip(flagged, generation + rest);
    GenerationRoundTrip(e, flagged, generation, rest);
  }

  lemma GenerationRoundTrip(e: Entity, flagged: nat, generation: Bytes, rest: Bytes)
    requires flagged == (if e.generation > 1 then 2 * e.index + 1 else 2 * e.index)
    requires generation == (if e.generation > 1 then Varint(e.generation - 1) else [])
    ensures flagged / 2 == e.index && ReadGeneration(flagged, generation + rest) == Parsed(e, rest)
  {
    if e.generation > 1 {
      VarintRoundTrip(e.generation - 1, rest);
    } else {
      assert generation + rest == rest;
    }
  }

  /** The first varint is the index with a flag below it, and a generation follows only where it is not the first one. */
  lemma EntityLayout(e: Entity)
    ensures
      match ReadVarint(EntityBytes(e))
      case Failure => false
      case Parsed(flagged, rest) =>
        && flagged / 2 == e.index && (flagged % 2 == 1 <==> e.generation > 1)
        && |rest| == if e.generation > 1 then RequiredSpace(e.generation - 1) else 0
  {
    hide Varint, ReadVarint;
    var flagged := if e.generation > 1 then 2 * e.index + 1 else 2 * e.index;
    var generation := if e.generation > 1 then Varint(e.generation - 1) else [];
    assert EntityBytes(e) == Varint(flagged) + generation;
    VarintRoundTrip(flagged, generation);
  }

  lemma EntitySelfDelimiting()
    ensures SelfDelimiting(EntityCodec())
  {
    var c := EntityCodec();
    forall e: Entity, rest ensures c.decode(c.encode(e) + rest) == Parsed(e, rest) {
      EntityRoundTrip(e, rest);
    }
  }

  /** No entity's bytes start another's: entities written one after the other, as despawns are, can be told apart. */
  lemma EntitiesToldApart(e: Entity, other: Entity)
    requires EntityBytes(e) <= EntityBytes(other)
    ensures e == other
  {
    EntitySelfDelimiting();
    PrefixFree(EntityCodec(), e, other);
  }

  method SerializeEntity(written: Bytes, e: Entity) returns (written': Bytes)
    ensures written' == written + EntityBytes(e)
  {
    var flaggedIndex := e.index * 2;
    var flag := e.generation > 1;
    flaggedIndex := flaggedIndex + if flag then 1 else 0;
    written' := written + Varint(flaggedIndex);
    if flag {
      written' := written' + Varint(e.generation - 1);
    }
  }

  method DeserializeEntity(cursor: Cursor) returns (r: Option<Entity>)
    modifies cursor
    ensures
      match ReadEntity(old(cursor.Rest()))
      case Failure => r.None?
      case Parsed(e, rest) => r == Some(e) && cursor.Rest() == rest && cursor.position <= |cursor.bytes|
  {
    hide ReadVarint, ReadGeneration;
    var flaggedIndex := cursor.Read(ReadVarint);
    if flaggedIndex == None || flaggedIndex.value >= 0x1_0000_0000_0000_0000 {
      return None;
    }
    r := DeserializeGeneration(cursor, flaggedIndex.value);
  }

  /** The generation, if the index is flagged, and the entity. */
  method DeserializeGeneration(cursor: Cursor, flaggedIndex: nat) returns (r: Option<Entity>)
    requires flaggedIndex < 0x1_0000_0000_0000_0000 && cursor.position <= |cursor.bytes|
    modifies cursor
    ensures
      match ReadGeneration(flaggedIndex, old(cursor.Rest()))
      case Failure => r.None?
      case Parsed(e, rest) => r == Some(e) && cursor.Rest() == rest && cursor.position <= |cursor.bytes|
  {
    hide ReadVarint, Assemble;
    var generation := 1;
    if flaggedIndex % 2 != 0 {
      var g := cursor.Read(ReadVarint);
      if g == None || g.value + 1 >= 0x1_0000_0000 {
        return None;
      }
      generation := g.value + 1;
    }
    r := Some(Assemble(flaggedIndex / 2, generation));
  }
}
