/** The wire format of mutate messages (mutate_message.rs, the parser in client.rs). */
module MutateWire {
  import opened Domain
  import opened Wire
  import opened EntitySerde
  import opened UpdateWire

  /** The number of bytes of the components is written, not how many components there are. */
  function MutationBytes(i: Item): Bytes {
    i.entity + Varint(|i.data|) + i.data
  }

  function AllMutations(items: seq<Item>): Bytes {
    if items == [] then [] else MutationBytes(items[0]) + AllMutations(items[1..])
  }

  /** The number of messages of the tick is only written when the client tracks mutate messages. */
  datatype Header = Header(updateTick: U32, tick: U32, count: nat, index: nat)

  function HeaderBytes(updateTick: Bytes, tick: Bytes, tracked: bool, count: nat, index: nat): Bytes {
    updateTick + (tick + ((if tracked then Varint(count) else []) + Varint(index)))
  }

  function EncodeMutate(updateTick: Bytes, tick: Bytes, tracked: bool, count: nat, index: nat, items: seq<Item>): Bytes {
    HeaderBytes(updateTick, tick, tracked, count, index) + AllMutations(items)
  }

  function ReadCount(tracked: bool, s: Bytes): Parsed<nat> {
    if tracked then ReadVarint(s) else Parsed(1, s)
  }

  /** What is read before the message is buffered. */
  function ReadHeader(tracked: bool, s: Bytes): Parsed<Header> {
    match ReadTick(s)
    case Failure => Failure
    case Parsed(updateTick, s1) =>
      match ReadTick(s1)
      case Failure => Failure
      case Parsed(tick, s2) =>
        match ReadCount(tracked, s2)
        case Failure => Failure
        case Parsed(count, s3) =>
          match ReadVarint(s3)
          case Failure => Failure
          case Parsed(index, rest) => Parsed(Header(updateTick, tick, count, index), rest)
  }

  lemma HeaderRoundTrip(h: Header, tracked: bool, rest: Bytes)
    ensures
      var s := HeaderBytes(TickBytes(h.updateTick), TickBytes(h.tick), tracked, h.count, h.index) + rest;
      ReadHeader(tracked, s) == Parsed(if tracked then h else h.(count := 1), rest)
  {
    hide TickBytes, ReadTick, Varint, ReadVarint;
    var u, t := TickBytes(h.updateTick), TickBytes(h.tick);
    var c, i := if tracked then Varint(h.count) else [], Varint(h.index);
    Associative(u, t + (c + i), rest);
    Associative(t, c + i, rest);
    Associative(c, i, rest);
    TickRoundTrip(h.updateTick, t + (c + (i + rest)));
    TickRoundTrip(h.tick, c + (i + rest));
    assert ReadCount(tracked, c + (i + rest)) == Parsed(if tracked then h.count else 1, i + rest) by {
      VarintRoundTrip(h.count, i + rest);
      assert [] + (i + rest) == i + rest;
    }
    VarintRoundTrip(h.index, rest);
  }

  // ---------------------------------------------------------------------------------------------
  // The body.

  /** Moving the cursor by `n`, possibly past the end. */
  function Jump(s: Bytes, n: nat): Bytes {
    if n <= |s| then s[n..] else []
  }

  /** Reads elements while more than `left` bytes remain. */
  function ReadUntil<T(!new)>(decode: Bytes -> Parsed<T>, s: Bytes, left: nat): (p: Parsed<seq<T>>)
    requires Advances(decode)
    ensures p.Parsed? ==> IsSuffix(p.rest, s)
    decreases |s|
  {
    if |s| <= left then Parsed([], s)
    else match decode(s)
      case Failure => Failure
      case Parsed(x, s') =>
        match ReadUntil(decode, s', left)
        case Failure => Failure
        case Parsed(xs, rest) => SuffixTransitive(rest, s', s); Parsed([x] + xs, rest)
  }

  /** An entity of the body. The client may jump over its components. */
  datatype Mutation = Mutation(entity: Entity, components: Option<seq<Component>>)

  ghost function ReadComponents(cs: Codecs, skip: bool, size: nat, s: Bytes): (p: Parsed<Option<seq<Component>>>)
    requires Suitable(cs)
    ensures p.Parsed? ==> IsSuffix(p.rest, s)
  {
    if skip then Parsed(None, Jump(s, size))
    else if size > |s| then Failure
    else match ReadUntil(cs.component.decode, s, |s| - size)
      case Failure => Failure
      case Parsed(xs, rest) => Parsed(Some(xs), rest)
  }

  ghost function ReadMutation(cs: Codecs, skip: bool, s: Bytes): (p: Parsed<Mutation>)
    requires Suitable(cs)
    ensures p.Parsed? ==> |p.rest| < |s|
  {
    match ReadEntity(s)
    case Failure => Failure
    case Parsed(e, s1) =>
      match ReadVarint(s1)
      case Failure => Failure
      case Parsed(size, s2) =>
        match ReadComponents(cs, skip, size, s2)
        case Failure => Failure
        case Parsed(components, rest) => Parsed(Mutation(e, components), rest)
  }

  /** The whole body, where the client skips the elements from `i` on for which `skip` says so. */
  ghost function ReadBody(cs: Codecs, skip: nat -> bool, i: nat, s: Bytes): Parsed<seq<Mutation>>
    requires Suitable(cs)
    decreases |s|
  {
    if s == [] then Parsed([], [])
    else match ReadMutation(cs, skip(i), s)
      case Failure => Failure
      case Parsed(x, s') =>
        match ReadBody(cs, skip, i + 1, s')
        case Failure => Failure
        case Parsed(xs, rest) => Parsed([x] + xs, rest)
  }

  // ---------------------------------------------------------------------------------------------
  // The round trip.

  lemma {:induction false} UntilRoundTrip<T(!new)>(c: Codec<T>, xs: seq<T>, rest: Bytes)
    requires SelfDelimiting(c)
    ensures ReadUntil(c.decode, WriteAll(c, xs) + rest, |rest|) == Parsed(xs, rest)
  {
    if xs == [] {
      assert WriteAll(c, xs) + rest == rest;
    } else {
      var tail := WriteAll(c, xs[1..]) + rest;
      Associative(c.encode(xs[0]), WriteAll(c, xs[1..]), rest);
      assert c.decode(c.encode(xs[0]) + tail) == Parsed(xs[0], tail);
      EncodesSomething(c, xs[0]);
      UntilRoundTrip(c, xs[1..], rest);
      assert [xs[0]] + xs[1..] == xs;
    }
  }

  lemma ComponentsRoundTrip(cs: Codecs, skip: bool, xs: seq<Component>, rest: Bytes)
    requires Suitable(cs)
    ensures
      var data := WriteAll(cs.component, xs);
      ReadComponents(cs, skip, |data|, data + rest) == Parsed(if skip then None else Some(xs), rest)
  {
    UntilRoundTrip(cs.component, xs, rest);
  }

  function MutationOf(x: (Entity, seq<Component>), skip: bool): Mutation {
    Mutation(x.0, if skip then None else Some(x.1))
  }

  /** Whether its components are jumped over or decoded, the cursor ends up behind the entity's last byte. */
  lemma MutationRoundTrip(cs: Codecs, skip: bool, x: (Entity, seq<Component>), rest: Bytes)
    requires Suitable(cs)
    ensures
      var i := Item(EntityBytes(x.0), |x.1|, WriteAll(cs.component, x.1));
      ReadMutation(cs, skip, MutationBytes(i) + rest) == Parsed(MutationOf(x, skip), rest)
  {
    var e, data := EntityBytes(x.0), WriteAll(cs.component, x.1);
    Associative(e, Varint(|data|), data);
    Associative(e, Varint(|data|) + data, rest);
    Associative(Varint(|data|), data, rest);
    EntityRoundTrip(x.0, Varint(|data|) + (data + rest));
    VarintRoundTrip(|data|, data + rest);
    ComponentsRoundTrip(cs, skip, x.1, rest);
  }

  function Mutations(xs: seq<(Entity, seq<Component>)>, skip: nat -> bool, i: nat): seq<Mutation> {
    if xs == [] then [] else [MutationOf(xs[0], skip(i))] + Mutations(xs[1..], skip, i + 1)
  }

  lemma BodyStep(cs: Codecs, skip: nat -> bool, i: nat, s: Bytes, x: Mutation, s': Bytes, xs: seq<Mutation>)
    requires Suitable(cs) && ReadMutation(cs, skip(i), s) == Parsed(x, s')
    requires ReadBody(cs, skip, i + 1, s') == Parsed(xs, [])
    ensures ReadBody(cs, skip, i, s) == Parsed([x] + xs, [])
  {
  }

  /** For every choice of the entities to skip, all other entities decode to what was written. */
  lemma {:induction false} BodyRoundTrip(cs: Codecs, skip: nat -> bool, i: nat, xs: seq<(Entity, seq<Component>)>)
    requires Suitable(cs)
    ensures ReadBody(cs, skip, i, AllMutations(Items(cs.component, xs))) == Parsed(Mutations(xs, skip, i), [])
    decreases |xs|
  {
    if xs != [] {
      BodyRoundTrip(cs, skip, i + 1, xs[1..]);
      var items := Items(cs.component, xs);
      var tail := AllMutations(Items(cs.component, xs[1..]));
      assert items[1..] == Items(cs.component, xs[1..]);
      var s := MutationBytes(items[0]) + tail;
      assert AllMutations(items) == s;
      MutationRoundTrip(cs, skip(i), xs[0], tail);
      BodyStep(cs, skip, i, s, MutationOf(xs[0], skip(i)), tail, Mutations(xs[1..], skip, i + 1));
    }
  }

  /** A message is read back, header and body, whatever is skipped. */
  lemma MutateRoundTrip(cs: Codecs, skip: nat -> bool, h: Header, tracked: bool, xs: seq<(Entity, seq<Component>)>)
    requires Suitable(cs)
    ensures
      var s := EncodeMutate(TickBytes(h.updateTick), TickBytes(h.tick), tracked, h.count, h.index, Items(cs.component, xs));
      var p := ReadHeader(tracked, s);
      && p.Parsed? && p.value == (if tracked then h else h.(count := 1))
      && p.rest == AllMutations(Items(cs.component, xs))
      && ReadBody(cs, skip, 0, p.rest) == Parsed(Mutations(xs, skip, 0), [])
  {
    HeaderRoundTrip(h, tracked, AllMutations(Items(cs.component, xs)));
    BodyRoundTrip(cs, skip, 0, xs);
  }
}
