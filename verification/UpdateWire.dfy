/** The wire format of update messages (update_message.rs, update_message_flags.rs, the parser in client.rs). */
module UpdateWire {
  import opened Domain
  import opened Wire
  import opened EntitySerde

  /** A component as it is written: its function id and its value. */
  type Component = (FnsId, Value)

  /** How function ids and components are written. What the rule functions do with a value is not modelled. */
  datatype Codecs = Codecs(id: Codec<FnsId>, component: Codec<Component>)

  ghost predicate Suitable(cs: Codecs) {
    SelfDelimiting(cs.id) && SelfDelimiting(cs.component)
  }

  /** The parsed message. */
  datatype Update = Update(
    tick: U32,
    mappings: seq<(Entity, Entity)>,
    despawns: seq<Entity>,
    removals: seq<(Entity, seq<FnsId>)>,
    changes: seq<(Entity, seq<Component>)>)

  // ---------------------------------------------------------------------------------------------
  // Flags.

  const MAPPINGS: Byte := 1
  const DESPAWNS: Byte := 2
  const REMOVALS: Byte := 4
  const CHANGES: Byte := 8

  predicate Has(flags: Byte, flag: Byte)
    requires flag > 0
  {
    flags / flag % 2 == 1
  }

  /** The highest set bit, found by shifting. */
  function Last(flags: Byte): (flag: Byte)
    requires flags > 0
    ensures 0 < flag <= flags < 2 * flag
  {
    if flags < 2 then 1 else 2 * Last(flags / 2)
  }

  function FlagsFor(mappings: bool, despawns: bool, removals: bool, changes: bool): Byte {
    (if mappings then MAPPINGS else 0) + (if despawns then DESPAWNS else 0)
    + (if removals then REMOVALS else 0) + (if changes then CHANGES else 0)
  }

  /** The last flag is set and no section after it is present. Sender and receiver agree on it. */
  lemma LastFlag(m: bool, d: bool, r: bool, c: bool)
    ensures
      var flags := FlagsFor(m, d, r, c);
      && (Has(flags, MAPPINGS) <==> m) && (Has(flags, DESPAWNS) <==> d)
      && (Has(flags, REMOVALS) <==> r) && (Has(flags, CHANGES) <==> c)
      && (flags > 0 ==> Last(flags) == (if c then CHANGES else if r then REMOVALS else if d then DESPAWNS else MAPPINGS))
  {
    var flags := FlagsFor(m, d, r, c);
    if flags > 0 {
      var last := Last(flags);
      assert last in {1, 2, 4, 8} by {
        LastIsPower(flags);
      }
    }
  }

  lemma {:induction false} LastIsPower(flags: Byte)
    requires 0 < flags < 16
    ensures Last(flags) in {1, 2, 4, 8}
  {
    if flags >= 2 {
      assert Last(flags) == 2 * Last(flags / 2);
      if flags >= 4 {
        LastIsPower(flags / 2);
      }
    }
  }

  // ---------------------------------------------------------------------------------------------
  // Writing. The pieces are bytes already: they come out of the shared buffer.

  /** An entity with the number and the bytes of its components or removed components. */
  datatype Item = Item(entity: Bytes, len: nat, data: Bytes)

  function ItemBytes(i: Item): Bytes {
    i.entity + Varint(i.len) + i.data
  }

  function AllItems(items: seq<Item>): Bytes {
    if items == [] then [] else ItemBytes(items[0]) + AllItems(items[1..])
  }

  datatype Content = Content(
    mappings: Bytes, mappingsLen: nat,
    despawns: Bytes, despawnsLen: nat,
    removals: seq<Item>,
    changes: seq<Item>)
  {
    predicate IsEmpty() {
      mappings == [] && despawnsLen == 0 && removals == [] && changes == []
    }

    function Flags(): Byte {
      FlagsFor(mappings != [], despawnsLen > 0, removals != [], changes != [])
    }
  }

  /** A section is absent, written with its length, or, if it is the last one, written without it. */
  function Section(flags: Byte, flag: Byte, len: nat, body: Bytes): Bytes
    requires flags > 0 && flag > 0
  {
    if !Has(flags, flag) then []
    else if flag != Last(flags) then Varint(len) + body
    else body
  }

  function Sections(c: Content): Bytes
    requires !c.IsEmpty()
  {
    var flags := c.Flags();
    Section(flags, MAPPINGS, c.mappingsLen, c.mappings)
    + (Section(flags, DESPAWNS, c.despawnsLen, c.despawns)
       + (Section(flags, REMOVALS, |c.removals|, AllItems(c.removals))
          + Section(flags, CHANGES, |c.changes|, AllItems(c.changes))))
  }

  /** A message with nothing but mappings is not sent. */
  function EncodeContent(c: Content, tick: Bytes): Option<Bytes>
    requires !c.IsEmpty()
  {
    if Last(c.Flags()) == MAPPINGS then None else Some([c.Flags()] + tick + Sections(c))
  }

  function MappingCodec(): Codec<(Entity, Entity)> {
    Both(EntityCodec(), EntityCodec())
  }

  ghost function RemovalCodec(cs: Codecs): Codec<(Entity, seq<FnsId>)>
    requires Suitable(cs)
  {
    Both(EntityCodec(), Sized(cs.id))
  }

  ghost function ChangeCodec(cs: Codecs): Codec<(Entity, seq<Component>)>
    requires Suitable(cs)
  {
    Both(EntityCodec(), Sized(cs.component))
  }

  function Items<T>(c: Codec<T>, xs: seq<(Entity, seq<T>)>): (items: seq<Item>)
    ensures |items| == |xs|
    ensures forall i :: 0 <= i < |xs| ==> items[i] == Item(EntityBytes(xs[i].0), |xs[i].1|, WriteAll(c, xs[i].1))
  {
    if xs == [] then []
    else [Item(EntityBytes(xs[0].0), |xs[0].1|, WriteAll(c, xs[0].1))] + Items(c, xs[1..])
  }

  /** The pieces of a message that is serialized on its own. */
  function ContentOf(cs: Codecs, u: Update): Content {
    Content(WriteAll(MappingCodec(), u.mappings), |u.mappings|,
            WriteAll(EntityCodec(), u.despawns), |u.despawns|,
            Items(cs.id, u.removals), Items(cs.component, u.changes))
  }

  // ---------------------------------------------------------------------------------------------
  // Reading.

  function ReadSection<T(!new)>(decode: Bytes -> Parsed<T>, flags: Byte, flag: Byte, s: Bytes): (p: Parsed<seq<T>>)
    requires Advances(decode) && flags > 0 && flag > 0
  {
    if !Has(flags, flag) then Parsed([], s)
    else if flag != Last(flags) then ReadSized(decode, s)
    else ReadAll(decode, s)
  }

  ghost function DecodeUpdate(cs: Codecs, s: Bytes): Parsed<Update>
    requires Suitable(cs)
  {
    Advancing(cs);
    if s == [] || s[0] == 0 then Failure else
      match ReadTick(s[1..])
      case Failure => Failure
      case Parsed(tick, s1) =>
        match ReadSection(MappingCodec().decode, s[0], MAPPINGS, s1)
        case Failure => Failure
        case Parsed(mappings, s2) =>
          match ReadSection(EntityCodec().decode, s[0], DESPAWNS, s2)
          case Failure => Failure
          case Parsed(despawns, s3) =>
            match ReadSection(RemovalCodec(cs).decode, s[0], REMOVALS, s3)
            case Failure => Failure
            case Parsed(removals, s4) =>
              match ReadSection(ChangeCodec(cs).decode, s[0], CHANGES, s4)
              case Failure => Failure
              case Parsed(changes, rest) => Parsed(Update(tick, mappings, despawns, removals, changes), rest)
  }

  lemma Advancing(cs: Codecs)
    requires Suitable(cs)
    ensures SelfDelimiting(MappingCodec()) && SelfDelimiting(EntityCodec())
    ensures SelfDelimiting(RemovalCodec(cs)) && SelfDelimiting(ChangeCodec(cs))
  {
    EntitySelfDelimiting();
    BothSelfDelimiting(EntityCodec(), EntityCodec());
    SizedSelfDelimiting(cs.id);
    SizedSelfDelimiting(cs.component);
    BothSelfDelimiting(EntityCodec(), Sized(cs.id));
    BothSelfDelimiting(EntityCodec(), Sized(cs.component));
  }

  // ---------------------------------------------------------------------------------------------
  // The round trip.

  /** One section is read back, whatever follows it; nothing follows the last one. */
  lemma SectionRoundTrip<T(!new)>(c: Codec<T>, xs: seq<T>, flags: Byte, flag: Byte, rest: Bytes)
    requires SelfDelimiting(c) && flags > 0 && flag > 0
    requires Has(flags, flag) <==> xs != []
    requires flag == Last(flags) ==> rest == []
    ensures ReadSection(c.decode, flags, flag, Section(flags, flag, |xs|, WriteAll(c, xs)) + rest) == Parsed(xs, rest)
  {
    var body := WriteAll(c, xs);
    var s := Section(flags, flag, |xs|, body) + rest;
    if !Has(flags, flag) {
      assert s == rest;
    } else if flag != Last(flags) {
      Associative(Varint(|xs|), body, rest);
      VarintRoundTrip(|xs|, body + rest);
      ManyRoundTrip(c, xs, rest);
    } else {
      assert s == body;
      AllRoundTrip(c, xs);
    }
  }

  lemma ItemIsSized<T(!new)>(c: Codec<T>, x: (Entity, seq<T>))
    requires SelfDelimiting(c)
    ensures ItemBytes(Item(EntityBytes(x.0), |x.1|, WriteAll(c, x.1))) == Both(EntityCodec(), Sized(c)).encode(x)
  {
  }

  lemma {:induction false} ItemsAreSized<T(!new)>(c: Codec<T>, xs: seq<(Entity, seq<T>)>)
    requires SelfDelimiting(c)
    ensures AllItems(Items(c, xs)) == WriteAll(Both(EntityCodec(), Sized(c)), xs)
  {
    if xs != [] {
      ItemsAreSized(c, xs[1..]);
      ItemIsSized(c, xs[0]);
      assert Items(c, xs)[1..] == Items(c, xs[1..]);
    }
  }

  lemma ContentIsEmptyIff(cs: Codecs, u: Update)
    ensures ContentOf(cs, u).IsEmpty() <==> u.mappings == [] && u.despawns == [] && u.removals == [] && u.changes == []
    ensures ContentOf(cs, u).mappings != [] <==> u.mappings != []
  {
    EntitySelfDelimiting();
    BothSelfDelimiting(EntityCodec(), EntityCodec());
    AllRoundTrip(MappingCodec(), u.mappings);
  }

  /** What is left to read before each section of a message. */
  ghost function Tail(cs: Codecs, u: Update, flags: Byte, flag: Byte): Bytes
    requires Suitable(cs) && flags > 0 && flag in {1, 2, 4, 8, 16}
    decreases 16 - flag
  {
    if flag == MAPPINGS then
      Section(flags, flag, |u.mappings|, WriteAll(MappingCodec(), u.mappings)) + Tail(cs, u, flags, DESPAWNS)
    else if flag == DESPAWNS then
      Section(flags, flag, |u.despawns|, WriteAll(EntityCodec(), u.despawns)) + Tail(cs, u, flags, REMOVALS)
    else if flag == REMOVALS then
      Section(flags, flag, |u.removals|, WriteAll(RemovalCodec(cs), u.removals)) + Tail(cs, u, flags, CHANGES)
    else if flag == CHANGES then
      Section(flags, flag, |u.changes|, WriteAll(ChangeCodec(cs), u.changes)) + Tail(cs, u, flags, 16)
    else []
  }

  ghost function FlagsOf(u: Update): Byte {
    FlagsFor(u.mappings != [], u.despawns != [], u.removals != [], u.changes != [])
  }

  /** Every section is read back in its place. */
  lemma SectionsRoundTrip(cs: Codecs, u: Update, flags: Byte)
    requires Suitable(cs) && flags == FlagsOf(u) && flags > 0
    ensures Advances(MappingCodec().decode) && Advances(EntityCodec().decode)
    ensures Advances(RemovalCodec(cs).decode) && Advances(ChangeCodec(cs).decode)
    ensures ReadSection(MappingCodec().decode, flags, MAPPINGS, Tail(cs, u, flags, MAPPINGS))
         == Parsed(u.mappings, Tail(cs, u, flags, DESPAWNS))
    ensures ReadSection(EntityCodec().decode, flags, DESPAWNS, Tail(cs, u, flags, DESPAWNS))
         == Parsed(u.despawns, Tail(cs, u, flags, REMOVALS))
    ensures ReadSection(RemovalCodec(cs).decode, flags, REMOVALS, Tail(cs, u, flags, REMOVALS))
         == Parsed(u.removals, Tail(cs, u, flags, CHANGES))
    ensures ReadSection(ChangeCodec(cs).decode, flags, CHANGES, Tail(cs, u, flags, CHANGES)) == Parsed(u.changes, [])
  {
    Advancing(cs);
    LastFlag(u.mappings != [], u.despawns != [], u.removals != [], u.changes != []);
    SectionRoundTrip(MappingCodec(), u.mappings, flags, MAPPINGS, Tail(cs, u, flags, DESPAWNS));
    SectionRoundTrip(EntityCodec(), u.despawns, flags, DESPAWNS, Tail(cs, u, flags, REMOVALS));
    SectionRoundTrip(RemovalCodec(cs), u.removals, flags, REMOVALS, Tail(cs, u, flags, CHANGES));
    SectionRoundTrip(ChangeCodec(cs), u.changes, flags, CHANGES, []);
  }

  lemma ReadsSections(cs: Codecs, u: Update, s: Bytes)
    requires Suitable(cs) && s != [] && s[0] > 0 && s[0] == FlagsOf(u)
    requires ReadTick(s[1..]) == Parsed(u.tick, Tail(cs, u, s[0], MAPPINGS))
    ensures DecodeUpdate(cs, s) == Parsed(u, [])
  {
    SectionsRoundTrip(cs, u, s[0]);
  }

  lemma FlagsAgree(cs: Codecs, u: Update)
    ensures ContentOf(cs, u).Flags() == FlagsOf(u)
    ensures ContentOf(cs, u).IsEmpty() <==> FlagsOf(u) == 0
    ensures FlagsOf(u) > 0 ==> (Last(FlagsOf(u)) == MAPPINGS <==> u.despawns == [] && u.removals == [] && u.changes == [])
  {
    ContentIsEmptyIff(cs, u);
    LastFlag(u.mappings != [], u.despawns != [], u.removals != [], u.changes != []);
  }

  lemma TailOfSections(cs: Codecs, u: Update, flags: Byte, removals: Bytes, changes: Bytes)
    requires Suitable(cs) && flags > 0
    requires removals == WriteAll(RemovalCodec(cs), u.removals) && changes == WriteAll(ChangeCodec(cs), u.changes)
    ensures Tail(cs, u, flags, MAPPINGS) ==
      Section(flags, MAPPINGS, |u.mappings|, WriteAll(MappingCodec(), u.mappings))
      + (Section(flags, DESPAWNS, |u.despawns|, WriteAll(EntityCodec(), u.despawns))
         + (Section(flags, REMOVALS, |u.removals|, removals) + Section(flags, CHANGES, |u.changes|, changes)))
  {
    var last := Section(flags, CHANGES, |u.changes|, changes);
    assert Tail(cs, u, flags, CHANGES) == last + Tail(cs, u, flags, 16) == last;
    assert Tail(cs, u, flags, REMOVALS) == Section(flags, REMOVALS, |u.removals|, removals) + last;
  }

  lemma SectionsAreTail(cs: Codecs, u: Update)
    requires Suitable(cs) && FlagsOf(u) > 0
    ensures !ContentOf(cs, u).IsEmpty() && Sections(ContentOf(cs, u)) == Tail(cs, u, FlagsOf(u), MAPPINGS)
  {
    FlagsAgree(cs, u);
    ItemsAreSized(cs.id, u.removals);
    ItemsAreSized(cs.component, u.changes);
    TailOfSections(cs, u, FlagsOf(u), AllItems(Items(cs.id, u.removals)), AllItems(Items(cs.component, u.changes)));
  }

  lemma EncodedIs(cs: Codecs, u: Update)
    requires Suitable(cs) && (u.despawns != [] || u.removals != [] || u.changes != [])
    ensures FlagsOf(u) > 0 && !ContentOf(cs, u).IsEmpty()
    ensures EncodeContent(ContentOf(cs, u), TickBytes(u.tick))
         == Some([FlagsOf(u)] + TickBytes(u.tick) + Tail(cs, u, FlagsOf(u), MAPPINGS))
  {
    FlagsAgree(cs, u);
    SectionsAreTail(cs, u);
  }

  lemma DecodedIs(cs: Codecs, u: Update, tail: Bytes)
    requires Suitable(cs) && FlagsOf(u) > 0 && tail == Tail(cs, u, FlagsOf(u), MAPPINGS)
    ensures DecodeUpdate(cs, [FlagsOf(u)] + TickBytes(u.tick) + tail) == Parsed(u, [])
  {
    var s := [FlagsOf(u)] + TickBytes(u.tick) + tail;
    assert s[1..] == TickBytes(u.tick) + tail;
    TickRoundTrip(u.tick, tail);
    ReadsSections(cs, u, s);
  }

  /**
   For every message that says more than mappings, parsing the bytes that are sent gives the message back and
   consumes all of them.
   */
  lemma UpdateRoundTrip(cs: Codecs, u: Update)
    requires Suitable(cs)
    requires u.despawns != [] || u.removals != [] || u.changes != []
    ensures
      var c := ContentOf(cs, u);
      && !c.IsEmpty() && EncodeContent(c, TickBytes(u.tick)).Some?
      && DecodeUpdate(cs, EncodeContent(c, TickBytes(u.tick)).value) == Parsed(u, [])
  {
    EncodedIs(cs, u);
    DecodedIs(cs, u, Tail(cs, u, FlagsOf(u), MAPPINGS));
  }
}
