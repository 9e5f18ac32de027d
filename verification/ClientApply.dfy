/** The client: parsing messages with a cursor and applying them on the way (client.rs). */
module ClientApply {
  import opened Domain
  import opened Changes
  import opened Messages
  import opened Receiver
  import opened Wire
  import opened Ticks
  import opened EntitySerde
  import opened UpdateWire
  import opened MutateWire
  import opened Selection
  import opened Refinement

  // ---------------------------------------------------------------------------------------------
  // What is applied, one element after the other.

  function CompsIn(r: Replica, e: Entity): Comps {
    if e in r then r[e].comps else map[]
  }

  function DespawnOne(r: Replica, e: Entity): Replica {
    r - {e}
  }

  /** An entity that is not mapped yet is spawned. */
  function RemoveOne(r: Replica, tick: nat, x: (Entity, seq<FnsId>)): Replica {
    r[x.0 := ClientEntity(tick, CompsIn(r, x.0) - IdsOf(x.1))]
  }

  function ChangeOne(r: Replica, tick: nat, x: (Entity, seq<Component>)): Replica {
    r[x.0 := ClientEntity(tick, CompsIn(r, x.0) + CompsOf(x.1))]
  }

  function DespawnAll(r: Replica, es: seq<Entity>): Replica {
    if es == [] then r else DespawnOne(DespawnAll(r, es[..|es| - 1]), es[|es| - 1])
  }

  function RemoveAll(r: Replica, tick: nat, xs: seq<(Entity, seq<FnsId>)>): Replica {
    if xs == [] then r else RemoveOne(RemoveAll(r, tick, xs[..|xs| - 1]), tick, xs[|xs| - 1])
  }

  function ChangeAll(r: Replica, tick: nat, xs: seq<(Entity, seq<Component>)>): Replica {
    if xs == [] then r else ChangeOne(ChangeAll(r, tick, xs[..|xs| - 1]), tick, xs[|xs| - 1])
  }

  function ApplyParsed(r: Replica, u: Update): Replica {
    ChangeAll(RemoveAll(DespawnAll(r, u.despawns), u.tick, u.removals), u.tick, u.changes)
  }

  // ---------------------------------------------------------------------------------------------
  // One after the other is all at once, as long as no section mentions an entity twice.

  lemma {:induction false} DespawnAllIs(r: Replica, es: seq<Entity>)
    ensures DespawnAll(r, es) == r - SetOf(es)
  {
    if es != [] {
      DespawnAllIs(r, es[..|es| - 1]);
      assert es == es[..|es| - 1] + [es[|es| - 1]];
    }
  }

  lemma {:induction false} RemoveAllAt(r: Replica, tick: nat, xs: seq<(Entity, seq<FnsId>)>, e: Entity)
    requires DistinctRemovals(xs)
    ensures
      var (r', m) := (RemoveAll(r, tick, xs), ToRemovals(xs));
      if e in m then e in r' && r'[e] == ClientEntity(tick, CompsIn(r, e) - m[e])
      else (e in r' <==> e in r) && (e in r ==> r'[e] == r[e])
    ensures e in ToRemovals(xs) <==> exists x <- xs :: x.0 == e
  {
    hide IdsOf;
    if xs != [] {
      assert xs == xs[..|xs| - 1] + [xs[|xs| - 1]];
      RemoveAllAt(r, tick, xs[..|xs| - 1], e);
    }
  }

  lemma {:induction false} ChangeAllAt(r: Replica, tick: nat, xs: seq<(Entity, seq<Component>)>, e: Entity)
    requires DistinctKeys(xs)
    ensures
      var (r', m) := (ChangeAll(r, tick, xs), ToChanges(xs));
      if e in m then e in r' && r'[e] == ClientEntity(tick, CompsIn(r, e) + m[e])
      else (e in r' <==> e in r) && (e in r ==> r'[e] == r[e])
    ensures e in ToChanges(xs) <==> exists x <- xs :: x.0 == e
  {
    hide CompsOf;
    if xs != [] {
      assert xs == xs[..|xs| - 1] + [xs[|xs| - 1]];
      ChangeAllAt(r, tick, xs[..|xs| - 1], e);
    }
  }

  /** Applying a parsed message in its order is what the protocol's client does at once. */
  lemma ApplyParsedIsApplyUpdate(r: Replica, u: Update)
    requires DistinctRemovals(u.removals) && DistinctKeys(u.changes)
    ensures ApplyParsed(r, u) == ApplyUpdate(r, AsMessage(u, u.tick))
  {
    hide RemoveAll, ChangeAll, ToRemovals, ToChanges, DespawnAll, DistinctKeys, DistinctRemovals;
    var m := AsMessage(u, u.tick);
    var r1 := DespawnAll(r, u.despawns);
    var r2 := RemoveAll(r1, u.tick, u.removals);
    var a, b := ApplyParsed(r, u), ApplyUpdate(r, m);
    DespawnAllIs(r, u.despawns);
    forall e ensures (e in a <==> e in b) && (e in a ==> a[e] == b[e]) {
      RemoveAllAt(r1, u.tick, u.removals, e);
      ChangeAllAt(r2, u.tick, u.changes, e);
      assert CompsIn(r1, e) == BaseComps(r, m, e);
      UpdatedComps(BaseComps(r, m, e), m, e);
    }
  }

  lemma UpdatedComps(base: Comps, m: UpdateMsg, e: Entity)
    ensures e !in m.removals ==> base - m.Removed(e) == base
    ensures e !in m.changes ==> (base - m.Removed(e)) + m.Changed(e) == base - m.Removed(e)
  {
  }

  // ---------------------------------------------------------------------------------------------
  // Arrays, read element by element.

  /** What is left of an array: `k` elements if it is sized, everything if it is dynamic. */
  function Elements<T(!new)>(decode: Bytes -> Parsed<T>, sized: bool, k: nat, s: Bytes): Parsed<seq<T>>
    requires Advances(decode)
  {
    if sized then ReadMany(decode, k, s) else ReadAll(decode, s)
  }

  function Behind<T>(done: seq<T>, p: Parsed<seq<T>>): Parsed<seq<T>> {
    match p
    case Failure => Failure
    case Parsed(xs, rest) => Parsed(done + xs, rest)
  }

  /** Whether another element is to be read. */
  predicate More(sized: bool, k: nat, s: Bytes) {
    if sized then k > 0 else s != []
  }

  lemma ElementsEnd<T(!new)>(decode: Bytes -> Parsed<T>, sized: bool, k: nat, s: Bytes, done: seq<T>)
    requires Advances(decode) && !More(sized, k, s)
    ensures Behind(done, Elements(decode, sized, k, s)) == Parsed(done, s)
  {
    assert done + [] == done;
  }

  lemma ElementsStart<T(!new)>(decode: Bytes -> Parsed<T>, sized: bool, k: nat, s: Bytes)
    requires Advances(decode)
    ensures Behind([], Elements(decode, sized, k, s)) == Elements(decode, sized, k, s)
  {
    match Elements(decode, sized, k, s)
    case Failure =>
    case Parsed(xs, rest) => assert [] + xs == xs;
  }

  lemma ElementsStep<T(!new)>(decode: Bytes -> Parsed<T>, sized: bool, k: nat, s: Bytes, done: seq<T>)
    requires Advances(decode) && More(sized, k, s)
    ensures decode(s).Failure? ==> Behind(done, Elements(decode, sized, k, s)) == Failure
    ensures decode(s).Parsed? ==>
      var k' := if sized then k - 1 else k;
      Behind(done, Elements(decode, sized, k, s)) == Behind(done + [decode(s).value], Elements(decode, sized, k', decode(s).rest))
  {
    if decode(s).Parsed? {
      var x := decode(s).value;
      match Elements(decode, sized, if sized then k - 1 else k, decode(s).rest)
      case Failure =>
      case Parsed(xs, rest) => assert done + ([x] + xs) == done + [x] + xs;
    }
  }

  /** The header of an array, if there is one. */
  method ArrayLength(cursor: Cursor, sized: bool) returns (length: Option<nat>)
    modifies cursor
    ensures if !sized then length == Some(0) && cursor.Rest() == old(cursor.Rest()) else
      match ReadVarint(old(cursor.Rest()))
      case Failure => length == None
      case Parsed(n, rest) => length == Some(n) && cursor.Rest() == rest
  {
    length := Some(0);
    if sized {
      length := cursor.Read(ReadVarint);
    }
  }

  lemma SectionIsElements<T(!new)>(decode: Bytes -> Parsed<T>, flags: Byte, flag: Byte, s: Bytes)
    requires Advances(decode) && flags > 0 && flag > 0 && Has(flags, flag)
    ensures ReadSection(decode, flags, flag, s) ==
      if flag == Last(flags) then Elements(decode, false, 0, s)
      else match ReadVarint(s)
        case Failure => Failure
        case Parsed(n, s') => Elements(decode, true, n, s')
  {
    if flag != Last(flags) {
      SizedIsMany(decode, s);
    }
  }

  lemma Starts(comps: Comps)
    ensures comps - IdsOf([]) == comps && comps + CompsOf([]) == comps
  {
  }

  lemma RemovesOne(comps: Comps, done: seq<FnsId>, id: FnsId)
    ensures comps - IdsOf(done) - {id} == comps - IdsOf(done + [id])
  {
  }

  lemma WritesOne(comps: Comps, done: seq<Component>, x: Component)
    ensures (comps + CompsOf(done))[x.0 := x.1] == comps + CompsOf(done + [x])
  {
    assert (done + [x])[..|done|] == done;
  }

  /** One more component of `e` is removed or written; `m` is the replica without them. */
  lemma OneRemoved(m: Replica, e: Entity, tick: nat, comps: Comps, done: seq<FnsId>, id: FnsId)
    ensures
      var r := m[e := ClientEntity(tick, comps - IdsOf(done))];
      r[e := ClientEntity(tick, r[e].comps - {id})] == m[e := ClientEntity(tick, comps - IdsOf(done + [id]))]
  {
    RemovesOne(comps, done, id);
    hide IdsOf;
  }

  lemma OneWritten(m: Replica, e: Entity, tick: nat, comps: Comps, done: seq<Component>, x: Component)
    ensures
      var r := m[e := ClientEntity(tick, comps + CompsOf(done))];
      r[e := ClientEntity(tick, r[e].comps[x.0 := x.1])] == m[e := ClientEntity(tick, comps + CompsOf(done + [x]))]
  {
    WritesOne(comps, done, x);
    hide CompsOf;
  }

  /** An entity followed by a sized array. */
  lemma SizedBehindEntity<T(!new)>(c: Codec<T>, s: Bytes)
    requires SelfDelimiting(c)
    ensures Both(EntityCodec(), Sized(c)).decode(s) ==
      match ReadEntity(s)
      case Failure => Failure
      case Parsed(e, s1) =>
        match ReadSized(c.decode, s1)
        case Failure => Failure
        case Parsed(xs, rest) => Parsed((e, xs), rest)
  {
  }

  lemma SizedIsMany<T(!new)>(decode: Bytes -> Parsed<T>, s: Bytes)
    requires Advances(decode)
    ensures ReadSized(decode, s) ==
      match ReadVarint(s)
      case Failure => Failure
      case Parsed(n, s') => Elements(decode, true, n, s')
  {
    match ReadVarint(s)
    case Failure =>
    case Parsed(n, s') =>
      match ReadMany(decode, n, s')
      case Failure =>
      case Parsed(_, _) =>
  }

  // ---------------------------------------------------------------------------------------------
  // The body of a mutate message.

  /** Whether the client jumps over the mutations of `e`: it does not have the entity, or has something newer. */
  predicate Skips(r: Replica, tick: nat, e: Entity) {
    e !in r || !Newer(tick, r[e].confirmed)
  }

  function MutateOne(r: Replica, tick: nat, x: (Entity, seq<Component>)): Replica {
    if Skips(r, tick, x.0) then r else r[x.0 := ClientEntity(tick, r[x.0].comps + CompsOf(x.1))]
  }

  function MutateAll(r: Replica, tick: nat, xs: seq<(Entity, seq<Component>)>): Replica {
    if xs == [] then r else MutateAll(MutateOne(r, tick, xs[0]), tick, xs[1..])
  }

  /** Parsing and applying in one go. What is skipped depends on what has been applied before. */
  ghost function ApplyBody(cs: Codecs, r: Replica, tick: nat, s: Bytes): Option<Replica>
    requires Suitable(cs)
    decreases |s|
  {
    if s == [] then Some(r)
    else match ReadEntity(s)
      case Failure => None
      case Parsed(e, s1) =>
        match ReadVarint(s1)
        case Failure => None
        case Parsed(size, s2) =>
          match ReadComponents(cs, Skips(r, tick, e), size, s2)
          case Failure => None
          case Parsed(xs, rest) =>
            ApplyBody(cs, if xs.Some? then MutateOne(r, tick, (e, xs.value)) else r, tick, rest)
  }

  /** What the components of one entity do, if they are not jumped over. */
  function Applied(r: Replica, tick: nat, e: Entity, xs: Option<seq<Component>>): Replica {
    if xs.Some? then MutateOne(r, tick, (e, xs.value)) else r
  }

  lemma ApplyBodyUnfolds(cs: Codecs, r: Replica, tick: nat, s: Bytes)
    requires Suitable(cs) && s != []
    ensures ReadEntity(s).Failure? ==> ApplyBody(cs, r, tick, s) == None
    ensures ReadEntity(s).Parsed? ==>
      var (e, p) := (ReadEntity(s).value, ReadVarint(ReadEntity(s).rest));
      if p.Failure? then ApplyBody(cs, r, tick, s) == None
      else match ReadComponents(cs, Skips(r, tick, e), p.value, p.rest)
        case Failure => ApplyBody(cs, r, tick, s) == None
        case Parsed(xs, rest) => ApplyBody(cs, r, tick, s) == ApplyBody(cs, Applied(r, tick, e, xs), tick, rest)
  {
    hide ReadEntity, ReadVarint, ReadComponents, MutateOne;
  }

  lemma ApplyBodyStep(cs: Codecs, r: Replica, tick: nat, x: (Entity, seq<Component>), rest: Bytes)
    requires Suitable(cs)
    ensures
      var i := Item(EntityBytes(x.0), |x.1|, WriteAll(cs.component, x.1));
      ApplyBody(cs, r, tick, MutationBytes(i) + rest) == ApplyBody(cs, MutateOne(r, tick, x), tick, rest)
  {
    hide MutationBytes, ReadEntity, ReadVarint, ReadComponents, CompsOf, EntityBytes, WriteAll;
    MutationRoundTrip(cs, Skips(r, tick, x.0), x, rest);
  }

  /** Applying what was written is applying the mutations one after the other. */
  lemma {:induction false} ApplyBodyIs(cs: Codecs, r: Replica, tick: nat, xs: seq<(Entity, seq<Component>)>)
    requires Suitable(cs)
    ensures ApplyBody(cs, r, tick, AllMutations(Items(cs.component, xs))) == Some(MutateAll(r, tick, xs))
    decreases |xs|
  {
    hide MutateOne, EntityBytes, WriteAll, MutationBytes;
    if xs != [] {
      var items := Items(cs.component, xs);
      assert items[1..] == Items(cs.component, xs[1..]);
      ApplyBodyIs(cs, MutateOne(r, tick, xs[0]), tick, xs[1..]);
      ApplyBodyStep(cs, r, tick, xs[0], AllMutations(items[1..]));
    }
  }

  lemma {:induction false} MutateAllAt(r: Replica, tick: nat, xs: seq<(Entity, seq<Component>)>, e: Entity)
    requires DistinctKeys(xs)
    ensures var r' := MutateAll(r, tick, xs); (e in r' <==> e in r)
    ensures (forall x <- xs :: x.0 != e) && e in r ==> MutateAll(r, tick, xs)[e] == r[e]
    ensures forall x <- xs :: x.0 == e && e in r ==> MutateAll(r, tick, xs)[e] == MutateOne(r, tick, x)[e]
    decreases |xs|
  {
    hide CompsOf;
    if xs != [] {
      assert xs == [xs[0]] + xs[1..];
      MutateAllAt(MutateOne(r, tick, xs[0]), tick, xs[1..], e);
    }
  }

  /** The client keeps confirmed ticks as they were sent. */
  function Wrapped(r: Replica): Replica {
    map e | e in r :: ClientEntity(WireTick(r[e].confirmed), r[e].comps)
  }

  lemma WrappedUpdate(r: Replica, m: UpdateMsg)
    ensures ApplyUpdate(Wrapped(r), m.(tick := WireTick(m.tick))) == Wrapped(ApplyUpdate(r, m))
  {
    hide WireTick, BaseComps, UpdateMsg.Touches, UpdateMsg.Removed, UpdateMsg.Changed;
    var m' := m.(tick := WireTick(m.tick));
    var a, b := ApplyUpdate(Wrapped(r), m'), Wrapped(ApplyUpdate(r, m));
    forall e ensures (e in a <==> e in b) && (e in a ==> a[e] == b[e]) {
      SameParts(r, m, m'.tick, e);
    }
  }

  lemma SameParts(r: Replica, m: UpdateMsg, tick: nat, e: Entity)
    ensures
      var m' := m.(tick := tick);
      && BaseComps(Wrapped(r), m', e) == BaseComps(r, m, e)
      && m'.Touches(e) == m.Touches(e) && m'.Removed(e) == m.Removed(e) && m'.Changed(e) == m.Changed(e)
  {
    hide WireTick;
  }

  /** ... which is what the protocol's client does at once, provided the ticks that are compared are near. */
  lemma MutateAllIsApplyMutations(r: Replica, m: MutateMsg, xs: seq<(Entity, seq<Component>)>)
    requires DistinctKeys(xs) && m.mutations == ToChanges(xs)
    requires forall e <- r :: Near(m.tick, r[e].confirmed)
    ensures MutateAll(Wrapped(r), WireTick(m.tick), xs) == Wrapped(ApplyMutations(r, m))
  {
    hide CompsOf, ToChanges, MutateAll, DistinctKeys, Newer, WireTick;
    var w, tick := Wrapped(r), WireTick(m.tick);
    var a, b := MutateAll(w, tick, xs), Wrapped(ApplyMutations(r, m));
    forall e ensures (e in a <==> e in b) && (e in a ==> a[e] == b[e]) {
      MutateAllAt(w, tick, xs, e);
      ChangesHave(xs, e);
      if e in r {
        NearIsEnough(m.tick, r[e].confirmed);
      }
      if x :| x in xs && x.0 == e {
      }
    }
  }

  // ---------------------------------------------------------------------------------------------
  // The buffer.

  /** A mutate message whose header has been parsed. */
  datatype Buffered = Buffered(updateTick: U32, messageTick: U32, messagesCount: nat, message: Bytes)

  /** The number of buffered messages that are newer. */
  function NewerCount(bs: seq<Buffered>, tick: nat): (i: nat)
    ensures i <= |bs|
  {
    if bs == [] || !Older(tick, bs[0].messageTick) then 0 else 1 + NewerCount(bs[1..], tick)
  }

  function InsertBuffered(bs: seq<Buffered>, b: Buffered): seq<Buffered> {
    var i := NewerCount(bs, b.messageTick);
    bs[..i] + [b] + bs[i..]
  }

  function RetainBehind(kept: seq<Buffered>, p: (Option<Replica>, seq<Buffered>)): (Option<Replica>, seq<Buffered>) {
    if p.0.None? then (None, []) else (p.0, kept + p.1)
  }

  /** The retain loop: ready messages are applied, the others are kept. */
  ghost function Retain(cs: Codecs, r: Replica, updateTick: nat, bs: seq<Buffered>): (p: (Option<Replica>, seq<Buffered>))
    requires Suitable(cs)
    ensures p.0.None? ==> p.1 == []
    decreases |bs|
  {
    if bs == [] then (Some(r), [])
    else if Newer(bs[0].updateTick, updateTick) then RetainBehind([bs[0]], Retain(cs, r, updateTick, bs[1..]))
    else
      match ApplyBody(cs, r, bs[0].messageTick, bs[0].message)
      case None => (None, [])
      case Some(r') => Retain(cs, r', updateTick, bs[1..])
  }

  /** The messages that are not ready: they stay, whatever becomes of the others. */
  function Unready(bs: seq<Buffered>, updateTick: nat): seq<Buffered> {
    if bs == [] then []
    else (if Newer(bs[0].updateTick, updateTick) then [bs[0]] else []) + Unready(bs[1..], updateTick)
  }

  lemma UnreadyStep(bs: seq<Buffered>, updateTick: nat, kept: seq<Buffered>)
    ensures bs == [] ==> kept + Unready(bs, updateTick) == kept
    ensures bs != [] && Newer(bs[0].updateTick, updateTick) ==>
      kept + [bs[0]] + Unready(bs[1..], updateTick) == kept + Unready(bs, updateTick)
    ensures bs != [] && !Newer(bs[0].updateTick, updateTick) ==>
      kept + Unready(bs[1..], updateTick) == kept + Unready(bs, updateTick)
  {
    hide Newer;
    if bs == [] {
      assert kept + [] == kept;
    } else {
      var rest := Unready(bs[1..], updateTick);
      if Newer(bs[0].updateTick, updateTick) {
        assert kept + ([bs[0]] + rest) == kept + [bs[0]] + rest;
      } else {
        assert [] + rest == rest;
      }
    }
  }

  lemma UnreadyStarts(bs: seq<Buffered>, updateTick: nat)
    ensures [] + Unready(bs, updateTick) == Unready(bs, updateTick)
  {
  }

  /** The client between frames, and the acknowledgements it has sent. */
  datatype ClientState = ClientState(entities: Replica, updateTick: nat, buffered: seq<Buffered>, acks: seq<nat>)

  ghost function UpdatesApplied(cs: Codecs, c: ClientState, updates: seq<Bytes>): Option<ClientState>
    requires Suitable(cs)
    decreases |updates|
  {
    if updates == [] then Some(c)
    else match DecodeUpdate(cs, updates[0])
      case Failure => None
      case Parsed(u, _) => UpdatesApplied(cs, c.(entities := ApplyParsed(c.entities, u), updateTick := u.tick), updates[1..])
  }

  function MutationsBuffered(c: ClientState, tracked: bool, mutations: seq<Bytes>): Option<ClientState>
    decreases |mutations|
  {
    if mutations == [] then Some(c)
    else match ReadHeader(tracked, mutations[0])
      case Failure => None
      case Parsed(h, rest) =>
        var b := Buffered(h.updateTick, h.tick, h.count, rest);
        MutationsBuffered(c.(buffered := InsertBuffered(c.buffered, b), acks := c.acks + [h.index]), tracked, mutations[1..])
  }

  /** One acknowledgement for every message received, in order: the index in its header. */
  ghost predicate Acknowledges(acks: seq<nat>, tracked: bool, mutations: seq<Bytes>) {
    && |acks| == |mutations|
    && forall i :: 0 <= i < |mutations| ==>
         ReadHeader(tracked, mutations[i]).Parsed? && acks[i] == ReadHeader(tracked, mutations[i]).value.index
  }

  lemma AcknowledgesFirst(acks: seq<nat>, tracked: bool, mutations: seq<Bytes>)
    requires mutations != [] && acks != [] && ReadHeader(tracked, mutations[0]).Parsed?
    requires acks[0] == ReadHeader(tracked, mutations[0]).value.index && Acknowledges(acks[1..], tracked, mutations[1..])
    ensures Acknowledges(acks, tracked, mutations)
  {
    hide ReadHeader;
    forall i | 0 <= i < |mutations|
      ensures ReadHeader(tracked, mutations[i]).Parsed? && acks[i] == ReadHeader(tracked, mutations[i]).value.index
    {
      if i > 0 {
        assert mutations[i] == mutations[1..][i - 1] && acks[i] == acks[1..][i - 1];
      }
    }
  }

  /** Whatever is buffered already, exactly the messages of the frame are acknowledged, unless one of them does not parse. */
  lemma {:induction false} AllAreAcknowledged(c: ClientState, tracked: bool, mutations: seq<Bytes>)
    ensures
      var r := MutationsBuffered(c, tracked, mutations);
      && (r.Some? <==> forall m <- mutations :: ReadHeader(tracked, m).Parsed?)
      && (r.Some? ==>
            && r.value.entities == c.entities && r.value.updateTick == c.updateTick
            && |c.acks| <= |r.value.acks| && r.value.acks[..|c.acks|] == c.acks
            && Acknowledges(r.value.acks[|c.acks|..], tracked, mutations))
    decreases |mutations|
  {
    hide ReadHeader, InsertBuffered;
    var p, r := if mutations == [] then Failure else ReadHeader(tracked, mutations[0]), MutationsBuffered(c, tracked, mutations);
    if p.Parsed? {
      var first := Buffered(p.value.updateTick, p.value.tick, p.value.count, p.rest);
      var next := c.(buffered := InsertBuffered(c.buffered, first), acks := c.acks + [p.value.index]);
      AllAreAcknowledged(next, tracked, mutations[1..]);
      assert mutations == [mutations[0]] + mutations[1..];
      if r.Some? {
        hide MutationsBuffered;
        var n, acks := |c.acks|, r.value.acks;
        assert acks[..n] == acks[..n + 1][..n] && acks[n] == acks[..n + 1][n];
        assert acks[n..][1..] == acks[n + 1..];
        AcknowledgesFirst(acks[n..], tracked, mutations);
      }
    }
  }

  /** The message as it waits: without its index. */
  function Waiting(tracked: bool, message: Bytes): Buffered
    requires ReadHeader(tracked, message).Parsed?
  {
    var p := ReadHeader(tracked, message);
    Buffered(p.value.updateTick, p.value.tick, p.value.count, p.rest)
  }

  /** ... and exactly they join the buffer. */
  lemma {:induction false} AllAreBuffered(c: ClientState, tracked: bool, mutations: seq<Bytes>)
    requires forall i :: 0 <= i < |mutations| ==> ReadHeader(tracked, mutations[i]).Parsed?
    ensures
      var r := MutationsBuffered(c, tracked, mutations);
      && r.Some?
      && multiset(r.value.buffered) == multiset(c.buffered)
           + multiset(seq(|mutations|, i requires 0 <= i < |mutations| => Waiting(tracked, mutations[i])))
    decreases |mutations|
  {
    hide ReadHeader, InsertBuffered;
    var all := seq(|mutations|, i requires 0 <= i < |mutations| => Waiting(tracked, mutations[i]));
    if mutations != [] {
      var first, rest := Waiting(tracked, mutations[0]), mutations[1..];
      assert forall i :: 0 <= i < |rest| ==> rest[i] == mutations[i + 1];
      InsertedOnce(c.buffered, first);
      AllAreBuffered(c.(buffered := InsertBuffered(c.buffered, first), acks := c.acks + [ReadHeader(tracked, mutations[0]).value.index]),
                     tracked, rest);
      assert all == [first] + seq(|rest|, i requires 0 <= i < |rest| => Waiting(tracked, rest[i]));
    }
  }

  lemma InsertedOnce(bs: seq<Buffered>, b: Buffered)
    ensures multiset(InsertBuffered(bs, b)) == multiset(bs) + multiset{b}
  {
    var i := NewerCount(bs, b.messageTick);
    assert bs == bs[..i] + bs[i..];
  }

  ghost function ReadyApplied(cs: Codecs, c: ClientState): Option<ClientState>
    requires Suitable(cs)
  {
    var (r, kept) := Retain(cs, c.entities, c.updateTick, c.buffered);
    if r.Some? then Some(c.(entities := r.value, buffered := kept)) else None
  }

  /** A frame: all updates, then all mutate messages into the buffer, then what is ready. */
  ghost function FrameApplied(cs: Codecs, c: ClientState, updates: seq<Bytes>, tracked: bool, mutations: seq<Bytes>): Option<ClientState>
    requires Suitable(cs)
  {
    match UpdatesApplied(cs, c, updates)
    case None => None
    case Some(c1) =>
      match MutationsBuffered(c1, tracked, mutations)
      case None => None
      case Some(c2) => ReadyApplied(cs, c2)
  }

  lemma RetainStarts(p: (Option<Replica>, seq<Buffered>))
    requires p.0.None? ==> p.1 == []
    ensures RetainBehind([], p) == p
  {
    assert [] + p.1 == p.1;
  }

  lemma RetainEnd(cs: Codecs, r: Replica, updateTick: nat, kept: seq<Buffered>)
    requires Suitable(cs)
    ensures RetainBehind(kept, Retain(cs, r, updateTick, [])) == (Some(r), kept)
  {
    assert kept + [] == kept;
  }

  lemma RetainStep(cs: Codecs, r: Replica, updateTick: nat, bs: seq<Buffered>, kept: seq<Buffered>)
    requires Suitable(cs) && bs != []
    ensures Newer(bs[0].updateTick, updateTick) ==>
      RetainBehind(kept, Retain(cs, r, updateTick, bs)) == RetainBehind(kept + [bs[0]], Retain(cs, r, updateTick, bs[1..]))
    ensures !Newer(bs[0].updateTick, updateTick) ==>
      match ApplyBody(cs, r, bs[0].messageTick, bs[0].message)
      case None => RetainBehind(kept, Retain(cs, r, updateTick, bs)).0 == None
      case Some(r') => RetainBehind(kept, Retain(cs, r, updateTick, bs)) == RetainBehind(kept, Retain(cs, r', updateTick, bs[1..]))
  {
    hide ApplyBody;
    if Newer(bs[0].updateTick, updateTick) {
      var p := Retain(cs, r, updateTick, bs[1..]);
      assert kept + ([bs[0]] + p.1) == kept + [bs[0]] + p.1;
    }
  }

  // ---------------------------------------------------------------------------------------------
  // The client.

  class ReplicationClient {
    const cs: Codecs
    var entities: Replica
    var updateTick: nat
    var buffered: seq<Buffered>

    constructor (cs: Codecs)
      ensures this.cs == cs && entities == map[] && updateTick == 0 && buffered == []
    {
      this.cs := cs;
      entities, updateTick, buffered := map[], 0, [];
    }

    method ApplyDespawn(cursor: Cursor) returns (ok: bool)
      modifies cursor, this`entities
      ensures
        match EntityCodec().decode(old(cursor.Rest()))
        case Failure => !ok
        case Parsed(e, rest) => ok && cursor.Rest() == rest && entities == DespawnOne(old(entities), e)
    {
      hide ReadEntity;
      var e := DeserializeEntity(cursor);
      if e == None {
        return false;
      }
      entities := entities - {e.value};
      ok := true;
    }

    method ApplyDespawns(cursor: Cursor, flags: Byte) returns (ok: bool)
      requires flags > 0 && Has(flags, DESPAWNS) && Advances(EntityCodec().decode)
      modifies cursor, this`entities
      ensures
        match ReadSection(EntityCodec().decode, flags, DESPAWNS, old(cursor.Rest()))
        case Failure => !ok
        case Parsed(xs, rest) => ok && cursor.Rest() == rest && entities == DespawnAll(old(entities), xs)
    {
      hide Behind, Elements, ReadSection, Last, ReadEntity, ReadVarint, EntityCodec, DespawnOne;
      ghost var decode := EntityCodec().decode;
      SectionIsElements(decode, flags, DESPAWNS, cursor.Rest());
      var sized := DESPAWNS != Last(flags);
      var length := ArrayLength(cursor, sized);
      if length == None {
        return false;
      }
      var k: nat := length.value;
      ghost var s, done := cursor.Rest(), [];
      ElementsStart(decode, sized, k, s);
      while More(sized, k, cursor.Rest())
        invariant Behind(done, Elements(decode, sized, k, cursor.Rest())) == Elements(decode, sized, length.value, s)
        invariant entities == DespawnAll(old(entities), done)
        decreases if sized then k else |cursor.Rest()|
      {
        ElementsStep(decode, sized, k, cursor.Rest(), done);
        ghost var before := cursor.Rest();
        ok := ApplyDespawn(cursor);
        if !ok {
          return;
        }
        ghost var x := decode(before).value;
        assert (done + [x])[..|done|] == done;
        done := done + [x];
        k := if sized then k - 1 else k;
      }
      ElementsEnd(decode, sized, k, cursor.Rest(), done);
      ok := true;
    }

    /** The sized array behind an entity. */
    method RemoveComponents(cursor: Cursor, e: Entity, tick: U32) returns (ok: bool)
      requires Suitable(cs) && e in entities && entities[e].confirmed == tick
      modifies cursor, this`entities
      ensures
        match ReadSized(cs.id.decode, old(cursor.Rest()))
        case Failure => !ok
        case Parsed(xs, rest) =>
          && ok && cursor.Rest() == rest
          && entities == old(entities)[e := ClientEntity(tick, old(entities[e].comps) - IdsOf(xs))]
    {
      hide Behind, Elements, ReadVarint, ReadSized, IdsOf, CompsOf;
      ghost var decode, comps := cs.id.decode, entities[e].comps;
      SizedIsMany(decode, cursor.Rest());
      var length := ArrayLength(cursor, true);
      if length == None {
        return false;
      }
      var k: nat := length.value;
      ghost var s: Bytes, done: seq<FnsId> := cursor.Rest(), [];
      ElementsStart(decode, true, k, s);
      Starts(comps);
      while k > 0
        invariant Behind(done, Elements(decode, true, k, cursor.Rest())) == Elements(decode, true, length.value, s)
        invariant e in entities && entities == old(entities)[e := ClientEntity(tick, comps - IdsOf(done))]
      {
        ElementsStep(decode, true, k, cursor.Rest(), done);
        var x := cursor.Read(cs.id.decode);
        if x == None {
          return false;
        }
        OneRemoved(old(entities), e, tick, comps, done, x.value);
        entities := entities[e := ClientEntity(tick, entities[e].comps - {x.value})];
        done := done + [x.value];
        k := k - 1;
      }
      ElementsEnd(decode, true, k, cursor.Rest(), done);
      ok := true;
    }

    method ApplyRemoval(cursor: Cursor, tick: U32) returns (ok: bool)
      requires Suitable(cs)
      modifies cursor, this`entities
      ensures
        match RemovalCodec(cs).decode(old(cursor.Rest()))
        case Failure => !ok
        case Parsed(x, rest) => ok && cursor.Rest() == rest && entities == RemoveOne(old(entities), tick, x)
    {
      hide ReadEntity, ReadSized, IdsOf;
      SizedBehindEntity(cs.id, cursor.Rest());
      var server := DeserializeEntity(cursor);
      if server == None {
        return false;
      }
      entities := entities[server.value := ClientEntity(tick, CompsIn(entities, server.value))];
      ok := RemoveComponents(cursor, server.value, tick);
    }

    method ApplyRemovals(cursor: Cursor, flags: Byte, tick: U32) returns (ok: bool)
      requires Suitable(cs) && flags > 0 && Has(flags, REMOVALS) && Advances(RemovalCodec(cs).decode)
      modifies cursor, this`entities
      ensures
        match ReadSection(RemovalCodec(cs).decode, flags, REMOVALS, old(cursor.Rest()))
        case Failure => !ok
        case Parsed(xs, rest) => ok && cursor.Rest() == rest && entities == RemoveAll(old(entities), tick, xs)
    {
      hide Behind, Elements, ReadSection, Last, ReadEntity, ReadVarint, RemovalCodec, RemoveOne;
      ghost var decode := RemovalCodec(cs).decode;
      SectionIsElements(decode, flags, REMOVALS, cursor.Rest());
      var sized := REMOVALS != Last(flags);
      var length := ArrayLength(cursor, sized);
      if length == None {
        return false;
      }
      var k: nat := length.value;
      ghost var s, done := cursor.Rest(), [];
      ElementsStart(decode, sized, k, s);
      while More(sized, k, cursor.Rest())
        invariant Behind(done, Elements(decode, sized, k, cursor.Rest())) == Elements(decode, sized, length.value, s)
        invariant entities == RemoveAll(old(entities), tick, done)
        decreases if sized then k else |cursor.Rest()|
      {
        ElementsStep(decode, sized, k, cursor.Rest(), done);
        ghost var before := cursor.Rest();
        ok := ApplyRemoval(cursor, tick);
        if !ok {
          return;
        }
        ghost var x := decode(before).value;
        assert (done + [x])[..|done|] == done;
        done := done + [x];
        k := if sized then k - 1 else k;
      }
      ElementsEnd(decode, sized, k, cursor.Rest(), done);
      ok := true;
    }

    /** The sized array behind an entity. */
    method WriteComponents(cursor: Cursor, e: Entity, tick: U32) returns (ok: bool)
      requires Suitable(cs) && e in entities && entities[e].confirmed == tick
      modifies cursor, this`entities
      ensures
        match ReadSized(cs.component.decode, old(cursor.Rest()))
        case Failure => !ok
        case Parsed(xs, rest) =>
          && ok && cursor.Rest() == rest
          && entities == old(entities)[e := ClientEntity(tick, old(entities[e].comps) + CompsOf(xs))]
    {
      hide Behind, Elements, ReadVarint, ReadSized, IdsOf, CompsOf;
      ghost var decode, comps := cs.component.decode, entities[e].comps;
      SizedIsMany(decode, cursor.Rest());
      var length := ArrayLength(cursor, true);
      if length == None {
        return false;
      }
      var k: nat := length.value;
      ghost var s: Bytes, done: seq<Component> := cursor.Rest(), [];
      ElementsStart(decode, true, k, s);
      Starts(comps);
      while k > 0
        invariant Behind(done, Elements(decode, true, k, cursor.Rest())) == Elements(decode, true, length.value, s)
        invariant e in entities && entities == old(entities)[e := ClientEntity(tick, comps + CompsOf(done))]
      {
        ElementsStep(decode, true, k, cursor.Rest(), done);
        var x := cursor.Read(cs.component.decode);
        if x == None {
          return false;
        }
        OneWritten(old(entities), e, tick, comps, done, x.value);
        entities := entities[e := ClientEntity(tick, entities[e].comps[x.value.0 := x.value.1])];
        done := done + [x.value];
        k := k - 1;
      }
      ElementsEnd(decode, true, k, cursor.Rest(), done);
      ok := true;
    }

    method ApplyChange(cursor: Cursor, tick: U32) returns (ok: bool)
      requires Suitable(cs)
      modifies cursor, this`entities
      ensures
        match ChangeCodec(cs).decode(old(cursor.Rest()))
        case Failure => !ok
        case Parsed(x, rest) => ok && cursor.Rest() == rest && entities == ChangeOne(old(entities), tick, x)
    {
      hide ReadEntity, ReadSized, CompsOf;
      SizedBehindEntity(cs.component, cursor.Rest());
      var server := DeserializeEntity(cursor);
      if server == None {
        return false;
      }
      entities := entities[server.value := ClientEntity(tick, CompsIn(entities, server.value))];
      ok := WriteComponents(cursor, server.value, tick);
    }

    method ApplyChanges(cursor: Cursor, flags: Byte, tick: U32) returns (ok: bool)
      requires Suitable(cs) && flags > 0 && Has(flags, CHANGES) && Advances(ChangeCodec(cs).decode)
      modifies cursor, this`entities
      ensures
        match ReadSection(ChangeCodec(cs).decode, flags, CHANGES, old(cursor.Rest()))
        case Failure => !ok
        case Parsed(xs, rest) => ok && cursor.Rest() == rest && entities == ChangeAll(old(entities), tick, xs)
    {
      hide Behind, Elements, ReadSection, Last, ReadEntity, ReadVarint, ChangeCodec, ChangeOne;
      ghost var decode := ChangeCodec(cs).decode;
      SectionIsElements(decode, flags, CHANGES, cursor.Rest());
      var sized := CHANGES != Last(flags);
      var length := ArrayLength(cursor, sized);
      if length == None {
        return false;
      }
      var k: nat := length.value;
      ghost var s, done := cursor.Rest(), [];
      ElementsStart(decode, sized, k, s);
      while More(sized, k, cursor.Rest())
        invariant Behind(done, Elements(decode, sized, k, cursor.Rest())) == Elements(decode, sized, length.value, s)
        invariant entities == ChangeAll(old(entities), tick, done)
        decreases if sized then k else |cursor.Rest()|
      {
        ElementsStep(decode, sized, k, cursor.Rest(), done);
        ghost var before := cursor.Rest();
        ok := ApplyChange(cursor, tick);
        if !ok {
          return;
        }
        ghost var x := decode(before).value;
        assert (done + [x])[..|done|] == done;
        done := done + [x];
        k := if sized then k - 1 else k;
      }
      ElementsEnd(decode, sized, k, cursor.Rest(), done);
      ok := true;
    }

    /** Mappings of entities that the client spawned itself are read; what they map to is not modelled. */
    method SkipMappings(cursor: Cursor, flags: Byte) returns (ok: bool)
      requires flags > 0 && Has(flags, MAPPINGS) && Advances(MappingCodec().decode)
      modifies cursor
      ensures
        match ReadSection(MappingCodec().decode, flags, MAPPINGS, old(cursor.Rest()))
        case Failure => !ok
        case Parsed(_, rest) => ok && cursor.Rest() == rest
    {
      hide Behind, Elements, ReadSection, Last, ReadEntity, ReadVarint;
      ghost var decode := MappingCodec().decode;
      SectionIsElements(decode, flags, MAPPINGS, cursor.Rest());
      var sized := MAPPINGS != Last(flags);
      var length := ArrayLength(cursor, sized);
      if length == None {
        return false;
      }
      var k: nat := length.value;
      ghost var s, done := cursor.Rest(), [];
      ElementsStart(decode, sized, k, s);
      while More(sized, k, cursor.Rest())
        invariant Behind(done, Elements(decode, sized, k, cursor.Rest())) == Elements(decode, sized, length.value, s)
        decreases if sized then k else |cursor.Rest()|
      {
        ElementsStep(decode, sized, k, cursor.Rest(), done);
        ghost var before := cursor.Rest();
        var server := DeserializeEntity(cursor);
        if server == None {
          return false;
        }
        var client := DeserializeEntity(cursor);
        if client == None {
          return false;
        }
        done := done + [decode(before).value];
        k := if sized then k - 1 else k;
      }
      ElementsEnd(decode, sized, k, cursor.Rest(), done);
      ok := true;
    }

    /** Everything that parses is applied, section after section; the update tick is that of the message. */
    method ApplyUpdateMessage(message: Bytes) returns (ok: bool)
      requires Suitable(cs)
      modifies this`entities, this`updateTick
      ensures
        match DecodeUpdate(cs, message)
        case Failure => !ok
        case Parsed(u, _) => ok && entities == ApplyParsed(old(entities), u) && updateTick == u.tick
    {
      hide ReadSection, Has, Last, ReadTick, ReadEntity, DespawnAll, RemoveAll, ChangeAll, RemovalCodec, ChangeCodec, MappingCodec, EntityCodec;
      Advancing(cs);
      if message == [] || message[0] == 0 {
        return false;
      }
      var flags := message[0];
      var cursor := new Cursor(message[1..]);
      var tick := cursor.Read(ReadTick);
      if tick == None {
        return false;
      }
      updateTick := tick.value;
      AbsentSections(cs, flags, cursor.Rest());
      if Has(flags, MAPPINGS) {
        ok := SkipMappings(cursor, flags);
        if !ok {
          return;
        }
      }
      AbsentSections(cs, flags, cursor.Rest());
      if Has(flags, DESPAWNS) {
        ok := ApplyDespawns(cursor, flags);
        if !ok {
          return;
        }
      }
      AbsentSections(cs, flags, cursor.Rest());
      if Has(flags, REMOVALS) {
        ok := ApplyRemovals(cursor, flags, tick.value);
        if !ok {
          return;
        }
      }
      AbsentSections(cs, flags, cursor.Rest());
      if Has(flags, CHANGES) {
        ok := ApplyChanges(cursor, flags, tick.value);
        if !ok {
          return;
        }
      }
      NothingToApply(tick.value);
      ok := true;
    }

    /** Keeps the buffer sorted by tick in descending order. */
    method Insert(b: Buffered)
      modifies this`buffered
      ensures buffered == InsertBuffered(old(buffered), b)
    {
      var i := 0;
      while i < |buffered| && Older(b.messageTick, buffered[i].messageTick)
        invariant 0 <= i <= |buffered| && NewerCount(buffered, b.messageTick) == i + NewerCount(buffered[i..], b.messageTick)
      {
        i := i + 1;
      }
      buffered := buffered[..i] + [b] + buffered[i..];
    }

    /** Returns the index to acknowledge. */
    method BufferMutateMessage(message: Bytes, tracked: bool) returns (index: Option<nat>)
      modifies this`buffered
      ensures
        match ReadHeader(tracked, message)
        case Failure => index == None && buffered == old(buffered)
        case Parsed(h, rest) =>
          && index == Some(h.index)
          && buffered == InsertBuffered(old(buffered), Buffered(h.updateTick, h.tick, h.count, rest))
    {
      hide ReadTick, ReadVarint, InsertBuffered;
      var cursor := new Cursor(message);
      var updateTick' := cursor.Read(ReadTick);
      if updateTick' == None {
        return None;
      }
      var messageTick := cursor.Read(ReadTick);
      if messageTick == None {
        return None;
      }
      var messagesCount := Some(1);
      if tracked {
        messagesCount := cursor.Read(ReadVarint);
        if messagesCount == None {
          return None;
        }
      }
      index := cursor.Read(ReadVarint);
      if index != None {
        Insert(Buffered(updateTick'.value, messageTick.value, messagesCount.value, cursor.Rest()));
      }
    }

    /** Components up to `endPos`. */
    method WriteUntil(cursor: Cursor, e: Entity, tick: U32, endPos: nat) returns (ok: bool)
      requires Suitable(cs) && e in entities && entities[e].confirmed == tick && cursor.position <= |cursor.bytes|
      modifies cursor, this`entities
      ensures endPos > |cursor.bytes| ==> !ok
      ensures endPos <= |cursor.bytes| ==>
        match ReadUntil(cs.component.decode, old(cursor.Rest()), |cursor.bytes| - endPos)
        case Failure => !ok
        case Parsed(xs, rest) =>
          && ok && cursor.Rest() == rest
          && entities == old(entities)[e := ClientEntity(tick, old(entities[e].comps) + CompsOf(xs))]
    {
      hide CompsOf, Behind, ReadUntil;
      ghost var decode, comps, s, done: seq<Component> := cs.component.decode, entities[e].comps, cursor.Rest(), [];
      ghost var left := if endPos <= |cursor.bytes| then |cursor.bytes| - endPos else 0;
      Starts(comps);
      UntilStart(decode, s, left);
      while cursor.position < endPos
        invariant cursor.position <= |cursor.bytes|
        invariant endPos <= |cursor.bytes| ==> Behind(done, ReadUntil(decode, cursor.Rest(), left)) == ReadUntil(decode, s, left)
        invariant e in entities && entities == old(entities)[e := ClientEntity(tick, comps + CompsOf(done))]
        decreases |cursor.Rest()|
      {
        if endPos <= |cursor.bytes| {
          UntilStep(decode, cursor.Rest(), left, done);
        }
        var x := cursor.Read(cs.component.decode);
        if x == None {
          return false;
        }
        OneWritten(old(entities), e, tick, comps, done, x.value);
        entities := entities[e := ClientEntity(tick, entities[e].comps[x.value.0 := x.value.1])];
        done := done + [x.value];
      }
      UntilEnd(decode, cursor.Rest(), left, done);
      ok := true;
    }

    method ReadSize(cursor: Cursor) returns (size: Option<nat>)
      modifies cursor
      ensures
        match ReadVarint(old(cursor.Rest()))
        case Failure => size == None
        case Parsed(n, rest) => size == Some(n) && cursor.Rest() == rest && cursor.position <= |cursor.bytes|
    {
      size := cursor.Read(ReadVarint);
    }

    /** The mutations of one entity, skipped or applied. */
    method ApplyEntityMutations(cursor: Cursor, tick: U32) returns (ok: bool)
      requires Suitable(cs) && cursor.Rest() != []
      modifies cursor, this`entities
      ensures ok ==> |cursor.Rest()| < |old(cursor.Rest())|
      ensures ApplyBody(cs, old(entities), tick, old(cursor.Rest())) ==
        if ok then ApplyBody(cs, entities, tick, cursor.Rest()) else None
    {
      hide ReadEntity, ReadVarint, ReadComponents, ApplyBody, Applied, Skips;
      ApplyBodyUnfolds(cs, entities, tick, cursor.Rest());
      var server := DeserializeEntity(cursor);
      if server == None {
        return false;
      }
      var dataSize := ReadSize(cursor);
      if dataSize == None {
        return false;
      }
      ok := ApplyOrSkip(cursor, server.value, tick, dataSize.value);
    }

    method JumpOver(cursor: Cursor, dataSize: nat)
      requires cursor.position <= |cursor.bytes|
      modifies cursor
      ensures cursor.Rest() == Jump(old(cursor.Rest()), dataSize)
    {
      cursor.position := cursor.position + dataSize;
    }

    /** The components of an entity are jumped over if it is not mapped or has something newer. */
    method ApplyOrSkip(cursor: Cursor, e: Entity, tick: U32, dataSize: nat) returns (ok: bool)
      requires Suitable(cs) && cursor.position <= |cursor.bytes|
      modifies cursor, this`entities
      ensures
        match ReadComponents(cs, Skips(old(entities), tick, e), dataSize, old(cursor.Rest()))
        case Failure => !ok
        case Parsed(xs, rest) => ok && cursor.Rest() == rest && entities == Applied(old(entities), tick, e, xs)
    {
      hide ReadUntil, CompsOf, Newer, Jump;
      if e !in entities || !Newer(tick, entities[e].confirmed) {
        JumpOver(cursor, dataSize);
        return true;
      }
      ok := ApplyComponents(cursor, e, tick, dataSize);
    }

    /** The components of an entity that is not skipped: its tick is confirmed first. */
    method ApplyComponents(cursor: Cursor, e: Entity, tick: U32, dataSize: nat) returns (ok: bool)
      requires Suitable(cs) && e in entities && cursor.position <= |cursor.bytes|
      modifies cursor, this`entities
      ensures
        if dataSize > |old(cursor.Rest())| then !ok
        else match ReadUntil(cs.component.decode, old(cursor.Rest()), |old(cursor.Rest())| - dataSize)
          case Failure => !ok
          case Parsed(xs, rest) =>
            && ok && cursor.Rest() == rest
            && entities == old(entities)[e := ClientEntity(tick, old(entities[e].comps) + CompsOf(xs))]
    {
      hide ReadUntil, CompsOf;
      entities := entities[e := entities[e].(confirmed := tick)];
      ok := WriteUntil(cursor, e, tick, cursor.position + dataSize);
    }

    /** Applies the ready messages and keeps the others. */
    method ApplyMutateMessages() returns (ok: bool)
      requires Suitable(cs)
      modifies this`entities, this`buffered
      ensures
        var (r, kept) := Retain(cs, old(entities), updateTick, old(buffered));
        ok == r.Some? && (ok ==> entities == r.value && buffered == kept)
      ensures buffered == Unready(old(buffered), updateTick)
    {
      hide ApplyBody, Retain, RetainBehind, Newer, Unready;
      var kept, i := [], 0;
      ok := true;
      assert buffered[0..] == buffered;
      RetainStarts(Retain(cs, entities, updateTick, buffered));
      UnreadyStarts(buffered, updateTick);
      while i < |buffered|
        invariant 0 <= i <= |buffered| && buffered == old(buffered)
        invariant ok ==> RetainBehind(kept, Retain(cs, entities, updateTick, buffered[i..])) == Retain(cs, old(entities), updateTick, buffered)
        invariant !ok ==> Retain(cs, old(entities), updateTick, buffered).0.None?
        invariant kept + Unready(buffered[i..], updateTick) == Unready(buffered, updateTick)
      {
        var b := buffered[i];
        assert buffered[i..][1..] == buffered[i + 1..];
        RetainStep(cs, entities, updateTick, buffered[i..], kept);
        UnreadyStep(buffered[i..], updateTick, kept);
        if Newer(b.updateTick, updateTick) {
          kept := kept + [b];
        } else {
          var applied := ApplyWhole(b);
          ok := ok && applied;
        }
        i := i + 1;
      }
      assert buffered[i..] == [];
      RetainEnd(cs, entities, updateTick, kept);
      UnreadyStep([], updateTick, kept);
      buffered := kept;
    }

    function State(acks: seq<nat>): ClientState
      reads this
    {
      ClientState(entities, updateTick, buffered, acks)
    }

    method ApplyUpdateMessages(updates: seq<Bytes>) returns (ok: bool)
      requires Suitable(cs)
      modifies this`entities, this`updateTick
      ensures UpdatesApplied(cs, old(State([])), updates) == if ok then Some(State([])) else None
    {
      hide DecodeUpdate, ApplyParsed;
      var i := 0;
      assert updates[0..] == updates;
      while i < |updates|
        invariant 0 <= i <= |updates|
        invariant UpdatesApplied(cs, State([]), updates[i..]) == UpdatesApplied(cs, old(State([])), updates)
      {
        assert updates[i..][1..] == updates[i + 1..];
        ok := ApplyUpdateMessage(updates[i]);
        if !ok {
          return;
        }
        i := i + 1;
      }
      ok := true;
    }

    method BufferMutateMessages(mutations: seq<Bytes>, tracked: bool) returns (acks: Option<seq<nat>>)
      modifies this`buffered
      ensures MutationsBuffered(old(State([])), tracked, mutations) == if acks.Some? then Some(State(acks.value)) else None
      ensures acks.Some? ==> Acknowledges(acks.value, tracked, mutations)
    {
      hide ReadHeader, InsertBuffered, Acknowledges;
      AllAreAcknowledged(State([]), tracked, mutations);
      var i, sent := 0, [];
      assert mutations[0..] == mutations;
      while i < |mutations|
        invariant 0 <= i <= |mutations|
        invariant MutationsBuffered(State(sent), tracked, mutations[i..]) == MutationsBuffered(old(State([])), tracked, mutations)
      {
        assert mutations[i..][1..] == mutations[i + 1..];
        var index := BufferMutateMessage(mutations[i], tracked);
        if index == None {
          return None;
        }
        sent := sent + [index.value];
        i := i + 1;
      }
      acks := Some(sent);
      assert sent[0..] == sent;
    }

    /** Everything that was received in a frame. The acknowledgements go out before anything buffered is applied. */
    method ApplyReplication(updates: seq<Bytes>, mutations: seq<Bytes>, tracked: bool) returns (ok: bool, acks: seq<nat>)
      requires Suitable(cs)
      modifies this
      ensures FrameApplied(cs, old(State([])), updates, tracked, mutations) == if ok then Some(State(acks)) else None
      ensures ok || acks != [] ==> Acknowledges(acks, tracked, mutations)
    {
      hide UpdatesApplied, MutationsBuffered, Retain, Acknowledges;
      acks := [];
      ok := ApplyUpdateMessages(updates);
      if !ok {
        return;
      }
      var sent := BufferMutateMessages(mutations, tracked);
      if sent == None {
        return false, [];
      }
      acks := sent.value;
      ok := ApplyMutateMessages();
    }

    method ApplyWhole(b: Buffered) returns (ok: bool)
      requires Suitable(cs)
      modifies this`entities
      ensures ApplyBody(cs, old(entities), b.messageTick, b.message) == if ok then Some(entities) else None
    {
      var cursor := new Cursor(b.message);
      while cursor.position < |cursor.bytes|
        invariant ApplyBody(cs, entities, b.messageTick, cursor.Rest()) == ApplyBody(cs, old(entities), b.messageTick, b.message)
        decreases |cursor.Rest()|
      {
        ok := ApplyEntityMutations(cursor, b.messageTick);
        if !ok {
          return;
        }
      }
      ok := true;
    }
  }

  lemma UntilStart<T(!new)>(decode: Bytes -> Parsed<T>, s: Bytes, left: nat)
    requires Advances(decode)
    ensures Behind([], ReadUntil(decode, s, left)) == ReadUntil(decode, s, left)
  {
    match ReadUntil(decode, s, left)
    case Failure =>
    case Parsed(xs, rest) => assert [] + xs == xs;
  }

  lemma UntilEnd<T(!new)>(decode: Bytes -> Parsed<T>, s: Bytes, left: nat, done: seq<T>)
    requires Advances(decode)
    ensures |s| <= left ==> Behind(done, ReadUntil(decode, s, left)) == Parsed(done, s)
  {
    assert done + [] == done;
  }

  lemma UntilStep<T(!new)>(decode: Bytes -> Parsed<T>, s: Bytes, left: nat, done: seq<T>)
    requires Advances(decode) && |s| > left
    ensures decode(s).Failure? ==> Behind(done, ReadUntil(decode, s, left)) == Failure
    ensures decode(s).Parsed? ==>
      Behind(done, ReadUntil(decode, s, left)) == Behind(done + [decode(s).value], ReadUntil(decode, decode(s).rest, left))
  {
    if decode(s).Parsed? {
      var x := decode(s).value;
      match ReadUntil(decode, decode(s).rest, left)
      case Failure =>
      case Parsed(xs, rest) => assert done + ([x] + xs) == done + [x] + xs;
    }
  }

  lemma AbsentSections(cs: Codecs, flags: Byte, s: Bytes)
    requires Suitable(cs) && flags > 0
    ensures Advances(MappingCodec().decode) && Advances(EntityCodec().decode)
    ensures Advances(RemovalCodec(cs).decode) && Advances(ChangeCodec(cs).decode)
    ensures !Has(flags, MAPPINGS) ==> ReadSection(MappingCodec().decode, flags, MAPPINGS, s) == Parsed([], s)
    ensures !Has(flags, DESPAWNS) ==> ReadSection(EntityCodec().decode, flags, DESPAWNS, s) == Parsed([], s)
    ensures !Has(flags, REMOVALS) ==> ReadSection(RemovalCodec(cs).decode, flags, REMOVALS, s) == Parsed([], s)
    ensures !Has(flags, CHANGES) ==> ReadSection(ChangeCodec(cs).decode, flags, CHANGES, s) == Parsed([], s)
  {
    Advancing(cs);
  }

  lemma NothingToApply(tick: nat)
    ensures forall r: Replica :: DespawnAll(r, []) == r && RemoveAll(r, tick, []) == r && ChangeAll(r, tick, []) == r
  {
  }
}
