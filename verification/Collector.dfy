/**
 Collecting the changes of an entity into the messages of all clients at once (`collect_changes` in server.rs).

 Every entity and component is serialized at most once; the clients share the ranges of the buffer.
 */
module Collector {
  import opened Domain
  import opened Visibility
  import opened Changes
  import opened Wire
  import opened EntitySerde
  import opened UpdateWire
  import opened SerializedBuffer
  import opened UpdateMessages
  import opened MutateMessages
  import opened ReplicatedClients

  /** An entity of a replicated archetype: the stamp of its marker and its components in archetype order. */
  datatype Row = Row(entity: Entity, marker: nat, comps: seq<(FnsId, Stamped)>)

  /** The messages of a client and the client. */
  datatype Link = Link(update: UpdateMessage, mutate: MutateMessage, client: ReplicatedClient)

  /** What the messages of a client hold. */
  datatype Gathered = Gathered(content: Content, mutations: seq<Item>, entities: seq<Entity>)

  ghost predicate LinkIn(l: Link, data: Bytes)
    reads l.update, l.mutate
  {
    l.update.In(data) && ChangesIn(l.mutate.mutations, data) && |l.mutate.entities| == |l.mutate.mutations|
  }

  ghost function GatheredIn(l: Link, data: Bytes): Gathered
    requires LinkIn(l, data)
    reads l.update, l.mutate
  {
    Gathered(l.update.ContentIn(data), ItemsIn(data, l.mutate.mutations), l.mutate.entities)
  }

  /** Growing the buffer for one client does not change what the messages of another one hold. */
  lemma GatheredKept(l: Link, data: Bytes, data': Bytes)
    requires LinkIn(l, data) && data <= data'
    ensures LinkIn(l, data') && GatheredIn(l, data') == GatheredIn(l, data)
  {
    ChunksKept(data, data', l.update.despawns);
    ItemsKept(data, data', l.update.changes);
    ItemsKept(data, data', l.mutate.mutations);
    RemovalItemsKept(data, data', l.update.removals);
  }

  lemma RemovalItemsKept(data: Bytes, data': Bytes, rs: seq<ComponentRemovals>)
    requires RemovalsIn(rs, data) && data <= data'
    ensures RemovalsIn(rs, data') && RemovalItems(data', rs) == RemovalItems(data, rs)
  {
    forall i | 0 <= i < |rs| ensures rs[i].In(data') && rs[i].ItemIn(data') == rs[i].ItemIn(data) {
      assert rs[i] in rs;
    }
  }

  // ---------------------------------------------------------------------------------------------
  // What one client alone would be sent for the entity.

  /** The components with a given route, in order. */
  function Pick(marker: nat, comps: seq<(FnsId, Stamped)>, p: Perspective, r: Route): seq<Component> {
    if comps == [] then []
    else
      var (id, st) := comps[|comps| - 1];
      Pick(marker, comps[..|comps| - 1], p, r)
      + if RouteOf(Entry(marker, map[]), st, p) == r then [(id, st.value)] else []
  }

  function ItemFor(c: Codec<Component>, e: Entity, o: Option<seq<Component>>): seq<Item> {
    match o
    case None => []
    case Some(xs) => [Item(EntityBytes(e), |xs|, WriteAll(c, xs))]
  }

  function NonEmpty(xs: seq<Component>): Option<seq<Component>> {
    if xs == [] then None else Some(xs)
  }

  /** The messages with one more entity in either of them. */
  function WithEntity(g: Gathered, c: Codec<Component>, e: Entity, update: Option<seq<Component>>, mutate: Option<seq<Component>>)
    : Gathered
  {
    Gathered(g.content.(changes := g.content.changes + ItemFor(c, e, update)),
             g.mutations + ItemFor(c, e, mutate),
             g.entities + if mutate.Some? then [e] else [])
  }

  predicate IsNew(row: Row, p: Perspective) {
    row.marker > p.lastRun || p.view == Gained
  }

  predicate IsStructural(row: Row, p: Perspective) {
    p.view != Hidden && (IsNew(row, p) || Pick(row.marker, row.comps, p, ToUpdate) != [] || p.removal)
  }

  /** The components in the update message: insertions first, then mutations. */
  function UpdateSeq(row: Row, p: Perspective): Option<seq<Component>> {
    var all := Pick(row.marker, row.comps, p, ToUpdate) + Pick(row.marker, row.comps, p, ToMutate);
    if IsStructural(row, p) && (IsNew(row, p) || all != []) then Some(all) else None
  }

  function MutateSeq(row: Row, p: Perspective): Option<seq<Component>> {
    if IsStructural(row, p) then None else NonEmpty(Pick(row.marker, row.comps, p, ToMutate))
  }

  lemma {:induction false} NoMutationsOfNew(marker: nat, comps: seq<(FnsId, Stamped)>, p: Perspective)
    requires p.baseline.None? || marker > p.lastRun || p.view != Visible
    ensures Pick(marker, comps, p, ToMutate) == []
  {
    if comps != [] {
      NoMutationsOfNew(marker, comps[..|comps| - 1], p);
    }
  }

  // ---------------------------------------------------------------------------------------------
  // The state in the middle of an entity.

  ghost predicate Cached(range: Option<Range>, data: Bytes, bytes: Bytes) {
    range.Some? ==> range.value.In(data) && Slice(data, range.value) == bytes
  }

  /** The messages hold what they held before the entity, and the given items of the entity. */
  ghost predicate Midway(l: Link, data: Bytes, g: Gathered, c: Codec<Component>, e: Entity, entityRange: Option<Range>,
                         update: Option<seq<Component>>, mutate: Option<seq<Component>>)
    reads l.update, l.mutate
  {
    && LinkIn(l, data) && GatheredIn(l, data) == WithEntity(g, c, e, update, mutate)
    && l.update.entityWritten == update.Some? && l.mutate.mutationsWritten == mutate.Some?
    && (update.Some? ==> EndsWith(l.update.changes, entityRange)) && (mutate.Some? ==> EndsWith(l.mutate.mutations, entityRange))
  }

  /** The last changes are those of the entity in hand. */
  predicate EndsWith(cs: seq<ComponentChanges>, entityRange: Option<Range>) {
    cs != [] && entityRange == Some(cs[|cs| - 1].entity)
  }

  lemma MidwayKept(l: Link, data: Bytes, data': Bytes, g: Gathered, c: Codec<Component>, e: Entity,
                   range: Option<Range>, range': Option<Range>, update: Option<seq<Component>>, mutate: Option<seq<Component>>)
    requires Midway(l, data, g, c, e, range, update, mutate) && data <= data' && (range.Some? ==> range' == range)
    ensures Midway(l, data', g, c, e, range', update, mutate)
  {
    GatheredKept(l, data, data');
  }

  /** What it would still take to write `bytes`, if they are not in the buffer yet. */
  function Owed(range: Option<Range>, bytes: Bytes): nat {
    if range.Some? then 0 else |bytes|
  }

  method WriteEntityCached(range: Option<Range>, serialized: SerializedData, e: Entity) returns (range': Option<Range>)
    requires Cached(range, serialized.data, EntityBytes(e))
    modifies serialized
    ensures old(serialized.data) <= serialized.data && range'.Some? && (range.Some? ==> range' == range)
    ensures |serialized.data| + Owed(range', EntityBytes(e)) == |old(serialized.data)| + Owed(range, EntityBytes(e))
    ensures Cached(range', serialized.data, EntityBytes(e))
  {
    if range.Some? {
      return range;
    }
    var r := serialized.WriteEntity(e);
    range' := Some(r);
  }

  method WriteComponentCached(range: Option<Range>, serialized: SerializedData, c: Codec<Component>, component: Component)
    returns (range': Option<Range>)
    requires Cached(range, serialized.data, c.encode(component))
    modifies serialized
    ensures old(serialized.data) <= serialized.data && range'.Some? && (range.Some? ==> range' == range)
    ensures |serialized.data| + Owed(range', c.encode(component)) == |old(serialized.data)| + Owed(range, c.encode(component))
    ensures Cached(range', serialized.data, c.encode(component))
  {
    if range.Some? {
      return range;
    }
    var r := serialized.WriteComponent(c, component);
    range' := Some(r);
  }

  lemma ReplaceLast(data: Bytes, cs: seq<ComponentChanges>, base: seq<Item>, last: Item, c': ComponentChanges)
    requires cs != [] && ChangesIn(cs, data) && c'.In(data) && ItemsIn(data, cs) == base + [last]
    ensures cs[|cs| - 1].In(data) && cs[|cs| - 1].ItemIn(data) == last
    ensures
      var cs' := cs[..|cs| - 1] + [c'];
      ChangesIn(cs', data) && ItemsIn(data, cs') == base + [c'.ItemIn(data)]
  {
    var n := |cs| - 1;
    var cs' := cs[..n] + [c'];
    assert cs[n] in cs && ItemsIn(data, cs)[n] == cs[n].ItemIn(data) && (base + [last])[n] == last;
    forall i | 0 <= i < n ensures cs'[i].In(data) && cs'[i].ItemIn(data) == base[i] {
      assert cs[i] in cs && ItemsIn(data, cs)[i] == (base + [last])[i];
    }
  }

  /** One more component behind the last item. */
  lemma AppendComponent(data: Bytes, c: Codec<Component>, e: Entity, cs: seq<ComponentChanges>, base: seq<Item>,
                        xs: seq<Component>, x: Component, r: Range)
    requires cs != [] && ChangesIn(cs, data) && r.In(data) && Slice(data, r) == c.encode(x)
    requires ItemsIn(data, cs) == base + ItemFor(c, e, Some(xs))
    ensures
      var cs' := cs[..|cs| - 1] + [cs[|cs| - 1].AddComponent(r)];
      ChangesIn(cs', data) && ItemsIn(data, cs') == base + ItemFor(c, e, Some(xs + [x]))
  {
    var last := cs[|cs| - 1];
    assert last in cs;
    AddComponentAdds(data, last, r);
    ReplaceLast(data, cs, base, Item(EntityBytes(e), |xs|, WriteAll(c, xs)), last.AddComponent(r));
    WriteNext(c, xs + [x], |xs|);
    assert (xs + [x])[..|xs|] == xs && (xs + [x])[..|xs| + 1] == xs + [x];
  }

  /** A new item without components. */
  lemma AppendEntity(data: Bytes, c: Codec<Component>, e: Entity, cs: seq<ComponentChanges>, r: Range)
    requires ChangesIn(cs, data) && r.In(data) && Slice(data, r) == EntityBytes(e)
    ensures
      var cs' := cs + [ComponentChanges(r, 0, [])];
      ChangesIn(cs', data) && ItemsIn(data, cs') == ItemsIn(data, cs) + ItemFor(c, e, Some([]))
  {
    var cs' := cs + [ComponentChanges(r, 0, [])];
    assert cs'[|cs|].ItemIn(data) == Item(EntityBytes(e), 0, []);
  }

  // ---------------------------------------------------------------------------------------------
  // One component for one client.

  method StartInserted(l: Link, serialized: SerializedData, c: Codec<Component>, e: Entity, range: Option<Range>,
                       ghost g: Gathered, ghost mutate: Option<seq<Component>>) returns (range': Option<Range>)
    requires Midway(l, serialized.data, g, c, e, range, None, mutate) && Cached(range, serialized.data, EntityBytes(e))
    modifies serialized, l.update`changes, l.update`entityWritten
    ensures old(serialized.data) <= serialized.data && range'.Some? && (range.Some? ==> range' == range)
    ensures |serialized.data| + Owed(range', EntityBytes(e)) == |old(serialized.data)| + Owed(range, EntityBytes(e))
    ensures Cached(range', serialized.data, EntityBytes(e))
    ensures Midway(l, serialized.data, g, c, e, range', Some([]), mutate)
  {
    range' := WriteEntityCached(range, serialized, e);
    MidwayKept(l, old(serialized.data), serialized.data, g, c, e, range, range', None, mutate);
    AppendEntity(serialized.data, c, e, l.update.changes, range'.value);
    l.update.AddChangedEntity(range'.value);
  }

  method StartMutated(l: Link, serialized: SerializedData, c: Codec<Component>, e: Entity, range: Option<Range>,
                      ghost g: Gathered, ghost update: Option<seq<Component>>) returns (range': Option<Range>)
    requires Midway(l, serialized.data, g, c, e, range, update, None) && Cached(range, serialized.data, EntityBytes(e))
    modifies serialized, l.mutate
    ensures old(serialized.data) <= serialized.data && range'.Some? && (range.Some? ==> range' == range)
    ensures |serialized.data| + Owed(range', EntityBytes(e)) == |old(serialized.data)| + Owed(range, EntityBytes(e))
    ensures Cached(range', serialized.data, EntityBytes(e))
    ensures Midway(l, serialized.data, g, c, e, range', update, Some([]))
  {
    range' := WriteEntityCached(range, serialized, e);
    MidwayKept(l, old(serialized.data), serialized.data, g, c, e, range, range', update, None);
    AppendEntity(serialized.data, c, e, l.mutate.mutations, range'.value);
    l.mutate.AddMutatedEntity(e, range'.value);
  }

  method AddInserted(l: Link, serialized: SerializedData, c: Codec<Component>, ghost e: Entity, x: Component,
                     componentRange: Option<Range>, ghost range: Option<Range>,
                     ghost g: Gathered, ghost xs: seq<Component>, ghost mutate: Option<seq<Component>>)
    returns (componentRange': Option<Range>)
    requires Midway(l, serialized.data, g, c, e, range, Some(xs), mutate) && Cached(componentRange, serialized.data, c.encode(x))
    modifies serialized, l.update`changes
    ensures old(serialized.data) <= serialized.data && Cached(componentRange', serialized.data, c.encode(x))
    ensures |serialized.data| + Owed(componentRange', c.encode(x)) == |old(serialized.data)| + Owed(componentRange, c.encode(x))
    ensures Midway(l, serialized.data, g, c, e, range, Some(xs + [x]), mutate)
  {
    hide ItemsIn, ItemFor, Chunks, Slice, RemovalItems, ChangesIn, RemovalsIn, AllIn;
    componentRange' := WriteComponentCached(componentRange, serialized, c, x);
    MidwayKept(l, old(serialized.data), serialized.data, g, c, e, range, range, Some(xs), mutate);
    AppendComponent(serialized.data, c, e, l.update.changes, g.content.changes, xs, x, componentRange'.value);
    l.update.AddInsertedComponent(componentRange'.value);
    assert ItemsIn(serialized.data, l.update.changes) == g.content.changes + ItemFor(c, e, Some(xs + [x]));
  }

  method AddMutated(l: Link, serialized: SerializedData, c: Codec<Component>, ghost e: Entity, x: Component,
                    componentRange: Option<Range>, ghost range: Option<Range>,
                    ghost g: Gathered, ghost update: Option<seq<Component>>, ghost xs: seq<Component>)
    returns (componentRange': Option<Range>)
    requires Midway(l, serialized.data, g, c, e, range, update, Some(xs)) && Cached(componentRange, serialized.data, c.encode(x))
    modifies serialized, l.mutate`mutations
    ensures old(serialized.data) <= serialized.data && Cached(componentRange', serialized.data, c.encode(x))
    ensures |serialized.data| + Owed(componentRange', c.encode(x)) == |old(serialized.data)| + Owed(componentRange, c.encode(x))
    ensures Midway(l, serialized.data, g, c, e, range, update, Some(xs + [x]))
  {
    hide ItemsIn, ItemFor, Chunks, Slice, RemovalItems, ChangesIn, RemovalsIn, AllIn, UpdateMessage.In, UpdateMessage.ContentIn;
    componentRange' := WriteComponentCached(componentRange, serialized, c, x);
    MidwayKept(l, old(serialized.data), serialized.data, g, c, e, range, range, update, Some(xs));
    AppendComponent(serialized.data, c, e, l.mutate.mutations, g.mutations, xs, x, componentRange'.value);
    l.mutate.AddMutatedComponent(componentRange'.value);
    assert ItemsIn(serialized.data, l.mutate.mutations) == g.mutations + ItemFor(c, e, Some(xs + [x]));
  }

  /** What a client is sent of the first `i` components. */
  function Picked(row: Row, i: nat, p: Perspective, r: Route): Option<seq<Component>>
    requires i <= |row.comps|
  {
    NonEmpty(Pick(row.marker, row.comps[..i], p, r))
  }

  lemma PickedNext(row: Row, i: nat, p: Perspective, r: Route)
    requires i < |row.comps|
    ensures
      var (id, st) := row.comps[i];
      var xs := Pick(row.marker, row.comps[..i], p, r);
      Picked(row, i + 1, p, r) == if RouteOf(Entry(row.marker, map[]), st, p) == r then Some(xs + [(id, st.value)]) else NonEmpty(xs)
  {
    var xs := Pick(row.marker, row.comps[..i], p, r);
    assert row.comps[..i + 1][..i] == row.comps[..i] && row.comps[..i + 1][i] == row.comps[i];
    assert xs + [] == xs;
  }

  /** `p` is how the client sees the entity. */
  ghost predicate Sees(l: Link, p: Perspective, row: Row, lastRun: nat)
    reads l.update, l.client
  {
    && p.view == l.update.entityVisibility && p.lastRun == lastRun
    && p.baseline == if row.entity in l.client.mutationTicks then Some(l.client.mutationTicks[row.entity]) else None
  }

  ghost predicate MidwayAt(l: Link, data: Bytes, g: Gathered, c: Codec<Component>, range: Option<Range>, row: Row, p: Perspective, i: nat)
    requires i <= |row.comps|
    reads l.update, l.mutate
  {
    Midway(l, data, g, c, row.entity, range, Picked(row, i, p, ToUpdate), Picked(row, i, p, ToMutate))
  }

  method Insert(l: Link, serialized: SerializedData, c: Codec<Component>, e: Entity, x: Component,
                entityRange: Option<Range>, componentRange: Option<Range>,
                ghost g: Gathered, ghost xs: seq<Component>, ghost mutate: Option<seq<Component>>)
    returns (entityRange': Option<Range>, componentRange': Option<Range>)
    requires Midway(l, serialized.data, g, c, e, entityRange, NonEmpty(xs), mutate)
    requires Cached(entityRange, serialized.data, EntityBytes(e)) && Cached(componentRange, serialized.data, c.encode(x))
    modifies serialized, l.update`changes, l.update`entityWritten
    ensures old(serialized.data) <= serialized.data && (entityRange.Some? ==> entityRange' == entityRange)
    ensures |serialized.data| + Owed(entityRange', EntityBytes(e)) + Owed(componentRange', c.encode(x)) ==
      |old(serialized.data)| + Owed(entityRange, EntityBytes(e)) + Owed(componentRange, c.encode(x))
    ensures Cached(entityRange', serialized.data, EntityBytes(e)) && Cached(componentRange', serialized.data, c.encode(x))
    ensures Midway(l, serialized.data, g, c, e, entityRange', Some(xs + [x]), mutate)
  {
    entityRange' := entityRange;
    if !l.update.entityWritten {
      entityRange' := StartInserted(l, serialized, c, e, entityRange, g, mutate);
    }
    componentRange' := AddInserted(l, serialized, c, e, x, componentRange, entityRange', g, xs, mutate);
  }

  method Mutate(l: Link, serialized: SerializedData, c: Codec<Component>, e: Entity, x: Component,
                entityRange: Option<Range>, componentRange: Option<Range>,
                ghost g: Gathered, ghost update: Option<seq<Component>>, ghost xs: seq<Component>)
    returns (entityRange': Option<Range>, componentRange': Option<Range>)
    requires Midway(l, serialized.data, g, c, e, entityRange, update, NonEmpty(xs))
    requires Cached(entityRange, serialized.data, EntityBytes(e)) && Cached(componentRange, serialized.data, c.encode(x))
    modifies serialized, l.mutate
    ensures old(serialized.data) <= serialized.data && (entityRange.Some? ==> entityRange' == entityRange)
    ensures |serialized.data| + Owed(entityRange', EntityBytes(e)) + Owed(componentRange', c.encode(x)) ==
      |old(serialized.data)| + Owed(entityRange, EntityBytes(e)) + Owed(componentRange, c.encode(x))
    ensures Cached(entityRange', serialized.data, EntityBytes(e)) && Cached(componentRange', serialized.data, c.encode(x))
    ensures Midway(l, serialized.data, g, c, e, entityRange', update, Some(xs + [x]))
  {
    entityRange' := entityRange;
    if !l.mutate.mutationsWritten {
      entityRange' := StartMutated(l, serialized, c, e, entityRange, g, update);
    }
    componentRange' := AddMutated(l, serialized, c, e, x, componentRange, entityRange', g, update, xs);
  }

  method CollectComponent(l: Link, serialized: SerializedData, c: Codec<Component>, row: Row, i: nat, lastRun: nat, markerAdded: bool,
                          entityRange: Option<Range>, componentRange: Option<Range>, ghost g: Gathered, ghost p: Perspective)
    returns (entityRange': Option<Range>, componentRange': Option<Range>)
    requires i < |row.comps| && markerAdded == (row.marker > lastRun) && Sees(l, p, row, lastRun)
    requires MidwayAt(l, serialized.data, g, c, entityRange, row, p, i)
    requires Cached(entityRange, serialized.data, EntityBytes(row.entity))
    requires Cached(componentRange, serialized.data, c.encode((row.comps[i].0, row.comps[i].1.value)))
    modifies serialized, l.update`changes, l.update`entityWritten, l.mutate
    ensures old(serialized.data) <= serialized.data && (entityRange.Some? ==> entityRange' == entityRange)
    ensures |serialized.data| + Owed(entityRange', EntityBytes(row.entity)) + Owed(componentRange', c.encode((row.comps[i].0, row.comps[i].1.value))) ==
      |old(serialized.data)| + Owed(entityRange, EntityBytes(row.entity)) + Owed(componentRange, c.encode((row.comps[i].0, row.comps[i].1.value)))
    ensures Cached(entityRange', serialized.data, EntityBytes(row.entity))
    ensures Cached(componentRange', serialized.data, c.encode((row.comps[i].0, row.comps[i].1.value)))
    ensures MidwayAt(l, serialized.data, g, c, entityRange', row, p, i + 1)
  {
    entityRange', componentRange' := entityRange, componentRange;
    var (id, st) := row.comps[i];
    ghost var xs, ys := Pick(row.marker, row.comps[..i], p, ToUpdate), Pick(row.marker, row.comps[..i], p, ToMutate);
    PickedNext(row, i, p, ToUpdate);
    PickedNext(row, i, p, ToMutate);
    if l.update.entityVisibility == Hidden {
      return;
    }
    var tick := l.client.MutationTick(row.entity);
    if tick.Some? && !markerAdded && l.update.entityVisibility != Gained && !(st.added > lastRun) {
      if st.changed > tick.value {
        entityRange', componentRange' :=
          Mutate(l, serialized, c, row.entity, (id, st.value), entityRange, componentRange, g, NonEmpty(xs), ys);
      }
    } else {
      entityRange', componentRange' :=
        Insert(l, serialized, c, row.entity, (id, st.value), entityRange, componentRange, g, xs, NonEmpty(ys));
    }
  }

  // ---------------------------------------------------------------------------------------------
  // The end of an entity for one client.

  function Joined(update: Option<seq<Component>>, mutate: Option<seq<Component>>): Option<seq<Component>> {
    match mutate
    case None => update
    case Some(ys) => Some((if update.Some? then update.value else []) + ys)
  }

  lemma ExtendItem(data: Bytes, c: Codec<Component>, e: Entity, cs: seq<ComponentChanges>, base: seq<Item>,
                   xs: seq<Component>, ys: seq<Component>, other: ComponentChanges)
    requires cs != [] && ChangesIn(cs, data) && other.In(data) && other.ItemIn(data) == Item(EntityBytes(e), |ys|, WriteAll(c, ys))
    requires ItemsIn(data, cs) == base + ItemFor(c, e, Some(xs))
    ensures
      var cs' := cs[..|cs| - 1] + [cs[|cs| - 1].Extend(other)];
      ChangesIn(cs', data) && ItemsIn(data, cs') == base + ItemFor(c, e, Some(xs + ys))
  {
    hide EntityBytes, WriteAll;
    var last := cs[|cs| - 1];
    assert last in cs;
    ExtendAdds(data, last, other);
    ReplaceLast(data, cs, base, Item(EntityBytes(e), |xs|, WriteAll(c, xs)), last.Extend(other));
    WriteAllConcat(c, xs, ys);
  }

  /** The last item. */
  lemma LastItem(data: Bytes, cs: seq<ComponentChanges>, base: seq<Item>, last: Item)
    requires ChangesIn(cs, data) && ItemsIn(data, cs) == base + [last]
    ensures cs != [] && cs[|cs| - 1].In(data) && cs[|cs| - 1].ItemIn(data) == last
    ensures ChangesIn(cs[..|cs| - 1], data) && ItemsIn(data, cs[..|cs| - 1]) == base
  {
    assert |cs| == |base| + 1 && cs[|cs| - 1] in cs;
    assert ItemsIn(data, cs)[|base|] == last;
    assert ItemsIn(data, cs[..|cs| - 1]) == ItemsIn(data, cs)[..|base|];
  }

  /** Mutations of the entity move behind its insertions: into the same item, and never into another entity's. */
  method Take(l: Link, ghost data: Bytes, ghost c: Codec<Component>, ghost e: Entity, ghost range: Option<Range>,
              ghost g: Gathered, ghost update: Option<seq<Component>>, ghost mutate: Option<seq<Component>>)
    requires Midway(l, data, g, c, e, range, update, mutate)
    modifies l.update`changes, l.mutate`entities, l.mutate`mutations
    ensures LinkIn(l, data) && GatheredIn(l, data) == WithEntity(g, c, e, Joined(update, mutate), None)
    ensures mutate.None? ==> Midway(l, data, g, c, e, range, update, None)
  {
    TakeItems(data, c, e, l.update.changes, l.mutate.mutations, l.mutate.entities, g, update, mutate);
    hide ItemsIn, ItemFor, Joined, Chunks, Slice, RemovalItems, ChangesIn, RemovalsIn, AllIn;
    l.update.TakeMutations(l.mutate);
    assert ItemsIn(data, l.update.changes) == g.content.changes + ItemFor(c, e, Joined(update, mutate));
    assert ItemsIn(data, l.mutate.mutations) == g.mutations + ItemFor(c, e, None);
  }

  lemma TakeItems(data: Bytes, c: Codec<Component>, e: Entity, cs: seq<ComponentChanges>, ms: seq<ComponentChanges>, es: seq<Entity>,
                  g: Gathered, update: Option<seq<Component>>, mutate: Option<seq<Component>>)
    requires ChangesIn(cs, data) && ItemsIn(data, cs) == g.content.changes + ItemFor(c, e, update)
    requires ChangesIn(ms, data) && ItemsIn(data, ms) == g.mutations + ItemFor(c, e, mutate)
    requires es == g.entities + if mutate.Some? then [e] else []
    requires |es| == |ms|
    ensures ItemFor(c, e, None) == [] && Joined(update, None) == update
    ensures mutate.Some? ==>
      && ms != [] && ChangesIn(ms[..|ms| - 1], data) && ItemsIn(data, ms[..|ms| - 1]) == g.mutations + []
      && es[..|ms| - 1] == g.entities + [] && (update.Some? ==> cs != [])
    ensures mutate.Some? ==>
      var taken := ms[|ms| - 1];
      var cs' := if update.Some? then cs[..|cs| - 1] + [cs[|cs| - 1].Extend(taken)]
                 else cs + [ComponentChanges(taken.entity, 0, []).Extend(taken)];
      ChangesIn(cs', data) && ItemsIn(data, cs') == g.content.changes + ItemFor(c, e, Joined(update, mutate))
  {
    if mutate.Some? {
      JoinItems(data, c, e, cs, ms, g, update, mutate.value);
      assert es[..|ms| - 1] == g.entities;
    }
  }

  lemma JoinItems(data: Bytes, c: Codec<Component>, e: Entity, cs: seq<ComponentChanges>, ms: seq<ComponentChanges>,
                  g: Gathered, update: Option<seq<Component>>, ys: seq<Component>)
    requires ChangesIn(cs, data) && ItemsIn(data, cs) == g.content.changes + ItemFor(c, e, update)
    requires ChangesIn(ms, data) && ItemsIn(data, ms) == g.mutations + ItemFor(c, e, Some(ys))
    ensures ms != [] && ChangesIn(ms[..|ms| - 1], data) && ItemsIn(data, ms[..|ms| - 1]) == g.mutations
    ensures update.Some? ==> cs != []
    ensures
      var taken := ms[|ms| - 1];
      var cs' := if update.Some? then cs[..|cs| - 1] + [cs[|cs| - 1].Extend(taken)]
                 else cs + [ComponentChanges(taken.entity, 0, []).Extend(taken)];
      ChangesIn(cs', data) && ItemsIn(data, cs') == g.content.changes + ItemFor(c, e, Joined(update, Some(ys)))
  {
    LastItem(data, ms, g.mutations, Item(EntityBytes(e), |ys|, WriteAll(c, ys)));
    var taken := ms[|ms| - 1];
    if update.Some? {
      ExtendItem(data, c, e, cs, g.content.changes, update.value, ys, taken);
    } else {
      assert g.content.changes + [] == g.content.changes;
      AppendEntity(data, c, e, cs, taken.entity);
      var cs' := cs + [ComponentChanges(taken.entity, 0, [])];
      assert cs'[..|cs|] == cs && cs'[|cs|] == ComponentChanges(taken.entity, 0, []);
      ExtendItem(data, c, e, cs', g.content.changes, [], ys, taken);
    }
  }

  lemma {:induction false} HiddenPicksNothing(marker: nat, comps: seq<(FnsId, Stamped)>, p: Perspective, r: Route)
    requires p.view == Hidden && r != Skip
    ensures Pick(marker, comps, p, r) == []
  {
    if comps != [] {
      HiddenPicksNothing(marker, comps[..|comps| - 1], p, r);
    }
  }

  /** The two cases of the end of an entity, in terms of what was picked. */
  lemma FinalItems(row: Row, p: Perspective)
    ensures
      var xs, ys := Picked(row, |row.comps|, p, ToUpdate), Picked(row, |row.comps|, p, ToMutate);
      && (IsStructural(row, p) <==> p.view != Hidden && (IsNew(row, p) || xs.Some? || p.removal))
      && (!IsStructural(row, p) ==> xs == UpdateSeq(row, p) == None && ys == MutateSeq(row, p))
      && (IsStructural(row, p) && !(IsNew(row, p) && xs == None) ==> Joined(xs, ys) == UpdateSeq(row, p))
      && (IsStructural(row, p) && IsNew(row, p) && xs == None ==> ys == None && UpdateSeq(row, p) == Some([]))
      && (IsStructural(row, p) ==> MutateSeq(row, p) == None)
  {
    assert row.comps[..|row.comps|] == row.comps;
    var xs, ys := Pick(row.marker, row.comps, p, ToUpdate), Pick(row.marker, row.comps, p, ToMutate);
    assert [] + ys == ys && xs + [] == xs;
    if p.view == Hidden {
      HiddenPicksNothing(row.marker, row.comps, p, ToUpdate);
    }
    if IsNew(row, p) {
      NoMutationsOfNew(row.marker, row.comps, p);
    }
  }

  method Finish(l: Link, serialized: SerializedData, c: Codec<Component>, row: Row, removal: bool, thisRun: nat, markerAdded: bool,
                entityRange: Option<Range>, ghost g: Gathered, ghost p: Perspective) returns (entityRange': Option<Range>)
    requires MidwayAt(l, serialized.data, g, c, entityRange, row, p, |row.comps|) && Sees(l, p, row, p.lastRun)
    requires markerAdded == (row.marker > p.lastRun) && removal == p.removal
    requires Cached(entityRange, serialized.data, EntityBytes(row.entity))
    modifies serialized, l.update`changes, l.update`entityWritten, l.mutate`entities, l.mutate`mutations, l.client`mutationTicks
    ensures old(serialized.data) <= serialized.data && (entityRange.Some? ==> entityRange' == entityRange)
    ensures |serialized.data| + Owed(entityRange', EntityBytes(row.entity)) == |old(serialized.data)| + Owed(entityRange, EntityBytes(row.entity))
    ensures Cached(entityRange', serialized.data, EntityBytes(row.entity))
    ensures LinkIn(l, serialized.data)
    ensures GatheredIn(l, serialized.data) == WithEntity(g, c, row.entity, UpdateSeq(row, p), MutateSeq(row, p))
    ensures l.client.mutationTicks ==
      if IsStructural(row, p) then old(l.client.mutationTicks)[row.entity := thisRun] else old(l.client.mutationTicks)
  {
    hide EntityBytes, ItemFor, WithEntity;
    FinalItems(row, p);
    entityRange' := entityRange;
    if l.update.entityVisibility == Hidden {
      return;
    }
    ghost var xs, ys := Picked(row, |row.comps|, p, ToUpdate), Picked(row, |row.comps|, p, ToMutate);
    var newEntity := markerAdded || l.update.entityVisibility == Gained;
    if newEntity || l.update.entityWritten || removal {
      Take(l, serialized.data, c, row.entity, entityRange, g, xs, ys);
      l.client.SetMutationTick(row.entity, thisRun);
    }
    if newEntity && !l.update.entityWritten {
      entityRange' := StartInserted(l, serialized, c, row.entity, entityRange, g, None);
    }
  }
}
