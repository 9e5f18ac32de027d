/**
 What the server serves a client in one run is what the protocol says: the same update message, the same mutations
 and the same bookkeeping, whatever the order of entities, components and despawns.
 */
module Selection {
  import opened Domain
  import opened Visibility
  import opened Changes
  import opened Tracker
  import opened Wire
  import opened EntitySerde
  import opened UpdateWire
  import opened Collector
  import opened Collection
  import Protocol

  // ---------------------------------------------------------------------------------------------
  // One entity.

  function CompsOf(xs: seq<Component>): Comps {
    if xs == [] then map[] else CompsOf(xs[..|xs| - 1])[xs[|xs| - 1].0 := xs[|xs| - 1].1]
  }

  function StampedOf(comps: seq<(FnsId, Stamped)>): map<FnsId, Stamped> {
    if comps == [] then map[] else StampedOf(comps[..|comps| - 1])[comps[|comps| - 1].0 := comps[|comps| - 1].1]
  }

  function EntryOf(row: Row): Entry {
    Entry(row.marker, StampedOf(row.comps))
  }

  ghost predicate DistinctIds(comps: seq<(FnsId, Stamped)>) {
    forall i, j :: 0 <= i < j < |comps| ==> comps[i].0 != comps[j].0
  }

  lemma {:induction false} StampedKeys(comps: seq<(FnsId, Stamped)>, id: FnsId)
    requires forall x <- comps :: x.0 != id
    ensures id !in StampedOf(comps)
  {
    if comps != [] {
      assert comps[|comps| - 1] in comps;
      StampedKeys(comps[..|comps| - 1], id);
    }
  }

  lemma {:induction false} CompsOfConcat(xs: seq<Component>, ys: seq<Component>)
    ensures CompsOf(xs + ys) == CompsOf(xs) + CompsOf(ys)
  {
    if ys == [] {
      assert xs + ys == xs;
    } else {
      var all := xs + ys;
      assert all[..|all| - 1] == xs + ys[..|ys| - 1];
      CompsOfConcat(xs, ys[..|ys| - 1]);
    }
  }

  lemma RouteByMarker(marker: nat, comps: map<FnsId, Stamped>, st: Stamped, p: Perspective)
    ensures RouteOf(Entry(marker, comps), st, p) == RouteOf(Entry(marker, map[]), st, p)
  {
  }

  lemma RoutedNext(marker: nat, comps: map<FnsId, Stamped>, id: FnsId, st: Stamped, p: Perspective, r: Route)
    requires id !in comps
    ensures
      var before := Routed(Entry(marker, comps), p, r);
      Routed(Entry(marker, comps[id := st]), p, r) ==
        if RouteOf(Entry(marker, map[]), st, p) == r then before[id := st.value] else before
  {
    hide RouteOf;
    var comps' := comps[id := st];
    forall c | c in comps' ensures RouteOf(Entry(marker, comps'), comps'[c], p) ==
      if c == id then RouteOf(Entry(marker, map[]), st, p) else RouteOf(Entry(marker, comps), comps[c], p)
    {
      RouteByMarker(marker, comps', comps'[c], p);
      if c != id {
        RouteByMarker(marker, comps, comps[c], p);
      }
    }
  }

  /** The components picked in archetype order are the routed ones. */
  lemma {:induction false} PickIsRouted(marker: nat, comps: seq<(FnsId, Stamped)>, p: Perspective, r: Route)
    requires DistinctIds(comps)
    ensures CompsOf(Pick(marker, comps, p, r)) == Routed(Entry(marker, StampedOf(comps)), p, r)
  {
    hide RouteOf, Routed;
    if comps == [] {
      EmptyRouted(marker, p, r);
    } else {
      var init, last := comps[..|comps| - 1], comps[|comps| - 1];
      PickIsRouted(marker, init, p, r);
      StampedKeys(init, last.0);
      RoutedNext(marker, StampedOf(init), last.0, last.1, p, r);
      var xs, ys := Pick(marker, comps, p, r), Pick(marker, init, p, r);
      if RouteOf(Entry(marker, map[]), last.1, p) == r {
        assert xs == ys + [(last.0, last.1.value)] && xs[..|ys|] == ys;
      } else {
        assert xs == ys;
      }
    }
  }

  lemma EmptyRouted(marker: nat, p: Perspective, r: Route)
    ensures Routed(Entry(marker, map[]), p, r) == map[]
  {
  }

  lemma CompsOfNothing(xs: seq<Component>)
    ensures CompsOf(xs) == map[] <==> xs == []
  {
    if xs != [] {
      assert xs[|xs| - 1].0 in CompsOf(xs);
    }
  }

  function AsComps(o: Option<seq<Component>>): Option<Comps> {
    if o.Some? then Some(CompsOf(o.value)) else None
  }

  /** The lists of one entity hold what the classification says. */
  lemma RowIsEntry(row: Row, p: Perspective)
    requires DistinctIds(row.comps)
    ensures AsComps(UpdateSeq(row, p)) == UpdateItem(EntryOf(row), p)
    ensures AsComps(MutateSeq(row, p)) == MutateItem(EntryOf(row), p)
    ensures IsStructural(row, p) <==> Structural(EntryOf(row), p)
  {
    PickIsRouted(row.marker, row.comps, p, ToUpdate);
    PickIsRouted(row.marker, row.comps, p, ToMutate);
    var xs, ys := Pick(row.marker, row.comps, p, ToUpdate), Pick(row.marker, row.comps, p, ToMutate);
    CompsOfConcat(xs, ys);
    CompsOfNothing(xs);
    CompsOfNothing(ys);
    if p.view == Hidden {
      HiddenPicksNothing(row.marker, row.comps, p, ToMutate);
    }
  }

  // ---------------------------------------------------------------------------------------------
  // All entities.

  ghost predicate DistinctRows(rows: seq<Row>) {
    && (forall i, j :: 0 <= i < j < |rows| ==> rows[i].entity != rows[j].entity)
    && (forall row <- rows :: DistinctIds(row.comps))
  }

  function Next(xs: seq<(Entity, seq<Component>)>, e: Entity, o: Option<seq<Component>>): seq<(Entity, seq<Component>)> {
    if o.Some? then xs + [(e, o.value)] else xs
  }

  /** The list of what is selected from each entity. */
  function ListOf(select: Row -> Option<seq<Component>>, rows: seq<Row>): seq<(Entity, seq<Component>)> {
    if rows == [] then []
    else
      var last := rows[|rows| - 1];
      Next(ListOf(select, rows[..|rows| - 1]), last.entity, select(last))
  }

  function ToChanges(xs: seq<(Entity, seq<Component>)>): map<Entity, Comps> {
    if xs == [] then map[] else ToChanges(xs[..|xs| - 1])[xs[|xs| - 1].0 := CompsOf(xs[|xs| - 1].1)]
  }

  function WorldOf(rows: seq<Row>): Protocol.World {
    if rows == [] then map[] else WorldOf(rows[..|rows| - 1])[rows[|rows| - 1].entity := EntryOf(rows[|rows| - 1])]
  }

  lemma {:induction false} WorldHas(rows: seq<Row>, e: Entity)
    requires DistinctRows(rows)
    ensures e in WorldOf(rows) <==> exists row <- rows :: row.entity == e
    ensures forall row <- rows :: row.entity == e ==> WorldOf(rows)[e] == EntryOf(row)
  {
    if rows != [] {
      var init, last := rows[..|rows| - 1], rows[|rows| - 1];
      assert rows == init + [last];
      assert forall row <- init :: row.entity != last.entity;
      WorldHas(init, e);
    }
  }

  lemma {:induction false} ListHas(select: Row -> Option<seq<Component>>, rows: seq<Row>, e: Entity)
    requires DistinctRows(rows)
    ensures
      var m := ToChanges(ListOf(select, rows));
      && (e in m ==> exists row <- rows :: row.entity == e)
      && forall row <- rows :: row.entity == e ==>
           (e in m <==> select(row).Some?) && (e in m ==> m[e] == CompsOf(select(row).value))
  {
    hide CompsOf, DistinctIds;
    if rows != [] {
      var init, last := rows[..|rows| - 1], rows[|rows| - 1];
      assert rows == init + [last];
      assert forall row <- init :: row.entity != last.entity;
      ListHas(select, init, e);
      var xs := ListOf(select, rows);
      if select(last).Some? {
        assert xs[..|xs| - 1] == ListOf(select, init);
      } else {
        assert xs == ListOf(select, init);
      }
    }
  }

  // ---------------------------------------------------------------------------------------------
  // The fold over the entities, from fixed baselines.

  function UpdateSelector(t: Tracked, ctx: Context): Row -> Option<seq<Component>> {
    (row: Row) => UpdateSeq(row, ViewOf(row, t, ctx))
  }

  function MutateSelector(t: Tracked, ctx: Context): Row -> Option<seq<Component>> {
    (row: Row) => MutateSeq(row, ViewOf(row, t, ctx))
  }

  function EntitiesOf(xs: seq<(Entity, seq<Component>)>): (es: seq<Entity>)
    ensures |es| == |xs| && forall i :: 0 <= i < |xs| ==> es[i] == xs[i].0
  {
    seq(|xs|, i requires 0 <= i < |xs| => xs[i].0)
  }

  function Bumped(t: Tracked, ctx: Context, rows: seq<Row>): map<Entity, nat> {
    if rows == [] then t.baseline
    else
      var init, last := Bumped(t, ctx, rows[..|rows| - 1]), rows[|rows| - 1];
      if IsStructural(last, ViewOf(last, t, ctx)) then init[last.entity := ctx.thisRun] else init
  }

  lemma {:induction false} BumpedHas(t: Tracked, ctx: Context, rows: seq<Row>, e: Entity)
    requires DistinctRows(rows)
    ensures forall row <- rows :: row.entity == e ==>
      var structural := IsStructural(row, ViewOf(row, t, ctx));
      var b := Bumped(t, ctx, rows);
      (e in b <==> e in t.baseline || structural) && (e in b ==> b[e] == if structural then ctx.thisRun else t.baseline[e])
    ensures (forall row <- rows :: row.entity != e) ==>
      var b := Bumped(t, ctx, rows);
      (e in b <==> e in t.baseline) && (e in b ==> b[e] == t.baseline[e])
  {
    hide IsStructural, ViewOf, DistinctIds;
    if rows != [] {
      var init, last := rows[..|rows| - 1], rows[|rows| - 1];
      assert rows == init + [last];
      assert forall row <- init :: row.entity != last.entity;
      BumpedHas(t, ctx, init, e);
    }
  }

  function WithLists(g: Gathered, c: Codec<Component>, changes: seq<(Entity, seq<Component>)>, mutations: seq<(Entity, seq<Component>)>)
    : Gathered
  {
    Gathered(g.content.(changes := g.content.changes + Items(c, changes)), g.mutations + Items(c, mutations),
             g.entities + EntitiesOf(mutations))
  }

  lemma {:induction false} ItemsConcat(c: Codec<Component>, xs: seq<(Entity, seq<Component>)>, x: (Entity, seq<Component>))
    ensures Items(c, xs + [x]) == Items(c, xs) + ItemFor(c, x.0, Some(x.1))
  {
    var all := xs + [x];
    forall i | 0 <= i < |all| ensures Items(c, all)[i] == (Items(c, xs) + ItemFor(c, x.0, Some(x.1)))[i] {
    }
  }

  lemma ItemsNext(c: Codec<Component>, base: seq<Item>, xs: seq<(Entity, seq<Component>)>, e: Entity, o: Option<seq<Component>>)
    ensures base + Items(c, xs) + ItemFor(c, e, o) == base + Items(c, Next(xs, e, o))
  {
    hide EntityBytes, WriteAll;
    if o.Some? {
      ItemsConcat(c, xs, (e, o.value));
    }
  }

  lemma EntitiesNext(base: seq<Entity>, xs: seq<(Entity, seq<Component>)>, e: Entity, o: Option<seq<Component>>)
    ensures base + EntitiesOf(xs) + (if o.Some? then [e] else []) == base + EntitiesOf(Next(xs, e, o))
  {
  }

  lemma WithRow(g: Gathered, c: Codec<Component>, changes: seq<(Entity, seq<Component>)>, mutations: seq<(Entity, seq<Component>)>,
                e: Entity, u: Option<seq<Component>>, m: Option<seq<Component>>)
    ensures WithEntity(WithLists(g, c, changes, mutations), c, e, u, m) == WithLists(g, c, Next(changes, e, u), Next(mutations, e, m))
  {
    hide Items, ItemFor, Next, EntitiesOf;
    ItemsNext(c, g.content.changes, changes, e, u);
    ItemsNext(c, g.mutations, mutations, e, m);
    EntitiesNext(g.entities, mutations, e, m);
  }

  lemma WithNothing(g: Gathered, c: Codec<Component>)
    ensures WithLists(g, c, [], []) == g
  {
    assert g.content.changes + Items(c, []) == g.content.changes;
    assert g.mutations + Items(c, []) == g.mutations && g.entities + EntitiesOf([]) == g.entities;
  }

  /** Going through the entities one by one, the baselines change, but not those that are still looked at. */
  lemma {:induction false} RowsAreLists(c: Codec<Component>, ctx: Context, pr: Progress, rows: seq<Row>)
    requires DistinctRows(rows)
    ensures AfterRows(c, ctx, pr, rows) == Progress(
      WithLists(pr.g, c, ListOf(UpdateSelector(pr.t, ctx), rows), ListOf(MutateSelector(pr.t, ctx), rows)),
      pr.t.(baseline := Bumped(pr.t, ctx, rows)))
  {
    hide WithLists, WithEntity, UpdateSeq, MutateSeq, IsStructural, Items, StateOf;
    if rows == [] {
      WithNothing(pr.g, c);
    } else {
      var init, last := rows[..|rows| - 1], rows[|rows| - 1];
      assert rows == init + [last];
      assert forall row <- init :: row.entity != last.entity;
      RowsAreLists(c, ctx, pr, init);
      BumpedHas(pr.t, ctx, init, last.entity);
      var mid := AfterRows(c, ctx, pr, init);
      var p := ViewOf(last, pr.t, ctx);
      assert ViewOf(last, mid.t, ctx) == p;
      WithRow(pr.g, c, ListOf(UpdateSelector(pr.t, ctx), init), ListOf(MutateSelector(pr.t, ctx), init), last.entity,
              UpdateSeq(last, p), MutateSeq(last, p));
    }
  }
}
