/** The loops of `collect_changes` over the entities, their components and the clients. */
module Collection {
  import opened Domain
  import opened Visibility
  import opened Changes
  import opened Wire
  import opened EntitySerde
  import opened UpdateWire
  import opened SerializedBuffer
  import opened UpdateMessages
  import opened MutateMessages
  import opened ReplicatedClients
  import opened Tracker
  import opened Collector

  function Updates(links: seq<Link>): set<UpdateMessage> {
    set l | l in links :: l.update
  }

  function Mutates(links: seq<Link>): set<MutateMessage> {
    set l | l in links :: l.mutate
  }

  function Clients(links: seq<Link>): set<ReplicatedClient> {
    set l | l in links :: l.client
  }

  function Filters(links: seq<Link>): set<ClientVisibility> {
    set l | l in links :: l.client.visibility
  }

  /** Every client has its own messages. */
  ghost predicate Separate(links: seq<Link>) {
    forall i, j :: 0 <= i < j < |links| ==>
      && links[i].update != links[j].update && links[i].mutate != links[j].mutate
      && links[i].client != links[j].client && links[i].client.visibility != links[j].client.visibility
  }

  lemma MidwayAtKept(l: Link, data: Bytes, data': Bytes, g: Gathered, c: Codec<Component>,
                     range: Option<Range>, range': Option<Range>, row: Row, p: Perspective, i: nat)
    requires i <= |row.comps| && MidwayAt(l, data, g, c, range, row, p, i) && data <= data' && (range.Some? ==> range' == range)
    ensures MidwayAt(l, data', g, c, range', row, p, i)
  {
    MidwayKept(l, data, data', g, c, row.entity, range, range', Picked(row, i, p, ToUpdate), Picked(row, i, p, ToMutate));
  }

  /** What it takes to write every component once. */
  function CompsSize(c: Codec<Component>, comps: seq<(FnsId, Stamped)>): nat {
    if comps == [] then 0
    else
      var (id, st) := comps[|comps| - 1];
      CompsSize(c, comps[..|comps| - 1]) + |c.encode((id, st.value))|
  }

  /** What it takes to write every entity once, and every component of it. */
  function RowsSize(c: Codec<Component>, rows: seq<Row>): nat {
    if rows == [] then 0
    else
      var row := rows[|rows| - 1];
      RowsSize(c, rows[..|rows| - 1]) + |EntityBytes(row.entity)| + CompsSize(c, row.comps)
  }

  /** One component for the `k`-th client; the others are left alone. */
  method CollectFor(links: seq<Link>, k: nat, serialized: SerializedData, c: Codec<Component>, row: Row, i: nat, lastRun: nat,
                    markerAdded: bool, entityRange: Option<Range>, componentRange: Option<Range>,
                    ghost gs: seq<Gathered>, ghost ps: seq<Perspective>)
    returns (entityRange': Option<Range>, componentRange': Option<Range>)
    requires k < |links| == |gs| == |ps| && i < |row.comps| && markerAdded == (row.marker > lastRun) && Separate(links)
    requires Sees(links[k], ps[k], row, lastRun)
    requires forall j :: 0 <= j < |links| ==>
      MidwayAt(links[j], serialized.data, gs[j], c, entityRange, row, ps[j], if j < k then i + 1 else i)
    requires Cached(entityRange, serialized.data, EntityBytes(row.entity))
    requires Cached(componentRange, serialized.data, c.encode((row.comps[i].0, row.comps[i].1.value)))
    modifies serialized, links[k].update`changes, links[k].update`entityWritten, links[k].mutate
    ensures old(serialized.data) <= serialized.data && (entityRange.Some? ==> entityRange' == entityRange)
    ensures |serialized.data| + Owed(entityRange', EntityBytes(row.entity))
        + Owed(componentRange', c.encode((row.comps[i].0, row.comps[i].1.value))) ==
      |old(serialized.data)| + Owed(entityRange, EntityBytes(row.entity)) + Owed(componentRange, c.encode((row.comps[i].0, row.comps[i].1.value)))
    ensures Cached(entityRange', serialized.data, EntityBytes(row.entity))
    ensures Cached(componentRange', serialized.data, c.encode((row.comps[i].0, row.comps[i].1.value)))
    ensures forall j :: 0 <= j < |links| ==>
      MidwayAt(links[j], serialized.data, gs[j], c, entityRange', row, ps[j], if j < k + 1 then i + 1 else i)
  {
    hide MidwayAt;
    entityRange', componentRange' :=
      CollectComponent(links[k], serialized, c, row, i, lastRun, markerAdded, entityRange, componentRange, gs[k], ps[k]);
    forall j | 0 <= j < |links|
      ensures MidwayAt(links[j], serialized.data, gs[j], c, entityRange', row, ps[j], if j < k + 1 then i + 1 else i)
    {
      if j != k {
        var n := if j < k then i + 1 else i;
        assert links[j].update != links[k].update && links[j].mutate != links[k].mutate;
        assert old(MidwayAt(links[j], serialized.data, gs[j], c, entityRange, row, ps[j], n));
        MidwayAtKept(links[j], old(serialized.data), serialized.data, gs[j], c, entityRange, entityRange', row, ps[j], n);
      }
    }
  }

  /** One component for all clients. */
  method CollectComponents(links: seq<Link>, serialized: SerializedData, c: Codec<Component>, row: Row, i: nat, lastRun: nat,
                           markerAdded: bool, entityRange: Option<Range>,
                           ghost gs: seq<Gathered>, ghost ps: seq<Perspective>) returns (entityRange': Option<Range>)
    requires |links| == |gs| == |ps| && i < |row.comps| && markerAdded == (row.marker > lastRun) && Separate(links)
    requires forall j :: 0 <= j < |links| ==> Sees(links[j], ps[j], row, lastRun)
    requires forall j :: 0 <= j < |links| ==> MidwayAt(links[j], serialized.data, gs[j], c, entityRange, row, ps[j], i)
    requires Cached(entityRange, serialized.data, EntityBytes(row.entity))
    modifies serialized, Updates(links), Mutates(links)
    ensures old(serialized.data) <= serialized.data && (entityRange.Some? ==> entityRange' == entityRange)
    ensures |serialized.data| + Owed(entityRange', EntityBytes(row.entity)) <=
      |old(serialized.data)| + Owed(entityRange, EntityBytes(row.entity)) + |c.encode((row.comps[i].0, row.comps[i].1.value))|
    ensures Cached(entityRange', serialized.data, EntityBytes(row.entity))
    ensures forall j :: 0 <= j < |links| ==> Sees(links[j], ps[j], row, lastRun)
    ensures forall j :: 0 <= j < |links| ==> MidwayAt(links[j], serialized.data, gs[j], c, entityRange', row, ps[j], i + 1)
  {
    hide MidwayAt;
    entityRange' := entityRange;
    var componentRange := None;
    var k := 0;
    while k < |links|
      invariant 0 <= k <= |links| && old(serialized.data) <= serialized.data && (entityRange.Some? ==> entityRange' == entityRange)
      invariant Cached(entityRange', serialized.data, EntityBytes(row.entity))
      invariant Cached(componentRange, serialized.data, c.encode((row.comps[i].0, row.comps[i].1.value)))
      invariant |serialized.data| + Owed(entityRange', EntityBytes(row.entity))
          + Owed(componentRange, c.encode((row.comps[i].0, row.comps[i].1.value))) ==
        |old(serialized.data)| + Owed(entityRange, EntityBytes(row.entity)) + |c.encode((row.comps[i].0, row.comps[i].1.value))|
      invariant forall j :: 0 <= j < |links| ==> Sees(links[j], ps[j], row, lastRun)
      invariant forall j :: 0 <= j < |links| ==>
        MidwayAt(links[j], serialized.data, gs[j], c, entityRange', row, ps[j], if j < k then i + 1 else i)
    {
      assert links[k] in links;
      entityRange', componentRange :=
        CollectFor(links, k, serialized, c, row, i, lastRun, markerAdded, entityRange', componentRange, gs, ps);
      k := k + 1;
    }
  }

  /** All components for all clients. */
  method CollectAllComponents(links: seq<Link>, serialized: SerializedData, c: Codec<Component>, row: Row, lastRun: nat,
                              markerAdded: bool, ghost gs: seq<Gathered>, ghost ps: seq<Perspective>) returns (range: Option<Range>)
    requires |links| == |gs| == |ps| && markerAdded == (row.marker > lastRun) && Separate(links)
    requires forall j :: 0 <= j < |links| ==> Sees(links[j], ps[j], row, lastRun)
    requires forall j :: 0 <= j < |links| ==> MidwayAt(links[j], serialized.data, gs[j], c, None, row, ps[j], 0)
    modifies serialized, Updates(links), Mutates(links)
    ensures old(serialized.data) <= serialized.data && Cached(range, serialized.data, EntityBytes(row.entity))
    ensures |serialized.data| + Owed(range, EntityBytes(row.entity)) <=
      |old(serialized.data)| + |EntityBytes(row.entity)| + CompsSize(c, row.comps)
    ensures forall j :: 0 <= j < |links| ==> Sees(links[j], ps[j], row, lastRun)
    ensures forall j :: 0 <= j < |links| ==> MidwayAt(links[j], serialized.data, gs[j], c, range, row, ps[j], |row.comps|)
  {
    hide MidwayAt, Sees;
    range := None;
    var i := 0;
    while i < |row.comps|
      invariant 0 <= i <= |row.comps| && old(serialized.data) <= serialized.data
      invariant Cached(range, serialized.data, EntityBytes(row.entity))
      invariant |serialized.data| + Owed(range, EntityBytes(row.entity)) <=
        |old(serialized.data)| + |EntityBytes(row.entity)| + CompsSize(c, row.comps[..i])
      invariant forall j :: 0 <= j < |links| ==> Sees(links[j], ps[j], row, lastRun)
      invariant forall j :: 0 <= j < |links| ==> MidwayAt(links[j], serialized.data, gs[j], c, range, row, ps[j], i)
    {
      assert row.comps[..i + 1][..i] == row.comps[..i];
      range := CollectComponents(links, serialized, c, row, i, lastRun, markerAdded, range, gs, ps);
      i := i + 1;
    }
    assert row.comps[..i] == row.comps;
  }

  // ---------------------------------------------------------------------------------------------
  // One entity for all clients.

  /** What a client has been sent and what is assumed to be known to it. */
  datatype Progress = Progress(g: Gathered, t: Tracked)

  /** The run: entities with removals, and the ticks of the last run and of this one. */
  datatype Context = Context(removed: set<Entity>, lastRun: nat, thisRun: nat)

  function ViewOf(row: Row, t: Tracked, ctx: Context): Perspective {
    Perspective(StateOf(t.filter, row.entity), if row.entity in t.baseline then Some(t.baseline[row.entity]) else None,
                row.entity in ctx.removed, ctx.lastRun)
  }

  /** One entity for one client alone. */
  function AfterRow(c: Codec<Component>, ctx: Context, pr: Progress, row: Row): Progress {
    var p := ViewOf(row, pr.t, ctx);
    Progress(WithEntity(pr.g, c, row.entity, UpdateSeq(row, p), MutateSeq(row, p)),
             if IsStructural(row, p) then pr.t.(baseline := pr.t.baseline[row.entity := ctx.thisRun]) else pr.t)
  }

  ghost predicate ProgressIs(l: Link, data: Bytes, pr: Progress)
    reads l.update, l.mutate, l.client, l.client.visibility
  {
    LinkIn(l, data) && GatheredIn(l, data) == pr.g && l.client.State() == pr.t
  }

  lemma ProgressKept(l: Link, data: Bytes, data': Bytes, pr: Progress)
    requires ProgressIs(l, data, pr) && data <= data'
    ensures ProgressIs(l, data', pr)
  {
    GatheredKept(l, data, data');
  }

  ghost predicate Started(l: Link, data: Bytes, c: Codec<Component>, row: Row, ctx: Context, pr: Progress, p: Perspective)
    reads l.update, l.mutate, l.client, l.client.visibility
  {
    MidwayAt(l, data, pr.g, c, None, row, p, 0) && Sees(l, p, row, ctx.lastRun) && l.client.State() == pr.t
  }

  method Start(l: Link, ghost data: Bytes, ghost c: Codec<Component>, row: Row, ghost ctx: Context, ghost pr: Progress,
               ghost p: Perspective)
    requires ProgressIs(l, data, pr) && p == ViewOf(row, pr.t, ctx)
    modifies l.update`entityVisibility, l.update`entityWritten, l.mutate`mutationsWritten
    ensures Started(l, data, c, row, ctx, pr, p)
  {
    var view := l.client.visibility.State(row.entity);
    l.update.StartEntityChanges(view);
    l.mutate.StartEntityMutations();
    assert row.comps[..0] == [];
    var g := pr.g;
    assert g.content.changes + [] == g.content.changes && g.mutations + [] == g.mutations && g.entities + [] == g.entities;
  }

  /** Before its first component, nothing is written for the entity. */
  method StartRow(links: seq<Link>, ghost data: Bytes, ghost c: Codec<Component>, row: Row, ghost ctx: Context,
                  ghost prs: seq<Progress>, ghost ps: seq<Perspective>)
    requires Separate(links) && |links| == |prs| == |ps|
    requires forall j :: 0 <= j < |links| ==> ProgressIs(links[j], data, prs[j])
    requires forall j :: 0 <= j < |links| ==> ps[j] == ViewOf(row, prs[j].t, ctx)
    modifies Updates(links), Mutates(links)
    ensures forall j :: 0 <= j < |links| ==> Started(links[j], data, c, row, ctx, prs[j], ps[j])
  {
    hide ProgressIs, Started, ViewOf;
    var k := 0;
    while k < |links|
      invariant 0 <= k <= |links|
      invariant forall j :: k <= j < |links| ==> ProgressIs(links[j], data, prs[j])
      invariant forall j :: 0 <= j < k ==> Started(links[j], data, c, row, ctx, prs[j], ps[j])
    {
      assert links[k] in links;
      Start(links[k], data, c, row, ctx, prs[k], ps[k]);
      k := k + 1;
    }
  }

  /** The end of the entity for the `k`-th client; the others are left alone. */
  method FinishFor(links: seq<Link>, k: nat, serialized: SerializedData, c: Codec<Component>, row: Row, removal: bool,
                   thisRun: nat, markerAdded: bool, entityRange: Option<Range>,
                   ghost ctx: Context, ghost prs: seq<Progress>, ghost ps: seq<Perspective>, ghost prs': seq<Progress>)
    returns (entityRange': Option<Range>)
    requires k < |links| == |prs| == |ps| == |prs'| && Separate(links)
    requires markerAdded == (row.marker > ctx.lastRun) && removal == (row.entity in ctx.removed) && thisRun == ctx.thisRun
    requires forall j :: k <= j < |links| ==> MidwayAt(links[j], serialized.data, prs[j].g, c, entityRange, row, ps[j], |row.comps|)
    requires forall j :: 0 <= j < k ==> ProgressIs(links[j], serialized.data, prs'[j])
    requires Sees(links[k], ps[k], row, ctx.lastRun) && links[k].client.State() == prs[k].t
    requires ps[k] == ViewOf(row, prs[k].t, ctx)
    requires prs'[k] == AfterRow(c, ctx, prs[k], row)
    requires Cached(entityRange, serialized.data, EntityBytes(row.entity))
    modifies serialized, links[k].update`changes, links[k].update`entityWritten
    modifies links[k].mutate`entities, links[k].mutate`mutations, links[k].client`mutationTicks
    ensures old(serialized.data) <= serialized.data && (entityRange.Some? ==> entityRange' == entityRange)
    ensures |serialized.data| + Owed(entityRange', EntityBytes(row.entity)) == |old(serialized.data)| + Owed(entityRange, EntityBytes(row.entity))
    ensures Cached(entityRange', serialized.data, EntityBytes(row.entity))
    ensures forall j :: k < j < |links| ==> MidwayAt(links[j], serialized.data, prs[j].g, c, entityRange', row, ps[j], |row.comps|)
    ensures forall j :: 0 <= j < k + 1 ==> ProgressIs(links[j], serialized.data, prs'[j])
  {
    hide MidwayAt, LinkIn, GatheredIn, IsStructural, UpdateSeq, MutateSeq, WithEntity;
    entityRange' := Finish(links[k], serialized, c, row, removal, thisRun, markerAdded, entityRange, prs[k].g, ps[k]);
    forall j | 0 <= j < k ensures ProgressIs(links[j], serialized.data, prs'[j]) {
      assert old(ProgressIs(links[j], serialized.data, prs'[j]));
      ProgressKept(links[j], old(serialized.data), serialized.data, prs'[j]);
    }
    forall j | k < j < |links|
      ensures MidwayAt(links[j], serialized.data, prs[j].g, c, entityRange', row, ps[j], |row.comps|)
    {
      assert old(MidwayAt(links[j], serialized.data, prs[j].g, c, entityRange, row, ps[j], |row.comps|));
      MidwayAtKept(links[j], old(serialized.data), serialized.data, prs[j].g, c, entityRange, entityRange', row, ps[j], |row.comps|);
    }
  }

  method FinishRow(links: seq<Link>, serialized: SerializedData, c: Codec<Component>, row: Row, removal: bool,
                   thisRun: nat, markerAdded: bool, entityRange: Option<Range>,
                   ghost ctx: Context, ghost prs: seq<Progress>, ghost ps: seq<Perspective>, ghost prs': seq<Progress>)
    requires |links| == |prs| == |ps| == |prs'| && Separate(links)
    requires markerAdded == (row.marker > ctx.lastRun) && removal == (row.entity in ctx.removed) && thisRun == ctx.thisRun
    requires forall j :: 0 <= j < |links| ==> MidwayAt(links[j], serialized.data, prs[j].g, c, entityRange, row, ps[j], |row.comps|)
    requires forall j :: 0 <= j < |links| ==> Sees(links[j], ps[j], row, ctx.lastRun) && links[j].client.State() == prs[j].t
    requires forall j :: 0 <= j < |links| ==> ps[j] == ViewOf(row, prs[j].t, ctx)
    requires forall j :: 0 <= j < |links| ==> prs'[j] == AfterRow(c, ctx, prs[j], row)
    requires Cached(entityRange, serialized.data, EntityBytes(row.entity))
    modifies serialized, Updates(links), Mutates(links), Clients(links)
    ensures old(serialized.data) <= serialized.data
    ensures |serialized.data| <= |old(serialized.data)| + Owed(entityRange, EntityBytes(row.entity))
    ensures forall j :: 0 <= j < |links| ==> ProgressIs(links[j], serialized.data, prs'[j])
  {
    hide MidwayAt, ProgressIs, AfterRow, ViewOf;
    var range := entityRange;
    var k := 0;
    while k < |links|
      invariant 0 <= k <= |links| && old(serialized.data) <= serialized.data
      invariant Cached(range, serialized.data, EntityBytes(row.entity))
      invariant |serialized.data| + Owed(range, EntityBytes(row.entity)) == |old(serialized.data)| + Owed(entityRange, EntityBytes(row.entity))
      invariant forall j :: k <= j < |links| ==> MidwayAt(links[j], serialized.data, prs[j].g, c, range, row, ps[j], |row.comps|)
      invariant forall j :: 0 <= j < k ==> ProgressIs(links[j], serialized.data, prs'[j])
      invariant forall j :: k <= j < |links| ==> Sees(links[j], ps[j], row, ctx.lastRun) && links[j].client.State() == prs[j].t
    {
      assert links[k] in links;
      range := FinishFor(links, k, serialized, c, row, removal, thisRun, markerAdded, range, ctx, prs, ps, prs');
      k := k + 1;
    }
  }

  /** One entity for all clients: each is served as if it were alone. */
  method CollectRow(links: seq<Link>, serialized: SerializedData, c: Codec<Component>, row: Row, removal: bool,
                    lastRun: nat, thisRun: nat, ghost ctx: Context, ghost prs: seq<Progress>) returns (ghost prs': seq<Progress>)
    requires Separate(links) && |links| == |prs|
    requires removal == (row.entity in ctx.removed) && lastRun == ctx.lastRun && thisRun == ctx.thisRun
    requires forall j :: 0 <= j < |links| ==> ProgressIs(links[j], serialized.data, prs[j])
    modifies serialized, Updates(links), Mutates(links), Clients(links)
    ensures old(serialized.data) <= serialized.data && |prs'| == |links|
    ensures |serialized.data| <= |old(serialized.data)| + |EntityBytes(row.entity)| + CompsSize(c, row.comps)
    ensures forall j :: 0 <= j < |links| ==> prs'[j] == AfterRow(c, ctx, prs[j], row)
    ensures forall j :: 0 <= j < |links| ==> ProgressIs(links[j], serialized.data, prs'[j])
  {
    hide MidwayAt, AfterRow, ViewOf, Sees;
    assert forall j :: 0 <= j < |links| ==> links[j].client.State() == prs[j].t;
    hide ProgressIs;
    ghost var ps := seq(|links|, j requires 0 <= j < |links| => ViewOf(row, prs[j].t, ctx));
    prs' := seq(|links|, j requires 0 <= j < |links| => AfterRow(c, ctx, prs[j], row));
    StartRow(links, serialized.data, c, row, ctx, prs, ps);
    ghost var gs := seq(|links|, j requires 0 <= j < |links| => prs[j].g);
    var markerAdded := row.marker > lastRun;
    var entityRange := CollectAllComponents(links, serialized, c, row, lastRun, markerAdded, gs, ps);
    FinishRow(links, serialized, c, row, removal, thisRun, markerAdded, entityRange, ctx, prs, ps, prs');
  }

  /** All entities for one client alone. */
  function AfterRows(c: Codec<Component>, ctx: Context, pr: Progress, rows: seq<Row>): Progress {
    if rows == [] then pr else AfterRow(c, ctx, AfterRows(c, ctx, pr, rows[..|rows| - 1]), rows[|rows| - 1])
  }

  /** All entities for all clients: the shared buffer and its cached ranges make no difference to any of them. */
  method CollectChanges(links: seq<Link>, serialized: SerializedData, c: Codec<Component>, rows: seq<Row>, removed: set<Entity>,
                        lastRun: nat, thisRun: nat, ghost prs: seq<Progress>) returns (ghost prs': seq<Progress>)
    requires Separate(links) && |links| == |prs|
    requires forall j :: 0 <= j < |links| ==> ProgressIs(links[j], serialized.data, prs[j])
    modifies serialized, Updates(links), Mutates(links), Clients(links)
    ensures old(serialized.data) <= serialized.data && |prs'| == |links|
    ensures |serialized.data| <= |old(serialized.data)| + RowsSize(c, rows)
    ensures forall j :: 0 <= j < |links| ==> prs'[j] == AfterRows(c, Context(removed, lastRun, thisRun), prs[j], rows)
    ensures forall j :: 0 <= j < |links| ==> ProgressIs(links[j], serialized.data, prs'[j])
  {
    hide ProgressIs, AfterRow;
    ghost var ctx := Context(removed, lastRun, thisRun);
    prs' := prs;
    var i := 0;
    while i < |rows|
      invariant 0 <= i <= |rows| && old(serialized.data) <= serialized.data && |prs'| == |links|
      invariant |serialized.data| <= |old(serialized.data)| + RowsSize(c, rows[..i])
      invariant forall j :: 0 <= j < |links| ==> prs'[j] == AfterRows(c, ctx, prs[j], rows[..i])
      invariant forall j :: 0 <= j < |links| ==> ProgressIs(links[j], serialized.data, prs'[j])
    {
      assert rows[..i + 1][..i] == rows[..i];
      prs' := CollectRow(links, serialized, c, rows[i], rows[i].entity in removed, lastRun, thisRun, ctx, prs');
      i := i + 1;
    }
    assert rows[..i] == rows;
  }
}
