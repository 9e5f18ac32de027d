/** Collecting despawns and removals, and sending, for all clients (`send_replication` in server.rs). */
module ServerRun {
  import opened Domain
  import opened Visibility
  import opened Wire
  import opened EntitySerde
  import opened UpdateWire
  import opened MutateWire
  import opened SerializedBuffer
  import opened UpdateMessages
  import opened MutateMessages
  import opened Tracker
  import opened Collector
  import opened Collection

  // ---------------------------------------------------------------------------------------------
  // Despawns.

  function WithDespawn(g: Gathered, e: Entity): Gathered {
    g.(content := g.content.(despawns := g.content.despawns + EntityBytes(e), despawnsLen := g.content.despawnsLen + 1))
  }

  /** A despawned entity is reported to a client that sees it, and forgotten. */
  function AfterDespawn(pr: Progress, e: Entity): Progress {
    Progress(if IsVisible(pr.t.filter, e) then WithDespawn(pr.g, e) else pr.g, WithoutEntity(pr.t, e))
  }

  function AfterDespawns(pr: Progress, es: seq<Entity>): Progress {
    if es == [] then pr else AfterDespawn(AfterDespawns(pr, es[..|es| - 1]), es[|es| - 1])
  }

  method Despawn(l: Link, ghost data: Bytes, e: Entity, range: Range, ghost pr: Progress)
    requires ProgressIs(l, data, pr) && range.In(data) && Slice(data, range) == EntityBytes(e)
    modifies l.update`despawns, l.update`despawnsLen, l.client`mutationTicks, l.client.visibility
    ensures ProgressIs(l, data, AfterDespawn(pr, e))
  {
    var view := l.client.visibility.State(e);
    if view != Hidden {
      l.update.AddDespawn(range, data);
    }
    l.client.RemoveDespawned(e);
  }

  /** One despawned entity for all clients. */
  method DespawnForAll(links: seq<Link>, serialized: SerializedData, e: Entity, ghost prs: seq<Progress>)
    returns (ghost prs': seq<Progress>)
    requires Separate(links) && |links| == |prs|
    requires forall j :: 0 <= j < |links| ==> ProgressIs(links[j], serialized.data, prs[j])
    modifies serialized, Updates(links), Clients(links), Filters(links)
    ensures |prs'| == |links| && forall j :: 0 <= j < |links| ==> prs'[j] == AfterDespawn(prs[j], e)
    ensures forall j :: 0 <= j < |links| ==> ProgressIs(links[j], serialized.data, prs'[j])
  {
    hide ProgressIs, AfterDespawn;
    prs' := seq(|links|, j requires 0 <= j < |links| => AfterDespawn(prs[j], e));
    var range := serialized.WriteEntity(e);
    forall j | 0 <= j < |links| ensures ProgressIs(links[j], serialized.data, prs[j]) {
      assert old(ProgressIs(links[j], serialized.data, prs[j]));
      ProgressKept(links[j], old(serialized.data), serialized.data, prs[j]);
    }
    ghost var data := serialized.data;
    var k := 0;
    while k < |links|
      invariant 0 <= k <= |links| && serialized.data == data
      invariant forall j :: k <= j < |links| ==> ProgressIs(links[j], data, prs[j])
      invariant forall j :: 0 <= j < k ==> ProgressIs(links[j], data, prs'[j])
    {
      assert links[k] in links;
      Despawn(links[k], data, e, range, prs[k]);
      k := k + 1;
    }
  }

  function WithDespawns(g: Gathered, es: seq<Entity>): Gathered {
    if es == [] then g else WithDespawn(WithDespawns(g, es[..|es| - 1]), es[|es| - 1])
  }

  /** The entities the client lost sight of, in whatever order the set is iterated. */
  function AfterLost(pr: Progress, order: seq<Entity>): Progress {
    Progress(WithDespawns(pr.g, order), WithoutLost(pr.t))
  }

  ghost predicate Enumerates(order: seq<Entity>, es: set<Entity>) {
    && (forall e :: e in order <==> e in es)
    && (forall i, j :: 0 <= i < j < |order| ==> order[i] != order[j])
  }

  method DespawnLost(l: Link, serialized: SerializedData, ghost pr: Progress) returns (ghost order: seq<Entity>)
    requires ProgressIs(l, serialized.data, pr)
    modifies serialized, l.update`despawns, l.update`despawnsLen, l.client`mutationTicks, l.client.visibility
    ensures old(serialized.data) <= serialized.data && Enumerates(order, Lost(pr.t.filter))
    ensures ProgressIs(l, serialized.data, AfterLost(pr, order))
  {
    var lost := l.client.DrainLostVisibility();
    hide Lost, WithoutLost;
    order := [];
    var rest := lost;
    while rest != {}
      invariant rest <= lost && Enumerates(order, lost - rest) && old(serialized.data) <= serialized.data
      invariant l.client.State() == WithoutLost(pr.t)
      invariant LinkIn(l, serialized.data) && GatheredIn(l, serialized.data) == WithDespawns(pr.g, order)
      decreases rest
    {
      var e :| e in rest;
      ghost var data := serialized.data;
      var range := serialized.WriteEntity(e);
      GatheredKept(l, data, serialized.data);
      l.update.AddDespawn(range, serialized.data);
      assert (order + [e])[..|order|] == order;
      order, rest := order + [e], rest - {e};
    }
    assert lost - rest == lost;
  }

  /** The despawn phase for all clients. */
  method CollectDespawns(links: seq<Link>, serialized: SerializedData, despawned: seq<Entity>, ghost prs: seq<Progress>)
    returns (ghost prs': seq<Progress>, ghost orders: seq<seq<Entity>>)
    requires Separate(links) && |links| == |prs|
    requires forall j :: 0 <= j < |links| ==> ProgressIs(links[j], serialized.data, prs[j])
    modifies serialized, Updates(links), Clients(links), Filters(links)
    ensures |prs'| == |orders| == |links|
    ensures forall j :: 0 <= j < |links| ==>
      Enumerates(orders[j], Lost(AfterDespawns(prs[j], despawned).t.filter))
      && prs'[j] == AfterLost(AfterDespawns(prs[j], despawned), orders[j])
    ensures forall j :: 0 <= j < |links| ==> ProgressIs(links[j], serialized.data, prs'[j])
  {
    hide ProgressIs, AfterDespawn, AfterLost, Enumerates;
    ghost var mid := prs;
    var i := 0;
    while i < |despawned|
      invariant 0 <= i <= |despawned| && |mid| == |links|
      invariant forall j :: 0 <= j < |links| ==> mid[j] == AfterDespawns(prs[j], despawned[..i])
      invariant forall j :: 0 <= j < |links| ==> ProgressIs(links[j], serialized.data, mid[j])
    {
      assert despawned[..i + 1][..i] == despawned[..i];
      mid := DespawnForAll(links, serialized, despawned[i], mid);
      i := i + 1;
    }
    assert despawned[..i] == despawned;
    prs', orders := mid, [];
    var k := 0;
    while k < |links|
      invariant 0 <= k == |orders| <= |links| == |prs'|
      invariant forall j :: 0 <= j < k ==> Enumerates(orders[j], Lost(mid[j].t.filter)) && prs'[j] == AfterLost(mid[j], orders[j])
      invariant forall j :: k <= j < |links| ==> prs'[j] == mid[j]
      invariant forall j :: 0 <= j < |links| ==> ProgressIs(links[j], serialized.data, prs'[j])
    {
      prs', orders := DespawnLostFor(links, k, serialized, prs', orders);
      k := k + 1;
    }
  }

  method DespawnLostFor(links: seq<Link>, k: nat, serialized: SerializedData, ghost prs: seq<Progress>, ghost orders: seq<seq<Entity>>)
    returns (ghost prs': seq<Progress>, ghost orders': seq<seq<Entity>>)
    requires k < |links| == |prs| && Separate(links)
    requires forall j :: 0 <= j < |links| ==> ProgressIs(links[j], serialized.data, prs[j])
    modifies serialized, Updates(links), Clients(links), Filters(links)
    ensures exists order :: Enumerates(order, Lost(prs[k].t.filter)) && orders' == orders + [order] && prs' == prs[k := AfterLost(prs[k], order)]
    ensures forall j :: 0 <= j < |links| ==> ProgressIs(links[j], serialized.data, prs'[j])
  {
    hide ProgressIs, AfterLost, Enumerates;
    assert links[k] in links;
    ghost var order := DespawnLost(links[k], serialized, prs[k]);
    prs', orders' := prs[k := AfterLost(prs[k], order)], orders + [order];
    forall j | 0 <= j < |links| && j != k ensures ProgressIs(links[j], serialized.data, prs[j]) {
      assert old(ProgressIs(links[j], serialized.data, prs[j]));
      ProgressKept(links[j], old(serialized.data), serialized.data, prs[j]);
    }
  }

  // ---------------------------------------------------------------------------------------------
  // Removals.

  function WithRemoval(g: Gathered, c: Codec<FnsId>, removal: (Entity, seq<FnsId>)): Gathered {
    g.(content := g.content.(removals := g.content.removals
      + [Item(EntityBytes(removal.0), |removal.1|, WriteAll(c, removal.1))]))
  }

  function AfterRemoval(c: Codec<FnsId>, pr: Progress, removal: (Entity, seq<FnsId>)): Progress {
    if IsVisible(pr.t.filter, removal.0) then pr.(g := WithRemoval(pr.g, c, removal)) else pr
  }

  function AfterRemovals(c: Codec<FnsId>, pr: Progress, rs: seq<(Entity, seq<FnsId>)>): Progress {
    if rs == [] then pr else AfterRemoval(c, AfterRemovals(c, pr, rs[..|rs| - 1]), rs[|rs| - 1])
  }

  method Remove(l: Link, ghost data: Bytes, ghost c: Codec<FnsId>, removal: (Entity, seq<FnsId>), entity: Range, ids: Range,
                ghost pr: Progress)
    requires ProgressIs(l, data, pr) && entity.In(data) && ids.In(data)
    requires Slice(data, entity) == EntityBytes(removal.0) && Slice(data, ids) == WriteAll(c, removal.1)
    modifies l.update`removals
    ensures ProgressIs(l, data, AfterRemoval(c, pr, removal))
  {
    var view := l.client.visibility.State(removal.0);
    if view != Hidden {
      ghost var before := l.update.removals;
      l.update.AddRemovals(entity, |removal.1|, ids);
      assert RemovalItems(data, l.update.removals) ==
        RemovalItems(data, before) + [Item(EntityBytes(removal.0), |removal.1|, WriteAll(c, removal.1))];
    }
  }

  method CollectRemoval(links: seq<Link>, serialized: SerializedData, c: Codec<FnsId>, removal: (Entity, seq<FnsId>),
                        ghost prs: seq<Progress>) returns (ghost prs': seq<Progress>)
    requires Separate(links) && |links| == |prs|
    requires forall j :: 0 <= j < |links| ==> ProgressIs(links[j], serialized.data, prs[j])
    modifies serialized, Updates(links)
    ensures |prs'| == |links| && forall j :: 0 <= j < |links| ==> prs'[j] == AfterRemoval(c, prs[j], removal)
    ensures forall j :: 0 <= j < |links| ==> ProgressIs(links[j], serialized.data, prs'[j])
  {
    hide ProgressIs, AfterRemoval;
    prs' := seq(|links|, j requires 0 <= j < |links| => AfterRemoval(c, prs[j], removal));
    var entity := serialized.WriteEntity(removal.0);
    var ids := serialized.WriteFnIds(c, removal.1);
    assert old(serialized.data) <= serialized.data;
    forall j | 0 <= j < |links| ensures ProgressIs(links[j], serialized.data, prs[j]) {
      assert old(ProgressIs(links[j], serialized.data, prs[j]));
      ProgressKept(links[j], old(serialized.data), serialized.data, prs[j]);
    }
    ghost var data := serialized.data;
    var k := 0;
    while k < |links|
      invariant 0 <= k <= |links| && serialized.data == data
      invariant forall j :: k <= j < |links| ==> ProgressIs(links[j], data, prs[j])
      invariant forall j :: 0 <= j < k ==> ProgressIs(links[j], data, prs'[j])
    {
      assert links[k] in links;
      Remove(links[k], data, c, removal, entity, ids, prs[k]);
      k := k + 1;
    }
  }

  method CollectRemovals(links: seq<Link>, serialized: SerializedData, c: Codec<FnsId>, removals: seq<(Entity, seq<FnsId>)>,
                         ghost prs: seq<Progress>) returns (ghost prs': seq<Progress>)
    requires Separate(links) && |links| == |prs|
    requires forall j :: 0 <= j < |links| ==> ProgressIs(links[j], serialized.data, prs[j])
    modifies serialized, Updates(links)
    ensures |prs'| == |links| && forall j :: 0 <= j < |links| ==> prs'[j] == AfterRemovals(c, prs[j], removals)
    ensures forall j :: 0 <= j < |links| ==> ProgressIs(links[j], serialized.data, prs'[j])
  {
    hide ProgressIs, AfterRemoval;
    prs' := prs;
    var i := 0;
    while i < |removals|
      invariant 0 <= i <= |removals| && |prs'| == |links|
      invariant forall j :: 0 <= j < |links| ==> prs'[j] == AfterRemovals(c, prs[j], removals[..i])
      invariant forall j :: 0 <= j < |links| ==> ProgressIs(links[j], serialized.data, prs'[j])
    {
      assert removals[..i + 1][..i] == removals[..i];
      prs' := CollectRemoval(links, serialized, c, removals[i], prs');
      i := i + 1;
    }
    assert removals[..i] == removals;
  }

  // ---------------------------------------------------------------------------------------------
  // Sending.

  /** What one client is sent in one run, and what is remembered about it. */
  datatype Sent = Sent(update: Option<Bytes>, mutations: seq<Bytes>, t: Tracked)

  /** The parameters of sending. */
  datatype Clock = Clock(serverTick: nat, thisRun: nat, timestamp: nat, trackMutations: bool)

  function ItemSizes(items: seq<Item>): (sizes: seq<nat>)
    ensures |sizes| == |items|
  {
    seq(|items|, i requires 0 <= i < |items| => |MutationBytes(items[i])|)
  }

  function SentUpdate(pr: Progress, clock: Clock): Option<Bytes> {
    if pr.g.content.IsEmpty() then None else EncodeContent(pr.g.content, TickBytes(WireTick(clock.serverTick)))
  }

  function UpdatedTick(pr: Progress, clock: Clock): Tracked {
    if pr.g.content.IsEmpty() then pr.t else pr.t.(updateTick := clock.serverTick)
  }

  function PlanFor(pr: Progress, clock: Clock): seq<Planned> {
    FinalPlan(ItemSizes(pr.g.mutations), Metadata(clock.trackMutations), pr.t.nextIndex, clock.trackMutations)
  }

  predicate SendsMutations(pr: Progress, clock: Clock) {
    pr.g.mutations != [] || clock.trackMutations
  }

  /** The bytes of the `k`-th mutate message. */
  function SentMutation(pr: Progress, clock: Clock, k: nat): Bytes
    requires k < |PlanFor(pr, clock)| && PlanFits(PlanFor(pr, clock), |pr.g.mutations|)
  {
    assert PlanFor(pr, clock)[k] in PlanFor(pr, clock);
    PlannedBytes(TickBytes(WireTick(UpdatedTick(pr, clock).updateTick)), TickBytes(WireTick(clock.serverTick)),
                 clock.trackMutations, PlanFor(pr, clock), k, pr.g.mutations)
  }

  function SentState(pr: Progress, clock: Clock): Tracked {
    var t := UpdatedTick(pr, clock);
    var plan := PlanFor(pr, clock);
    var t' := if SendsMutations(pr, clock)
              then RegisteredAll(t, clock.thisRun, clock.timestamp, if plan == [] then [[]] else Groups(pr.g.entities, plan))
              else t;
    t'.(filter := Updated(t'.filter))
  }

  ghost predicate SentOk(sent: Sent, pr: Progress, clock: Clock) {
    && sent.update == SentUpdate(pr, clock) && sent.t == SentState(pr, clock)
    && if !SendsMutations(pr, clock) then sent.mutations == []
       else
         && PlanFits(PlanFor(pr, clock), |pr.g.mutations|) && |sent.mutations| == |PlanFor(pr, clock)|
         && forall k :: 0 <= k < |sent.mutations| ==> sent.mutations[k] == SentMutation(pr, clock, k)
  }

  /**
   A client that tracks mutate messages gets at least one for every run, with nothing but a header if there is nothing to
   say, so that it can tell a run it missed from one that was silent. Without tracking silence sends nothing.
   */
  lemma SilentRunIsSentIff(sent: Sent, pr: Progress, clock: Clock)
    requires SentOk(sent, pr, clock) && pr.t.nextIndex < INDEX_SPACE
    ensures sent.mutations == [] <==> pr.g.mutations == [] && !clock.trackMutations
    ensures pr.g.mutations == [] && clock.trackMutations ==>
      |sent.mutations| == 1 && ReadHeader(true, sent.mutations[0]) ==
        Parsed(Header(WireTick(UpdatedTick(pr, clock).updateTick), WireTick(clock.serverTick), 1, pr.t.nextIndex), [])
  {
    hide Numbered, Tiles, PlanOk, FinalPlan, ReadHeader, HeaderBytes, PlanFits;
    var sizes, metadata := ItemSizes(pr.g.mutations), Metadata(clock.trackMutations);
    if pr.g.mutations == [] {
      NothingPlanned(metadata, pr.t.nextIndex, clock.trackMutations);
      assert sizes == [];
      if clock.trackMutations {
        var h := Header(WireTick(UpdatedTick(pr, clock).updateTick), WireTick(clock.serverTick), 1, pr.t.nextIndex);
        HeaderRoundTrip(h, true, []);
      }
    } else {
      PlanIsGreedy(sizes, metadata, pr.t.nextIndex, clock.trackMutations);
    }
  }

  lemma SizesOfItems(data: Bytes, ms: seq<ComponentChanges>)
    requires ChangesIn(ms, data)
    ensures Sizes(ms) == ItemSizes(ItemsIn(data, ms))
  {
    forall i | 0 <= i < |ms| ensures Sizes(ms)[i] == ItemSizes(ItemsIn(data, ms))[i] {
      assert ms[i] in ms;
      SizeIsWritten(data, ms[i]);
    }
  }

  method WriteTickCached(range: Option<Range>, serialized: SerializedData, tick: U32) returns (range': Option<Range>)
    requires Cached(range, serialized.data, TickBytes(tick))
    modifies serialized
    ensures old(serialized.data) <= serialized.data && range'.Some? && Cached(range', serialized.data, TickBytes(tick))
    ensures |serialized.data| + Owed(range', TickBytes(tick)) == |old(serialized.data)| + Owed(range, TickBytes(tick))
  {
    if range.Some? {
      return range;
    }
    var r := serialized.WriteTick(tick);
    range' := Some(r);
  }

  method SendUpdate(l: Link, serialized: SerializedData, range: Option<Range>, clock: Clock, ghost pr: Progress)
    returns (range': Option<Range>, sent: Option<Bytes>)
    requires ProgressIs(l, serialized.data, pr)
    requires Cached(range, serialized.data, TickBytes(WireTick(clock.serverTick)))
    modifies serialized, l.client`updateTick
    ensures old(serialized.data) <= serialized.data && Cached(range', serialized.data, TickBytes(WireTick(clock.serverTick)))
    ensures |serialized.data| + Owed(range', TickBytes(WireTick(clock.serverTick))) == |old(serialized.data)| + Owed(range, TickBytes(WireTick(clock.serverTick)))
    ensures ProgressIs(l, serialized.data, pr.(t := UpdatedTick(pr, clock))) && sent == SentUpdate(pr, clock)
  {
    range', sent := range, None;
    var empty := l.update.IsEmpty(serialized.data);
    if !empty {
      l.client.SetUpdateTick(clock.serverTick);
      range' := WriteTickCached(range, serialized, WireTick(clock.serverTick));
      GatheredKept(l, old(serialized.data), serialized.data);
      sent := l.update.Send(serialized.data, range'.value);
    }
  }

  method SendMutations(l: Link, serialized: SerializedData, range: Option<Range>, clock: Clock, ghost pr: Progress)
    returns (range': Option<Range>, sent: seq<Bytes>)
    requires ProgressIs(l, serialized.data, pr.(t := UpdatedTick(pr, clock))) && pr.t.nextIndex < INDEX_SPACE
    requires Cached(range, serialized.data, TickBytes(WireTick(clock.serverTick)))
    modifies serialized, l.client`mutations, l.client`nextMutateIndex, l.client.visibility
    ensures old(serialized.data) <= serialized.data && Cached(range', serialized.data, TickBytes(WireTick(clock.serverTick)))
    ensures |serialized.data| + Owed(range', TickBytes(WireTick(clock.serverTick))) == |old(serialized.data)| + Owed(range, TickBytes(WireTick(clock.serverTick)))
    ensures l.client.State() == SentState(pr, clock)
    ensures SentOk(Sent(SentUpdate(pr, clock), sent, SentState(pr, clock)), pr, clock)
  {
    range', sent := range, [];
    if l.mutate.mutations != [] || clock.trackMutations {
      range' := WriteTickCached(range, serialized, WireTick(clock.serverTick));
      GatheredKept(l, old(serialized.data), serialized.data);
      SizesOfItems(serialized.data, l.mutate.mutations);
      ghost var plan;
      sent, plan := l.mutate.Send(l.client, serialized.data, clock.trackMutations, range'.value, clock.thisRun, clock.timestamp);
      assert plan == PlanFor(pr, clock);
    }
    l.client.visibility.Update();
  }

  method SendFor(links: seq<Link>, k: nat, serialized: SerializedData, range: Option<Range>, clock: Clock, ghost prs: seq<Progress>)
    returns (range': Option<Range>, sent: Sent)
    requires k < |links| == |prs| && Separate(links) && prs[k].t.nextIndex < INDEX_SPACE
    requires forall j :: k <= j < |links| ==> ProgressIs(links[j], serialized.data, prs[j])
    requires Cached(range, serialized.data, TickBytes(WireTick(clock.serverTick)))
    modifies serialized, links[k].client, links[k].client.visibility
    ensures Cached(range', serialized.data, TickBytes(WireTick(clock.serverTick)))
    ensures |serialized.data| + Owed(range', TickBytes(WireTick(clock.serverTick))) == |old(serialized.data)| + Owed(range, TickBytes(WireTick(clock.serverTick)))
    ensures forall j :: k < j < |links| ==> ProgressIs(links[j], serialized.data, prs[j])
    ensures SentOk(sent, prs[k], clock) && links[k].client.State() == sent.t
  {
    hide ProgressIs, SentState, SentUpdate, UpdatedTick;
    var update, mutations;
    range', update := SendUpdate(links[k], serialized, range, clock, prs[k]);
    range', mutations := SendMutations(links[k], serialized, range', clock, prs[k]);
    sent := Sent(update, mutations, links[k].client.State());
    forall j | k < j < |links| ensures ProgressIs(links[j], serialized.data, prs[j]) {
      assert old(ProgressIs(links[j], serialized.data, prs[j]));
      ProgressKept(links[j], old(serialized.data), serialized.data, prs[j]);
    }
  }

  method SendMessages(links: seq<Link>, serialized: SerializedData, clock: Clock, ghost prs: seq<Progress>) returns (sents: seq<Sent>)
    requires Separate(links) && |links| == |prs| && forall pr <- prs :: pr.t.nextIndex < INDEX_SPACE
    requires forall j :: 0 <= j < |links| ==> ProgressIs(links[j], serialized.data, prs[j])
    modifies serialized, Clients(links), Filters(links)
    ensures |sents| == |links|
    ensures |serialized.data| <= |old(serialized.data)| + 4
    ensures forall j :: 0 <= j < |links| ==> SentOk(sents[j], prs[j], clock) && links[j].client.State() == sents[j].t
  {
    hide ProgressIs, SentOk;
    var range := None;
    sents := [];
    var k := 0;
    while k < |links|
      invariant 0 <= k == |sents| <= |links|
      invariant Cached(range, serialized.data, TickBytes(WireTick(clock.serverTick)))
      invariant |serialized.data| + Owed(range, TickBytes(WireTick(clock.serverTick))) == |old(serialized.data)| + 4
      invariant forall j :: k <= j < |links| ==> ProgressIs(links[j], serialized.data, prs[j])
      invariant forall j :: 0 <= j < k ==> SentOk(sents[j], prs[j], clock) && links[j].client.State() == sents[j].t
    {
      assert links[k] in links && prs[k] in prs;
      var sent;
      range, sent := SendFor(links, k, serialized, range, clock, prs);
      sents := sents + [sent];
      k := k + 1;
    }
  }

  // ---------------------------------------------------------------------------------------------
  // Mappings of entities that a client spawned itself.

  function WithMappings(g: Gathered, mappings: seq<(Entity, Entity)>): Gathered {
    g.(content := g.content.(mappings := WriteAll(MappingCodec(), mappings), mappingsLen := |mappings|))
  }

  method SetMappings(l: Link, serialized: SerializedData, mappings: seq<(Entity, Entity)>, ghost pr: Progress)
    requires ProgressIs(l, serialized.data, pr)
    modifies serialized, l.update`mappings, l.update`mappingsLen
    ensures old(serialized.data) <= serialized.data
    ensures ProgressIs(l, serialized.data, pr.(g := WithMappings(pr.g, mappings)))
  {
    var range := serialized.WriteMappings(mappings);
    GatheredKept(l, old(serialized.data), serialized.data);
    l.update.SetMappings(range, |mappings|);
  }

  /** The mapping phase: each client gets its own new mappings. */
  method CollectMappings(links: seq<Link>, serialized: SerializedData, mappings: seq<seq<(Entity, Entity)>>, ghost prs: seq<Progress>)
    returns (ghost prs': seq<Progress>)
    requires Separate(links) && |links| == |prs| == |mappings|
    requires forall j :: 0 <= j < |links| ==> ProgressIs(links[j], serialized.data, prs[j])
    modifies serialized, Updates(links)
    ensures |prs'| == |links|
    ensures forall j :: 0 <= j < |links| ==> prs'[j] == prs[j].(g := WithMappings(prs[j].g, mappings[j]))
    ensures forall j :: 0 <= j < |links| ==> ProgressIs(links[j], serialized.data, prs'[j])
  {
    hide ProgressIs, WithMappings;
    prs' := prs;
    var k := 0;
    while k < |links|
      invariant 0 <= k <= |links| == |prs'|
      invariant forall j :: 0 <= j < k ==> prs'[j] == prs[j].(g := WithMappings(prs[j].g, mappings[j]))
      invariant forall j :: k <= j < |links| ==> prs'[j] == prs[j]
      invariant forall j :: 0 <= j < |links| ==> ProgressIs(links[j], serialized.data, prs'[j])
    {
      prs' := SetMappingsFor(links, k, serialized, mappings[k], prs');
      k := k + 1;
    }
  }

  method SetMappingsFor(links: seq<Link>, k: nat, serialized: SerializedData, mappings: seq<(Entity, Entity)>, ghost prs: seq<Progress>)
    returns (ghost prs': seq<Progress>)
    requires k < |links| == |prs| && Separate(links)
    requires forall j :: 0 <= j < |links| ==> ProgressIs(links[j], serialized.data, prs[j])
    modifies serialized, Updates(links)
    ensures prs' == prs[k := prs[k].(g := WithMappings(prs[k].g, mappings))]
    ensures forall j :: 0 <= j < |links| ==> ProgressIs(links[j], serialized.data, prs'[j])
  {
    hide ProgressIs, WithMappings;
    assert links[k] in links;
    SetMappings(links[k], serialized, mappings, prs[k]);
    prs' := prs[k := prs[k].(g := WithMappings(prs[k].g, mappings))];
    forall j | 0 <= j < |links| && j != k ensures ProgressIs(links[j], serialized.data, prs[j]) {
      assert old(ProgressIs(links[j], serialized.data, prs[j]));
      ProgressKept(links[j], old(serialized.data), serialized.data, prs[j]);
    }
  }

  // ---------------------------------------------------------------------------------------------
  // The whole run.

  const NOTHING: Gathered := Gathered(Content([], 0, [], 0, [], []), [], [])

  /** What happened in the world since the last run, in the order in which the server goes through it. */
  datatype Events = Events(despawned: seq<Entity>, removals: seq<(Entity, seq<FnsId>)>, rows: seq<Row>)

  /** What concerns one client alone: its new mappings, and the entities it lost sight of, as they are iterated. */
  datatype Own = Own(mappings: seq<(Entity, Entity)>, lost: seq<Entity>)

  function RemovedEntities(removals: seq<(Entity, seq<FnsId>)>): set<Entity> {
    set r | r in removals :: r.0
  }

  function Mapped(own: Own, t: Tracked): Progress {
    Progress(WithMappings(NOTHING, own.mappings), t)
  }

  /** What one client alone is served in a run: its own mappings, despawns, removals and changes. */
  function Served(cs: Codecs, ev: Events, lastRun: nat, thisRun: nat, t: Tracked, own: Own): Progress {
    var despawned := AfterLost(AfterDespawns(Mapped(own, t), ev.despawned), own.lost);
    AfterRows(cs.component, Context(RemovedEntities(ev.removals), lastRun, thisRun),
              AfterRemovals(cs.id, despawned, ev.removals), ev.rows)
  }

  /**
   The run for all clients. Every client is sent exactly the bytes, and is left in exactly the state, that it
   would get if the server served it alone.
   */
  method SendReplication(links: seq<Link>, serialized: SerializedData, cs: Codecs, mappings: seq<seq<(Entity, Entity)>>, ev: Events,
                         lastRun: nat, clock: Clock, ghost ts: seq<Tracked>)
    returns (sents: seq<Sent>, ghost owns: seq<Own>)
    requires Separate(links) && |links| == |ts| == |mappings| && serialized.data == []
    requires forall t <- ts :: t.nextIndex < INDEX_SPACE
    requires forall j :: 0 <= j < |links| ==> ProgressIs(links[j], [], Progress(NOTHING, ts[j]))
    modifies serialized, Updates(links), Mutates(links), Clients(links), Filters(links)
    ensures |sents| == |owns| == |links|
    ensures forall j :: 0 <= j < |links| ==>
      && owns[j].mappings == mappings[j]
      && Enumerates(owns[j].lost, Lost(AfterDespawns(Mapped(owns[j], ts[j]), ev.despawned).t.filter))
      && SentOk(sents[j], Served(cs, ev, lastRun, clock.thisRun, ts[j], owns[j]), clock)
      && links[j].client.State() == sents[j].t
  {
    hide ProgressIs, SentOk, AfterLost, Enumerates, Separate, WithMappings;
    ghost var prs := seq(|links|, j requires 0 <= j < |links| => Progress(NOTHING, ts[j]));
    ghost var orders;
    prs := CollectMappings(links, serialized, mappings, prs);
    prs, orders := CollectDespawns(links, serialized, ev.despawned, prs);
    owns := seq(|links|, j requires 0 <= j < |links| => Own(mappings[j], orders[j]));
    prs := CollectRemovals(links, serialized, cs.id, ev.removals, prs);
    prs := CollectChanges(links, serialized, cs.component, ev.rows, RemovedEntities(ev.removals), lastRun, clock.thisRun, prs);
    forall j | 0 <= j < |links|
      ensures prs[j] == Served(cs, ev, lastRun, clock.thisRun, ts[j], owns[j]) && prs[j].t.nextIndex < INDEX_SPACE
    {
      assert ts[j] in ts;
      ServedKeepsIndex(cs, ev, lastRun, clock.thisRun, ts[j], owns[j]);
    }
    sents := SendMessages(links, serialized, clock, prs);
  }

  lemma {:induction false} RowsKeepIndex(c: Codec<Component>, ctx: Context, pr: Progress, rows: seq<Row>)
    ensures AfterRows(c, ctx, pr, rows).t.nextIndex == pr.t.nextIndex
  {
    if rows != [] {
      RowsKeepIndex(c, ctx, pr, rows[..|rows| - 1]);
    }
  }

  lemma {:induction false} RemovalsKeepTracker(c: Codec<FnsId>, pr: Progress, rs: seq<(Entity, seq<FnsId>)>)
    ensures AfterRemovals(c, pr, rs).t == pr.t
  {
    if rs != [] {
      RemovalsKeepTracker(c, pr, rs[..|rs| - 1]);
    }
  }

  lemma {:induction false} DespawnsKeepIndex(pr: Progress, es: seq<Entity>)
    ensures AfterDespawns(pr, es).t.nextIndex == pr.t.nextIndex
  {
    if es != [] {
      DespawnsKeepIndex(pr, es[..|es| - 1]);
    }
  }

  lemma ServedKeepsIndex(cs: Codecs, ev: Events, lastRun: nat, thisRun: nat, t: Tracked, own: Own)
    ensures Served(cs, ev, lastRun, thisRun, t, own).t.nextIndex == t.nextIndex
  {
    DespawnsKeepIndex(Mapped(own, t), ev.despawned);
    var lost := AfterLost(AfterDespawns(Mapped(own, t), ev.despawned), own.lost);
    RemovalsKeepTracker(cs.id, lost, ev.removals);
    RowsKeepIndex(cs.component, Context(RemovedEntities(ev.removals), lastRun, thisRun), AfterRemovals(cs.id, lost, ev.removals), ev.rows);
  }
}
