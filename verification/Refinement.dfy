/** The bytes that are sent in a run, against the run of the protocol model. */
module Refinement {
  import opened Domain
  import opened Visibility
  import opened Changes
  import opened Messages
  import opened Tracker
  import opened Wire
  import opened EntitySerde
  import opened UpdateWire
  import opened MutateWire
  import opened SerializedBuffer
  import opened MutateMessages
  import opened Collector
  import opened Collection
  import opened ServerRun
  import opened Selection
  import opened Clocks
  import Protocol

  // ---------------------------------------------------------------------------------------------
  // Despawns.

  function VisibleDespawns(t: Tracked, es: seq<Entity>): seq<Entity> {
    if es == [] then []
    else
      var init, e := es[..|es| - 1], es[|es| - 1];
      var before := VisibleDespawns(t, init);
      if IsVisible(Protocol.DespawnEach(t, init).0.filter, e) then before + [e] else before
  }

  function SetOf(es: seq<Entity>): set<Entity> {
    set e | e in es
  }

  lemma {:induction false} DespawnsAreVisible(pr: Progress, es: seq<Entity>)
    ensures AfterDespawns(pr, es) == Progress(WithDespawns(pr.g, VisibleDespawns(pr.t, es)), Protocol.DespawnEach(pr.t, es).0)
    ensures SetOf(VisibleDespawns(pr.t, es)) == Protocol.DespawnEach(pr.t, es).1
  {
    hide WithDespawn, WithoutEntity, IsVisible;
    if es != [] {
      var init, e := es[..|es| - 1], es[|es| - 1];
      DespawnsAreVisible(pr, init);
      var before := VisibleDespawns(pr.t, init);
      assert (before + [e])[..|before|] == before;
      assert SetOf(before + [e]) == SetOf(before) + {e};
    }
  }

  lemma {:induction false} WithDespawnsConcat(g: Gathered, es: seq<Entity>, more: seq<Entity>)
    ensures WithDespawns(WithDespawns(g, es), more) == WithDespawns(g, es + more)
  {
    hide WithDespawn;
    if more == [] {
      assert es + more == es;
    } else {
      WithDespawnsConcat(g, es, more[..|more| - 1]);
      assert (es + more)[..|es + more| - 1] == es + more[..|more| - 1];
    }
  }

  lemma {:induction false} DespawnContent(g: Gathered, es: seq<Entity>)
    requires g.content.despawns == [] && g.content.despawnsLen == 0
    ensures WithDespawns(g, es) ==
      g.(content := g.content.(despawns := WriteAll(EntityCodec(), es), despawnsLen := |es|))
  {
    hide EntityBytes;
    if es != [] {
      var n := |es| - 1;
      DespawnContent(g, es[..n]);
      WriteNext(EntityCodec(), es, n);
      assert es[..n + 1] == es;
    }
  }

  // ---------------------------------------------------------------------------------------------
  // Removals.

  function VisibleRemovals(filter: Filter, rs: seq<(Entity, seq<FnsId>)>): seq<(Entity, seq<FnsId>)> {
    if rs == [] then []
    else
      var init, r := VisibleRemovals(filter, rs[..|rs| - 1]), rs[|rs| - 1];
      if IsVisible(filter, r.0) then init + [r] else init
  }

  lemma {:induction false} RemovalsAreVisible(c: Codec<FnsId>, pr: Progress, rs: seq<(Entity, seq<FnsId>)>)
    requires pr.g.content.removals == []
    ensures AfterRemovals(c, pr, rs) ==
      pr.(g := pr.g.(content := pr.g.content.(removals := Items(c, VisibleRemovals(pr.t.filter, rs)))))
  {
    hide EntityBytes, WriteAll, IsVisible;
    if rs != [] {
      var init, r := rs[..|rs| - 1], rs[|rs| - 1];
      RemovalsAreVisible(c, pr, init);
      var before := VisibleRemovals(pr.t.filter, init);
      assert Items(c, before + [r]) == Items(c, before) + [Item(EntityBytes(r.0), |r.1|, WriteAll(c, r.1))];
    }
  }

  ghost predicate DistinctRemovals(xs: seq<(Entity, seq<FnsId>)>) {
    forall i, j :: 0 <= i < j < |xs| ==> xs[i].0 != xs[j].0
  }

  lemma {:induction false} VisibleRemovalsDistinct(filter: Filter, rs: seq<(Entity, seq<FnsId>)>)
    requires DistinctRemovals(rs)
    ensures DistinctRemovals(VisibleRemovals(filter, rs))
    ensures forall r <- VisibleRemovals(filter, rs) :: r in rs
  {
    hide IsVisible;
    if rs != [] {
      var init, last := rs[..|rs| - 1], rs[|rs| - 1];
      VisibleRemovalsDistinct(filter, init);
      assert rs == init + [last] && forall r <- init :: r.0 != last.0;
    }
  }

  function IdsOf(ids: seq<FnsId>): set<FnsId> {
    set id | id in ids
  }

  function ToRemovals(rs: seq<(Entity, seq<FnsId>)>): map<Entity, set<FnsId>> {
    if rs == [] then map[] else ToRemovals(rs[..|rs| - 1])[rs[|rs| - 1].0 := IdsOf(rs[|rs| - 1].1)]
  }

  lemma RemovedNext(rs: seq<(Entity, seq<FnsId>)>, e: Entity)
    requires rs != []
    ensures e in RemovedEntities(rs) <==> e in RemovedEntities(rs[..|rs| - 1]) || e == rs[|rs| - 1].0
  {
    assert rs == rs[..|rs| - 1] + [rs[|rs| - 1]];
    assert rs[|rs| - 1] in rs;
  }

  lemma ToRemovalsNext(xs: seq<(Entity, seq<FnsId>)>, x: (Entity, seq<FnsId>))
    ensures ToRemovals(xs + [x]) == ToRemovals(xs)[x.0 := IdsOf(x.1)]
  {
    assert (xs + [x])[..|xs|] == xs;
  }

  lemma {:induction false} RemovalKeys(filter: Filter, rs: seq<(Entity, seq<FnsId>)>, e: Entity)
    ensures e in ToRemovals(VisibleRemovals(filter, rs)) <==> IsVisible(filter, e) && e in RemovedEntities(rs)
  {
    hide IsVisible, IdsOf;
    if rs != [] {
      var init, last := rs[..|rs| - 1], rs[|rs| - 1];
      RemovalKeys(filter, init, e);
      RemovedNext(rs, e);
      ToRemovalsNext(VisibleRemovals(filter, init), last);
      hide ToRemovals, RemovedEntities;
    }
  }

  lemma VisibleNext(filter: Filter, rs: seq<(Entity, seq<FnsId>)>)
    requires rs != []
    ensures
      var init, last := VisibleRemovals(filter, rs[..|rs| - 1]), rs[|rs| - 1];
      VisibleRemovals(filter, rs) == if IsVisible(filter, last.0) then init + [last] else init
  {
    hide IsVisible;
  }

  lemma DistinctInit(rs: seq<(Entity, seq<FnsId>)>)
    requires DistinctRemovals(rs) && rs != []
    ensures DistinctRemovals(rs[..|rs| - 1])
  {
  }

  lemma {:induction false} RemovalValues(filter: Filter, rs: seq<(Entity, seq<FnsId>)>, r: (Entity, seq<FnsId>))
    requires DistinctRemovals(rs) && r in rs && IsVisible(filter, r.0)
    ensures r.0 in ToRemovals(VisibleRemovals(filter, rs)) && ToRemovals(VisibleRemovals(filter, rs))[r.0] == IdsOf(r.1)
  {
    hide DistinctRemovals, IsVisible, IdsOf, VisibleRemovals, ToRemovals;
    var init, last := rs[..|rs| - 1], rs[|rs| - 1];
    VisibleNext(filter, rs);
    ToRemovalsNext(VisibleRemovals(filter, init), last);
    if r != last {
      DistinctInit(rs);
      OtherRemoval(rs, r);
      RemovalValues(filter, init, r);
    }
  }

  lemma OtherRemoval(rs: seq<(Entity, seq<FnsId>)>, r: (Entity, seq<FnsId>))
    requires DistinctRemovals(rs) && r in rs && r != rs[|rs| - 1]
    ensures r in rs[..|rs| - 1] && r.0 != rs[|rs| - 1].0
  {
    var i :| 0 <= i < |rs| && rs[i] == r;
    assert rs[..|rs| - 1][i] == r;
  }

  lemma RemovalsHave(filter: Filter, rs: seq<(Entity, seq<FnsId>)>, e: Entity)
    requires DistinctRemovals(rs)
    ensures
      var m := ToRemovals(VisibleRemovals(filter, rs));
      && (e in m <==> IsVisible(filter, e) && e in RemovedEntities(rs))
      && forall r <- rs :: r.0 == e && e in m ==> m[e] == IdsOf(r.1)
  {
    hide ToRemovals, VisibleRemovals, IsVisible, IdsOf, DistinctRemovals, RemovedEntities;
    RemovalKeys(filter, rs, e);
    forall r <- rs | r.0 == e && e in ToRemovals(VisibleRemovals(filter, rs))
      ensures ToRemovals(VisibleRemovals(filter, rs))[e] == IdsOf(r.1)
    {
      RemovalValues(filter, rs, r);
    }
  }

  // ---------------------------------------------------------------------------------------------
  // The run.

  /** The events are those of the server state, in some order. */
  ghost predicate Reflects(ev: Events, s: Protocol.Server) {
    && DistinctRows(ev.rows) && s.world == WorldOf(ev.rows) && s.despawned == ev.despawned
    && DistinctRemovals(ev.removals)
    && (forall e :: e in RemovedEntities(ev.removals) <==> Protocol.RemovalsOf(s, e) != {})
    && (forall r <- ev.removals :: IdsOf(r.1) == Protocol.RemovalsOf(s, r.0))
  }

  function ContextOf(ev: Events, s: Protocol.Server, tick: nat): Context {
    Context(RemovedEntities(ev.removals), s.tick, tick)
  }

  /** The update message in terms of lists. */
  function UpdateFor(ev: Events, s: Protocol.Server, tick: nat, own: Own): Update {
    var t1 := Protocol.DespawnPhase(s.tracked, s.despawned).0;
    Update(WireTick(tick), own.mappings, VisibleDespawns(s.tracked, ev.despawned) + own.lost, VisibleRemovals(t1.filter, ev.removals),
           ListOf(UpdateSelector(t1, ContextOf(ev, s, tick)), ev.rows))
  }

  function MutationsFor(ev: Events, s: Protocol.Server, tick: nat): seq<(Entity, seq<Component>)> {
    var t1 := Protocol.DespawnPhase(s.tracked, s.despawned).0;
    ListOf(MutateSelector(t1, ContextOf(ev, s, tick)), ev.rows)
  }

  /** What a parsed update message says. */
  function AsMessage(u: Update, tick: nat): UpdateMsg {
    UpdateMsg(tick, SetOf(u.despawns), ToRemovals(u.removals), ToChanges(u.changes))
  }

  lemma ViewIsPerspective(ev: Events, s: Protocol.Server, t: Tracked, tick: nat, row: Row)
    requires Reflects(ev, s) && row in ev.rows
    ensures row.entity in s.world && s.world[row.entity] == EntryOf(row)
    ensures ViewOf(row, t, ContextOf(ev, s, tick)) == Protocol.PerspectiveOf(s, t, row.entity)
  {
    WorldHas(ev.rows, row.entity);
  }

  lemma UpdateChanges(ev: Events, s: Protocol.Server, t: Tracked, tick: nat, despawns: set<Entity>)
    requires Reflects(ev, s)
    ensures ToChanges(ListOf(UpdateSelector(t, ContextOf(ev, s, tick)), ev.rows)) == Protocol.CollectUpdate(s, t, despawns, tick).changes
  {
    hide UpdateSeq, UpdateItem, ViewOf, EntryOf;
    var select := UpdateSelector(t, ContextOf(ev, s, tick));
    var m, m' := ToChanges(ListOf(select, ev.rows)), Protocol.CollectUpdate(s, t, despawns, tick).changes;
    forall e ensures (e in m <==> e in m') && (e in m ==> m[e] == m'[e]) {
      ListHas(select, ev.rows, e);
      WorldHas(ev.rows, e);
      if row :| row in ev.rows && row.entity == e {
        ViewIsPerspective(ev, s, t, tick, row);
        RowIsEntry(row, ViewOf(row, t, ContextOf(ev, s, tick)));
      }
    }
  }

  lemma MutateChanges(ev: Events, s: Protocol.Server, t: Tracked, tick: nat)
    requires Reflects(ev, s)
    ensures ToChanges(ListOf(MutateSelector(t, ContextOf(ev, s, tick)), ev.rows)) == Protocol.CollectMutations(s, t)
  {
    hide MutateSeq, MutateItem, ViewOf, EntryOf;
    var select := MutateSelector(t, ContextOf(ev, s, tick));
    var m, m' := ToChanges(ListOf(select, ev.rows)), Protocol.CollectMutations(s, t);
    forall e ensures (e in m <==> e in m') && (e in m ==> m[e] == m'[e]) {
      ListHas(select, ev.rows, e);
      WorldHas(ev.rows, e);
      if row :| row in ev.rows && row.entity == e {
        ViewIsPerspective(ev, s, t, tick, row);
        RowIsEntry(row, ViewOf(row, t, ContextOf(ev, s, tick)));
      }
    }
  }

  lemma UpdateRemovals(ev: Events, s: Protocol.Server, t: Tracked, tick: nat, despawns: set<Entity>)
    requires Reflects(ev, s)
    ensures ToRemovals(VisibleRemovals(t.filter, ev.removals)) == Protocol.CollectUpdate(s, t, despawns, tick).removals
  {
    hide IsVisible, IdsOf;
    var m, m' := ToRemovals(VisibleRemovals(t.filter, ev.removals)), Protocol.CollectUpdate(s, t, despawns, tick).removals;
    forall e ensures (e in m <==> e in m') && (e in m ==> m[e] == m'[e]) {
      RemovalsHave(t.filter, ev.removals, e);
      if e in RemovedEntities(ev.removals) {
        var r :| r in ev.removals && r.0 == e;
      }
    }
  }

  lemma BaselinesBumped(ev: Events, s: Protocol.Server, t: Tracked, tick: nat)
    requires Reflects(ev, s)
    ensures Bumped(t, ContextOf(ev, s, tick), ev.rows) == Protocol.BumpBaselines(s, t, tick)
  {
    hide IsStructural, Structural, ViewOf, EntryOf;
    var ctx := ContextOf(ev, s, tick);
    var b, b' := Bumped(t, ctx, ev.rows), Protocol.BumpBaselines(s, t, tick);
    forall e ensures (e in b <==> e in b') && (e in b ==> b[e] == b'[e]) {
      BumpedHas(t, ctx, ev.rows, e);
      WorldHas(ev.rows, e);
      if row :| row in ev.rows && row.entity == e {
        ViewIsPerspective(ev, s, t, tick, row);
        RowIsEntry(row, ViewOf(row, t, ctx));
      }
    }
  }

  /** What one client is served, on the clock of change ticks. */
  lemma ServedIsCollected(cs: Codecs, ev: Events, s: Protocol.Server, tick: nat, own: Own)
    requires Reflects(ev, s) && Enumerates(own.lost, Lost(Protocol.DespawnEach(s.tracked, s.despawned).0.filter))
    ensures
      var (t1, despawns) := Protocol.DespawnPhase(s.tracked, s.despawned);
      var u, ms := UpdateFor(ev, s, tick, own), MutationsFor(ev, s, tick);
      && Served(cs, ev, s.tick, tick, s.tracked, own) == Progress(
           Gathered(ContentOf(cs, u), Items(cs.component, ms), EntitiesOf(ms)),
           t1.(baseline := Protocol.BumpBaselines(s, t1, tick)))
      && AsMessage(u, tick) == Protocol.CollectUpdate(s, t1, despawns, tick)
      && ToChanges(ms) == Protocol.CollectMutations(s, t1)
  {
    hide Served, Protocol.DespawnPhase, Protocol.DespawnEach, Protocol.CollectUpdate, Protocol.CollectMutations;
    ServedHolds(cs, ev, s, tick, own);
    ServedMeans(ev, s, tick, own);
  }

  lemma ServedHolds(cs: Codecs, ev: Events, s: Protocol.Server, tick: nat, own: Own)
    requires Reflects(ev, s)
    ensures
      var (t1, despawns) := Protocol.DespawnPhase(s.tracked, s.despawned);
      var u, ms := UpdateFor(ev, s, tick, own), MutationsFor(ev, s, tick);
      Served(cs, ev, s.tick, tick, s.tracked, own) == Progress(
        Gathered(ContentOf(cs, u), Items(cs.component, ms), EntitiesOf(ms)),
        t1.(baseline := Protocol.BumpBaselines(s, t1, tick)))
  {
    hide AfterRows, AfterRemovals, Items, WriteAll, Protocol.CollectMutations, Protocol.BumpBaselines, ListOf;
    var (t1, despawns) := Protocol.DespawnPhase(s.tracked, s.despawned);
    var ctx := ContextOf(ev, s, tick);
    var l, g := VisibleDespawns(s.tracked, ev.despawned), WithMappings(NOTHING, own.mappings);
    DespawnsAreVisible(Mapped(own, s.tracked), ev.despawned);
    WithDespawnsConcat(g, l, own.lost);
    DespawnContent(g, l + own.lost);
    var pr1 := Progress(WithDespawns(g, l + own.lost), t1);
    assert AfterLost(AfterDespawns(Mapped(own, s.tracked), ev.despawned), own.lost) == pr1;
    RemovalsAreVisible(cs.id, pr1, ev.removals);
    var pr2 := AfterRemovals(cs.id, pr1, ev.removals);
    RowsAreLists(cs.component, ctx, pr2, ev.rows);
    EmptyBase(cs, ListOf(UpdateSelector(t1, ctx), ev.rows), ListOf(MutateSelector(t1, ctx), ev.rows));
    BaselinesBumped(ev, s, t1, tick);
  }

  lemma ServedMeans(ev: Events, s: Protocol.Server, tick: nat, own: Own)
    requires Reflects(ev, s) && Enumerates(own.lost, Lost(Protocol.DespawnEach(s.tracked, s.despawned).0.filter))
    ensures
      var (t1, despawns) := Protocol.DespawnPhase(s.tracked, s.despawned);
      && AsMessage(UpdateFor(ev, s, tick, own), tick) == Protocol.CollectUpdate(s, t1, despawns, tick)
      && ToChanges(MutationsFor(ev, s, tick)) == Protocol.CollectMutations(s, t1)
  {
    hide Protocol.CollectMutations, ListOf;
    var (t1, despawns) := Protocol.DespawnPhase(s.tracked, s.despawned);
    var l := VisibleDespawns(s.tracked, ev.despawned);
    DespawnsAreVisible(Mapped(own, s.tracked), ev.despawned);
    UpdateChanges(ev, s, t1, tick, despawns);
    UpdateRemovals(ev, s, t1, tick, despawns);
    MutateChanges(ev, s, t1, tick);
    assert SetOf(l + own.lost) == SetOf(l) + SetOf(own.lost) == despawns;
  }

  lemma EmptyBase(cs: Codecs, changes: seq<(Entity, seq<Component>)>, mutations: seq<(Entity, seq<Component>)>)
    ensures [] + Items(cs.component, changes) == Items(cs.component, changes)
    ensures [] + Items(cs.component, mutations) == Items(cs.component, mutations) && [] + EntitiesOf(mutations) == EntitiesOf(mutations)
  {
  }

  /**
   A run at server tick `clock.serverTick`, whose change tick is `clock.thisRun`. The server is `c` on the clock of
   change ticks and `a` on that of server ticks, `runs` are the earlier runs, and `ev` is what the run goes through.
   */
  ghost predicate RunOf(ev: Events, runs: Runs, a: Protocol.Server, c: Protocol.Server, clock: Clock, own: Own) {
    && Reflects(ev, c) && Relabels(runs, a, c) && Later(runs, clock.serverTick, clock.thisRun)
    && Enumerates(own.lost, Lost(Protocol.DespawnEach(c.tracked, c.despawned).0.filter))
  }

  function NextRuns(runs: Runs, clock: Clock): Runs {
    runs[clock.serverTick := clock.thisRun]
  }

  function ServedIn(cs: Codecs, ev: Events, c: Protocol.Server, clock: Clock, own: Own): Progress {
    Served(cs, ev, c.tick, clock.thisRun, c.tracked, own)
  }

  lemma SameTick(s: Protocol.Server, t: Tracked, despawns: set<Entity>, tick: nat, other: nat)
    ensures Protocol.CollectUpdate(s, t, despawns, tick).(tick := other) == Protocol.CollectUpdate(s, t, despawns, other)
  {
  }

  lemma AsMessageTick(u: Update, tick: nat, other: nat)
    ensures AsMessage(u, tick).(tick := other) == AsMessage(u, other)
  {
  }

  /**
   What one client is served in a run is the run of the protocol: the pieces of its update message are those of
   the private encoding of the protocol's update, its mutations are the protocol's, and so are its baselines, in terms
   of the change ticks of the runs.
   */
  lemma ServedIsReplicated(cs: Codecs, ev: Events, runs: Runs, a: Protocol.Server, c: Protocol.Server, clock: Clock, own: Own)
    requires RunOf(ev, runs, a, c, clock, own)
    ensures
      var (t1, despawns) := Protocol.DespawnPhase(a.tracked, a.despawned);
      var u, ms := UpdateFor(ev, c, clock.thisRun, own), MutationsFor(ev, c, clock.thisRun);
      var t2 := t1.(baseline := Protocol.BumpBaselines(a, t1, clock.serverTick));
      && ServedIn(cs, ev, c, clock, own) == Progress(
           Gathered(ContentOf(cs, u), Items(cs.component, ms), EntitiesOf(ms)), Labelled(NextRuns(runs, clock), t2))
      && InRuns(NextRuns(runs, clock), t2)
      && AsMessage(u, clock.serverTick) == Protocol.CollectUpdate(a, t1, despawns, clock.serverTick)
      && ToChanges(ms) == Protocol.CollectMutations(a, t1)
  {
    hide Served, ContentOf, UpdateFor, MutationsFor, Protocol.CollectUpdate, Protocol.CollectMutations, Protocol.BumpBaselines;
    hide Protocol.DespawnPhase, Labelled, Items, ToChanges, AsMessage, Enumerates, Reflects, InRuns, Later;
    var (t1, despawns) := Protocol.DespawnPhase(a.tracked, a.despawned);
    PhaseLabelled(runs, a.tracked, a.despawned);
    ServedIsCollected(cs, ev, c, clock.thisRun, own);
    SameCollected(runs, a, c, t1, despawns, clock.thisRun);
    SameTick(a, t1, despawns, clock.thisRun, clock.serverTick);
    AsMessageTick(UpdateFor(ev, c, clock.thisRun, own), clock.thisRun, clock.serverTick);
    BaselinesLabelled(runs, a, c, t1, clock.serverTick, clock.thisRun);
  }

  // ---------------------------------------------------------------------------------------------
  // What the client reads.

  /**
   The update message: nothing is sent exactly if the protocol's update is empty, and otherwise the bytes parse
   to what the protocol's update says.
   */
  lemma SentUpdateIsParsed(cs: Codecs, ev: Events, runs: Runs, a: Protocol.Server, c: Protocol.Server, clock: Clock, own: Own)
    requires Suitable(cs) && RunOf(ev, runs, a, c, clock, own)
    ensures
      var (t1, despawns) := Protocol.DespawnPhase(a.tracked, a.despawned);
      var update := Protocol.CollectUpdate(a, t1, despawns, clock.serverTick);
      var sent := SentUpdate(ServedIn(cs, ev, c, clock, own), clock);
      && (sent.None? <==> update.IsEmpty())
      && (sent.Some? ==>
            var p := DecodeUpdate(cs, sent.value);
            && p.Parsed? && p.rest == [] && p.value.tick == WireTick(clock.serverTick) && p.value.mappings == own.mappings
            && AsMessage(p.value, clock.serverTick) == update
            && DistinctRemovals(p.value.removals) && DistinctKeys(p.value.changes))
  {
    UpdateKeys(ev, c, clock.thisRun, own);
    hide Served, DecodeUpdate, EncodeContent, ContentOf, UpdateFor, MutationsFor, Protocol.CollectUpdate, Enumerates, Reflects;
    hide DistinctKeys, DistinctRemovals, Relabels, InRuns, Labelled, Protocol.DespawnPhase;
    var u := UpdateFor(ev, c, clock.thisRun, own).(tick := WireTick(clock.serverTick));
    ServedIsReplicated(cs, ev, runs, a, c, clock, own);
    SameContent(cs, UpdateFor(ev, c, clock.thisRun, own), u);
    MappingsOf(ev, c, clock.thisRun, own);
    EmptyIff(cs, u, clock.serverTick);
    if !AsMessage(u, clock.serverTick).IsEmpty() {
      UpdateRoundTrip(cs, u);
    }
  }

  lemma UpdateKeys(ev: Events, s: Protocol.Server, tick: nat, own: Own)
    requires Reflects(ev, s)
    ensures DistinctRemovals(UpdateFor(ev, s, tick, own).removals) && DistinctKeys(UpdateFor(ev, s, tick, own).changes)
  {
    var t1 := Protocol.DespawnPhase(s.tracked, s.despawned).0;
    VisibleRemovalsDistinct(t1.filter, ev.removals);
    ListKeys(UpdateSelector(t1, ContextOf(ev, s, tick)), ev.rows);
  }

  lemma SameContent(cs: Codecs, u: Update, v: Update)
    requires v == u.(tick := v.tick)
    ensures ContentOf(cs, u) == ContentOf(cs, v)
  {
  }

  lemma MappingsOf(ev: Events, s: Protocol.Server, tick: nat, own: Own)
    ensures UpdateFor(ev, s, tick, own).mappings == own.mappings
  {
  }

  /** When the message counts as empty, and when it is not sent although it does not. */
  lemma EmptyIff(cs: Codecs, u: Update, tick: nat)
    ensures AsMessage(u, tick).IsEmpty() <==> u.despawns == [] && u.removals == [] && u.changes == []
    ensures ContentOf(cs, u).IsEmpty() <==> u.mappings == [] && AsMessage(u, tick).IsEmpty()
    ensures u.mappings != [] && AsMessage(u, tick).IsEmpty() ==> EncodeContent(ContentOf(cs, u), TickBytes(WireTick(tick))) == None
  {
    ContentIsEmptyIff(cs, u);
    if u.despawns != [] {
      assert u.despawns[0] in SetOf(u.despawns);
    }
    if u.removals != [] {
      assert u.removals[|u.removals| - 1].0 in ToRemovals(u.removals);
    }
    if u.changes != [] {
      assert u.changes[|u.changes| - 1].0 in ToChanges(u.changes);
    }
  }

  /** New mappings without anything else to say. */
  predicate OnlyMappings(own: Own, update: UpdateMsg) {
    own.mappings != [] && update.IsEmpty()
  }

  /**
   The update tick that mutate messages carry is that of the last update message if and only if the run does not have
   mappings alone: then the tick is raised, but nothing is sent, and the mutate messages wait on the client.
   */
  lemma UpdateTickIff(cs: Codecs, ev: Events, runs: Runs, a: Protocol.Server, c: Protocol.Server, clock: Clock, own: Own)
    requires RunOf(ev, runs, a, c, clock, own) && a.tracked.updateTick <= a.tick
    ensures
      var (t1, despawns) := Protocol.DespawnPhase(a.tracked, a.despawned);
      var update := Protocol.CollectUpdate(a, t1, despawns, clock.serverTick);
      UpdatedTick(ServedIn(cs, ev, c, clock, own), clock).updateTick ==
        (if update.IsEmpty() then a.tracked.updateTick else clock.serverTick)
      <==> !OnlyMappings(own, update)
  {
    hide Served, ContentOf, UpdateFor, MutationsFor, Protocol.CollectUpdate, Enumerates, Reflects, Relabels, InRuns;
    hide Protocol.BumpBaselines;
    var u := UpdateFor(ev, c, clock.thisRun, own);
    ServedIsReplicated(cs, ev, runs, a, c, clock, own);
    MappingsOf(ev, c, clock.thisRun, own);
    EmptyIff(cs, u, clock.serverTick);
    KeptTick(a.tracked, a.despawned);
    assert a.tick < clock.serverTick by { assert Relabels(runs, a, c); TickInRuns(runs, a, c); }
  }

  lemma TickInRuns(runs: Runs, a: Protocol.Server, c: Protocol.Server)
    requires Relabels(runs, a, c)
    ensures a.tick in runs && c.tracked == Labelled(runs, a.tracked) && c.despawned == a.despawned
  {
  }

  lemma {:induction false} KeptTick(t: Tracked, es: seq<Entity>)
    ensures Protocol.DespawnEach(t, es).0.updateTick == t.updateTick && Protocol.DespawnPhase(t, es).0.updateTick == t.updateTick
    ensures Protocol.DespawnEach(t, es).0.nextIndex == t.nextIndex && Protocol.DespawnPhase(t, es).0.nextIndex == t.nextIndex
  {
    if es != [] {
      KeptTick(t, es[..|es| - 1]);
    }
  }

  // ---------------------------------------------------------------------------------------------
  // The mutate messages.

  ghost predicate DistinctKeys(xs: seq<(Entity, seq<Component>)>) {
    forall i, j :: 0 <= i < j < |xs| ==> xs[i].0 != xs[j].0
  }

  lemma {:induction false} ListKeys(select: Row -> Option<seq<Component>>, rows: seq<Row>)
    requires DistinctRows(rows)
    ensures forall x <- ListOf(select, rows) :: exists row <- rows :: row.entity == x.0
    ensures DistinctKeys(ListOf(select, rows))
  {
    hide DistinctIds;
    if rows != [] {
      var init, last := rows[..|rows| - 1], rows[|rows| - 1];
      assert rows == init + [last];
      ListKeys(select, init);
    }
  }

  lemma {:induction false} ChangesHave(xs: seq<(Entity, seq<Component>)>, e: Entity)
    requires DistinctKeys(xs)
    ensures e in ToChanges(xs) <==> exists x <- xs :: x.0 == e
    ensures forall x <- xs :: x.0 == e ==> ToChanges(xs)[e] == CompsOf(x.1)
  {
    hide CompsOf;
    if xs != [] {
      assert xs == xs[..|xs| - 1] + [xs[|xs| - 1]];
      ChangesHave(xs[..|xs| - 1], e);
    }
  }

  lemma GroupHas(xs: seq<(Entity, seq<Component>)>, r: Range, e: Entity)
    requires r.start <= r.end <= |xs|
    ensures e in Group(EntitiesOf(xs), r) <==> exists x <- xs[r.start..r.end] :: x.0 == e
    ensures forall x <- xs[r.start..r.end] :: x in xs
  {
    var part, es := xs[r.start..r.end], Group(EntitiesOf(xs), r);
    assert |es| == |part| && forall i :: 0 <= i < |part| ==> es[i] == part[i].0;
    if e in es {
      var i :| 0 <= i < |es| && es[i] == e;
      assert part[i] in part;
    }
    if x :| x in part && x.0 == e {
      var i :| 0 <= i < |part| && part[i] == x;
      assert es[i] == e;
    }
  }

  /** Cutting the list is restricting the mutations to the entities of the group. */
  lemma CutIsRestricted(xs: seq<(Entity, seq<Component>)>, r: Range)
    requires DistinctKeys(xs) && r.start <= r.end <= |xs|
    ensures ToChanges(xs[r.start..r.end]) == Protocol.Restrict(ToChanges(xs), Group(EntitiesOf(xs), r))
  {
    hide CompsOf, ToChanges, Group, EntitiesOf;
    var part := xs[r.start..r.end];
    var m, m' := ToChanges(part), Protocol.Restrict(ToChanges(xs), Group(EntitiesOf(xs), r));
    assert DistinctKeys(part);
    hide DistinctKeys;
    forall e ensures (e in m <==> e in m') && (e in m ==> m[e] == m'[e]) {
      ChangesHave(part, e);
      ChangesHave(xs, e);
      GroupHas(xs, r, e);
      if x :| x in part && x.0 == e {
        assert x in xs;
      }
    }
  }

  lemma {:induction false} SplitIsRegistered(t: Tracked, tick: nat, timestamp: nat, mutations: map<Entity, Comps>, groups: seq<seq<Entity>>)
    requires t.nextIndex < INDEX_SPACE
    ensures
      var (t', batch) := Protocol.Split(t, tick, timestamp, mutations, groups);
      && t' == RegisteredAll(t, tick, timestamp, groups) && |batch| == |groups|
      && forall k :: 0 <= k < |batch| ==>
           batch[k] == MutateMsg(t.updateTick, tick, IndexAt(t.nextIndex, k), Protocol.Restrict(mutations, groups[k]))
  {
    hide Protocol.Restrict;
    if groups != [] {
      SplitIsRegistered(t, tick, timestamp, mutations, groups[..|groups| - 1]);
      IndicesAreConsecutive(t, tick, timestamp, groups[..|groups| - 1]);
    }
  }

  /** The groups of entities of the mutate messages. */
  function GroupsFor(pr: Progress, clock: Clock): seq<seq<Entity>> {
    if SendsMutations(pr, clock) then Groups(pr.g.entities, PlanFor(pr, clock)) else []
  }

  lemma {:induction false} TilesSomething(plan: seq<Planned>, n: nat)
    requires Tiles(plan, n) && n > 0
    ensures plan != []
  {
  }

  lemma PlanIsNotEmpty(pr: Progress, clock: Clock)
    requires SendsMutations(pr, clock) && pr.t.nextIndex < INDEX_SPACE
    ensures PlanFor(pr, clock) != [] && PlanFits(PlanFor(pr, clock), |pr.g.mutations|)
    ensures forall k :: 0 <= k < |PlanFor(pr, clock)| ==> PlanFor(pr, clock)[k].index == IndexAt(pr.t.nextIndex, k)
  {
    var sizes := ItemSizes(pr.g.mutations);
    var metadata := Metadata(clock.trackMutations);
    if sizes == [] {
      NothingPlanned(metadata, pr.t.nextIndex, clock.trackMutations);
      assert IndexAt(pr.t.nextIndex, 0) == pr.t.nextIndex;
    } else {
      forall size <- sizes ensures size >= 1 {
        var i :| 0 <= i < |sizes| && sizes[i] == size;
        assert size == |MutationBytes(pr.g.mutations[i])|;
      }
      PlanIsOk(sizes, metadata, pr.t.nextIndex, clock.trackMutations);
      TilesSomething(PlanFor(pr, clock), |sizes|);
    }
  }

  /** The run of the protocol for the groups into which the mutations are split. */
  function RunFor(cs: Codecs, ev: Events, a: Protocol.Server, c: Protocol.Server, clock: Clock, own: Own): Protocol.Run {
    Protocol.Replicate(a, clock.serverTick, clock.timestamp, GroupsFor(ServedIn(cs, ev, c, clock, own), clock))
  }

  /** The mutate message of the protocol that is sent as the `k`-th one. */
  function MessageFor(ev: Events, c: Protocol.Server, pr: Progress, clock: Clock, k: nat): MutateMsg
    requires k < |GroupsFor(pr, clock)|
  {
    MutateMsg(UpdatedTick(pr, clock).updateTick, clock.serverTick, IndexAt(c.tracked.nextIndex, k),
              Protocol.Restrict(ToChanges(MutationsFor(ev, c, clock.thisRun)), GroupsFor(pr, clock)[k]))
  }

  /** What the protocol remembers of the client when it starts to send. */
  function Collected(a: Protocol.Server, tick: nat): Tracked {
    var (t1, despawns) := Protocol.DespawnPhase(a.tracked, a.despawned);
    t1.(baseline := Protocol.BumpBaselines(a, t1, tick),
        updateTick := if Protocol.CollectUpdate(a, t1, despawns, tick).IsEmpty() then t1.updateTick else tick)
  }

  lemma CollectedIsLabelled(cs: Codecs, ev: Events, runs: Runs, a: Protocol.Server, c: Protocol.Server, clock: Clock, own: Own)
    requires RunOf(ev, runs, a, c, clock, own) && a.tracked.updateTick <= a.tick
    requires !OnlyMappings(own, RunFor(cs, ev, a, c, clock, own).update)
    ensures
      var t2 := Collected(a, clock.serverTick);
      && UpdatedTick(ServedIn(cs, ev, c, clock, own), clock) == Labelled(NextRuns(runs, clock), t2)
      && InRuns(NextRuns(runs, clock), t2) && t2.nextIndex == a.tracked.nextIndex == c.tracked.nextIndex
  {
    hide Served, ContentOf, UpdateFor, MutationsFor, Protocol.CollectUpdate, Protocol.BumpBaselines, GroupsFor;
    hide Enumerates, Reflects, AsMessage, Relabels, InRuns, Protocol.DespawnPhase, Labelled;
    var t1 := Protocol.DespawnPhase(a.tracked, a.despawned).0;
    ServedIsReplicated(cs, ev, runs, a, c, clock, own);
    UpdateTickIff(cs, ev, runs, a, c, clock, own);
    KeptTick(a.tracked, a.despawned);
    TickInRuns(runs, a, c);
    var t2 := Collected(a, clock.serverTick);
    TicksLabelled(NextRuns(runs, clock), t1.(baseline := Protocol.BumpBaselines(a, t1, clock.serverTick)), t2.updateTick);
    TicksLabelled(runs, a.tracked, 0);
  }

  /** What the server remembers after sending is what the protocol says, unless it has mappings alone. */
  lemma SentStateIsRun(cs: Codecs, ev: Events, runs: Runs, a: Protocol.Server, c: Protocol.Server, clock: Clock, own: Own)
    requires RunOf(ev, runs, a, c, clock, own) && a.tracked.nextIndex < INDEX_SPACE && a.tracked.updateTick <= a.tick
    requires !OnlyMappings(own, RunFor(cs, ev, a, c, clock, own).update)
    ensures
      var run := RunFor(cs, ev, a, c, clock, own);
      var pr := ServedIn(cs, ev, c, clock, own);
      && SentState(pr, clock) == Labelled(NextRuns(runs, clock), run.tracked.(filter := Updated(run.tracked.filter)))
      && InRuns(NextRuns(runs, clock), run.tracked)
      && |run.batch| == |GroupsFor(pr, clock)|
      && forall k :: 0 <= k < |run.batch| ==> run.batch[k] == MessageFor(ev, c, pr, clock, k)
  {
    CollectedIsLabelled(cs, ev, runs, a, c, clock, own);
    hide Served, ContentOf, UpdateFor, MutationsFor, Protocol.CollectUpdate, Protocol.CollectMutations, Protocol.BumpBaselines;
    hide Enumerates, Reflects, PlanFor, Protocol.Restrict, Updated, ToChanges, AsMessage, Relabels, InRuns, Protocol.DespawnPhase, Labelled;
    hide OnlyMappings, UpdatedTick;
    var runs', pr := NextRuns(runs, clock), ServedIn(cs, ev, c, clock, own);
    var groups, t2 := GroupsFor(pr, clock), Collected(a, clock.serverTick);
    ServedIsReplicated(cs, ev, runs, a, c, clock, own);
    SplitIsRegistered(t2, clock.serverTick, clock.timestamp,
                      Protocol.CollectMutations(a, Protocol.DespawnPhase(a.tracked, a.despawned).0), groups);
    RegisteredLabelled(runs', t2, clock.serverTick, clock.timestamp, groups);
    FilterLabelled(runs', RegisteredAll(t2, clock.serverTick, clock.timestamp, groups));
    TicksLabelled(runs', t2, 0);
    SentStateOf(pr, clock);
    InRunsFilter(runs', RegisteredAll(t2, clock.serverTick, clock.timestamp, groups));
  }

  /** The messages are registered in order. */
  lemma SentStateOf(pr: Progress, clock: Clock)
    requires pr.t.nextIndex < INDEX_SPACE
    ensures
      var t := RegisteredAll(UpdatedTick(pr, clock), clock.thisRun, clock.timestamp, GroupsFor(pr, clock));
      SentState(pr, clock) == t.(filter := Updated(t.filter))
  {
    hide PlanFor, Updated;
    if SendsMutations(pr, clock) {
      PlanIsNotEmpty(pr, clock);
    }
  }

  lemma InRunsFilter(runs: Runs, t: Tracked)
    ensures InRuns(runs, t.(filter := Updated(t.filter))) <==> InRuns(runs, t)
  {
    hide Updated;
  }

  lemma TicksLabelled(runs: Runs, t: Tracked, updateTick: nat)
    ensures Labelled(runs, t.(updateTick := updateTick)) == Labelled(runs, t).(updateTick := updateTick)
    ensures InRuns(runs, t.(updateTick := updateTick)) <==> InRuns(runs, t)
    ensures Labelled(runs, t).updateTick == t.updateTick && Labelled(runs, t).nextIndex == t.nextIndex
  {
  }

  lemma FilterLabelled(runs: Runs, t: Tracked)
    ensures Labelled(runs, t).(filter := Updated(t.filter)) == Labelled(runs, t.(filter := Updated(t.filter)))
    ensures Labelled(runs, t).filter == t.filter
  {
    hide Updated;
  }

  lemma {:induction false} FlattenHas(groups: seq<seq<Entity>>, e: Entity)
    ensures e in Flatten(groups) <==> exists es <- groups :: e in es
  {
    if groups != [] {
      assert groups == groups[..|groups| - 1] + [groups[|groups| - 1]];
      FlattenHas(groups[..|groups| - 1], e);
    }
  }

  /** The groups cover the mutated entities, as the protocol demands of them. */
  lemma GroupsCover(cs: Codecs, ev: Events, runs: Runs, a: Protocol.Server, c: Protocol.Server, clock: Clock, own: Own)
    requires RunOf(ev, runs, a, c, clock, own) && a.tracked.nextIndex < INDEX_SPACE
    ensures Protocol.Covers(GroupsFor(ServedIn(cs, ev, c, clock, own), clock),
                            Protocol.CollectMutations(a, Protocol.DespawnPhase(a.tracked, a.despawned).0))
  {
    hide Served, ContentOf, UpdateFor, MutationsFor, Enumerates, AsMessage, Protocol.CollectUpdate, Protocol.CollectMutations;
    hide Protocol.BumpBaselines, Items, ToChanges, CompsOf, Flatten, Reflects, Relabels, InRuns, Labelled, Protocol.DespawnPhase;
    var pr := ServedIn(cs, ev, c, clock, own);
    var ms := MutationsFor(ev, c, clock.thisRun);
    ServedIsReplicated(cs, ev, runs, a, c, clock, own);
    KeptTick(a.tracked, a.despawned);
    TicksLabelled(NextRuns(runs, clock), Protocol.DespawnPhase(a.tracked, a.despawned).0.(
      baseline := Protocol.BumpBaselines(a, Protocol.DespawnPhase(a.tracked, a.despawned).0, clock.serverTick)), 0);
    MutationKeys(ev, c, clock.thisRun) by { assert Reflects(ev, c); }
    if SendsMutations(pr, clock) {
      PlanPartitions(pr, clock);
    }
    forall e
      ensures e in Protocol.CollectMutations(a, Protocol.DespawnPhase(a.tracked, a.despawned).0)
         <==> exists es <- GroupsFor(pr, clock) :: e in es
    {
      ChangesHave(ms, e);
      FlattenHas(GroupsFor(pr, clock), e);
      assert e in EntitiesOf(ms) <==> exists x <- ms :: x.0 == e;
      if !SendsMutations(pr, clock) {
        assert ms == [];
      }
    }
  }

  /** Splitting is an ordered partition of the mutated entities. */
  lemma PlanPartitions(pr: Progress, clock: Clock)
    requires pr.t.nextIndex < INDEX_SPACE && |pr.g.entities| == |pr.g.mutations| && SendsMutations(pr, clock)
    ensures Flatten(GroupsFor(pr, clock)) == pr.g.entities
  {
    var sizes, plan := ItemSizes(pr.g.mutations), PlanFor(pr, clock);
    var metadata := Metadata(clock.trackMutations);
    if sizes == [] {
      NothingPlanned(metadata, pr.t.nextIndex, clock.trackMutations);
      assert plan[..0] == [] && Tiles(plan[..0], 0);
    } else {
      forall size <- sizes ensures size >= 1 {
        var i :| 0 <= i < |sizes| && sizes[i] == size;
        assert size == |MutationBytes(pr.g.mutations[i])|;
      }
      PlanIsOk(sizes, metadata, pr.t.nextIndex, clock.trackMutations);
    }
    GroupsPartition(pr.g.entities, plan, |sizes|);
    assert pr.g.entities[..|sizes|] == pr.g.entities;
  }

  /** The bytes of the `k`-th mutate message encode the protocol's. */
  lemma SentMutationIs(cs: Codecs, ev: Events, runs: Runs, a: Protocol.Server, c: Protocol.Server, clock: Clock, own: Own, k: nat)
    requires RunOf(ev, runs, a, c, clock, own) && a.tracked.nextIndex < INDEX_SPACE
    requires
      var pr := ServedIn(cs, ev, c, clock, own);
      SendsMutations(pr, clock) && k < |PlanFor(pr, clock)| && PlanFits(PlanFor(pr, clock), |pr.g.mutations|)
    ensures
      var pr := ServedIn(cs, ev, c, clock, own);
      var xs := PartOf(MutationsFor(ev, c, clock.thisRun), PlanFor(pr, clock)[k].range);
      && k < |GroupsFor(pr, clock)|
      && var m := MessageFor(ev, c, pr, clock, k);
         && DistinctKeys(xs) && ToChanges(xs) == m.mutations
         && SentMutation(pr, clock, k) == EncodeMutate(TickBytes(WireTick(m.updateTick)), TickBytes(WireTick(m.tick)),
              clock.trackMutations, |GroupsFor(pr, clock)|, m.index, Items(cs.component, xs))
  {
    hide Served, ContentOf, UpdateFor, MutationsFor, Enumerates, PlanFor, AsMessage, EncodeMutate, TickBytes, UpdatedTick, Labelled;
    hide Protocol.CollectUpdate, Protocol.CollectMutations, Protocol.BumpBaselines, WireTick, Items, ToChanges;
    hide Protocol.Restrict, Reflects, Relabels, InRuns, Protocol.DespawnPhase;
    var pr := ServedIn(cs, ev, c, clock, own);
    var ms := MutationsFor(ev, c, clock.thisRun);
    var plan := PlanFor(pr, clock);
    ServedIsReplicated(cs, ev, runs, a, c, clock, own);
    TickInRuns(runs, a, c);
    TicksLabelled(runs, a.tracked, 0);
    ServedKeepsIndex(cs, ev, c.tick, clock.thisRun, c.tracked, own);
    PlanIsNotEmpty(pr, clock);
    MutationKeys(ev, c, clock.thisRun);
    assert plan[k] in plan;
    CutIsRestricted(ms, plan[k].range);
    ItemsCut(cs.component, ms, plan[k].range);
  }

  /** The `k`-th mutate message parses to the protocol's, whatever entities the client skips. */
  lemma SentMutationIsParsed(cs: Codecs, ev: Events, runs: Runs, a: Protocol.Server, c: Protocol.Server, clock: Clock, own: Own, k: nat,
                             skip: nat -> bool)
    requires Suitable(cs) && RunOf(ev, runs, a, c, clock, own) && a.tracked.nextIndex < INDEX_SPACE
    requires
      var pr := ServedIn(cs, ev, c, clock, own);
      SendsMutations(pr, clock) && k < |PlanFor(pr, clock)| && PlanFits(PlanFor(pr, clock), |pr.g.mutations|)
    ensures
      var pr := ServedIn(cs, ev, c, clock, own);
      var xs := PartOf(MutationsFor(ev, c, clock.thisRun), PlanFor(pr, clock)[k].range);
      var p, n := ReadHeader(clock.trackMutations, SentMutation(pr, clock, k)), |GroupsFor(pr, clock)|;
      && k < n && p.Parsed?
      && var m := MessageFor(ev, c, pr, clock, k);
         && DistinctKeys(xs) && ToChanges(xs) == m.mutations
         && p.value == Header(WireTick(m.updateTick), WireTick(m.tick), if clock.trackMutations then n else 1, m.index)
         && p.rest == AllMutations(Items(cs.component, xs))
         && ReadBody(cs, skip, 0, p.rest) == Parsed(Mutations(xs, skip, 0), [])
  {
    hide *;
    SentMutationIs(cs, ev, runs, a, c, clock, own, k);
    var pr := ServedIn(cs, ev, c, clock, own);
    var m := MessageFor(ev, c, pr, clock, k);
    var xs := PartOf(MutationsFor(ev, c, clock.thisRun), PlanFor(pr, clock)[k].range);
    var h := Header(WireTick(m.updateTick), WireTick(m.tick), |GroupsFor(pr, clock)|, m.index);
    MutateRoundTrip(cs, skip, h, clock.trackMutations, xs);
  }

  function PartOf(xs: seq<(Entity, seq<Component>)>, r: Range): seq<(Entity, seq<Component>)> {
    if r.start <= r.end <= |xs| then xs[r.start..r.end] else []
  }

  lemma MutationKeys(ev: Events, s: Protocol.Server, tick: nat)
    requires Reflects(ev, s)
    ensures DistinctKeys(MutationsFor(ev, s, tick))
  {
    var t1 := Protocol.DespawnPhase(s.tracked, s.despawned).0;
    ListKeys(MutateSelector(t1, ContextOf(ev, s, tick)), ev.rows);
  }

  lemma ItemsCut(c: Codec<Component>, xs: seq<(Entity, seq<Component>)>, r: Range)
    requires r.start <= r.end <= |xs|
    ensures Items(c, xs)[r.start..r.end] == Items(c, xs[r.start..r.end])
  {
    hide EntityBytes, WriteAll;
  }
}
