/** The invariant is kept by a replication run. */
module SendSteps {
  import opened Domain
  import opened Visibility
  import opened Changes
  import opened Messages
  import opened Tracker
  import opened Protocol
  import opened Invariant

  // ---------------------------------------------------------------------------------------------
  // The despawn phase.

  /** A tracked entity whose loss is recorded in the list itself, so that despawning it keeps the record. */
  ghost predicate Reportable(f: Filter, e: Entity) {
    Secure(f, e) && (f.Blacklist? ==> e !in Lost(f))
  }

  lemma {:induction false} DespawnEachFacts(t: Tracked, es: seq<Entity>, e: Entity)
    requires Consistent(t.filter)
    ensures
      var (t', out) := DespawnEach(t, es);
      && t' == t.(baseline := t'.baseline, filter := t'.filter) && Consistent(t'.filter)
      && (t.filter.Blacklist? <==> t'.filter.Blacklist?)
      && (e in t'.baseline <==> e in t.baseline && e !in es)
      && (e in t'.baseline ==> t'.baseline[e] == t.baseline[e])
      && (e !in es ==> e !in out && (Secure(t.filter, e) ==> Secure(t'.filter, e)))
      && (e !in out && Reportable(t.filter, e) ==>
            Reportable(t'.filter, e) && (e in es ==> !IsVisible(t'.filter, e)))
  {
    if es != [] {
      var init, last := es[..|es| - 1], es[|es| - 1];
      assert es == init + [last];
      DespawnEachFacts(t, init, e);
      var (t', out) := DespawnEach(t, init);
      ConsistencyKept(t'.filter, last, true);
    }
  }

  /** What the despawn phase means for one entity. */
  ghost predicate PhaseOk(a: System, t1: Tracked, despawns: set<Entity>, e: Entity)
    requires a.received <= |a.log|
  {
    && (e in a.server.tracked.baseline ==> e in t1.baseline || e in despawns)
    && (e in t1.baseline ==>
          && e in a.server.tracked.baseline && t1.baseline[e] == a.server.tracked.baseline[e]
          && e !in despawns && e !in a.server.despawned
          && StateOf(t1.filter, e) == Visible && Secure(t1.filter, e))
  }

  lemma DespawnPhaseOk(a: System, e: Entity)
    requires TicksOk(a) && Consistent(a.server.tracked.filter) && TrackedOk(a, e)
    requires NoHiddenDespawn(a.server)
    ensures
      var (t1, out) := DespawnPhase(a.server.tracked, a.server.despawned);
      PhaseOk(a, t1, out, e) && Consistent(t1.filter)
      && t1 == a.server.tracked.(baseline := t1.baseline, filter := t1.filter)
  {
    DespawnEachFacts(a.server.tracked, a.server.despawned, e);
  }

  // ---------------------------------------------------------------------------------------------
  // Splitting and registering.

  lemma SplitFacts(t: Tracked, tick: nat, timestamp: nat, mutations: map<Entity, Comps>, groups: seq<seq<Entity>>)
    ensures
      var (t', batch) := Split(t, tick, timestamp, mutations, groups);
      && t' == t.(mutations := t'.mutations, nextIndex := t'.nextIndex)
      && |batch| == |groups|
      && (forall i :: 0 <= i < |batch| ==>
            batch[i].updateTick == t.updateTick && batch[i].tick == tick
            && batch[i].mutations == Restrict(mutations, groups[i]))
      && (forall x <- t'.mutations :: (exists m <- batch :: m.index == x) || x in t.mutations)
      && (forall x <- t.mutations :: (forall m <- batch :: m.index != x) ==>
            x in t'.mutations && t'.mutations[x] == t.mutations[x])
  {
    hide Split, Restrict;
    SplitMessages(t, tick, timestamp, mutations, groups);
    SplitTable(t, tick, timestamp, mutations, groups);
  }

  lemma {:induction false} SplitMessages(t: Tracked, tick: nat, timestamp: nat, mutations: map<Entity, Comps>,
                                         groups: seq<seq<Entity>>)
    ensures
      var (t', batch) := Split(t, tick, timestamp, mutations, groups);
      && t' == t.(mutations := t'.mutations, nextIndex := t'.nextIndex)
      && |batch| == |groups|
      && forall i :: 0 <= i < |batch| ==>
           batch[i].updateTick == t.updateTick && batch[i].tick == tick
           && batch[i].mutations == Restrict(mutations, groups[i])
  {
    hide Restrict;
    if groups != [] {
      SplitMessages(t, tick, timestamp, mutations, groups[..|groups| - 1]);
    }
  }

  /** The table has the messages of the batch and what was there and did not give way to them. */
  lemma {:induction false} SplitTable(t: Tracked, tick: nat, timestamp: nat, mutations: map<Entity, Comps>,
                                      groups: seq<seq<Entity>>)
    ensures
      var (t', batch) := Split(t, tick, timestamp, mutations, groups);
      && (forall x <- t'.mutations :: (exists m <- batch :: m.index == x) || x in t.mutations)
      && (forall x <- t.mutations :: (forall m <- batch :: m.index != x) ==>
            x in t'.mutations && t'.mutations[x] == t.mutations[x])
  {
    hide Restrict;
    if groups != [] {
      var n := |groups| - 1;
      SplitMessages(t, tick, timestamp, mutations, groups[..n]);
      SplitTable(t, tick, timestamp, mutations, groups[..n]);
      var (t1, ms) := Split(t, tick, timestamp, mutations, groups[..n]);
      var (t', batch) := Split(t, tick, timestamp, mutations, groups);
      assert batch[n] in batch && batch[n].index == t1.nextIndex;
      assert forall m :: m in batch <==> m in ms || m == batch[n];
    }
  }

  /** The table describes every message of the batch, provided their indices differ. */
  lemma {:induction false} SplitDescribed(t: Tracked, tick: nat, timestamp: nat, mutations: map<Entity, Comps>,
                                          groups: seq<seq<Entity>>)
    requires forall es <- groups, e <- es :: e in mutations
    requires
      var (t', batch) := Split(t, tick, timestamp, mutations, groups);
      forall i, j :: 0 <= i < j < |batch| ==> batch[i].index != batch[j].index
    ensures
      var (t', batch) := Split(t, tick, timestamp, mutations, groups);
      forall m <- batch :: m.index in t'.mutations && Describes(t'.mutations[m.index], m)
  {
    if groups != [] {
      var n := |groups| - 1;
      var (t1, ms) := Split(t, tick, timestamp, mutations, groups[..n]);
      var (t', batch) := Split(t, tick, timestamp, mutations, groups);
      SplitFacts(t, tick, timestamp, mutations, groups[..n]);
      assert forall i :: 0 <= i < n ==> batch[i] == ms[i];
      SplitDescribed(t, tick, timestamp, mutations, groups[..n]);
      forall m <- batch ensures m.index in t'.mutations && Describes(t'.mutations[m.index], m) {
        if m in ms {
          var i :| 0 <= i < |ms| && ms[i] == m;
          assert batch[i].index != batch[n].index;
        } else {
          assert m == batch[n];
          assert groups[n] in groups;
        }
      }
    }
  }

  lemma SplitCovers(t: Tracked, tick: nat, timestamp: nat, mutations: map<Entity, Comps>, groups: seq<seq<Entity>>)
    requires Covers(groups, mutations)
    ensures
      var (_, batch) := Split(t, tick, timestamp, mutations, groups);
      && (forall m <- batch :: m.updateTick == t.updateTick && m.tick == tick)
      && (forall m <- batch, e <- m.mutations :: e in mutations && m.mutations[e] == mutations[e])
      && (forall e <- mutations :: exists m <- batch :: e in m.mutations)
  {
    SplitFacts(t, tick, timestamp, mutations, groups);
    var (_, batch) := Split(t, tick, timestamp, mutations, groups);
    forall m <- batch, e <- m.mutations ensures e in mutations && m.mutations[e] == mutations[e] {
      var i :| 0 <= i < |batch| && batch[i] == m;
    }
    forall e <- mutations ensures exists m <- batch :: e in m.mutations {
      var es :| es in groups && e in es;
      var i :| 0 <= i < |groups| && groups[i] == es;
      assert batch[i] in batch && e in batch[i].mutations;
    }
  }

  // ---------------------------------------------------------------------------------------------
  // A run, as a relation between the systems before and after it.

  /** The tracker after the despawn phase and the messages of the run. */
  datatype RunParts = RunParts(t1: Tracked, update: UpdateMsg, mutations: map<Entity, Comps>, batch: seq<MutateMsg>)

  function PartsOf(sys: System, step: Step): RunParts
    requires step.SendStep?
  {
    var run := Replicate(sys.server, step.tick, step.timestamp, step.groups);
    RunParts(DespawnPhase(sys.server.tracked, sys.server.despawned).0, run.update, run.mutations, run.batch)
  }

  /** The messages are what is collected from the world with the tracker of the despawn phase. */
  ghost predicate CollectOk(a: System, b: System, r: RunParts) {
    && r.update == CollectUpdate(a.server, r.t1, r.update.despawns, b.server.tick)
    && r.mutations == CollectMutations(a.server, r.t1)
    && b.server.tracked.baseline == BumpBaselines(a.server, r.t1, b.server.tick)
    && b.shown == set e | e in a.server.world && IsVisible(r.t1.filter, e)
  }

  /** What happens to the client, the channels and the history. */
  ghost predicate LinkOk(a: System, b: System, r: RunParts) {
    && b.client == a.client && b.received == a.received && b.acks == a.acks && b.applied == a.applied
    && b.log == (if r.update.IsEmpty() then a.log else a.log + [r.update])
    && b.history == a.history[r.update.tick := SnapshotOf(a.server.world)]
    && b.server.tick == r.update.tick > a.server.tick
  }

  /** What happens to the server, apart from the baselines and the table of mutate messages. */
  ghost predicate ServerOk(a: System, b: System, r: RunParts) {
    && b.server.world == a.server.world && b.server.despawned == [] && b.server.removed == map[]
    && b.server.tracked.filter == Updated(r.t1.filter) && Consistent(r.t1.filter)
    && b.server.tracked.updateTick == (if r.update.IsEmpty() then a.server.tracked.updateTick else r.update.tick)
    && b.net == a.net + MessageSet(r.batch)
    && b.lastBatch == MessageSet(r.batch)
  }

  ghost predicate FrameOk(a: System, b: System, r: RunParts) {
    LinkOk(a, b, r) && ServerOk(a, b, r)
  }

  /** The batch carries the mutations, under new indices that are registered. */
  ghost predicate BatchOk(a: System, b: System, r: RunParts) {
    var before, after := a.server.tracked.mutations, b.server.tracked.mutations;
    && (forall m <- r.batch ::
          && m.updateTick == b.server.tracked.updateTick && m.tick == b.server.tick
          && m.index in after && Describes(after[m.index], m) && m.index !in before && m.index !in a.acks
          && forall e <- m.mutations :: e in r.mutations && m.mutations[e] == r.mutations[e])
    && (forall m <- r.batch, m' :: Pending(a, m') ==> m.index != m'.index)
    && (forall e <- r.mutations :: exists m <- r.batch :: e in m.mutations)
    && (forall x <- after :: (exists m <- r.batch :: m.index == x) || (x in before && after[x] == before[x]))
    && (forall x <- before :: x in after && after[x] == before[x])
  }

  lemma SendCollects(sys: System, step: Step)
    requires step.SendStep? && step.tick > sys.server.tick
    requires
      var (t1, _) := DespawnPhase(sys.server.tracked, sys.server.despawned);
      t1 == sys.server.tracked.(baseline := t1.baseline, filter := t1.filter) && Consistent(t1.filter)
    ensures CollectOk(sys, Next(sys, step), PartsOf(sys, step))
    ensures FrameOk(sys, Next(sys, step), PartsOf(sys, step))
  {
    var s := sys.server;
    var (t1, despawns) := DespawnPhase(s.tracked, s.despawned);
    var run := Replicate(s, step.tick, step.timestamp, step.groups);
    var t2 := t1.(baseline := BumpBaselines(s, t1, step.tick),
                  updateTick := if run.update.IsEmpty() then t1.updateTick else step.tick);
    SplitFacts(t2, step.tick, step.timestamp, run.mutations, step.groups);
  }

  /** The tracker from which the messages of the run are registered. */
  function SplitFrom(sys: System, step: Step): Tracked
    requires step.SendStep?
  {
    var (t1, _) := DespawnPhase(sys.server.tracked, sys.server.despawned);
    var update := PartsOf(sys, step).update;
    t1.(baseline := BumpBaselines(sys.server, t1, step.tick),
        updateTick := if update.IsEmpty() then t1.updateTick else step.tick)
  }

  lemma SendSplits(sys: System, step: Step)
    requires step.SendStep?
    requires
      var (t1, _) := DespawnPhase(sys.server.tracked, sys.server.despawned);
      t1 == sys.server.tracked.(baseline := t1.baseline, filter := t1.filter)
    ensures
      var b, r, t2 := Next(sys, step), PartsOf(sys, step), SplitFrom(sys, step);
      var (t3, batch) := Split(t2, step.tick, step.timestamp, r.mutations, step.groups);
      && r.batch == batch && b.server.tracked == t3.(filter := Updated(t3.filter)) && b.server.tick == step.tick
      && t2.mutations == sys.server.tracked.mutations
  {
    hide CollectUpdate, CollectMutations, BumpBaselines, SnapshotOf, Updated, Split;
  }

  /** The messages of a batch, registered: from the tracker `t`, the tracker `t'`. */
  ghost predicate Registers(t: Tracked, t': Tracked, batch: seq<MutateMsg>, tick: nat, mutations: map<Entity, Comps>) {
    && t'.updateTick == t.updateTick
    && (forall m <- batch ::
          && m.updateTick == t.updateTick && m.tick == tick && m.index in t'.mutations && Describes(t'.mutations[m.index], m)
          && forall e <- m.mutations :: e in mutations && m.mutations[e] == mutations[e])
    && (forall e <- mutations :: exists m <- batch :: e in m.mutations)
    && (forall x <- t'.mutations :: (exists m <- batch :: m.index == x) || x in t.mutations)
    && (forall x <- t.mutations :: (forall m <- batch :: m.index != x) ==> x in t'.mutations && t'.mutations[x] == t.mutations[x])
  }

  lemma SplitRegisters(t: Tracked, tick: nat, timestamp: nat, mutations: map<Entity, Comps>, groups: seq<seq<Entity>>)
    requires Covers(groups, mutations)
    requires
      var (_, batch) := Split(t, tick, timestamp, mutations, groups);
      forall i, j :: 0 <= i < j < |batch| ==> batch[i].index != batch[j].index
    ensures
      var (t', batch) := Split(t, tick, timestamp, mutations, groups);
      Registers(t, t', batch, tick, mutations)
  {
    SplitFacts(t, tick, timestamp, mutations, groups);
    SplitDescribed(t, tick, timestamp, mutations, groups);
    SplitCovers(t, tick, timestamp, mutations, groups);
    hide Split, Covers, Describes, Restrict;
  }

  lemma SendBatch(sys: System, step: Step)
    requires step.SendStep? && Allowed(sys, step, true)
    requires
      var (t1, _) := DespawnPhase(sys.server.tracked, sys.server.despawned);
      t1 == sys.server.tracked.(baseline := t1.baseline, filter := t1.filter)
    ensures BatchOk(sys, Next(sys, step), PartsOf(sys, step))
  {
    var r, t2 := PartsOf(sys, step), SplitFrom(sys, step);
    assert Covers(step.groups, r.mutations) && IndicesFresh(sys, r.batch);
    SendSplits(sys, step);
    hide *;
    BatchDistinct(sys, r.batch);
    SplitRegisters(t2, step.tick, step.timestamp, r.mutations, step.groups);
    var (t3, batch) := Split(t2, step.tick, step.timestamp, r.mutations, step.groups);
    SentIsBatch(sys, Next(sys, step), r, t2, t3);
  }

  lemma BatchDistinct(sys: System, batch: seq<MutateMsg>)
    requires IndicesFresh(sys, batch)
    ensures forall i, j :: 0 <= i < j < |batch| ==> batch[i].index != batch[j].index
  {
  }

  lemma SentIsBatch(a: System, b: System, r: RunParts, t2: Tracked, t3: Tracked)
    requires IndicesFresh(a, r.batch) && t2.mutations == a.server.tracked.mutations
    requires b.server.tracked == t3.(filter := Updated(t3.filter)) && Registers(t2, t3, r.batch, b.server.tick, r.mutations)
    ensures BatchOk(a, b, r)
  {
    hide Describes, Updated;
    FreshIndices(a, r.batch);
    hide IndicesFresh;
  }

  lemma FreshIndices(a: System, batch: seq<MutateMsg>)
    requires IndicesFresh(a, batch)
    ensures forall m <- batch :: m.index !in a.server.tracked.mutations && m.index !in a.acks
    ensures forall m <- batch, m' :: Pending(a, m') ==> m.index != m'.index
  {
  }

  // ---------------------------------------------------------------------------------------------
  // What a run does for one entity.

  function PerspectiveIn(a: System, r: RunParts, e: Entity): Perspective {
    PerspectiveOf(a.server, r.t1, e)
  }

  /** An entity is touched by the update exactly if it is structural, and then its baseline is bumped. */
  lemma TouchedIffStructural(a: System, b: System, r: RunParts, e: Entity)
    requires CollectOk(a, b, r)
    ensures r.update.Touches(e) <==> e in a.server.world && Structural(a.server.world[e], PerspectiveIn(a, r, e))
    ensures r.update.Touches(e) ==>
      && IsVisible(r.t1.filter, e)
      && r.update.Removed(e) == RemovalsOf(a.server, e)
      && r.update.Changed(e) == Sent(a.server.world[e], PerspectiveIn(a, r, e))
      && e in b.server.tracked.baseline && b.server.tracked.baseline[e] == b.server.tick
    ensures !r.update.Touches(e) ==>
      && (e in b.server.tracked.baseline <==> e in r.t1.baseline)
      && (e in r.t1.baseline ==> b.server.tracked.baseline[e] == r.t1.baseline[e])
  {
    hide Routed, StateOf;
    if e in a.server.world {
      ClassificationAtomic(a.server.world[e], PerspectiveIn(a, r, e));
    }
  }

  lemma MutatedNotTouched(a: System, b: System, r: RunParts, e: Entity)
    requires CollectOk(a, b, r)
    ensures e in r.mutations ==> !r.update.Touches(e) && e in r.t1.baseline
    ensures e in a.server.world && !r.update.Touches(e) ==>
      Sent(a.server.world[e], PerspectiveIn(a, r, e)) == (if e in r.mutations then r.mutations[e] else map[])
  {
    TouchedIffStructural(a, b, r, e);
    if e in a.server.world {
      ClassificationAtomic(a.server.world[e], PerspectiveIn(a, r, e));
    }
  }

  /** `e` is tracked through the despawn phase, and `t` is a recorded tick it may be confirmed for. */
  ghost predicate Continues(a: System, r: RunParts, e: Entity, t: nat) {
    && TicksOk(a) && WorldOk(a) && RemovalsOk(a, e) && TrackedOk(a, e) && StructureOk(a, e)
    && PhaseOk(a, r.t1, r.update.despawns, e)
    && e in r.t1.baseline && t in a.history && Settled(a, e).Some? && Settled(a, e).value <= t
  }

  /** What `before`, a state of `e`, lacks compared to now. */
  ghost predicate DeltaOk(a: System, r: RunParts, e: Entity, before: Comps)
    requires e in a.server.world
  {
    var entry, p, removed := a.server.world[e], PerspectiveIn(a, r, e), RemovalsOf(a.server, e);
    && Values(entry.comps) == (before - removed) + Sent(entry, p)
    && (!Structural(entry, p) ==> removed == {} && Values(entry.comps).Keys == before.Keys)
  }

  /**
   Between the settled tick of a tracked entity and this run, only the components that are sent changed and
   only the components that are reported as removed disappeared.
   */
  lemma RunDelta(a: System, r: RunParts, e: Entity, t: nat)
    requires Continues(a, r, e, t)
    ensures e in a.server.world && e in a.history[t] && DeltaOk(a, r, e, a.history[t][e])
  {
    var s := a.server;
    assert StampsOk(a, e, t) && StampsOk(a, e, s.tick);
    assert a.history[t][e].Keys == a.history[s.tick][e].Keys;
    SentCatchesUp(s.world[e], PerspectiveIn(a, r, e), a.history[t][e], RemovalsOf(s, e));
  }

  /** The effect of a run on `e`, without the details of how it was collected. */
  ghost predicate EffectOk(a: System, b: System, r: RunParts, e: Entity)
    requires a.received <= |a.log|
  {
    var u, k := r.update, Settled(a, e);
    var before, after := a.server.tracked.baseline, b.server.tracked.baseline;
    && (u.Touches(e) ==> e in a.server.world && e in after && after[e] == b.server.tick && IsVisible(r.t1.filter, e))
    && (!u.Touches(e) ==> (e in after <==> e in r.t1.baseline) && (e in after ==> after[e] == r.t1.baseline[e]))
    && (u.Touches(e) && (e in u.despawns || k.None?) ==> Values(a.server.world[e].comps) == u.Changed(e))
    && (u.Touches(e) && e !in u.despawns && k.Some? ==>
          forall t <- a.history :: t >= k.value ==> e in a.history[t] && BroughtUpToDate(a, r, e, a.history[t][e]))
    && (!u.Touches(e) && e in r.t1.baseline && k.Some? ==>
          && e in a.server.world
          && forall t <- a.history :: t >= k.value ==> e in a.history[t] && BroughtUpToDate(a, r, e, a.history[t][e]))
    && (e in r.mutations ==> !u.Touches(e) && e in r.t1.baseline)
    && (e in b.shown <==> e in a.server.world && IsVisible(r.t1.filter, e))
    && (e in b.shown && e !in after ==> Values(a.server.world[e].comps) == map[])
  }

  /** `before` is a state of `e` since its settled tick: the messages of the run bring it up to date. */
  ghost predicate BroughtUpToDate(a: System, r: RunParts, e: Entity, before: Comps)
    requires e in a.server.world
  {
    var now := Values(a.server.world[e].comps);
    if r.update.Touches(e) then now == (before - r.update.Removed(e)) + r.update.Changed(e)
    else before.Keys == now.Keys && now == if e in r.mutations then before + r.mutations[e] else before
  }

  /** How the messages about `e` relate to its classification. */
  ghost predicate ItemOk(a: System, r: RunParts, e: Entity)
    requires e in a.server.world
  {
    var entry, p := a.server.world[e], PerspectiveIn(a, r, e);
    if r.update.Touches(e) then r.update.Removed(e) == RemovalsOf(a.server, e) && r.update.Changed(e) == Sent(entry, p)
    else !Structural(entry, p) && Sent(entry, p) == if e in r.mutations then r.mutations[e] else map[]
  }

  lemma KnownUpdated(a: System, r: RunParts, e: Entity, before: Comps)
    requires e in a.server.world && ItemOk(a, r, e)
    requires DeltaOk(a, r, e, before)
    ensures BroughtUpToDate(a, r, e, before)
  {
    hide Routed, NewEntity, IsVisible;
    assert before - {} == before && before + map[] == before;
  }

  lemma UnknownSent(a: System, b: System, r: RunParts, e: Entity)
    requires CollectOk(a, b, r) && e in a.server.world && e !in r.t1.baseline && IsVisible(r.t1.filter, e)
    ensures Values(a.server.world[e].comps) == if r.update.Touches(e) then r.update.Changed(e) else map[]
  {
    TouchedIffStructural(a, b, r, e);
    UnknownSentInFull(a.server.world[e], PerspectiveIn(a, r, e));
    assert a.server.world[e].comps == map[] ==> Values(a.server.world[e].comps) == map[];
  }

  lemma RunEffect(a: System, b: System, r: RunParts, e: Entity)
    requires CollectOk(a, b, r) && TicksOk(a) && WorldOk(a)
    requires RemovalsOk(a, e) && TrackedOk(a, e) && StructureOk(a, e) && PhaseOk(a, r.t1, r.update.despawns, e)
    ensures EffectOk(a, b, r, e)
  {
    TouchedIffStructural(a, b, r, e);
    MutatedNotTouched(a, b, r, e);
    if e in r.t1.baseline {
      forall t <- a.history | t >= Settled(a, e).value
        ensures e in a.history[t] && BroughtUpToDate(a, r, e, a.history[t][e])
      {
        assert Continues(a, r, e, t);
        RunDelta(a, r, e, t);
        KnownUpdated(a, r, e, a.history[t][e]);
      }
    } else if e in a.server.world && IsVisible(r.t1.filter, e) {
      UnknownSent(a, b, r, e);
    }
  }

  // ---------------------------------------------------------------------------------------------
  // The invariant across a run.

  lemma RunLog(a: System, b: System, r: RunParts, e: Entity)
    requires LinkOk(a, b, r) && a.received <= |a.log|
    ensures b.received <= |b.log| && b.log[..b.received] == a.log[..a.received]
    ensures InFlight(b) == (if r.update.IsEmpty() then InFlight(a) else InFlight(a) + [r.update])
    ensures Settled(b, e) == Touch(r.update, e, Settled(a, e))
  {
    if !r.update.IsEmpty() {
      assert InFlight(b)[..|InFlight(a)|] == InFlight(a);
    }
  }

  lemma RunTicks(a: System, b: System, r: RunParts)
    requires FrameOk(a, b, r) && BatchOk(a, b, r) && TicksOk(a)
    ensures TicksOk(b)
  {
    hide CollectUpdate, CollectMutations, BumpBaselines, SnapshotOf, Updated, Consistent;
  }

  lemma RunWorld(a: System, b: System, r: RunParts)
    requires FrameOk(a, b, r) && TicksOk(a) && WorldOk(a)
    ensures WorldOk(b)
  {
    forall e, t | t in b.history ensures StampsOk(b, e, t) {
      if t != b.server.tick {
        assert StampsOk(a, e, t);
      }
    }
  }

  ghost predicate EntityRuns(a: System, b: System, r: RunParts, e: Entity) {
    FrameOk(a, b, r) && TicksOk(a) && WorldOk(a) && PhaseOk(a, r.t1, r.update.despawns, e) && EffectOk(a, b, r, e)
  }

  lemma RunSecure(r: RunParts, e: Entity)
    requires Consistent(r.t1.filter)
    ensures IsVisible(r.t1.filter, e) ==> Secure(Updated(r.t1.filter), e)
  {
  }

  lemma RunTrackedOk(a: System, b: System, r: RunParts, e: Entity)
    requires LinkOk(a, b, r) && ServerOk(a, b, r) && TicksOk(a) && TrackedOk(a, e)
    requires PhaseOk(a, r.t1, r.update.despawns, e) && EffectOk(a, b, r, e)
    requires e in a.server.world ==> a.server.world[e].marker <= b.server.tick
    ensures b.received <= |b.log| && TrackedOk(b, e)
  {
    RunLog(a, b, r, e);
    RunSecure(r, e);
  }

  lemma RunRemovalsOk(a: System, b: System, r: RunParts, e: Entity)
    requires LinkOk(a, b, r) && ServerOk(a, b, r)
    ensures RemovalsOk(b, e)
  {
  }

  lemma RunShownOk(a: System, b: System, r: RunParts, e: Entity)
    requires LinkOk(a, b, r) && TicksOk(a) && TrackedOk(a, e)
    requires PhaseOk(a, r.t1, r.update.despawns, e) && EffectOk(a, b, r, e)
    ensures ShownOk(b, e)
  {
  }

  lemma RunStructureOk(a: System, b: System, r: RunParts, e: Entity)
    requires LinkOk(a, b, r) && TicksOk(a) && TrackedOk(a, e)
    requires PhaseOk(a, r.t1, r.update.despawns, e) && EffectOk(a, b, r, e)
    ensures b.received <= |b.log| && StructureOk(b, e)
  {
    hide After, TicksOk, Updated, Consistent, Secure, Increasing, StateOf, IsVisible;
    TicksBound(a);
    RunLog(a, b, r, e);
    if e in b.server.tracked.baseline && Settled(b, e).Some? && Settled(b, e).value in b.history {
      var k := Settled(b, e).value;
      RunStructureAt(a, b, r, e, k);
      forall t <- b.history | t >= k
        ensures e in b.history[t] && e in b.history[k] && b.history[t][e].Keys == b.history[k][e].Keys
      {
        RunStructureAt(a, b, r, e, t);
      }
    }
  }

  lemma RunStructureAt(a: System, b: System, r: RunParts, e: Entity, t: nat)
    requires LinkOk(a, b, r) && a.received <= |a.log| && TrackedOk(a, e)
    requires PhaseOk(a, r.t1, r.update.despawns, e) && EffectOk(a, b, r, e)
    requires b.received <= |b.log| && Settled(b, e) == Touch(r.update, e, Settled(a, e))
    requires e in b.server.tracked.baseline && Settled(b, e).Some? && t in b.history && t >= Settled(b, e).value
    requires forall t' <- a.history :: t' <= a.server.tick
    ensures e in a.server.world && e in b.history[t] && b.history[t][e].Keys == Values(a.server.world[e].comps).Keys
  {
    hide Settled, Secure, StateOf, IsVisible;
    assert e in a.server.world;
    if t != b.server.tick {
      assert t in a.history && t <= a.server.tick < b.server.tick;
      assert !r.update.Touches(e);
      assert BroughtUpToDate(a, r, e, a.history[t][e]);
    }
  }

  lemma RunQuietOk(a: System, b: System, r: RunParts, e: Entity)
    requires LinkOk(a, b, r) && ServerOk(a, b, r) && TicksOk(a) && TrackedOk(a, e)
    requires PhaseOk(a, r.t1, r.update.despawns, e) && EffectOk(a, b, r, e)
    requires e in r.mutations ==> exists m <- r.batch :: e in m.mutations
    ensures b.received <= |b.log| && QuietOk(b, e)
  {
    hide After, TicksOk, Updated, Consistent, Secure, Increasing, StateOf, IsVisible;
    TicksBound(a);
    RunLog(a, b, r, e);
    var now := b.server.tick;
    if e in r.mutations {
      var m :| m in r.batch && e in m.mutations;
      assert m in b.lastBatch;
    } else if e in b.server.tracked.baseline && Settled(b, e).Some? {
      forall t <- b.history | t >= Settled(b, e).value
        ensures e in b.history[t] && e in b.history[now] && b.history[t][e] == b.history[now][e]
      {
        RunQuietAt(a, b, r, e, t);
      }
    }
  }

  lemma TicksBound(a: System)
    requires TicksOk(a)
    ensures a.received <= |a.log| && forall t <- a.history :: t <= a.server.tick
  {
  }

  lemma RunQuietAt(a: System, b: System, r: RunParts, e: Entity, t: nat)
    requires LinkOk(a, b, r) && a.received <= |a.log| && TrackedOk(a, e)
    requires PhaseOk(a, r.t1, r.update.despawns, e) && EffectOk(a, b, r, e) && e !in r.mutations
    requires b.received <= |b.log| && Settled(b, e) == Touch(r.update, e, Settled(a, e))
    requires e in b.server.tracked.baseline && Settled(b, e).Some? && t in b.history && t >= Settled(b, e).value
    requires forall t' <- a.history :: t' <= a.server.tick
    ensures
      var now := b.server.tick;
      now in b.history && e in b.history[t] && e in b.history[now] && b.history[t][e] == b.history[now][e]
  {
    hide Settled, Secure, StateOf, IsVisible;
    assert e in a.server.world;
    assert b.history[b.server.tick][e] == Values(a.server.world[e].comps);
    if t != b.server.tick {
      assert t in a.history && t <= a.server.tick < b.server.tick;
      assert !r.update.Touches(e);
      assert BroughtUpToDate(a, r, e, a.history[t][e]);
    }
  }

  lemma RunUpdatesOk(a: System, b: System, r: RunParts, e: Entity)
    requires EntityRuns(a, b, r, e) && TrackedOk(a, e) && UpdatesOk(a, e)
    ensures b.received <= |b.log| && UpdatesOk(b, e)
  {
    hide Touch, TrackedOk, After, EffectOk, UpdateOk, WorldOk, ServerOk;
    RunLog(a, b, r, e);
    var us, us' := InFlight(a), InFlight(b);
    var c := Confirmed(a.client.entities, e);
    forall i | 0 <= i < |us'| ensures UpdateOk(b.history, us'[i], e, After(us'[..i], e, c)) {
      if i < |us| {
        assert us'[..i] == us[..i] && us'[i] == us[i] == a.log[a.received + i];
        assert UpdateOk(a.history, us[i], e, After(us[..i], e, c));
        RunKeepsUpdate(a, b, r, us[i], e, After(us[..i], e, c));
      } else {
        assert us'[..i] == us;
        RunUpdateOk(a, b, r, e);
      }
    }
  }

  /** The new snapshot is newer than every update message in flight. */
  lemma RunKeepsUpdate(a: System, b: System, r: RunParts, u: UpdateMsg, e: Entity, met: Option<nat>)
    requires FrameOk(a, b, r) && TicksOk(a) && u in a.log && UpdateOk(a.history, u, e, met)
    ensures UpdateOk(b.history, u, e, met)
  {
  }

  /** The new update message turns whatever the client will have into the current world. */
  lemma RunUpdateOk(a: System, b: System, r: RunParts, e: Entity)
    requires EntityRuns(a, b, r, e) && TrackedOk(a, e)
    ensures UpdateOk(b.history, r.update, e, Settled(a, e))
  {
    if r.update.Touches(e) && e !in r.update.despawns && Settled(a, e).Some? {
      forall t <- b.history | Settled(a, e).value <= t < r.update.tick ensures Delta(b.history, r.update, e, t) {
        assert t in a.history;
      }
    }
  }

  lemma RunClientOk(a: System, b: System, r: RunParts, e: Entity)
    requires LinkOk(a, b, r) && TicksOk(a) && ClientOk(a, e)
    ensures b.received <= |b.log| && ClientOk(b, e)
  {
  }

  lemma RunOriginOk(a: System, b: System, r: RunParts, e: Entity)
    requires LinkOk(a, b, r) && a.received <= |a.log| && OriginOk(a, e)
    ensures b.received <= |b.log| && OriginOk(b, e)
  {
    assert b.log[..b.received] == a.log[..a.received];
  }

  lemma RunEntityOk(a: System, b: System, r: RunParts, e: Entity)
    requires EntityRuns(a, b, r, e) && BatchOk(a, b, r) && EntityOk(a, e)
    ensures b.received <= |b.log| && EntityOk(b, e)
  {
    RunTrackedOk(a, b, r, e);
    RunRemovalsOk(a, b, r, e);
    RunShownOk(a, b, r, e);
    RunStructureOk(a, b, r, e);
    RunQuietOk(a, b, r, e);
    RunUpdatesOk(a, b, r, e);
    RunClientOk(a, b, r, e);
    RunOriginOk(a, b, r, e);
  }

  lemma RunOldMessage(a: System, b: System, r: RunParts, m: MutateMsg)
    requires FrameOk(a, b, r) && BatchOk(a, b, r) && TicksOk(a) && Pending(a, m) && MessageOk(a, m)
    ensures b.received <= |b.log| && MessageOk(b, m)
  {
    hide After, Increasing;
    RunLog(a, b, r, Entity(0, 1));
    if !r.update.IsEmpty() {
      UpToAppend(InFlight(a), r.update, m.updateTick);
    }
    forall e
      ensures MutateOk(b.history, m, e, After(UpTo(InFlight(b), m.updateTick), e, Confirmed(b.client.entities, e)))
    {
      assert MutateOk(a.history, m, e, After(UpTo(InFlight(a), m.updateTick), e, Confirmed(a.client.entities, e)));
    }
  }

  lemma RunMutateOk(a: System, b: System, r: RunParts, m: MutateMsg, e: Entity)
    requires EntityRuns(a, b, r, e) && BatchOk(a, b, r) && TrackedOk(a, e) && m in r.batch
    ensures b.received <= |b.log| && MutateOk(b.history, m, e, Settled(b, e))
  {
    RunLog(a, b, r, e);
    if e in m.mutations {
      forall t <- b.history | Settled(b, e).Some? && Settled(b, e).value <= t < m.tick
        ensures MutateDelta(b.history, m, e, t)
      {
        assert t in a.history;
      }
    }
  }

  lemma RunNewMessage(a: System, b: System, r: RunParts, m: MutateMsg)
    requires TicksOk(b) && BatchOk(a, b, r) && m in r.batch
    requires r.update.tick == b.server.tick && b.server.tick in b.history
    requires forall e :: MutateOk(b.history, m, e, Settled(b, e))
    ensures MessageOk(b, m)
  {
    var us := InFlight(b);
    forall u <- us ensures u.tick <= m.updateTick {
      var i :| 0 <= i < |us| && us[i] == u;
      assert u == b.log[b.received + i];
    }
    UpToAll(us, m.updateTick);
    forall e ensures MutateOk(b.history, m, e, After(UpTo(us, m.updateTick), e, Confirmed(b.client.entities, e))) {
      assert MutateOk(b.history, m, e, Settled(b, e));
    }
  }

  lemma RunAppliedOk(a: System, b: System, r: RunParts, m: MutateMsg, e: Entity)
    requires FrameOk(a, b, r) && TicksOk(a) && AppliedOk(a, m, e)
    ensures b.received <= |b.log| && AppliedOk(b, m, e)
  {
    RunLog(a, b, r, e);
    AppliedLater(a, b, r.update, m, e);
  }

  lemma AppliedLater(a: System, b: System, u: UpdateMsg, m: MutateMsg, e: Entity)
    requires a.received <= |a.log| && b.received <= |b.log| && a.server.tick < b.server.tick == u.tick
    requires Settled(b, e) == Touch(u, e, Settled(a, e)) && AppliedOk(a, m, e)
    ensures AppliedOk(b, m, e)
  {
    hide Settled;
  }

  lemma RunAckOk(a: System, b: System, r: RunParts, index: nat)
    requires FrameOk(a, b, r) && BatchOk(a, b, r) && index in a.acks && AckOk(a, index)
    ensures AckOk(b, index)
  {
    if index in b.server.tracked.mutations {
      assert index in a.server.tracked.mutations;
      var m :| (m in a.applied || m in a.client.buffered) && Acknowledges(a, m, index);
      assert Acknowledges(b, m, index);
    }
  }

  lemma RunKept(a: System, b: System, r: RunParts)
    requires Inv(a) && FrameOk(a, b, r) && BatchOk(a, b, r)
    requires forall e :: EntityRuns(a, b, r, e)
    ensures Inv(b)
  {
    RunTicks(a, b, r);
    RunWorld(a, b, r);
    ConsistencyKept(r.t1.filter, Entity(0, 1), true);
    forall e ensures EntityOk(b, e) {
      assert EntityOk(a, e) && EntityRuns(a, b, r, e);
      RunEntityOk(a, b, r, e);
    }
    forall m | Pending(b, m) ensures MessageOk(b, m) {
      if Pending(a, m) {
        RunOldMessage(a, b, r, m);
      } else {
        forall e ensures MutateOk(b.history, m, e, Settled(b, e)) {
          assert EntityOk(a, e) && EntityRuns(a, b, r, e);
          RunMutateOk(a, b, r, m, e);
        }
        RunNewMessage(a, b, r, m);
      }
    }
    forall m, e | m in b.applied ensures AppliedOk(b, m, e) {
      RunAppliedOk(a, b, r, m, e);
    }
    forall index <- b.acks ensures AckOk(b, index) {
      RunAckOk(a, b, r, index);
    }
  }

  lemma SendKept(sys: System, step: Step)
    requires Inv(sys) && step.SendStep? && Allowed(sys, step, true)
    ensures Inv(Next(sys, step))
  {
    var b, r := Next(sys, step), PartsOf(sys, step);
    var e0 := Entity(0, 1);
    assert EntityOk(sys, e0);
    DespawnPhaseOk(sys, e0);
    SendCollects(sys, step);
    SendBatch(sys, step);
    forall e ensures EntityRuns(sys, b, r, e) {
      assert EntityOk(sys, e);
      DespawnPhaseOk(sys, e);
      RunEffect(sys, b, r, e);
    }
    RunKept(sys, b, r);
  }

  /** The baseline of a tracked entity is kept or becomes the tick of the run. */
  lemma SendBaseline(sys: System, step: Step, e: Entity)
    requires Inv(sys) && step.SendStep? && Allowed(sys, step, true)
    requires e in sys.server.tracked.baseline && e in Next(sys, step).server.tracked.baseline
    ensures
      var after := Next(sys, step).server.tracked.baseline[e];
      after == sys.server.tracked.baseline[e] || after == step.tick
    ensures sys.server.tracked.baseline[e] < step.tick
  {
    assert EntityOk(sys, e);
    DespawnPhaseOk(sys, e);
    SendCollects(sys, step);
    TouchedIffStructural(sys, Next(sys, step), PartsOf(sys, step), e);
  }

  // ---------------------------------------------------------------------------------------------
  // Visibility.

  lemma {:induction false} DespawnEachFilter(t: Tracked, es: seq<Entity>)
    ensures DespawnEach(t, es).0.filter == Forgotten(t.filter, es)
  {
    if es != [] {
      DespawnEachFilter(t, es[..|es| - 1]);
    }
  }

  /**
   A run is a tick of the client's visibility: what was despawned is forgotten, then the lost entities are drained and the
   marks are cleared. So after it nothing is marked, and an entity is visible as it was before, or by default if it was
   despawned.
   */
  lemma RunIsTick(sys: System, step: Step, e: Entity)
    requires Inv(sys) && step.SendStep? && Allowed(sys, step, true)
    ensures
      var (f, g) := (sys.server.tracked.filter, Next(sys, step).server.tracked.filter);
      && g == Updated(Drained(Forgotten(f, sys.server.despawned))) && AtBoundary(g)
      && IsVisible(g, e) == if e in sys.server.despawned then ByDefault(PolicyOf(f)) else IsVisible(f, e)
  {
    assert EntityOk(sys, e);
    SendCollects(sys, step) by { DespawnPhaseOk(sys, e); }
    hide Next, Updated;
    DespawnEachFilter(sys.server.tracked, sys.server.despawned);
    TickOfFilter(sys.server.tracked.filter, sys.server.despawned, e);
  }

  lemma TickOfFilter(f: Filter, es: seq<Entity>, e: Entity)
    requires Consistent(f)
    ensures
      var g := Updated(Drained(Forgotten(f, es)));
      AtBoundary(g) && IsVisible(g, e) == if e in es then ByDefault(PolicyOf(f)) else IsVisible(f, e)
  {
    DespawnsForget(f, es, e);
    ConsistencyKept(Forgotten(f, es), e, true);
    UpdateReachesBoundary(Drained(Forgotten(f, es)));
  }
}
