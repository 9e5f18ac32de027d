/**
 The two clocks of the server. Messages carry server ticks; change detection, baselines and registered messages use
 change ticks, which advance on their own. What a run sends only depends on how change ticks compare with those of the
 runs, so the protocol, which has one clock, tells the same.
 */
module Clocks {
  import opened Domain
  import opened Visibility
  import opened Changes
  import opened Tracker
  import Protocol

  /** The change tick of the run at each server tick. */
  type Runs = map<nat, nat>

  ghost predicate Monotone(runs: Runs) {
    forall t <- runs, t' <- runs :: t < t' ==> runs[t] < runs[t']
  }

  /** The next run is later on both clocks. */
  ghost predicate Later(runs: Runs, serverTick: nat, thisRun: nat) {
    forall t <- runs :: t < serverTick && runs[t] < thisRun
  }

  function At(runs: Runs, t: nat): nat {
    if t in runs then runs[t] else 0
  }

  // ---------------------------------------------------------------------------------------------
  // One server on two clocks.

  /** A change that every run sees as before or after its own in the same way on both clocks. */
  ghost predicate SameStamp(runs: Runs, serverTick: nat, changeTick: nat) {
    forall t <- runs :: changeTick > runs[t] <==> serverTick > t
  }

  ghost predicate SameEntry(runs: Runs, a: Entry, c: Entry) {
    && SameStamp(runs, a.marker, c.marker) && a.comps.Keys == c.comps.Keys
    && forall id <- a.comps ::
         && a.comps[id].value == c.comps[id].value
         && SameStamp(runs, a.comps[id].added, c.comps[id].added)
         && SameStamp(runs, a.comps[id].changed, c.comps[id].changed)
  }

  function LabelledInfo(runs: Runs, info: MutateInfo): MutateInfo {
    info.(tick := At(runs, info.tick))
  }

  /** What the server remembers of a client, with change ticks for server ticks. */
  function Labelled(runs: Runs, t: Tracked): Tracked {
    t.(baseline := map e | e in t.baseline :: At(runs, t.baseline[e]),
       mutations := map i | i in t.mutations :: LabelledInfo(runs, t.mutations[i]))
  }

  ghost predicate InRuns(runs: Runs, t: Tracked) {
    && (forall e <- t.baseline :: t.baseline[e] in runs)
    && (forall i <- t.mutations :: t.mutations[i].tick in runs)
  }

  /** `c` is the server `a` on the clock of change ticks. Its tick is that of the last run. */
  ghost predicate Relabels(runs: Runs, a: Protocol.Server, c: Protocol.Server) {
    && Monotone(runs) && a.tick in runs && c.tick == runs[a.tick]
    && a.despawned == c.despawned && a.removed == c.removed
    && a.world.Keys == c.world.Keys && (forall e <- a.world :: SameEntry(runs, a.world[e], c.world[e]))
    && InRuns(runs, a.tracked) && c.tracked == Labelled(runs, a.tracked)
  }

  // ---------------------------------------------------------------------------------------------
  // The classification.

  ghost predicate SamePerspective(runs: Runs, a: Perspective, c: Perspective) {
    && a.view == c.view && a.removal == c.removal && a.lastRun in runs && c.lastRun == runs[a.lastRun]
    && (a.baseline.Some? ==> a.baseline.value in runs)
    && c.baseline == if a.baseline.Some? then Some(At(runs, a.baseline.value)) else None
  }

  lemma SameRouted(runs: Runs, a: Entry, c: Entry, p: Perspective, q: Perspective, r: Route)
    requires SameEntry(runs, a, c) && SamePerspective(runs, p, q)
    ensures Routed(a, p, r) == Routed(c, q, r)
    ensures NewEntity(a, p) <==> NewEntity(c, q)
  {
    forall id <- a.comps ensures RouteOf(a, a.comps[id], p) == RouteOf(c, c.comps[id], q) {
    }
  }

  /** An entity is classified alike on both clocks. */
  lemma SameItems(runs: Runs, a: Entry, c: Entry, p: Perspective, q: Perspective)
    requires SameEntry(runs, a, c) && SamePerspective(runs, p, q)
    ensures UpdateItem(a, p) == UpdateItem(c, q) && MutateItem(a, p) == MutateItem(c, q)
    ensures Structural(a, p) <==> Structural(c, q)
  {
    hide Routed, SameEntry, NewEntity;
    SameRouted(runs, a, c, p, q, ToUpdate);
    SameRouted(runs, a, c, p, q, ToMutate);
  }

  // ---------------------------------------------------------------------------------------------
  // The run.

  lemma {:induction false} DespawnsLabelled(runs: Runs, t: Tracked, es: seq<Entity>)
    requires InRuns(runs, t)
    ensures
      var (t', out) := Protocol.DespawnEach(t, es);
      InRuns(runs, t') && Protocol.DespawnEach(Labelled(runs, t), es) == (Labelled(runs, t'), out)
  {
    hide WithoutDespawned, IsVisible;
    if es != [] {
      DespawnsLabelled(runs, t, es[..|es| - 1]);
      var t', e := Protocol.DespawnEach(t, es[..|es| - 1]).0, es[|es| - 1];
      assert WithoutEntity(Labelled(runs, t'), e) == Labelled(runs, WithoutEntity(t', e));
    }
  }

  lemma PhaseLabelled(runs: Runs, t: Tracked, es: seq<Entity>)
    requires InRuns(runs, t)
    ensures
      var (t', out) := Protocol.DespawnPhase(t, es);
      InRuns(runs, t') && Protocol.DespawnPhase(Labelled(runs, t), es) == (Labelled(runs, t'), out)
  {
    hide Lost, Drained;
    DespawnsLabelled(runs, t, es);
    var t' := Protocol.DespawnEach(t, es).0;
    assert WithoutLost(Labelled(runs, t')) == Labelled(runs, WithoutLost(t'));
  }

  lemma SameView(runs: Runs, a: Protocol.Server, c: Protocol.Server, t: Tracked, e: Entity)
    requires Relabels(runs, a, c) && InRuns(runs, t)
    ensures Protocol.RemovalsOf(c, e) == Protocol.RemovalsOf(a, e)
    ensures SamePerspective(runs, Protocol.PerspectiveOf(a, t, e), Protocol.PerspectiveOf(c, Labelled(runs, t), e))
  {
    hide StateOf;
    if e in a.world {
      assert SameEntry(runs, a.world[e], c.world[e]);
    }
  }

  /** A run collects the same on both clocks. */
  lemma SameCollected(runs: Runs, a: Protocol.Server, c: Protocol.Server, t: Tracked, despawns: set<Entity>, tick: nat)
    requires Relabels(runs, a, c) && InRuns(runs, t)
    ensures Protocol.CollectUpdate(c, Labelled(runs, t), despawns, tick) == Protocol.CollectUpdate(a, t, despawns, tick)
    ensures Protocol.CollectMutations(c, Labelled(runs, t)) == Protocol.CollectMutations(a, t)
  {
    hide UpdateItem, MutateItem, Structural, SameEntry, SamePerspective, Protocol.PerspectiveOf, Protocol.RemovalsOf, IsVisible;
    var t' := Labelled(runs, t);
    forall e <- a.world
      ensures Protocol.RemovalsOf(c, e) == Protocol.RemovalsOf(a, e)
      ensures UpdateItem(a.world[e], Protocol.PerspectiveOf(a, t, e)) == UpdateItem(c.world[e], Protocol.PerspectiveOf(c, t', e))
      ensures MutateItem(a.world[e], Protocol.PerspectiveOf(a, t, e)) == MutateItem(c.world[e], Protocol.PerspectiveOf(c, t', e))
    {
      SameView(runs, a, c, t, e);
      SameItems(runs, a.world[e], c.world[e], Protocol.PerspectiveOf(a, t, e), Protocol.PerspectiveOf(c, t', e));
    }
    assert Protocol.CollectUpdate(c, t', despawns, tick).removals == Protocol.CollectUpdate(a, t, despawns, tick).removals;
    assert Protocol.CollectUpdate(c, t', despawns, tick).changes == Protocol.CollectUpdate(a, t, despawns, tick).changes;
  }

  lemma BaselinesLabelled(runs: Runs, a: Protocol.Server, c: Protocol.Server, t: Tracked, serverTick: nat, thisRun: nat)
    requires Relabels(runs, a, c) && InRuns(runs, t) && Later(runs, serverTick, thisRun)
    ensures
      var runs' := runs[serverTick := thisRun];
      var t' := t.(baseline := Protocol.BumpBaselines(a, t, serverTick));
      && InRuns(runs', t')
      && Labelled(runs, t).(baseline := Protocol.BumpBaselines(c, Labelled(runs, t), thisRun)) == Labelled(runs', t')
  {
    var structural := StructuralOf(a, t);
    BumpedIs(a, t, serverTick);
    BumpedIs(c, Labelled(runs, t), thisRun);
    SameStructurals(runs, a, c, t);
    BumpedLabelled(runs, t, structural, serverTick, thisRun);
  }

  function StructuralOf(s: Protocol.Server, t: Tracked): set<Entity> {
    set e | e in s.world && Structural(s.world[e], Protocol.PerspectiveOf(s, t, e))
  }

  lemma BumpedIs(s: Protocol.Server, t: Tracked, tick: nat)
    ensures Protocol.BumpBaselines(s, t, tick) == t.baseline + map e | e in StructuralOf(s, t) :: tick
  {
    hide Structural, Protocol.PerspectiveOf;
  }

  lemma SameStructurals(runs: Runs, a: Protocol.Server, c: Protocol.Server, t: Tracked)
    requires Relabels(runs, a, c) && InRuns(runs, t)
    ensures StructuralOf(a, t) == StructuralOf(c, Labelled(runs, t))
  {
    SameWorld(runs, a, c);
    hide Structural, Protocol.PerspectiveOf, Relabels, InRuns, Labelled;
    forall e <- a.world
      ensures Structural(a.world[e], Protocol.PerspectiveOf(a, t, e)) <==>
        Structural(c.world[e], Protocol.PerspectiveOf(c, Labelled(runs, t), e))
    {
      SameStructural(runs, a, c, t, e);
    }
  }

  lemma SameWorld(runs: Runs, a: Protocol.Server, c: Protocol.Server)
    requires Relabels(runs, a, c)
    ensures a.world.Keys == c.world.Keys
  {
  }

  lemma SameStructural(runs: Runs, a: Protocol.Server, c: Protocol.Server, t: Tracked, e: Entity)
    requires Relabels(runs, a, c) && InRuns(runs, t) && e in a.world
    ensures e in c.world
    ensures Structural(a.world[e], Protocol.PerspectiveOf(a, t, e)) <==>
      Structural(c.world[e], Protocol.PerspectiveOf(c, Labelled(runs, t), e))
  {
    hide Structural, SameEntry, SamePerspective, Protocol.PerspectiveOf;
    SameView(runs, a, c, t, e);
    SameItems(runs, a.world[e], c.world[e], Protocol.PerspectiveOf(a, t, e), Protocol.PerspectiveOf(c, Labelled(runs, t), e));
  }

  lemma BumpedLabelled(runs: Runs, t: Tracked, es: set<Entity>, serverTick: nat, thisRun: nat)
    requires InRuns(runs, t) && Later(runs, serverTick, thisRun)
    ensures
      var runs' := runs[serverTick := thisRun];
      var t' := t.(baseline := t.baseline + map e | e in es :: serverTick);
      && InRuns(runs', t')
      && Labelled(runs, t).(baseline := Labelled(runs, t).baseline + map e | e in es :: thisRun) == Labelled(runs', t')
  {
    MoreRuns(runs, t, serverTick, thisRun);
    var runs' := runs[serverTick := thisRun];
    var b := t.baseline + map e | e in es :: serverTick;
    assert (map e | e in b :: At(runs', b[e])) == Labelled(runs, t).baseline + map e | e in es :: thisRun;
  }

  /** Recording one more run does not change what is labelled already. */
  lemma MoreRuns(runs: Runs, t: Tracked, serverTick: nat, thisRun: nat)
    requires InRuns(runs, t) && Later(runs, serverTick, thisRun)
    ensures var runs' := runs[serverTick := thisRun]; InRuns(runs', t) && Labelled(runs', t) == Labelled(runs, t)
  {
  }

  lemma {:induction false} RegisteredLabelled(runs: Runs, t: Tracked, serverTick: nat, timestamp: nat, groups: seq<seq<Entity>>)
    requires InRuns(runs, t) && serverTick in runs
    ensures
      var t' := RegisteredAll(t, serverTick, timestamp, groups);
      InRuns(runs, t') && RegisteredAll(Labelled(runs, t), runs[serverTick], timestamp, groups) == Labelled(runs, t')
  {
    if groups != [] {
      RegisteredLabelled(runs, t, serverTick, timestamp, groups[..|groups| - 1]);
    }
  }

  // ---------------------------------------------------------------------------------------------
  // Between runs.

  function LabelledBaseline(runs: Runs, baseline: map<Entity, nat>): map<Entity, nat> {
    map e | e in baseline :: At(runs, baseline[e])
  }

  lemma AckedLabelled(runs: Runs, baseline: map<Entity, nat>, info: MutateInfo)
    requires Monotone(runs) && info.tick in runs && forall e <- baseline :: baseline[e] in runs
    ensures AckedBaseline(LabelledBaseline(runs, baseline), LabelledInfo(runs, info)) ==
      LabelledBaseline(runs, AckedBaseline(baseline, info))
  {
  }

  /** Acknowledgements raise baselines alike on both clocks. */
  lemma AckLabelled(runs: Runs, t: Tracked, index: nat)
    requires Monotone(runs) && InRuns(runs, t)
    ensures InRuns(runs, Acked(t, index)) && Acked(Labelled(runs, t), index) == Labelled(runs, Acked(t, index))
  {
    if index in t.mutations {
      hide AckedBaseline;
      AckedLabelled(runs, t.baseline, t.mutations[index]);
      AckedInRuns(runs, t.baseline, t.mutations[index]);
      assert Labelled(runs, t).baseline == LabelledBaseline(runs, t.baseline);
      assert Labelled(runs, t).mutations - {index} == Labelled(runs, Acked(t, index)).mutations;
    }
  }

  lemma AckedInRuns(runs: Runs, baseline: map<Entity, nat>, info: MutateInfo)
    requires info.tick in runs && forall e <- baseline :: baseline[e] in runs
    ensures forall e <- AckedBaseline(baseline, info) :: AckedBaseline(baseline, info)[e] in runs
  {
  }

  lemma CleanupLabelled(runs: Runs, t: Tracked, minTimestamp: nat)
    requires InRuns(runs, t)
    ensures InRuns(runs, CleanedUp(t, minTimestamp))
    ensures CleanedUp(Labelled(runs, t), minTimestamp) == Labelled(runs, CleanedUp(t, minTimestamp))
  {
    assert CleanedUp(Labelled(runs, t), minTimestamp).mutations == Labelled(runs, CleanedUp(t, minTimestamp)).mutations;
  }

  /** The server tick that stands for a change tick: it comes right after the last run before the change. */
  function Stamp(runs: Runs, changeTick: nat, upTo: nat): (t: nat)
    ensures t <= upTo + 1
  {
    if upTo in runs && runs[upTo] < changeTick then upTo + 1
    else if upTo == 0 then 0
    else Stamp(runs, changeTick, upTo - 1)
  }

  lemma {:induction false} StampIsSame(runs: Runs, changeTick: nat, upTo: nat, t: nat)
    requires Monotone(runs) && t in runs && t <= upTo
    ensures changeTick > runs[t] <==> Stamp(runs, changeTick, upTo) > t
  {
    if !(upTo in runs && runs[upTo] < changeTick) && upTo > 0 && t < upTo {
      StampIsSame(runs, changeTick, upTo - 1, t);
    }
  }

  function StampedAt(runs: Runs, st: Stamped, upTo: nat): Stamped {
    Stamped(st.value, Stamp(runs, st.added, upTo), Stamp(runs, st.changed, upTo))
  }

  /** An entity on the clock of server ticks. */
  function EntryAt(runs: Runs, entry: Entry, upTo: nat): Entry {
    Entry(Stamp(runs, entry.marker, upTo), map id | id in entry.comps :: StampedAt(runs, entry.comps[id], upTo))
  }

  lemma EntryIsSame(runs: Runs, entry: Entry, upTo: nat)
    requires Monotone(runs) && forall t <- runs :: t <= upTo
    ensures SameEntry(runs, EntryAt(runs, entry, upTo), entry)
    ensures Protocol.StampedBy(EntryAt(runs, entry, upTo), upTo + 1)
  {
    hide Stamp, SameStamp;
    StampAtIsSame(runs, entry.marker, upTo);
    forall id <- entry.comps
      ensures SameStamp(runs, Stamp(runs, entry.comps[id].added, upTo), entry.comps[id].added)
      ensures SameStamp(runs, Stamp(runs, entry.comps[id].changed, upTo), entry.comps[id].changed)
    {
      StampAtIsSame(runs, entry.comps[id].added, upTo);
      StampAtIsSame(runs, entry.comps[id].changed, upTo);
    }
  }

  lemma StampAtIsSame(runs: Runs, changeTick: nat, upTo: nat)
    requires Monotone(runs) && forall t <- runs :: t <= upTo
    ensures SameStamp(runs, Stamp(runs, changeTick, upTo), changeTick)
  {
    forall t <- runs ensures changeTick > runs[t] <==> Stamp(runs, changeTick, upTo) > t {
      StampIsSame(runs, changeTick, upTo, t);
    }
  }

  /** What was changed before a run is so on both clocks. */
  lemma SameAfterRun(runs: Runs, a: Entry, c: Entry, serverTick: nat, thisRun: nat)
    requires SameEntry(runs, a, c) && Later(runs, serverTick, thisRun)
    requires Protocol.StampedBy(a, serverTick) && Protocol.StampedBy(c, thisRun)
    ensures SameEntry(runs[serverTick := thisRun], a, c)
  {
  }
}
