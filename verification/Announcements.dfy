/** Which visible entities a client that has caught up may lack. */
module Announcements {
  import opened Domain
  import opened Visibility
  import opened Changes
  import opened Messages
  import Receiver
  import opened Tracker
  import opened Protocol
  import opened Invariant
  import ClientSteps
  import SendSteps
  import Theorems
  import Necessity

  /** Whether `e` was visible at the end of the last run. */
  predicate WasVisible(f: Filter, e: Entity) {
    match f
    case All => true
    case Blacklist(list, added, _) => e !in list || e in added
    case Whitelist(list, _, _) => e in list && list[e] == WhiteVisible
  }

  /**
   `start` is the server tick at which the client started. Whatever is shown without being tracked was there by then,
   and has not had a component in any run.
   */
  ghost predicate AnnouncedOk(sys: System, start: nat, e: Entity) {
    var s := sys.server;
    && (e in s.world && s.world[e].marker <= s.tick ==>
          && (sys.history != map[] ==> e !in s.despawned)
          && (sys.history != map[] && WasVisible(s.tracked.filter, e) ==> e in sys.shown)
          && (e in sys.shown && e !in s.tracked.baseline ==>
                s.world[e].marker <= start && forall t <- sys.history :: e in sys.history[t] && sys.history[t][e] == map[]))
  }

  ghost predicate Announced(sys: System, start: nat) {
    (sys.history == map[] ==> sys.server.tick == start) && forall e :: AnnouncedOk(sys, start, e)
  }

  lemma ToggledWasVisible(f: Filter, toggled: Entity, visible: bool, e: Entity)
    requires Consistent(f) && WasVisible(WithVisibility(f, toggled, visible), e)
    ensures WasVisible(f, e)
  {
  }

  lemma UpdatedWasVisible(f: Filter, e: Entity)
    requires Consistent(f) && WasVisible(Updated(f), e)
    ensures IsVisible(f, e)
  {
  }

  lemma VisibleWas(f: Filter, e: Entity)
    requires StateOf(f, e) == Visible
    ensures WasVisible(f, e)
  {
  }

  /** The despawn phase does not touch an entity that is not despawned, unless the client lost sight of it. */
  lemma {:induction false} DespawnsKeep(t: Tracked, es: seq<Entity>, e: Entity)
    requires e !in es
    ensures
      var t' := DespawnEach(t, es).0;
      && StateOf(t'.filter, e) == StateOf(t.filter, e) && (e in t'.baseline <==> e in t.baseline)
  {
    if es != [] {
      var init, last := es[..|es| - 1], es[|es| - 1];
      assert es == init + [last] && last != e;
      DespawnsKeep(t, init, e);
    }
  }

  lemma PhaseKeeps(t: Tracked, es: seq<Entity>, e: Entity)
    requires e !in es && Consistent(t.filter) && StateOf(DespawnPhase(t, es).0.filter, e) == Visible
    ensures StateOf(t.filter, e) == Visible && (e in DespawnPhase(t, es).0.baseline <==> e in t.baseline)
  {
    DespawnsKeep(t, es, e);
    SendSteps.DespawnEachFacts(t, es, e);
  }

  /** An entity that a run shows without tracking it is not new to the client and has no components. */
  lemma UntrackedIsOld(entry: Entry, p: Perspective)
    requires p.view != Hidden && p.baseline == None && !Structural(entry, p)
    ensures p.view == Visible && entry.marker <= p.lastRun && Values(entry.comps) == map[]
  {
    assert Routed(entry, p, ToUpdate).Keys == entry.comps.Keys;
    assert Values(entry.comps).Keys == {};
  }

  lemma SendAnnounced(sys: System, step: Step, start: nat, e: Entity)
    requires Inv(sys) && step.SendStep? && Allowed(sys, step, true) && Announced(sys, start)
    ensures AnnouncedOk(Next(sys, step), start, e)
  {
    assert EntityOk(sys, e) && AnnouncedOk(sys, start, e);
    SendSteps.DespawnPhaseOk(sys, e);
    SendSteps.SendCollects(sys, step);
    RunAnnounced(sys, Next(sys, step), SendSteps.PartsOf(sys, step), start, e) by {
      assert SendSteps.PartsOf(sys, step).t1 == DespawnPhase(sys.server.tracked, sys.server.despawned).0;
    }
  }

  lemma RunAnnounced(a: System, b: System, r: SendSteps.RunParts, start: nat, e: Entity)
    requires SendSteps.CollectOk(a, b, r) && SendSteps.FrameOk(a, b, r) && AnnouncedOk(a, start, e)
    requires (a.history == map[] ==> a.server.tick == start) && Consistent(a.server.tracked.filter)
    requires r.t1 == DespawnPhase(a.server.tracked, a.server.despawned).0
    ensures AnnouncedOk(b, start, e)
  {
    hide CollectUpdate, CollectMutations, Structural, StateOf, WasVisible, Consistent, Updated, DespawnPhase, SnapshotOf;
    if e in b.server.world {
      var entry, p := a.server.world[e], PerspectiveOf(a.server, r.t1, e);
      if WasVisible(b.server.tracked.filter, e) {
        UpdatedWasVisible(r.t1.filter, e);
      }
      if e in b.shown && e !in b.server.tracked.baseline {
        UntrackedIsOld(entry, p);
        SnapshotHas(a.server.world, e);
        if a.history != map[] {
          PhaseKeeps(a.server.tracked, a.server.despawned, e);
          VisibleWas(a.server.tracked.filter, e);
        }
      }
    }
  }

  lemma SnapshotHas(world: World, e: Entity)
    requires e in world
    ensures e in SnapshotOf(world) && SnapshotOf(world)[e] == Values(world[e].comps)
  {
  }

  lemma OtherAnnounced(sys: System, step: Step, start: nat, e: Entity)
    requires Inv(sys) && !step.SendStep? && Allowed(sys, step, true) && Announced(sys, start)
    ensures AnnouncedOk(Next(sys, step), start, e)
    ensures Next(sys, step).history == sys.history && Next(sys, step).server.tick == sys.server.tick
  {
    hide Frame, WasVisible, WithVisibility, Inv;
    assert AnnouncedOk(sys, start, e);
    match step
    case FrameStep(updates, batch) => FrameLeaves(sys, updates, batch);
    case SetVisible(toggled, visible) =>
      ConsistentFilter(sys);
      if WasVisible(Next(sys, step).server.tracked.filter, e) {
        ToggledWasVisible(sys.server.tracked.filter, toggled, visible, e);
      }
    case _ =>
  }

  lemma ConsistentFilter(sys: System)
    requires Inv(sys)
    ensures Consistent(sys.server.tracked.filter)
  {
  }

  lemma FrameLeaves(sys: System, updates: nat, batch: seq<MutateMsg>)
    requires sys.received + updates <= |sys.log|
    ensures
      var sys' := Frame(sys, updates, batch);
      sys'.server == sys.server && sys'.history == sys.history && sys'.shown == sys.shown
  {
    ClientSteps.FrameLeavesServer(sys, updates, batch);
    PopsLeave(sys, updates);
    BuffersLeave(PopUpdates(sys, updates), batch);
    AppliesLeave(BufferAll(PopUpdates(sys, updates), batch), 0);
  }

  lemma {:induction false} PopsLeave(sys: System, n: nat)
    requires sys.received + n <= |sys.log|
    ensures PopUpdates(sys, n).history == sys.history && PopUpdates(sys, n).shown == sys.shown
    decreases n
  {
    if n > 0 {
      PopsLeave(PopUpdate(sys), n - 1);
    }
  }

  lemma {:induction false} BuffersLeave(sys: System, ms: seq<MutateMsg>)
    ensures BufferAll(sys, ms).history == sys.history && BufferAll(sys, ms).shown == sys.shown
    decreases |ms|
  {
    if ms != [] {
      BuffersLeave(BufferOne(sys, ms[0]), ms[1..]);
    }
  }

  lemma {:induction false} AppliesLeave(sys: System, j: nat)
    requires j <= |sys.client.buffered|
    ensures ApplyReady(sys, j).history == sys.history && ApplyReady(sys, j).shown == sys.shown
    decreases |sys.client.buffered| - j
  {
    if j < |sys.client.buffered| {
      if sys.client.buffered[j].updateTick > sys.client.updateTick {
        AppliesLeave(sys, j + 1);
      } else {
        AppliesLeave(ApplyOne(sys, j), j);
      }
    }
  }

  lemma StepAnnounced(sys: System, step: Step, start: nat)
    requires Inv(sys) && Allowed(sys, step, true) && Announced(sys, start)
    ensures Announced(Next(sys, step), start)
  {
    hide AnnouncedOk, Inv;
    forall e ensures AnnouncedOk(Next(sys, step), start, e) {
      if step.SendStep? {
        SendAnnounced(sys, step, start, e);
      } else {
        OtherAnnounced(sys, step, start, e);
      }
    }
    if step.SendStep? {
      SendRecords(sys, step);
    } else {
      OtherAnnounced(sys, step, start, Entity(0, 1));
    }
  }

  lemma SendRecords(sys: System, step: Step)
    requires step.SendStep?
    ensures Next(sys, step).history != map[]
  {
    hide Replicate;
    assert step.tick in Next(sys, step).history;
  }

  lemma {:induction false} RunAnnounces(sys: System, steps: seq<Step>, end: System, start: nat)
    requires Inv(sys) && Announced(sys, start) && Reaches(sys, steps, end, true)
    ensures Inv(end) && Announced(end, start)
    decreases |steps|
  {
    hide Inv, Announced;
    if steps != [] {
      StepAnnounced(sys, steps[0], start);
      Theorems.StepOk(sys, steps[0]);
      RunAnnounces(Next(sys, steps[0]), steps[1..], end, start);
    }
  }

  /**
   A client that received all updates lacks a visible entity only if the entity was replicated before the client
   started and has had no component in any run since: whatever was added while the client replicated is there.
   */
  lemma MissingIsOldAndEmpty(sys: System, steps: seq<Step>, end: System, e: Entity)
    requires Init(sys) && Reaches(sys, steps, end, true) && end.received == |end.log|
    requires e in end.shown && e in end.server.world && end.server.world[e].marker <= end.server.tick
    requires e !in end.client.entities
    ensures end.server.world[e].marker <= sys.server.tick
    ensures forall t <- end.history :: e in end.history[t] && end.history[t][e] == map[]
  {
    Theorems.InitOk(sys);
    assert Announced(sys, sys.server.tick) by {
      forall e ensures AnnouncedOk(sys, sys.server.tick, e) {
      }
    }
    RunAnnounces(sys, steps, end, sys.server.tick);
    assert EntityOk(end, e) && AnnouncedOk(end, sys.server.tick, e);
    assert Settled(end, e).None?;
  }

  // ---------------------------------------------------------------------------------------------
  // Such an entity is really missing.

  /** The entity was spawned in the first tick, before the client started. */
  const Bare: Entry := Entry(1, map[])

  function Before(e: Entity): System {
    System(Server(map[e := Bare], 1, [], map[], Fresh(PolicyAll)), Receiver.Client(map[], 0, []), [], 0, {}, [], map[], {}, {}, {})
  }

  function AfterRun(e: Entity): System {
    Before(e).(server := Server(map[e := Bare], 2, [], map[], Fresh(PolicyAll)), history := map[2 := map[e := map[]]], shown := {e})
  }

  lemma NothingCollected(e: Entity, s: Server)
    requires s == Before(e).server
    ensures Necessity.Collects(s, 2, Necessity.Collected(UpdateMsg(2, {}, map[], map[]), map[], map[], map[e := map[]]))
  {
    var col := Necessity.Collected(UpdateMsg(2, {}, map[], map[]), map[], map[], map[e := map[]]);
    Necessity.EmptyItem(Bare, PerspectiveOf(s, s.tracked, e));
    assert Necessity.ItemsOk(s, col, {}, e);
    assert SnapshotOf(s.world) == map[e := map[]];
    Necessity.CollectsItems(s, 2, col, {});
  }

  lemma RunSendsNothing(e: Entity)
    ensures Allowed(Before(e), SendStep(2, 0, []), true) && Next(Before(e), SendStep(2, 0, [])) == AfterRun(e)
  {
    var col := Necessity.Collected(UpdateMsg(2, {}, map[], map[]), map[], map[], map[e := map[]]);
    NothingCollected(e, Before(e).server);
    Necessity.RunWithoutMutations(Before(e), 2, col);
    Necessity.SentIs(Before(e), 2, col, Fresh(PolicyAll), {}, AfterRun(e));
  }

  lemma FrameReceivesNothing(e: Entity)
    ensures Allowed(AfterRun(e), FrameStep(0, []), true) && Next(AfterRun(e), FrameStep(0, [])) == AfterRun(e)
  {
  }

  /** There is a run after which a client that has caught up lacks a visible entity. */
  lemma MissingHappens(e: Entity)
    ensures exists sys, steps, end ::
      && Init(sys) && Reaches(sys, steps, end, true)
      && end.received == |end.log| && end.lastBatch <= end.applied && end.server.tick in end.history
      && e in end.shown && e in end.server.world && e !in end.client.entities
  {
    RunSendsNothing(e);
    FrameReceivesNothing(e);
    TwoSteps(Before(e), SendStep(2, 0, []), FrameStep(0, []), AfterRun(e));
  }

  lemma TwoSteps(sys: System, first: Step, second: Step, end: System)
    requires Allowed(sys, first, true) && Next(sys, first) == end && Allowed(end, second, true) && Next(end, second) == end
    ensures Reaches(sys, [first, second], end, true)
  {
    hide Allowed, Next;
    assert [first, second][1..] == [second] && [second][1..] == [];
    assert Reaches(end, [second], end, true);
  }
}
