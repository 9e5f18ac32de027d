/** What holds in every reachable state of the protocol. */
module Theorems {
  import opened Domain
  import opened Protocol
  import opened Invariant
  import ServerSteps
  import ClientSteps
  import SendSteps

  lemma InitOk(sys: System)
    requires Init(sys)
    ensures Inv(sys)
  {
    forall e ensures EntityOk(sys, e) {
    }
  }

  lemma StepOk(sys: System, step: Step)
    requires Inv(sys) && Allowed(sys, step, true)
    ensures Inv(Next(sys, step))
  {
    match step
    case SendStep(_, _, _) => SendSteps.SendKept(sys, step);
    case FrameStep(_, _) => ClientSteps.FrameKept(sys, step);
    case Lose(_) => ServerSteps.LoseKept(sys, step);
    case ReceiveAck(_) => ServerSteps.ReceiveAckKept(sys, step);
    case Cleanup(_) => ServerSteps.CleanupKept(sys, step);
    case _ => ServerSteps.WorldStepsKept(sys, step);
  }

  lemma {:induction false} RunsOk(sys: System, steps: seq<Step>, end: System)
    requires Inv(sys) && Reaches(sys, steps, end, true)
    ensures Inv(end)
    decreases |steps|
  {
    if steps != [] {
      StepOk(sys, steps[0]);
      RunsOk(Next(sys, steps[0]), steps[1..], end);
    }
  }

  /** `end` can be reached by a fresh client within the environment assumptions. */
  ghost predicate Reachable(end: System) {
    exists sys, steps :: Init(sys) && Reaches(sys, steps, end, true)
  }

  lemma ReachableOk(end: System)
    requires Reachable(end)
    ensures Inv(end)
  {
    var sys, steps :| Init(sys) && Reaches(sys, steps, end, true);
    InitOk(sys);
    RunsOk(sys, steps, end);
  }

  /**
   Per-entity snapshot: every client entity has exactly the replicated components and values that the server
   entity had at the entity's confirmed tick, whatever was lost, duplicated, delayed or reordered.
   */
  lemma EveryEntityIsASnapshot(sys: System, e: Entity)
    requires Reachable(sys) && e in sys.client.entities
    ensures
      var k := sys.client.entities[e].confirmed;
      && k in sys.history && e in sys.history[k]
      && sys.client.entities[e].comps == sys.history[k][e]
  {
    ReachableOk(sys);
    assert EntityOk(sys, e);
  }

  /**
   Eventual consistency: once no update message is in flight and the mutate messages of the last run have been
   applied, the client is up to date with that run although only changes since each baseline were sent. Its
   entities are the visible ones, except that a visible entity without components may be missing.
   */
  lemma CaughtUpClientIsConsistent(sys: System)
    requires Reachable(sys) && sys.server.tick in sys.history
    requires sys.received == |sys.log| && sys.lastBatch <= sys.applied
    ensures
      var world := sys.history[sys.server.tick];
      && (forall e <- sys.client.entities ::
            e in sys.shown && e in world && sys.client.entities[e].comps == world[e])
      && (forall e <- sys.shown :: e in world && (e in sys.client.entities || world[e] == map[]))
  {
    hide UpdatesOk, MessageOk, OriginOk, StructureOk, RemovalsOk, AckOk, StampsOk;
    ReachableOk(sys);
    var world := sys.history[sys.server.tick];
    forall e <- sys.client.entities ensures e in sys.shown && e in world && sys.client.entities[e].comps == world[e] {
      assert EntityOk(sys, e);
      assert Settled(sys, e) == Some(sys.client.entities[e].confirmed);
      if m :| m in sys.lastBatch && e in m.mutations {
        assert AppliedOk(sys, m, e);
      }
    }
    forall e <- sys.shown ensures e in world && (e in sys.client.entities || world[e] == map[]) {
      assert EntityOk(sys, e);
    }
  }

  /**
   Baseline soundness: the server never assumes more than what the client will have confirmed once the
   updates in flight have arrived, and it tracks exactly the entities the client will have then.
   */
  lemma BaselineSound(sys: System, e: Entity)
    requires Reachable(sys)
    ensures sys.received <= |sys.log|
    ensures e in sys.server.tracked.baseline <==> Settled(sys, e).Some?
    ensures e in sys.server.tracked.baseline ==> sys.server.tracked.baseline[e] <= Settled(sys, e).value
  {
    ReachableOk(sys);
    assert EntityOk(sys, e);
  }

  /** A baseline never moves backward while its entity is tracked: late acks, timeouts and regained entities included. */
  lemma BaselineNeverMovesBack(sys: System, step: Step, e: Entity)
    requires Reachable(sys) && Allowed(sys, step, true)
    requires e in sys.server.tracked.baseline && e in Next(sys, step).server.tracked.baseline
    ensures sys.server.tracked.baseline[e] <= Next(sys, step).server.tracked.baseline[e]
  {
    ReachableOk(sys);
    assert EntityOk(sys, e);
    if step.SendStep? {
      SendSteps.SendBaseline(sys, step, e);
    } else if step.FrameStep? {
      ClientSteps.FrameLeavesServer(sys, step.updates, step.batch);
    }
  }

  /**
   The ordering gate: an update message only meets entities confirmed for an earlier tick, so confirming its
   tick never moves an entity back; and so it is for a mutate message that the gate lets through.
   */
  lemma ConfirmedTicksOnlyGrow(sys: System, e: Entity)
    requires Reachable(sys) && e in sys.client.entities
    ensures sys.received <= |sys.log|
    ensures forall i :: sys.received <= i < |sys.log| ==> sys.client.entities[e].confirmed < sys.log[i].tick
    ensures forall m <- sys.client.buffered :: m.updateTick <= sys.client.updateTick ==>
      forall i :: sys.received <= i < |sys.log| ==> m.tick < sys.log[i].tick
  {
    ReachableOk(sys);
    assert EntityOk(sys, e);
    forall m <- sys.client.buffered | m.updateTick <= sys.client.updateTick
      ensures forall i :: sys.received <= i < |sys.log| ==> m.tick < sys.log[i].tick
    {
      var j :| 0 <= j < |sys.client.buffered| && sys.client.buffered[j] == m;
      ClientSteps.ApplyGate(sys, j);
    }
  }

  /**
   Confluence: whatever the arrival order, the grouping into frames and the duplicates, clients that received
   the same updates and applied the same mutate messages have the same entities.
   */
  lemma ArrivalOrderDoesNotMatter(a: System, b: System)
    requires Reachable(a) && Reachable(b)
    requires a.history == b.history && a.log == b.log && a.applied == b.applied
    requires a.received == |a.log| && b.received == |b.log|
    ensures a.client.entities == b.client.entities
  {
    ReachableOk(a);
    ReachableOk(b);
    forall e
      ensures e in a.client.entities <==> e in b.client.entities
      ensures e in a.client.entities ==> a.client.entities[e] == b.client.entities[e]
    {
      ConfirmedDetermined(a, b, e);
    }
  }

  /** The confirmed tick is the largest of the last update and the applied messages about the entity. */
  lemma ConfirmedDetermined(a: System, b: System, e: Entity)
    requires Inv(a) && Inv(b)
    requires a.history == b.history && a.log == b.log && a.applied == b.applied
    requires a.received == |a.log| && b.received == |b.log|
    ensures e in a.client.entities <==> e in b.client.entities
    ensures e in a.client.entities ==> a.client.entities[e] == b.client.entities[e]
  {
    assert EntityOk(a, e) && EntityOk(b, e);
    assert a.log[..a.received] == a.log == b.log[..b.received];
    if e in a.client.entities {
      var i, j := a.client.entities[e].confirmed, b.client.entities[e].confirmed;
      assert Settled(a, e) == Some(i) && Settled(b, e) == Some(j);
      if m :| m in a.applied && e in m.mutations && m.tick == i {
        assert AppliedOk(b, m, e);
      }
      if m :| m in b.applied && e in m.mutations && m.tick == j {
        assert AppliedOk(a, m, e);
      }
    }
  }
}
