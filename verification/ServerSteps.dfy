/** The invariant is kept by every step except the replication run and the client frame. */
module ServerSteps {
  import opened Domain
  import opened Visibility
  import opened Tracker
  import opened Protocol
  import opened Invariant

  /** The two systems differ at most in the server's world, its event buffers and its visibility filter. */
  ghost predicate SameButWorld(a: System, b: System) {
    && b == a.(server := b.server)
    && b.server.tick == a.server.tick
    && b.server.tracked == a.server.tracked.(filter := b.server.tracked.filter)
  }

  /** It is enough to look at the parts that mention the world, the event buffers or the filter. */
  lemma WorldStepKept(a: System, b: System)
    requires Inv(a) && SameButWorld(a, b)
    requires WorldOk(b) && Consistent(b.server.tracked.filter)
    requires forall e :: RemovalsOk(b, e)
    requires forall e :: e in a.server.tracked.baseline ==>
      && Secure(b.server.tracked.filter, e)
      && (e in b.server.despawned
          || (e in b.server.world && e in a.server.world && b.server.world[e].marker == a.server.world[e].marker
              && e !in a.server.despawned))
    ensures Inv(b)
  {
    hide After, UpTo, Touch, UpdateOk, MutateOk, Describes, Increasing, StampsOk, StampedBy;
    forall e ensures EntityOk(b, e) {
      assert EntityOk(a, e);
    }
    forall m | Pending(b, m) ensures MessageOk(b, m) {
      assert Pending(a, m) && MessageOk(a, m);
    }
    forall m, e | m in b.applied ensures AppliedOk(b, m, e) {
      assert AppliedOk(a, m, e);
    }
    forall index <- b.acks ensures AckOk(b, index) {
      assert AckOk(a, index);
      if index in b.server.tracked.mutations {
        var m :| (m in a.applied || m in a.client.buffered) && Acknowledges(a, m, index);
        assert Acknowledges(b, m, index);
      }
    }
  }

  lemma SecureKept(f: Filter, e: Entity, toggled: Entity, visible: bool)
    requires Consistent(f) && Secure(f, e)
    requires visible && f.Whitelist? ==> toggled !in Lost(f)
    ensures Secure(WithVisibility(f, toggled, visible), e)
  {
  }

  ghost predicate IsWorldStep(step: Step) {
    step.Start? || step.Stop? || step.Put? || step.Remove? || step.SetVisible?
  }

  lemma WorldStepStamps(sys: System, step: Step, e: Entity, t: nat)
    requires Inv(sys) && IsWorldStep(step) && Allowed(sys, step, true) && t in sys.history
    ensures StampsOk(Next(sys, step), e, t)
  {
    assert StampsOk(sys, e, t);
  }

  lemma WorldStepRemovals(sys: System, step: Step, e: Entity)
    requires Inv(sys) && IsWorldStep(step) && Allowed(sys, step, true)
    ensures RemovalsOk(Next(sys, step), e)
  {
    assert EntityOk(sys, e);
  }

  lemma WorldStepsKept(sys: System, step: Step)
    requires Inv(sys) && IsWorldStep(step) && Allowed(sys, step, true)
    ensures Inv(Next(sys, step))
  {
    hide After, UpTo, Touch, UpdateOk, MutateOk, Describes, Increasing, Secure, StampsOk, RemovalsOk, Send, Frame, Acked, CleanedUp;
    var sys' := Next(sys, step);
    if step.SetVisible? {
      ConsistencyKept(sys.server.tracked.filter, step.e, step.visible);
    }
    forall e ensures RemovalsOk(sys', e) {
      WorldStepRemovals(sys, step, e);
    }
    forall e, t | t in sys'.history ensures StampsOk(sys', e, t) {
      WorldStepStamps(sys, step, e, t);
    }
    forall e | e in sys.server.tracked.baseline
      ensures Secure(sys'.server.tracked.filter, e)
      ensures e in sys'.server.despawned
           || (e in sys'.server.world && e in sys.server.world && e !in sys.server.despawned
               && sys'.server.world[e].marker == sys.server.world[e].marker)
    {
      assert EntityOk(sys, e);
      if step.SetVisible? {
        SecureKept(sys.server.tracked.filter, e, step.e, step.visible);
      }
      if step.Stop? {
        assert sys'.server.despawned[|sys.server.despawned|] == step.e;
      }
    }
    WorldStepKept(sys, sys');
  }

  lemma LoseKept(sys: System, step: Step)
    requires Inv(sys) && step.Lose?
    ensures Inv(Next(sys, step))
  {
    hide After, UpTo, Touch, UpdateOk, MutateOk, Describes, Secure, Increasing, StampedBy, Consistent;
    hide Send, Frame, Acked, CleanedUp, WithVisibility, PutComponent, RemovalEvent;
    var sys' := Next(sys, step);
    assert forall e, t :: t in sys.history && StampsOk(sys, e, t) ==> StampsOk(sys', e, t);
    forall e ensures EntityOk(sys', e) {
      assert EntityOk(sys, e);
    }
    forall m | Pending(sys', m) ensures MessageOk(sys', m) {
      assert Pending(sys, m) && MessageOk(sys, m);
    }
    forall m, e | m in sys'.applied ensures AppliedOk(sys', m, e) {
      assert AppliedOk(sys, m, e);
    }
    forall index <- sys'.acks ensures AckOk(sys', index) {
      assert AckOk(sys, index);
      if index in sys'.server.tracked.mutations {
        var m :| (m in sys.applied || m in sys.client.buffered) && Acknowledges(sys, m, index);
        assert Acknowledges(sys', m, index);
      }
    }
  }

  /** Forgetting registered indices, and raising baselines that the client will have reached anyway. */
  lemma TableShrinks(a: System, b: System)
    requires Inv(a)
    requires b == a.(server := a.server.(tracked := a.server.tracked.(
                       baseline := b.server.tracked.baseline, mutations := b.server.tracked.mutations)),
                     acks := b.acks)
    requires forall i <- b.server.tracked.mutations ::
      i in a.server.tracked.mutations && b.server.tracked.mutations[i] == a.server.tracked.mutations[i]
    requires forall i <- b.acks :: i in a.acks
    requires b.server.tracked.baseline.Keys == a.server.tracked.baseline.Keys
    requires forall e <- b.server.tracked.baseline :: Settled(a, e).Some? ==>
      b.server.tracked.baseline[e] <= Settled(a, e).value
    ensures Inv(b)
  {
    hide After, UpTo, Touch, UpdateOk, MutateOk, Describes, Secure, Increasing, StampedBy, Consistent;
    assert forall e, t :: t in a.history && StampsOk(a, e, t) ==> StampsOk(b, e, t);
    forall e ensures EntityOk(b, e) {
      assert EntityOk(a, e);
      assert Settled(b, e) == Settled(a, e);
    }
    forall m | Pending(b, m) ensures MessageOk(b, m) {
      assert Pending(a, m) && MessageOk(a, m);
    }
    forall m, e | m in b.applied ensures AppliedOk(b, m, e) {
      assert AppliedOk(a, m, e);
    }
    forall index <- b.acks ensures AckOk(b, index) {
      assert AckOk(a, index);
      if index in b.server.tracked.mutations {
        var m :| (m in a.applied || m in a.client.buffered) && Acknowledges(a, m, index);
        assert Acknowledges(b, m, index);
      }
    }
  }

  lemma CleanupKept(sys: System, step: Step)
    requires Inv(sys) && step.Cleanup?
    ensures Inv(Next(sys, step))
  {
    forall e <- sys.server.tracked.baseline
      ensures Settled(sys, e).Some? ==> sys.server.tracked.baseline[e] <= Settled(sys, e).value
    {
      assert EntityOk(sys, e);
    }
    TableShrinks(sys, Next(sys, step));
  }

  /** An acknowledgement that arrives after its message was applied only confirms what the client has. */
  lemma ReceiveAckKept(sys: System, step: Step)
    requires Inv(sys) && step.ReceiveAck? && Allowed(sys, step, true)
    ensures Inv(Next(sys, step))
  {
    var sys' := Next(sys, step);
    var t := sys.server.tracked;
    var index := sys.acks[step.i];
    forall e <- sys'.server.tracked.baseline
      ensures Settled(sys, e).Some? ==> sys'.server.tracked.baseline[e] <= Settled(sys, e).value
    {
      assert EntityOk(sys, e);
      assert AckOk(sys, index);
      if index in t.mutations && e in t.mutations[index].entities {
        var m :| (m in sys.applied || m in sys.client.buffered) && Acknowledges(sys, m, index);
        assert m in sys.applied;
        assert AppliedOk(sys, m, e);
      }
    }
    TableShrinks(sys, sys');
  }
}
