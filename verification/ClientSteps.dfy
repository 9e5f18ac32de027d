/** The invariant is kept by the client frame. */
module ClientSteps {
  import opened Domain
  import opened Visibility
  import opened Messages
  import opened Receiver
  import opened Protocol
  import opened Invariant

  // ---------------------------------------------------------------------------------------------
  // Receiving an update message.

  lemma PopConfirmed(sys: System, e: Entity)
    requires TicksOk(sys) && sys.received < |sys.log|
    ensures
      var u, sys' := sys.log[sys.received], PopUpdate(sys);
      && InFlight(sys) == [u] + InFlight(sys')
      && Confirmed(sys'.client.entities, e) == Touch(u, e, Confirmed(sys.client.entities, e))
      && Settled(sys', e) == Settled(sys, e)
  {
    var u, sys' := sys.log[sys.received], PopUpdate(sys);
    assert InFlight(sys)[1..] == InFlight(sys');
    AfterCons(InFlight(sys), e, Confirmed(sys.client.entities, e));
  }

  /** The ordering gate: the update only meets entities that are confirmed for an earlier tick. */
  lemma PopClientOk(sys: System, e: Entity)
    requires TicksOk(sys) && sys.received < |sys.log|
    requires ClientOk(sys, e) && UpdatesOk(sys, e)
    ensures ClientOk(PopUpdate(sys), e)
  {
    var u := sys.log[sys.received];
    assert InFlight(sys)[0] == u && InFlight(sys)[..0] == [];
    assert UpdateOk(sys.history, u, e, Confirmed(sys.client.entities, e));
    if u.Touches(e) && e in sys.client.entities && e !in u.despawns {
      assert Delta(sys.history, u, e, sys.client.entities[e].confirmed);
    }
  }

  lemma PopUpdatesOk(sys: System, e: Entity)
    requires TicksOk(sys) && sys.received < |sys.log| && UpdatesOk(sys, e)
    ensures UpdatesOk(PopUpdate(sys), e)
  {
    hide UpdateOk, Touch, Increasing, ApplyUpdate, After;
    var sys' := PopUpdate(sys);
    var us, us' := InFlight(sys), InFlight(sys');
    PopConfirmed(sys, e);
    forall i | 0 <= i < |us'|
      ensures UpdateOk(sys'.history, us'[i], e, After(us'[..i], e, Confirmed(sys'.client.entities, e)))
    {
      assert us[..i + 1][1..] == us'[..i];
      AfterCons(us[..i + 1], e, Confirmed(sys.client.entities, e));
      assert us[i + 1] == us'[i];
    }
  }

  lemma PopOriginOk(sys: System, e: Entity)
    requires TicksOk(sys) && sys.received < |sys.log| && OriginOk(sys, e)
    ensures OriginOk(PopUpdate(sys), e)
  {
    assert sys.log[..sys.received + 1][..sys.received] == sys.log[..sys.received];
    PopConfirmed(sys, e);
  }

  lemma PopMutateOk(sys: System, m: MutateMsg, e: Entity)
    requires TicksOk(sys) && sys.received < |sys.log| && MessageOk(sys, m)
    ensures
      var sys' := PopUpdate(sys);
      MutateOk(sys'.history, m, e, After(UpTo(InFlight(sys'), m.updateTick), e, Confirmed(sys'.client.entities, e)))
  {
    hide ApplyUpdate, Describes, MutateDelta;
    var u, us, us' := sys.log[sys.received], InFlight(sys), InFlight(PopUpdate(sys));
    var before := UpTo(us, m.updateTick);
    assert us == [u] + us' && us[1..] == us' && u in us;
    PopConfirmed(sys, e);
    assert MutateOk(sys.history, m, e, After(before, e, Confirmed(sys.client.entities, e)));
    if u.tick <= m.updateTick {
      hide MutateOk, Touch, After;
      assert before[1..] == UpTo(us', m.updateTick);
      AfterCons(before, e, Confirmed(sys.client.entities, e));
    } else {
      assert u.tick > m.tick && (us' != [] ==> us'[0] == sys.log[sys.received + 1]);
      assert UpTo(us', m.updateTick) == [] && before == [];
    }
  }

  lemma PopMessageOk(sys: System, m: MutateMsg)
    requires TicksOk(sys) && sys.received < |sys.log| && MessageOk(sys, m)
    ensures MessageOk(PopUpdate(sys), m)
  {
    hide MutateOk, After, UpTo, ApplyUpdate, Describes, Increasing;
    var sys' := PopUpdate(sys);
    assert forall v :: v in InFlight(sys') ==> v in InFlight(sys);
    forall e
      ensures MutateOk(sys'.history, m, e, After(UpTo(InFlight(sys'), m.updateTick), e, Confirmed(sys'.client.entities, e)))
    {
      PopMutateOk(sys, m, e);
    }
  }

  lemma PopKept(sys: System)
    requires Inv(sys) && sys.received < |sys.log|
    ensures Inv(PopUpdate(sys))
  {
    hide UpdateOk, MutateOk, After, Touch, UpTo, Describes, ApplyUpdate, StampedBy, Secure, Consistent;
    var sys' := PopUpdate(sys);
    assert forall e, t :: t in sys.history && StampsOk(sys, e, t) ==> StampsOk(sys', e, t);
    forall e ensures EntityOk(sys', e) {
      assert EntityOk(sys, e);
      PopConfirmed(sys, e);
      PopClientOk(sys, e);
      PopUpdatesOk(sys, e);
      PopOriginOk(sys, e);
    }
    forall m | Pending(sys', m) ensures MessageOk(sys', m) {
      assert Pending(sys, m);
      PopMessageOk(sys, m);
    }
    forall m, e | m in sys'.applied ensures AppliedOk(sys', m, e) {
      assert AppliedOk(sys, m, e);
      PopConfirmed(sys, e);
    }
    forall index <- sys'.acks ensures AckOk(sys', index) {
      assert AckOk(sys, index);
      if index in sys'.server.tracked.mutations {
        var m :| (m in sys.applied || m in sys.client.buffered) && Acknowledges(sys, m, index);
        assert Acknowledges(sys', m, index);
      }
    }
  }

  lemma PopsKept(sys: System, n: nat)
    requires Inv(sys) && sys.received + n <= |sys.log|
    ensures Inv(PopUpdates(sys, n))
    ensures PopUpdates(sys, n).net == sys.net
    decreases n
  {
    if n != 0 {
      PopKept(sys);
      PopsKept(PopUpdate(sys), n - 1);
    }
  }

  // ---------------------------------------------------------------------------------------------
  // Buffering a mutate message.

  lemma BufferHas(sys: System, m: MutateMsg)
    ensures forall m' :: m' in BufferOne(sys, m).client.buffered <==> m' in sys.client.buffered || m' == m
  {
    var i := PartitionPoint(sys.client.buffered, m);
    assert sys.client.buffered == sys.client.buffered[..i] + sys.client.buffered[i..];
  }

  lemma BufferEntity(sys: System, m: MutateMsg, e: Entity)
    requires sys.received <= |sys.log| && EntityOk(sys, e)
    ensures EntityOk(BufferOne(sys, m), e)
  {
    hide After, UpdateOk, Secure, Insert;
  }

  lemma BufferMessage(sys: System, m: MutateMsg, m': MutateMsg)
    requires sys.received <= |sys.log| && MessageOk(sys, m')
    ensures MessageOk(BufferOne(sys, m), m')
  {
    hide After, UpTo, MutateOk, Describes, Insert;
  }

  /** The acknowledgement that is queued now is that of the buffered message. */
  lemma BufferAck(sys: System, m: MutateMsg, index: nat)
    requires sys.received <= |sys.log| && MessageOk(sys, m)
    requires index in sys.acks ==> AckOk(sys, index)
    requires index in BufferOne(sys, m).acks
    ensures AckOk(BufferOne(sys, m), index)
  {
    hide After, UpTo, MutateOk, Describes, Insert;
    BufferHas(sys, m);
    var sys' := BufferOne(sys, m);
    if index in sys'.server.tracked.mutations {
      if index in sys.acks {
        var m' :| (m' in sys.applied || m' in sys.client.buffered) && Acknowledges(sys, m', index);
        assert Acknowledges(sys', m', index);
      } else {
        assert Acknowledges(sys', m, index);
      }
    }
  }

  lemma BufferWorld(sys: System, m: MutateMsg)
    requires TicksOk(sys) && WorldOk(sys)
    ensures TicksOk(BufferOne(sys, m)) && WorldOk(BufferOne(sys, m))
  {
    hide Insert, Increasing, StampedBy;
    forall e, t | t in sys.history ensures StampsOk(BufferOne(sys, m), e, t) {
      assert StampsOk(sys, e, t);
    }
  }

  lemma BufferKept(sys: System, m: MutateMsg)
    requires Inv(sys) && m in sys.net
    ensures Inv(BufferOne(sys, m)) && BufferOne(sys, m).net == sys.net
  {
    hide EntityOk, MessageOk, AckOk, TicksOk, WorldOk, Consistent, Insert;
    var sys' := BufferOne(sys, m);
    BufferHas(sys, m);
    TicksAreOk(sys);
    BufferWorld(sys, m);
    forall e ensures EntityOk(sys', e) {
      BufferEntity(sys, m, e);
    }
    forall m' | Pending(sys', m') ensures MessageOk(sys', m') {
      assert Pending(sys, m');
      BufferMessage(sys, m, m');
    }
    assert sys'.received == sys.received && sys'.log == sys.log;
    forall m', e | m' in sys'.applied ensures AppliedOk(sys', m', e) {
      assert AppliedOk(sys, m', e);
    }
    assert Pending(sys, m);
    forall index <- sys'.acks ensures AckOk(sys', index) {
      BufferAck(sys, m, index);
    }
  }

  lemma TicksAreOk(sys: System)
    requires TicksOk(sys)
    ensures sys.received <= |sys.log|
  {
  }

  lemma BuffersKept(sys: System, ms: seq<MutateMsg>)
    requires Inv(sys) && forall m <- ms :: m in sys.net
    ensures Inv(BufferAll(sys, ms))
    decreases |ms|
  {
    if ms != [] {
      BufferKept(sys, ms[0]);
      BuffersKept(BufferOne(sys, ms[0]), ms[1..]);
    }
  }

  // ---------------------------------------------------------------------------------------------
  // Applying a buffered mutate message.

  /** The message at `j` may be applied: its update tick was reached, so nothing it needs is in flight. */
  ghost predicate Ready(sys: System, j: nat) {
    j < |sys.client.buffered| && sys.client.buffered[j].updateTick <= sys.client.updateTick
  }

  lemma ApplyGate(sys: System, j: nat)
    requires Inv(sys) && Ready(sys, j)
    ensures
      var m := sys.client.buffered[j];
      && MessageOk(sys, m)
      && UpTo(InFlight(sys), m.updateTick) == []
      && (forall i :: sys.received <= i < |sys.log| ==> m.tick < sys.log[i].tick)
  {
    var m := sys.client.buffered[j];
    assert Pending(sys, m) && MessageOk(sys, m);
    assert InFlight(sys) != [] ==> InFlight(sys)[0] == sys.log[sys.received];
    forall i | sys.received <= i < |sys.log| ensures m.tick < sys.log[i].tick {
      assert InFlight(sys)[i - sys.received] == sys.log[i];
      assert sys.log[i] in InFlight(sys);
    }
  }

  /** How the confirmed tick of `e` changes. */
  lemma ApplyConfirmed(sys: System, j: nat, e: Entity, us: seq<UpdateMsg>)
    requires j < |sys.client.buffered|
    ensures
      var m, sys' := sys.client.buffered[j], ApplyOne(sys, j);
      var c, c' := Confirmed(sys.client.entities, e), Confirmed(sys'.client.entities, e);
      && c'.Some? == c.Some?
      && (c.Some? ==> c'.value >= c.value && (c' == c || (c'.value == m.tick && e in m.mutations)))
      && (c.Some? && e in m.mutations ==> c'.value >= m.tick)
      && (After(us, e, c') == After(us, e, c) || (After(us, e, c) == c && After(us, e, c') == c'))
  {
    var c, c' := Confirmed(sys.client.entities, e), Confirmed(ApplyOne(sys, j).client.entities, e);
    if c.Some? {
      AfterRaised(us, e, c.value, c'.value);
    }
  }

  lemma ApplyClientOk(sys: System, j: nat, e: Entity)
    requires Inv(sys) && Ready(sys, j)
    ensures ClientOk(ApplyOne(sys, j), e)
  {
    var m := sys.client.buffered[j];
    assert EntityOk(sys, e);
    ApplyGate(sys, j);
    assert MutateOk(sys.history, m, e, Confirmed(sys.client.entities, e));
    if e in m.mutations && e in sys.client.entities && sys.client.entities[e].confirmed < m.tick {
      assert MutateDelta(sys.history, m, e, sys.client.entities[e].confirmed);
    }
  }

  lemma ApplyUpdatesOk(sys: System, j: nat, e: Entity)
    requires Inv(sys) && Ready(sys, j)
    ensures UpdatesOk(ApplyOne(sys, j), e)
  {
    var sys' := ApplyOne(sys, j);
    var us := InFlight(sys);
    assert EntityOk(sys, e);
    ApplyGate(sys, j);
    forall i | 0 <= i < |us|
      ensures UpdateOk(sys'.history, us[i], e, After(us[..i], e, Confirmed(sys'.client.entities, e)))
    {
      ApplyConfirmed(sys, j, e, us[..i]);
      assert us[i] == sys.log[sys.received + i];
    }
  }

  lemma ApplyTrackedOk(sys: System, j: nat, e: Entity)
    requires Inv(sys) && Ready(sys, j)
    ensures
      var sys' := ApplyOne(sys, j);
      TrackedOk(sys', e) && StructureOk(sys', e) && QuietOk(sys', e) && OriginOk(sys', e)
  {
    var sys' := ApplyOne(sys, j);
    var m := sys.client.buffered[j];
    assert EntityOk(sys, e);
    ApplyGate(sys, j);
    ApplyConfirmed(sys, j, e, InFlight(sys));
    assert m in sys'.applied;
  }

  lemma ApplyMessageOk(sys: System, j: nat, m': MutateMsg)
    requires Inv(sys) && Ready(sys, j) && MessageOk(sys, m')
    ensures MessageOk(ApplyOne(sys, j), m')
  {
    var sys' := ApplyOne(sys, j);
    forall e
      ensures MutateOk(sys'.history, m', e,
                       After(UpTo(InFlight(sys'), m'.updateTick), e, Confirmed(sys'.client.entities, e)))
    {
      assert MutateOk(sys.history, m', e,
                      After(UpTo(InFlight(sys), m'.updateTick), e, Confirmed(sys.client.entities, e)));
      ApplyConfirmed(sys, j, e, UpTo(InFlight(sys), m'.updateTick));
    }
  }

  lemma ApplyOldAppliedOk(sys: System, j: nat, m': MutateMsg, e: Entity)
    requires Inv(sys) && Ready(sys, j) && m' in sys.applied
    ensures AppliedOk(ApplyOne(sys, j), m', e)
  {
    assert AppliedOk(sys, m', e);
    hide Inv, After;
    ApplyConfirmed(sys, j, e, InFlight(sys));
  }

  /** If an applied message finds its entity gone, whatever brings it back is newer than the message. */
  lemma ApplyNewAppliedOk(sys: System, j: nat, e: Entity)
    requires Inv(sys) && Ready(sys, j)
    ensures AppliedOk(ApplyOne(sys, j), sys.client.buffered[j], e)
  {
    var m := sys.client.buffered[j];
    ApplyGate(sys, j);
    hide Inv, After, UpTo;
    var us := InFlight(sys);
    ApplyConfirmed(sys, j, e, us);
    var c' := Confirmed(ApplyOne(sys, j).client.entities, e);
    AfterBounds(us, e, c');
    if e in m.mutations && After(us, e, c').Some? && After(us, e, c') != c' {
      var u :| u in us && u.Touches(e) && After(us, e, c') == Some(u.tick);
      var i :| 0 <= i < |us| && us[i] == u;
      assert us[i] == sys.log[sys.received + i];
    }
  }

  lemma ApplyKept(sys: System, j: nat)
    requires Inv(sys) && Ready(sys, j)
    ensures Inv(ApplyOne(sys, j))
  {
    var sys' := ApplyOne(sys, j);
    assert forall e, t :: t in sys.history && StampsOk(sys, e, t) ==> StampsOk(sys', e, t);
    forall e ensures EntityOk(sys', e) {
      assert EntityOk(sys, e);
      ApplyClientOk(sys, j, e);
      ApplyUpdatesOk(sys, j, e);
      ApplyTrackedOk(sys, j, e);
    }
    forall m | Pending(sys', m) ensures MessageOk(sys', m) {
      assert Pending(sys, m);
      ApplyMessageOk(sys, j, m);
    }
    forall m, e | m in sys'.applied ensures AppliedOk(sys', m, e) {
      if m in sys.applied {
        ApplyOldAppliedOk(sys, j, m, e);
      } else {
        ApplyNewAppliedOk(sys, j, e);
      }
    }
    forall index <- sys'.acks ensures AckOk(sys', index) {
      assert AckOk(sys, index);
      if index in sys'.server.tracked.mutations {
        var m :| (m in sys.applied || m in sys.client.buffered) && Acknowledges(sys, m, index);
        assert m in sys'.applied || m in sys'.client.buffered;
        assert Acknowledges(sys', m, index);
      }
    }
  }

  lemma ApplyReadyKept(sys: System, j: nat)
    requires Inv(sys) && j <= |sys.client.buffered|
    ensures Inv(ApplyReady(sys, j))
    decreases |sys.client.buffered| - j
  {
    if j < |sys.client.buffered| {
      if Ready(sys, j) {
        ApplyKept(sys, j);
        ApplyReadyKept(ApplyOne(sys, j), j);
      } else {
        ApplyReadyKept(sys, j + 1);
      }
    }
  }

  lemma FrameKept(sys: System, step: Step)
    requires Inv(sys) && step.FrameStep? && Allowed(sys, step, true)
    ensures Inv(Next(sys, step))
  {
    PopsKept(sys, step.updates);
    BuffersKept(PopUpdates(sys, step.updates), step.batch);
    ApplyReadyKept(BufferAll(PopUpdates(sys, step.updates), step.batch), 0);
  }

  // ---------------------------------------------------------------------------------------------
  // A frame does not touch the server.

  lemma PopsLeaveServer(sys: System, n: nat)
    requires sys.received + n <= |sys.log|
    ensures PopUpdates(sys, n).server == sys.server
    decreases n
  {
    if n != 0 {
      PopsLeaveServer(PopUpdate(sys), n - 1);
    }
  }

  lemma BuffersLeaveServer(sys: System, ms: seq<MutateMsg>)
    ensures BufferAll(sys, ms).server == sys.server
    decreases |ms|
  {
    if ms != [] {
      BuffersLeaveServer(BufferOne(sys, ms[0]), ms[1..]);
    }
  }

  lemma AppliesLeaveServer(sys: System, j: nat)
    requires j <= |sys.client.buffered|
    ensures ApplyReady(sys, j).server == sys.server
    decreases |sys.client.buffered| - j
  {
    if j < |sys.client.buffered| {
      if Ready(sys, j) {
        AppliesLeaveServer(ApplyOne(sys, j), j);
      } else {
        AppliesLeaveServer(sys, j + 1);
      }
    }
  }

  lemma FrameLeavesServer(sys: System, updates: nat, batch: seq<MutateMsg>)
    requires sys.received + updates <= |sys.log|
    ensures Frame(sys, updates, batch).server == sys.server
  {
    PopsLeaveServer(sys, updates);
    BuffersLeaveServer(PopUpdates(sys, updates), batch);
    AppliesLeaveServer(BufferAll(PopUpdates(sys, updates), batch), 0);
  }
}
