/** From a mutate message to the baselines of its entities, over the steps of server, client and network. */
module Acknowledgements {
  import opened Domain
  import opened Visibility
  import opened Changes
  import opened Messages
  import opened Tracker
  import opened Protocol
  import opened Invariant
  import opened SendSteps
  import Frames

  /** What a run registers has the timestamp of the run. */
  lemma {:induction false} SplitStamped(t: Tracked, tick: nat, timestamp: nat, mutations: map<Entity, Comps>, groups: seq<seq<Entity>>)
    requires
      var (t', batch) := Split(t, tick, timestamp, mutations, groups);
      forall i, j :: 0 <= i < j < |batch| ==> batch[i].index != batch[j].index
    ensures
      var (t', batch) := Split(t, tick, timestamp, mutations, groups);
      forall m <- batch :: m.index in t'.mutations && t'.mutations[m.index].timestamp == timestamp
  {
    hide Restrict;
    if groups != [] {
      var n := |groups| - 1;
      var (t1, ms) := Split(t, tick, timestamp, mutations, groups[..n]);
      var (t', batch) := Split(t, tick, timestamp, mutations, groups);
      assert forall i :: 0 <= i < |ms| ==> batch[i] == ms[i];
      SplitStamped(t, tick, timestamp, mutations, groups[..n]);
      forall m <- batch ensures m.index in t'.mutations && t'.mutations[m.index].timestamp == timestamp {
        if m in ms {
          var i :| 0 <= i < |ms| && ms[i] == m;
          assert batch[i].index != batch[|ms|].index;
        }
      }
    }
  }

  /** A message that was sent is registered under its index, with its entities, its tick and the time of the run. */
  lemma SentIsRegistered(sys: System, send: Step, m: MutateMsg)
    requires Inv(sys) && send.SendStep? && Allowed(sys, send, true) && m in Next(sys, send).lastBatch
    ensures
      var sent := Next(sys, send);
      && m.tick == sent.server.tick == send.tick && m.index in sent.server.tracked.mutations && sent.acks == sys.acks
      && Describes(sent.server.tracked.mutations[m.index], m)
      && sent.server.tracked.mutations[m.index].timestamp == send.timestamp
  {
    var e0 := Entity(0, 1);
    var r, t2 := PartsOf(sys, send), SplitFrom(sys, send);
    assert EntityOk(sys, e0);
    DespawnPhaseOk(sys, e0);
    SendBatch(sys, send);
    SendCollects(sys, send);
    SendSplits(sys, send);
    assert IndicesFresh(sys, r.batch);
    hide Inv, Split, Describes, Updated, CollectUpdate, CollectMutations, BumpBaselines, SnapshotOf, Next;
    BatchDistinct(sys, r.batch);
    SplitStamped(t2, send.tick, send.timestamp, r.mutations, send.groups);
  }

  /** The entities of a message are tracked, for a run before that of the message. */
  lemma MutatedIsBehind(sys: System, send: Step, m: MutateMsg, e: Entity)
    requires Inv(sys) && send.SendStep? && Allowed(sys, send, true) && m in Next(sys, send).lastBatch && e in m.mutations
    ensures
      var baseline := Next(sys, send).server.tracked.baseline;
      e in baseline && baseline[e] < send.tick
  {
    SentIsCollected(sys, send, m, e);
    var t := PartsOf(sys, send).t1;
    hide Inv, Allowed, Next, CollectMutations, BumpBaselines, PartsOf;
    MutatedIsTracked(sys.server, t, send.tick, e);
    SendBaseline(sys, send, e);
  }

  lemma SentIsCollected(sys: System, send: Step, m: MutateMsg, e: Entity)
    requires Inv(sys) && send.SendStep? && Allowed(sys, send, true) && m in Next(sys, send).lastBatch && e in m.mutations
    ensures
      var t := PartsOf(sys, send).t1;
      && e in CollectMutations(sys.server, t) && Next(sys, send).server.tracked.baseline == BumpBaselines(sys.server, t, send.tick)
      && (e in t.baseline ==> e in sys.server.tracked.baseline && t.baseline[e] == sys.server.tracked.baseline[e])
  {
    assert EntityOk(sys, e);
    DespawnPhaseOk(sys, e);
    SendBatch(sys, send);
    SendCollects(sys, send);
    hide Inv, CollectMutations, BumpBaselines, CollectUpdate, Describes, DespawnEach, Updated, Split, SnapshotOf;
  }

  lemma MutatedIsTracked(s: Server, t: Tracked, tick: nat, e: Entity)
    requires e in CollectMutations(s, t)
    ensures e in t.baseline && e in BumpBaselines(s, t, tick) && BumpBaselines(s, t, tick)[e] == t.baseline[e]
  {
    ClassificationAtomic(s.world[e], PerspectiveOf(s, t, e));
  }

  /** From `t` to `t'`, `m` is resolved, and the baselines of exactly its entities are raised to its tick if it is in time. */
  ghost predicate RaisesIff(t: Tracked, t': Tracked, m: MutateMsg, inTime: bool) {
    && m.index !in t'.mutations && t'.baseline.Keys == t.baseline.Keys && m.mutations.Keys <= t.baseline.Keys
    && (forall e <- m.mutations :: t.baseline[e] < m.tick)
    && forall e <- t.baseline :: t'.baseline[e] == if inTime && e in m.mutations then m.tick else t.baseline[e]
  }

  /**
   A message that is delivered in a frame, and whose acknowledgement arrives after a cleanup, raises the baselines of
   exactly its entities to its tick if and only if the cleanup did not take its run for timed out.
   */
  lemma TimelyAckIff(sys: System, send: Step, updates: nat, minTimestamp: nat, m: MutateMsg)
    requires Inv(sys) && send.SendStep? && Allowed(sys, send, true)
    requires m in Next(sys, send).lastBatch && Next(sys, send).received + updates <= |Next(sys, send).log|
    ensures
      var sent := Next(sys, send);
      var cleaned := Next(Next(sent, FrameStep(updates, [m])), Cleanup(minTimestamp));
      && |sys.acks| < |cleaned.acks|
      && RaisesIff(sent.server.tracked, Next(cleaned, ReceiveAck(|sys.acks|)).server.tracked, m, send.timestamp >= minTimestamp)
  {
    SentIsRegistered(sys, send, m);
    forall e <- m.mutations
      ensures e in Next(sys, send).server.tracked.baseline && Next(sys, send).server.tracked.baseline[e] < send.tick
    {
      MutatedIsBehind(sys, send, m, e);
    }
    hide Inv, Allowed, Next, Acked, CleanedUp, Describes, RaisesIff;
    AfterFrameCleanupAndAck(Next(sys, send), updates, minTimestamp, m);
    AckedIff(Next(sys, send).server.tracked, m, minTimestamp);
  }

  lemma AfterFrameCleanupAndAck(sent: System, updates: nat, minTimestamp: nat, m: MutateMsg)
    requires sent.received + updates <= |sent.log|
    ensures
      var cleaned := Next(Next(sent, FrameStep(updates, [m])), Cleanup(minTimestamp));
      && |sent.acks| < |cleaned.acks|
      && Next(cleaned, ReceiveAck(|sent.acks|)).server.tracked == Acked(CleanedUp(sent.server.tracked, minTimestamp), m.index)
  {
    hide Acked, CleanedUp, Frame;
    Frames.FrameDoes(sent, updates, [m]);
  }

  lemma AckedIff(t: Tracked, m: MutateMsg, minTimestamp: nat)
    requires m.index in t.mutations && Describes(t.mutations[m.index], m)
    requires forall e <- m.mutations :: e in t.baseline && t.baseline[e] < m.tick
    ensures
      RaisesIff(t, Acked(CleanedUp(t, minTimestamp), m.index), m, t.mutations[m.index].timestamp >= minTimestamp)
  {
  }
}
