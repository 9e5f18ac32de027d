/** What a client frame does as a whole, whatever is buffered (`apply_replication` in client.rs). */
module Frames {
  import opened Messages
  import opened Receiver
  import opened Protocol

  function IndicesOf(ms: seq<MutateMsg>): seq<nat> {
    seq(|ms|, i requires 0 <= i < |ms| => ms[i].index)
  }

  /** The update tick after `updates` more update messages: that of the last one. */
  function TickAfter(sys: System, updates: nat): nat
    requires sys.received + updates <= |sys.log|
  {
    if updates == 0 then sys.client.updateTick else sys.log[sys.received + updates - 1].tick
  }

  /** How often `m` waits before the ready messages are applied: it was buffered or is delivered now. */
  function Waits(sys: System, batch: seq<MutateMsg>, m: MutateMsg): nat {
    multiset(sys.client.buffered)[m] + multiset(batch)[m]
  }

  /**
   Every message that a frame delivers is acknowledged, once and in order. A message that waits is applied in this frame
   if its update tick is reached, and is kept, as often as it was there, if it is not.
   */
  lemma FrameDoes(sys: System, updates: nat, batch: seq<MutateMsg>)
    requires sys.received + updates <= |sys.log|
    ensures
      var sys', tick := Frame(sys, updates, batch), TickAfter(sys, updates);
      && sys'.acks == sys.acks + IndicesOf(batch)
      && sys'.received == sys.received + updates && sys'.client.updateTick == tick
      && (forall m :: multiset(sys'.client.buffered)[m] == if m.updateTick <= tick then 0 else Waits(sys, batch, m))
      && (forall m :: m in sys'.applied <==> m in sys.applied || (m.updateTick <= tick && Waits(sys, batch, m) > 0))
      && sys' == sys.(client := sys'.client, received := sys'.received, acks := sys'.acks, applied := sys'.applied)
  {
    hide PopUpdates, BufferAll, ApplyReady;
    PopsDo(sys, updates);
    var popped := PopUpdates(sys, updates);
    BuffersDo(popped, batch);
    var all := BufferAll(popped, batch);
    assert all.client.buffered[..0] == [] && all.client.buffered[0..] == all.client.buffered;
    ReadyDo(all, 0);
    forall m ensures m in all.client.buffered <==> Waits(sys, batch, m) > 0 {
      assert m in all.client.buffered <==> m in multiset(all.client.buffered);
    }
  }

  lemma {:induction false} PopsDo(sys: System, n: nat)
    requires sys.received + n <= |sys.log|
    ensures
      var sys' := PopUpdates(sys, n);
      && sys'.client.updateTick == TickAfter(sys, n) && sys'.client.buffered == sys.client.buffered
      && sys' == sys.(client := sys'.client, received := sys.received + n)
    decreases n
  {
    if n > 0 {
      PopsDo(PopUpdate(sys), n - 1);
    }
  }

  lemma {:induction false} BuffersDo(sys: System, ms: seq<MutateMsg>)
    ensures
      var sys' := BufferAll(sys, ms);
      && multiset(sys'.client.buffered) == multiset(sys.client.buffered) + multiset(ms)
      && sys'.client.updateTick == sys.client.updateTick
      && sys' == sys.(client := sys'.client, acks := sys.acks + IndicesOf(ms))
    decreases |ms|
  {
    hide Insert;
    if ms == [] {
      assert sys.acks + IndicesOf(ms) == sys.acks;
    } else {
      assert ms == [ms[0]] + ms[1..];
      InsertedOnce(sys.client.buffered, ms[0]);
      BuffersDo(BufferOne(sys, ms[0]), ms[1..]);
      assert sys.acks + IndicesOf(ms) == sys.acks + [ms[0].index] + IndicesOf(ms[1..]);
    }
  }

  lemma InsertedOnce(buffered: seq<MutateMsg>, m: MutateMsg)
    ensures multiset(Insert(buffered, m)) == multiset(buffered) + multiset{m}
  {
    var i := PartitionPoint(buffered, m);
    assert buffered == buffered[..i] + buffered[i..];
  }

  /** From position `j` on, the ready messages are applied and the others are kept. */
  ghost predicate ReadyDone(sys: System, j: nat, sys': System)
    requires j <= |sys.client.buffered|
  {
    var tick, rest := sys.client.updateTick, sys.client.buffered[j..];
    && sys'.client.updateTick == tick
    && (forall m :: multiset(sys'.client.buffered)[m] ==
          multiset(sys.client.buffered[..j])[m] + if m.updateTick <= tick then 0 else multiset(rest)[m])
    && (forall m :: m in sys'.applied <==> m in sys.applied || (m in rest && m.updateTick <= tick))
    && sys' == sys.(client := sys'.client, applied := sys'.applied)
  }

  /** The retain loop from position `j` on. */
  lemma {:induction false} ReadyDo(sys: System, j: nat)
    requires j <= |sys.client.buffered|
    ensures ReadyDone(sys, j, ApplyReady(sys, j))
    decreases |sys.client.buffered| - j
  {
    if j == |sys.client.buffered| {
      assert sys.client.buffered[..j] == sys.client.buffered;
    } else {
      hide ReadyDone, ApplyOne;
      if sys.client.buffered[j].updateTick > sys.client.updateTick {
        ReadyDo(sys, j + 1);
        AfterKept(sys, j, ApplyReady(sys, j));
      } else {
        OneFewer(sys, j);
        ReadyDo(ApplyOne(sys, j), j);
        AfterApplied(sys, j, ApplyReady(sys, j));
      }
    }
  }

  lemma OneFewer(sys: System, j: nat)
    requires j < |sys.client.buffered|
    ensures |ApplyOne(sys, j).client.buffered| == |sys.client.buffered| - 1
  {
  }

  lemma AfterKept(sys: System, j: nat, sys': System)
    requires j < |sys.client.buffered| && sys.client.buffered[j].updateTick > sys.client.updateTick
    requires ReadyDone(sys, j + 1, sys')
    ensures ReadyDone(sys, j, sys')
  {
    var buffered := sys.client.buffered;
    assert buffered[j..] == [buffered[j]] + buffered[j + 1..];
    assert buffered[..j + 1] == buffered[..j] + [buffered[j]];
  }

  lemma AfterApplied(sys: System, j: nat, sys': System)
    requires j < |sys.client.buffered| && sys.client.buffered[j].updateTick <= sys.client.updateTick
    requires j <= |ApplyOne(sys, j).client.buffered| && ReadyDone(ApplyOne(sys, j), j, sys')
    ensures ReadyDone(sys, j, sys')
  {
    hide ApplyMutations;
    var buffered, next := sys.client.buffered, ApplyOne(sys, j).client.buffered;
    assert buffered[j..] == [buffered[j]] + buffered[j + 1..];
    assert next[..j] == buffered[..j] && next[j..] == buffered[j + 1..];
  }
}
