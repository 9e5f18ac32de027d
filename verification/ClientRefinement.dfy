/** A frame of the client, from the bytes it receives, against a frame of the protocol model. */
module ClientRefinement {
  import opened Domain
  import opened Changes
  import opened Messages
  import opened Receiver
  import opened Wire
  import opened Ticks
  import opened UpdateWire
  import opened MutateWire
  import opened MutateMessages
  import opened Tracker
  import opened ServerRun
  import opened Selection
  import opened Refinement
  import opened ClientApply
  import opened Clocks
  import Protocol

  // ---------------------------------------------------------------------------------------------
  // What bytes stand for.

  /** The bytes of an update message that says what `u` says. */
  ghost predicate UpdateBytes(cs: Codecs, bytes: Bytes, u: UpdateMsg)
    requires Suitable(cs)
  {
    var p := DecodeUpdate(cs, bytes);
    && p.Parsed? && DistinctRemovals(p.value.removals) && DistinctKeys(p.value.changes)
    && p.value.tick == WireTick(u.tick) && AsMessage(p.value, u.tick) == u
  }

  ghost predicate BodyBytes(cs: Codecs, bytes: Bytes, mutations: map<Entity, Comps>, xs: seq<(Entity, seq<Component>)>) {
    DistinctKeys(xs) && mutations == ToChanges(xs) && bytes == AllMutations(Items(cs.component, xs))
  }

  /** A buffered message whose body says what `m` says. */
  ghost predicate Represents(cs: Codecs, b: Buffered, m: MutateMsg) {
    b.updateTick == WireTick(m.updateTick) && b.messageTick == WireTick(m.tick) && exists xs :: BodyBytes(cs, b.message, m.mutations, xs)
  }

  /** The bytes of a whole mutate message. */
  ghost predicate MutateBytes(cs: Codecs, tracked: bool, bytes: Bytes, m: MutateMsg) {
    var p := ReadHeader(tracked, bytes);
    p.Parsed? && p.value.index == m.index && Represents(cs, Buffered(p.value.updateTick, p.value.tick, p.value.count, p.rest), m)
  }

  ghost predicate AllRepresent(cs: Codecs, bs: seq<Buffered>, ms: seq<MutateMsg>) {
    |bs| == |ms| && forall i :: 0 <= i < |bs| ==> Represents(cs, bs[i], ms[i])
  }

  /** The client is in the state that the model says. */
  ghost predicate Models(cs: Codecs, c: ClientState, sys: Protocol.System) {
    && c.entities == Wrapped(sys.client.entities) && c.updateTick == WireTick(sys.client.updateTick)
    && AllRepresent(cs, c.buffered, sys.client.buffered) && c.acks == sys.acks
  }

  predicate InSpan(base: int, tick: int) {
    base <= tick < base + 0x8000_0000
  }

  /** All the ticks that the client may compare span less than 2^31. */
  ghost predicate Live(base: int, client: Client) {
    && InSpan(base, client.updateTick)
    && (forall e <- client.entities :: InSpan(base, client.entities[e].confirmed))
    && (forall m <- client.buffered :: InSpan(base, m.updateTick) && InSpan(base, m.tick))
  }

  // ---------------------------------------------------------------------------------------------
  // The three parts of a frame.

  lemma LiveKept(base: int, c: Client, u: UpdateMsg, m: MutateMsg, j: nat)
    requires Live(base, c)
    ensures InSpan(base, u.tick) ==> Live(base, ReceiveUpdate(c, u))
    ensures InSpan(base, m.updateTick) && InSpan(base, m.tick) ==> Live(base, Buffer(c, m))
    ensures j < |c.buffered| ==> Live(base, ApplyAt(c, j))
  {
    hide InSpan;
    var inserted := Receiver.Insert(c.buffered, m);
    assert forall x <- inserted :: x in c.buffered || x == m;
    if j < |c.buffered| {
      assert c.buffered[j] in c.buffered;
    }
  }

  lemma UpdateOne(cs: Codecs, r: Replica, bytes: Bytes, m: UpdateMsg)
    requires Suitable(cs) && UpdateBytes(cs, bytes, m)
    ensures
      var p := DecodeUpdate(cs, bytes);
      p.Parsed? && p.value.tick == WireTick(m.tick) && ApplyParsed(Wrapped(r), p.value) == Wrapped(ApplyUpdate(r, m))
  {
    hide DecodeUpdate, ApplyParsed, ApplyUpdate, DistinctKeys, DistinctRemovals, WireTick, Wrapped;
    var u := DecodeUpdate(cs, bytes).value;
    ApplyParsedIsApplyUpdate(Wrapped(r), u);
    assert AsMessage(u, u.tick) == AsMessage(u, m.tick).(tick := u.tick);
    WrappedUpdate(r, m);
  }

  lemma {:induction false} UpdatesRefine(cs: Codecs, c: ClientState, sys: Protocol.System, updates: seq<Bytes>, base: int)
    requires Suitable(cs) && Models(cs, c, sys) && sys.received + |updates| <= |sys.log| && Live(base, sys.client)
    requires forall i :: 0 <= i < |updates| ==> UpdateBytes(cs, updates[i], sys.log[sys.received + i])
    requires forall j :: sys.received <= j < sys.received + |updates| ==> InSpan(base, sys.log[j].tick)
    ensures
      var (c', sys') := (UpdatesApplied(cs, c, updates), Protocol.PopUpdates(sys, |updates|));
      c'.Some? && Models(cs, c'.value, sys') && Live(base, sys'.client)
    decreases |updates|
  {
    hide UpdateBytes, DecodeUpdate, ApplyParsed, ApplyUpdate, AllRepresent, Live, InSpan, WireTick, Wrapped;
    if updates != [] {
      var m := sys.log[sys.received + 0];
      UpdateOne(cs, sys.client.entities, updates[0], m);
      var u := DecodeUpdate(cs, updates[0]).value;
      var c1 := c.(entities := ApplyParsed(c.entities, u), updateTick := u.tick);
      var sys1 := Protocol.PopUpdate(sys);
      LiveKept(base, sys.client, m, MutateMsg(0, 0, 0, map[]), 0);
      forall i | 0 <= i < |updates[1..]|
        ensures UpdateBytes(cs, updates[1..][i], sys1.log[sys1.received + i])
      {
        assert updates[1..][i] == updates[i + 1];
        assert UpdateBytes(cs, updates[i + 1], sys.log[sys.received + (i + 1)]);
      }
      UpdatesRefine(cs, c1, sys1, updates[1..], base);
    }
  }

  lemma {:induction false} CountsAgree(cs: Codecs, bs: seq<Buffered>, ms: seq<MutateMsg>, m: MutateMsg)
    requires AllRepresent(cs, bs, ms) && forall x <- ms :: Near(m.tick, x.tick)
    ensures NewerCount(bs, WireTick(m.tick)) == PartitionPoint(ms, m)
    decreases |bs|
  {
    hide Older, Near, WireTick;
    if bs != [] {
      assert Represents(cs, bs[0], ms[0]) && ms[0] in ms;
      NearIsEnough(m.tick, ms[0].tick);
      forall i | 0 <= i < |bs[1..]| ensures Represents(cs, bs[1..][i], ms[1..][i]) {
        assert bs[1..][i] == bs[i + 1] && ms[1..][i] == ms[i + 1];
      }
      CountsAgree(cs, bs[1..], ms[1..], m);
    }
  }

  lemma InsertRepresents(cs: Codecs, bs: seq<Buffered>, ms: seq<MutateMsg>, b: Buffered, m: MutateMsg)
    requires AllRepresent(cs, bs, ms) && Represents(cs, b, m) && forall x <- ms :: Near(m.tick, x.tick)
    ensures AllRepresent(cs, InsertBuffered(bs, b), Receiver.Insert(ms, m))
  {
    hide Represents, NewerCount, PartitionPoint, Near;
    CountsAgree(cs, bs, ms, m);
    TicksOf(cs, b, m);
    SplicedRepresents(cs, bs, ms, b, m, PartitionPoint(ms, m));
  }

  lemma SplicedRepresents(cs: Codecs, bs: seq<Buffered>, ms: seq<MutateMsg>, b: Buffered, m: MutateMsg, n: nat)
    requires AllRepresent(cs, bs, ms) && Represents(cs, b, m) && n <= |ms|
    ensures AllRepresent(cs, bs[..n] + [b] + bs[n..], ms[..n] + [m] + ms[n..])
  {
    hide Represents;
    var bs', ms' := bs[..n] + [b] + bs[n..], ms[..n] + [m] + ms[n..];
    Spliced(bs, b, n);
    Spliced(ms, m, n);
    forall i | 0 <= i < |bs'| ensures Represents(cs, bs'[i], ms'[i]) {
      if i > n {
        assert Represents(cs, bs[i - 1], ms[i - 1]);
      }
    }
  }

  lemma Spliced<T>(xs: seq<T>, x: T, n: nat)
    requires n <= |xs|
    ensures forall i :: 0 <= i <= |xs| ==> (xs[..n] + [x] + xs[n..])[i] == if i < n then xs[i] else if i == n then x else xs[i - 1]
  {
  }

  lemma {:induction false} BuffersRefine(cs: Codecs, c: ClientState, sys: Protocol.System, tracked: bool, mutations: seq<Bytes>,
                                         batch: seq<MutateMsg>, base: int)
    requires Models(cs, c, sys) && |mutations| == |batch| && Live(base, sys.client)
    requires forall i :: 0 <= i < |batch| ==> MutateBytes(cs, tracked, mutations[i], batch[i])
    requires forall i :: 0 <= i < |batch| ==> InSpan(base, batch[i].updateTick) && InSpan(base, batch[i].tick)
    ensures
      var (c', sys') := (MutationsBuffered(c, tracked, mutations), Protocol.BufferAll(sys, batch));
      c'.Some? && Models(cs, c'.value, sys') && Live(base, sys'.client)
    decreases |batch|
  {
    hide ReadHeader, Represents, InsertBuffered, Receiver.Insert, AllRepresent, WireTick, Wrapped;
    if batch != [] {
      assert MutateBytes(cs, tracked, mutations[0], batch[0]);
      var p := ReadHeader(tracked, mutations[0]);
      var b := Buffered(p.value.updateTick, p.value.tick, p.value.count, p.rest);
      InsertRepresents(cs, c.buffered, sys.client.buffered, b, batch[0]);
      LiveKept(base, sys.client, UpdateMsg(0, {}, map[], map[]), batch[0], 0);
      var c1 := c.(buffered := InsertBuffered(c.buffered, b), acks := c.acks + [p.value.index]);
      forall i | 0 <= i < |batch[1..]| ensures MutateBytes(cs, tracked, mutations[1..][i], batch[1..][i]) {
        assert mutations[1..][i] == mutations[i + 1] && batch[1..][i] == batch[i + 1];
      }
      BuffersRefine(cs, c1, Protocol.BufferOne(sys, batch[0]), tracked, mutations[1..], batch[1..], base);
    }
  }

  lemma AppliesOne(cs: Codecs, r: Replica, b: Buffered, m: MutateMsg)
    requires Suitable(cs) && Represents(cs, b, m) && forall e <- r :: Near(m.tick, r[e].confirmed)
    ensures ApplyBody(cs, Wrapped(r), b.messageTick, b.message) == Some(Wrapped(ApplyMutations(r, m)))
  {
    hide ApplyBody, ApplyMutations, MutateAll, AllMutations, Items, Wrapped, WireTick, Near;
    var xs :| BodyBytes(cs, b.message, m.mutations, xs);
    ApplyBodyIs(cs, Wrapped(r), WireTick(m.tick), xs);
    MutateAllIsApplyMutations(r, m, xs);
  }

  /** The retain loop from position `j` on, where `bs` are the messages from there. */
  lemma {:induction false} RetainRefines(cs: Codecs, sys: Protocol.System, j: nat, bs: seq<Buffered>, base: int)
    requires Suitable(cs) && j <= |sys.client.buffered| && AllRepresent(cs, bs, sys.client.buffered[j..])
    requires Live(base, sys.client)
    ensures
      var (r, kept) := Retain(cs, Wrapped(sys.client.entities), WireTick(sys.client.updateTick), bs);
      var sys' := Protocol.ApplyReady(sys, j);
      && r == Some(Wrapped(sys'.client.entities)) && sys'.client.updateTick == sys.client.updateTick && sys'.acks == sys.acks
      && j <= |sys'.client.buffered| && sys'.client.buffered[..j] == sys.client.buffered[..j]
      && AllRepresent(cs, kept, sys'.client.buffered[j..])
    decreases |bs|
  {
    hide ApplyBody, ApplyMutations, Represents, Wrapped, WireTick, Newer, Live;
    var ms := sys.client.buffered;
    var update, r := WireTick(sys.client.updateTick), Wrapped(sys.client.entities);
    if bs != [] {
      assert ms[j..][0] == ms[j] && Represents(cs, bs[0], ms[j]);
      TicksOf(cs, bs[0], ms[j]);
      LiveIsNear(base, sys.client, ms[j]);
      NearIsEnough(ms[j].updateTick, sys.client.updateTick);
      forall i | 0 <= i < |bs[1..]| ensures Represents(cs, bs[1..][i], ms[j + 1..][i]) {
        assert bs[1..][i] == bs[i + 1] && ms[j + 1..][i] == ms[j..][i + 1];
      }
      if ms[j].updateTick > sys.client.updateTick {
        RetainRefines(cs, sys, j + 1, bs[1..], base);
        KeptInFront(cs, sys, j, bs[0], Retain(cs, r, update, bs[1..]).1);
      } else {
        AppliesOne(cs, sys.client.entities, bs[0], ms[j]);
        var sys1 := Protocol.ApplyOne(sys, j);
        assert sys1.client.buffered[j..] == ms[j + 1..] && sys1.client.buffered[..j] == ms[..j];
        LiveKept(base, sys.client, UpdateMsg(0, {}, map[], map[]), ms[j], j);
        RetainRefines(cs, sys1, j, bs[1..], base);
      }
    }
  }

  lemma LiveIsNear(base: int, c: Client, m: MutateMsg)
    requires Live(base, c) && m in c.buffered
    ensures Near(m.updateTick, c.updateTick) && forall e <- c.entities :: Near(m.tick, c.entities[e].confirmed)
  {
  }

  lemma TicksOf(cs: Codecs, b: Buffered, m: MutateMsg)
    requires Represents(cs, b, m)
    ensures b.updateTick == WireTick(m.updateTick) && b.messageTick == WireTick(m.tick)
  {
  }

  lemma KeptInFront(cs: Codecs, sys: Protocol.System, j: nat, b: Buffered, kept: seq<Buffered>)
    requires j < |sys.client.buffered| && Represents(cs, b, sys.client.buffered[j])
    requires
      var after := Protocol.ApplyReady(sys, j + 1).client.buffered;
      j + 1 <= |after| && after[..j + 1] == sys.client.buffered[..j + 1] && AllRepresent(cs, kept, after[j + 1..])
    ensures
      var after := Protocol.ApplyReady(sys, j + 1).client.buffered;
      after[..j] == sys.client.buffered[..j] && AllRepresent(cs, [b] + kept, after[j..])
  {
    hide Represents, Protocol.ApplyReady;
    var after := Protocol.ApplyReady(sys, j + 1).client.buffered;
    assert after[..j + 1][j] == after[j] && sys.client.buffered[..j + 1][j] == sys.client.buffered[j];
    assert after[..j] == after[..j + 1][..j] && sys.client.buffered[..j] == sys.client.buffered[..j + 1][..j];
    forall i | 0 <= i < |[b] + kept| ensures Represents(cs, ([b] + kept)[i], after[j..][i]) {
      if i > 0 {
        assert after[j..][i] == after[j + 1..][i - 1];
      }
    }
  }

  /**
   Parsing and applying the bytes of a frame does to the client exactly what a frame of the protocol does, although
   ticks are sent and compared modulo 2^32.
   */
  lemma FrameRefines(cs: Codecs, c: ClientState, sys: Protocol.System, updates: seq<Bytes>, tracked: bool, mutations: seq<Bytes>,
                     batch: seq<MutateMsg>, base: int)
    requires Suitable(cs) && Models(cs, c, sys) && sys.received + |updates| <= |sys.log| && Live(base, sys.client)
    requires forall i :: 0 <= i < |updates| ==> UpdateBytes(cs, updates[i], sys.log[sys.received + i])
    requires |mutations| == |batch| && forall i :: 0 <= i < |batch| ==> MutateBytes(cs, tracked, mutations[i], batch[i])
    requires forall j :: sys.received <= j < sys.received + |updates| ==> InSpan(base, sys.log[j].tick)
    requires forall i :: 0 <= i < |batch| ==> InSpan(base, batch[i].updateTick) && InSpan(base, batch[i].tick)
    ensures
      var c' := FrameApplied(cs, c, updates, tracked, mutations);
      c'.Some? && Models(cs, c'.value, Protocol.Frame(sys, |updates|, batch))
  {
    hide UpdatesApplied, MutationsBuffered, UpdateBytes, MutateBytes, Protocol.PopUpdates, Protocol.BufferAll, Protocol.ApplyReady, Retain,
      Live, Wrapped, WireTick;
    UpdatesRefine(cs, c, sys, updates, base);
    var c1 := UpdatesApplied(cs, c, updates).value;
    var sys1 := Protocol.PopUpdates(sys, |updates|);
    BuffersRefine(cs, c1, sys1, tracked, mutations, batch, base);
    var c2 := MutationsBuffered(c1, tracked, mutations).value;
    var sys2 := Protocol.BufferAll(sys1, batch);
    assert sys2.client.buffered[0..] == sys2.client.buffered;
    RetainRefines(cs, sys2, 0, c2.buffered, base);
    var after := Protocol.ApplyReady(sys2, 0).client.buffered;
    assert after[0..] == after;
  }

  // ---------------------------------------------------------------------------------------------
  // From the server to the client.

  /**
   What the server sends in a run stands for the messages of the protocol's run: an update message unless there is
   nothing to say, and one mutate message per group.
   */
  lemma SentUpdateStandsForRun(cs: Codecs, ev: Events, runs: Runs, a: Protocol.Server, c: Protocol.Server, clock: Clock, own: Own)
    requires Suitable(cs) && RunOf(ev, runs, a, c, clock, own)
    ensures
      var sent := SentUpdate(ServedIn(cs, ev, c, clock, own), clock);
      var update := RunFor(cs, ev, a, c, clock, own).update;
      (sent.None? <==> update.IsEmpty()) && (sent.Some? ==> UpdateBytes(cs, sent.value, update))
  {
    hide Served, DecodeUpdate, SentUpdate, AsMessage, Protocol.CollectUpdate, Enumerates, Reflects, GroupsFor, Relabels;
    SentUpdateIsParsed(cs, ev, runs, a, c, clock, own);
    var sent := SentUpdate(ServedIn(cs, ev, c, clock, own), clock);
    if sent.Some? {
      TickOf(DecodeUpdate(cs, sent.value).value, clock.serverTick);
    }
  }

  lemma TickOf(u: Update, tick: nat)
    ensures AsMessage(u, tick).tick == tick
  {
  }

  lemma SentMutationStandsForRun(cs: Codecs, ev: Events, runs: Runs, a: Protocol.Server, c: Protocol.Server, clock: Clock, own: Own, k: nat)
    requires Suitable(cs) && RunOf(ev, runs, a, c, clock, own) && a.tracked.nextIndex < INDEX_SPACE
    requires
      var pr := ServedIn(cs, ev, c, clock, own);
      SendsMutations(pr, clock) && k < |PlanFor(pr, clock)| && PlanFits(PlanFor(pr, clock), |pr.g.mutations|)
    ensures
      var pr := ServedIn(cs, ev, c, clock, own);
      && k < |GroupsFor(pr, clock)|
      && MutateBytes(cs, clock.trackMutations, SentMutation(pr, clock, k), MessageFor(ev, c, pr, clock, k))
  {
    hide *;
    SentMutationIsParsed(cs, ev, runs, a, c, clock, own, k, _ => false);
    var pr := ServedIn(cs, ev, c, clock, own);
    var xs := PartOf(MutationsFor(ev, c, clock.thisRun), PlanFor(pr, clock)[k].range);
    StandsFor(cs, clock.trackMutations, SentMutation(pr, clock, k), MessageFor(ev, c, pr, clock, k), xs);
  }

  lemma StandsFor(cs: Codecs, tracked: bool, bytes: Bytes, m: MutateMsg, xs: seq<(Entity, seq<Component>)>)
    requires DistinctKeys(xs) && ToChanges(xs) == m.mutations
    requires
      var p := ReadHeader(tracked, bytes);
      p.Parsed? && p.value.updateTick == WireTick(m.updateTick) && p.value.tick == WireTick(m.tick) && p.value.index == m.index
      && p.rest == AllMutations(Items(cs.component, xs))
    ensures MutateBytes(cs, tracked, bytes, m)
  {
    hide ReadHeader, DistinctKeys, ToChanges;
    assert BodyBytes(cs, ReadHeader(tracked, bytes).rest, m.mutations, xs);
  }
}
