/**
 The protocol on bytes: a server that serializes, a network that carries byte strings, and a client that parses.
 Change detection has its own clock, and ticks are sent and compared modulo 2^32.
 */
module ByteProtocol {
  import opened Domain
  import opened Visibility
  import opened Changes
  import opened Messages
  import opened Tracker
  import opened Wire
  import opened UpdateWire
  import opened Collection
  import opened ServerRun
  import opened Clocks
  import opened Refinement
  import opened ClientApply
  import opened ClientRefinement
  import Protocol
  import Receiver
  import Invariant
  import Theorems

  /** The bytes of a mutate message, and what they were made from, which the client does not get to see. */
  datatype Datagram = Datagram(bytes: Bytes, says: MutateMsg)

  /**
   `server` is on the clock of change ticks: its tick is the change tick of the last run. `updates` are the bytes of
   all update messages, of which the client has received the first `received`. The last two fields are history: the
   change tick of every run, and the world as it was then.
   */
  datatype ByteSystem = ByteSystem(
    server: Protocol.Server,
    now: nat,
    serverTick: nat,
    client: ClientState,
    updates: seq<Bytes>,
    received: nat,
    net: set<Datagram>,
    runs: Runs,
    history: map<nat, Protocol.Snapshot>)

  /** What the two sides were built with: the codecs, and whether mutate messages are tracked. */
  datatype Config = Config(cs: Codecs, tracked: bool)

  datatype Step =
    | Elapse(n: nat)                               // change ticks go by
    | Start(e: Entity, entry: Entry)
    | Stop(e: Entity)
    | Put(e: Entity, c: FnsId, v: Value)
    | Remove(e: Entity, c: FnsId)
    | SetVisible(e: Entity, visible: bool)
    | Send(serverTick: nat, timestamp: nat, ev: Events, own: Own, sent: Sent)
    | Frame(updates: nat, batch: seq<Datagram>)
    | Lose(d: Datagram)
    | ReceiveAck(i: nat)
    | Cleanup(minTimestamp: nat)

  function ClockOf(cfg: Config, b: ByteSystem, step: Step): Clock
    requires step.Send?
  {
    Clock(step.serverTick, b.now, step.timestamp, cfg.tracked)
  }

  /** What the client of this system is served in the run. */
  function ProgressOf(cfg: Config, b: ByteSystem, step: Step): Progress
    requires step.Send?
  {
    ServedIn(cfg.cs, step.ev, b.server, ClockOf(cfg, b, step), step.own)
  }

  /** What the server, the network and the world may do. */
  ghost predicate Possible(cfg: Config, b: ByteSystem, step: Step) {
    var s := b.server;
    match step
    case Elapse(n) => true
    case Start(e, entry) => e !in s.world && entry.marker == b.now && Protocol.StampedBy(entry, b.now)
    case Stop(e) => e in s.world
    case Put(e, c, v) => e in s.world
    case Remove(e, c) => true
    case SetVisible(e, visible) => true
    case Send(tick, timestamp, ev, own, sent) =>
      && tick > b.serverTick && Reflects(ev, s)
      && Enumerates(own.lost, Lost(Protocol.DespawnEach(s.tracked, s.despawned).0.filter))
      && SentOk(sent, ProgressOf(cfg, b, step), ClockOf(cfg, b, step))
    case Frame(updates, batch) => b.received + updates <= |b.updates| && forall d <- batch :: d in b.net
    case Lose(d) => true
    case ReceiveAck(i) => i < |b.client.acks|
    case Cleanup(_) => true
  }

  function BytesOf(batch: seq<Datagram>): seq<Bytes> {
    seq(|batch|, i requires 0 <= i < |batch| => batch[i].bytes)
  }

  function DatagramAt(cfg: Config, b: ByteSystem, step: Step, k: nat): Datagram
    requires step.Send? && k < |step.sent.mutations| && k < |GroupsFor(ProgressOf(cfg, b, step), ClockOf(cfg, b, step))|
  {
    Datagram(step.sent.mutations[k], MessageFor(step.ev, b.server, ProgressOf(cfg, b, step), ClockOf(cfg, b, step), k))
  }

  function Datagrams(cfg: Config, b: ByteSystem, step: Step): set<Datagram>
    requires step.Send?
  {
    var n := |GroupsFor(ProgressOf(cfg, b, step), ClockOf(cfg, b, step))|;
    set k: nat | k < |step.sent.mutations| && k < n :: DatagramAt(cfg, b, step, k)
  }

  ghost function ClientAfter(cfg: Config, b: ByteSystem, updates: nat, batch: seq<Datagram>): Option<ClientState>
    requires b.received + updates <= |b.updates| && Suitable(cfg.cs)
  {
    FrameApplied(cfg.cs, b.client, b.updates[b.received..b.received + updates], cfg.tracked, BytesOf(batch))
  }

  ghost function Next(cfg: Config, b: ByteSystem, step: Step): ByteSystem
    requires Suitable(cfg.cs) && Possible(cfg, b, step)
  {
    var s := b.server;
    match step
    case Elapse(n) => b.(now := b.now + n)
    case Start(e, entry) => b.(server := s.(world := s.world[e := entry]))
    case Stop(e) => b.(server := s.(world := s.world - {e}, despawned := s.despawned + [e]))
    case Put(e, c, v) => b.(server := s.(world := s.world[e := Protocol.PutComponent(s.world[e], c, v, b.now)]))
    case Remove(e, c) =>
      b.(server := s.(
        world := if e in s.world then s.world[e := s.world[e].(comps := s.world[e].comps - {c})] else s.world,
        removed := Protocol.RemovalEvent(s.removed, e, c)))
    case SetVisible(e, visible) => b.(server := s.(tracked := s.tracked.(filter := WithVisibility(s.tracked.filter, e, visible))))
    case Send(tick, timestamp, ev, own, sent) =>
      b.(server := s.(tick := b.now, despawned := [], removed := map[], tracked := sent.t),
         now := b.now + 1,
         serverTick := tick,
         updates := if sent.update.Some? then b.updates + [sent.update.value] else b.updates,
         net := b.net + Datagrams(cfg, b, step),
         runs := b.runs[tick := b.now],
         history := b.history[tick := Protocol.SnapshotOf(s.world)])
    case Frame(updates, batch) =>
      var c := ClientAfter(cfg, b, updates, batch);
      b.(client := if c.Some? then c.value else b.client, received := b.received + updates)
    case Lose(d) => b.(net := set d' <- b.net | d'.says != d.says)
    case ReceiveAck(i) =>
      var acks := b.client.acks;
      b.(server := s.(tracked := Acked(s.tracked, acks[i])), client := b.client.(acks := acks[..i] + acks[i + 1..]))
    case Cleanup(minTimestamp) => b.(server := s.(tracked := CleanedUp(s.tracked, minTimestamp)))
  }

  // ---------------------------------------------------------------------------------------------
  // The protocol in step with the bytes.

  /** The step of the protocol, if there is one. */
  function Mirror(cfg: Config, b: ByteSystem, step: Step): Option<Protocol.Step> {
    match step
    case Elapse(n) => None
    case Start(e, entry) => Some(Protocol.Start(e, EntryAt(b.runs, entry, b.serverTick)))
    case Stop(e) => Some(Protocol.Stop(e))
    case Put(e, c, v) => Some(Protocol.Put(e, c, v))
    case Remove(e, c) => Some(Protocol.Remove(e, c))
    case SetVisible(e, visible) => Some(Protocol.SetVisible(e, visible))
    case Send(tick, timestamp, ev, own, sent) =>
      Some(Protocol.SendStep(tick, timestamp, GroupsFor(ProgressOf(cfg, b, step), ClockOf(cfg, b, step))))
    case Frame(updates, batch) => Some(Protocol.FrameStep(updates, seq(|batch|, i requires 0 <= i < |batch| => batch[i].says)))
    case Lose(d) => Some(Protocol.Lose(d.says))
    case ReceiveAck(i) => Some(Protocol.ReceiveAck(i))
    case Cleanup(minTimestamp) => Some(Protocol.Cleanup(minTimestamp))
  }

  /**
   What is assumed of the environment. `a` is the protocol in step with the bytes, on which the assumptions are stated:
   no mutate index is used that is unresolved, acknowledgements come after application, and the ticks that a frame
   compares span less than 2^31.
   */
  ghost predicate Assumed(cfg: Config, b: ByteSystem, a: Protocol.System, step: Step) {
    match step
    case SetVisible(e, visible) =>
      visible && b.server.tracked.filter.Whitelist? ==> e !in Lost(b.server.tracked.filter)
    case Send(_, _, ev, own, _) =>
      var run := RunFor(cfg.cs, ev, a.server, b.server, ClockOf(cfg, b, step), own);
      Protocol.NoHiddenDespawn(b.server) && !OnlyMappings(own, run.update) && Protocol.IndicesFresh(a, run.batch)
    case Frame(updates, batch) =>
      exists base :: Spans(base, a, updates, batch)
    case ReceiveAck(i) => i < |b.client.acks| && forall m <- a.client.buffered :: m.index != b.client.acks[i]
    case _ => true
  }

  ghost predicate Spans(base: int, a: Protocol.System, updates: nat, batch: seq<Datagram>) {
    && Live(base, a.client) && a.received + updates <= |a.log|
    && (forall j :: a.received <= j < a.received + updates ==> InSpan(base, a.log[j].tick))
    && (forall d <- batch :: InSpan(base, d.says.updateTick) && InSpan(base, d.says.tick))
  }

  /** `sent` are the bytes of the messages of `log`. */
  ghost predicate UpdatesAre(cs: Codecs, sent: seq<Bytes>, log: seq<UpdateMsg>)
    requires Suitable(cs)
  {
    |sent| == |log| && forall i :: 0 <= i < |sent| ==> UpdateBytes(cs, sent[i], log[i])
  }

  function SaidBy(net: set<Datagram>): set<MutateMsg> {
    set d <- net :: d.says
  }

  ghost predicate NetIs(cfg: Config, net: set<Datagram>, messages: set<MutateMsg>) {
    SaidBy(net) == messages && forall d <- net :: MutateBytes(cfg.cs, cfg.tracked, d.bytes, d.says)
  }

  /** All runs were before now, on both clocks. */
  ghost predicate ClocksOk(b: ByteSystem) {
    && Later(b.runs, b.serverTick + 1, b.now)
    && forall e <- b.server.world :: Protocol.StampedBy(b.server.world[e], b.now)
  }

  ghost predicate ServerIs(b: ByteSystem, a: Protocol.System) {
    && Relabels(b.runs, a.server, b.server) && a.server.tick == b.serverTick && ClocksOk(b)
    && a.server.tracked.nextIndex < INDEX_SPACE && b.history == a.history
  }

  ghost predicate ChannelsAre(cfg: Config, b: ByteSystem, a: Protocol.System)
    requires Suitable(cfg.cs)
  {
    && b.received == a.received && UpdatesAre(cfg.cs, b.updates, a.log) && NetIs(cfg, b.net, a.net)
    && Models(cfg.cs, b.client, a)
  }

  /** The bytes stand for the protocol. */
  ghost predicate Simulates(cfg: Config, b: ByteSystem, a: Protocol.System)
    requires Suitable(cfg.cs)
  {
    ServerIs(b, a) && ChannelsAre(cfg, b, a) && Invariant.Inv(a)
  }

  // ---------------------------------------------------------------------------------------------
  // Steps of the world.

  lemma PutIsSame(runs: Runs, a: Entry, c: Entry, id: FnsId, v: Value, serverTick: nat, now: nat)
    requires SameEntry(runs, a, c) && SameStamp(runs, serverTick, now)
    ensures SameEntry(runs, Protocol.PutComponent(a, id, v, serverTick), Protocol.PutComponent(c, id, v, now))
  {
  }

  lemma RemoveIsSame(runs: Runs, a: Entry, c: Entry, id: FnsId)
    requires SameEntry(runs, a, c)
    ensures SameEntry(runs, a.(comps := a.comps - {id}), c.(comps := c.comps - {id}))
  {
  }

  lemma PutIsStamped(entry: Entry, id: FnsId, v: Value, now: nat)
    requires Protocol.StampedBy(entry, now)
    ensures Protocol.StampedBy(Protocol.PutComponent(entry, id, v, now), now)
    ensures Protocol.StampedBy(entry.(comps := entry.comps - {id}), now)
  {
  }

  /** Now is after every run, on both clocks. */
  lemma NowIsSame(b: ByteSystem, a: Protocol.System)
    requires ServerIs(b, a)
    ensures SameStamp(b.runs, Protocol.Now(a), b.now) && Stamp(b.runs, b.now, b.serverTick) == Protocol.Now(a)
    ensures forall t <- b.runs :: t <= b.serverTick
  {
  }

  lemma SimulatedStart(cfg: Config, b: ByteSystem, a: Protocol.System, step: Step)
    requires Suitable(cfg.cs) && step.Start? && ServerIs(b, a) && Possible(cfg, b, step)
    ensures
      var p := Mirror(cfg, b, step).value;
      Protocol.Allowed(a, p, true) && ServerIs(Next(cfg, b, step), Protocol.Next(a, p))
  {
    hide SameEntry, Stamp, InRuns, Labelled;
    NowIsSame(b, a);
    EntryIsSame(b.runs, step.entry, b.serverTick);
  }

  lemma SimulatedPut(cfg: Config, b: ByteSystem, a: Protocol.System, step: Step)
    requires Suitable(cfg.cs) && step.Put? && ServerIs(b, a) && Possible(cfg, b, step)
    ensures
      var p := Mirror(cfg, b, step).value;
      Protocol.Allowed(a, p, true) && ServerIs(Next(cfg, b, step), Protocol.Next(a, p))
  {
    hide SameEntry, Stamp, InRuns, Labelled, SameStamp, Protocol.PutComponent, Protocol.StampedBy;
    NowIsSame(b, a);
    PutIsSame(b.runs, a.server.world[step.e], b.server.world[step.e], step.c, step.v, Protocol.Now(a), b.now);
    PutIsStamped(b.server.world[step.e], step.c, step.v, b.now);
  }

  lemma SimulatedRemove(cfg: Config, b: ByteSystem, a: Protocol.System, step: Step)
    requires Suitable(cfg.cs) && step.Remove? && ServerIs(b, a) && Possible(cfg, b, step)
    ensures
      var p := Mirror(cfg, b, step).value;
      Protocol.Allowed(a, p, true) && ServerIs(Next(cfg, b, step), Protocol.Next(a, p))
  {
    hide SameEntry, InRuns, Labelled, Protocol.StampedBy;
    if step.e in b.server.world {
      RemoveIsSame(b.runs, a.server.world[step.e], b.server.world[step.e], step.c);
      PutIsStamped(b.server.world[step.e], step.c, 0, b.now);
    }
  }

  lemma FilterIsSame(runs: Runs, t: Tracked, filter: Filter)
    ensures Labelled(runs, t.(filter := filter)) == Labelled(runs, t).(filter := filter)
    ensures InRuns(runs, t.(filter := filter)) <==> InRuns(runs, t)
  {
  }

  lemma SimulatedOther(cfg: Config, b: ByteSystem, a: Protocol.System, step: Step)
    requires Suitable(cfg.cs) && ServerIs(b, a) && Possible(cfg, b, step) && Assumed(cfg, b, a, step)
    requires step.Stop? || step.SetVisible?
    ensures
      var p := Mirror(cfg, b, step).value;
      Protocol.Allowed(a, p, true) && ServerIs(Next(cfg, b, step), Protocol.Next(a, p))
  {
    hide SameEntry, InRuns, Labelled, Protocol.StampedBy, WithVisibility, Lost;
    if step.SetVisible? {
      TickInRuns(b.runs, a.server, b.server);
      FilterLabelled(b.runs, a.server.tracked);
      FilterIsSame(b.runs, a.server.tracked, WithVisibility(a.server.tracked.filter, step.e, step.visible));
    }
  }

  lemma SimulatedCleanup(cfg: Config, b: ByteSystem, a: Protocol.System, step: Step)
    requires Suitable(cfg.cs) && step.Cleanup? && ServerIs(b, a)
    ensures
      var p := Mirror(cfg, b, step).value;
      Protocol.Allowed(a, p, true) && ServerIs(Next(cfg, b, step), Protocol.Next(a, p))
  {
    hide SameEntry, InRuns, Labelled, Protocol.StampedBy;
    CleanupLabelled(b.runs, a.server.tracked, step.minTimestamp);
    assert CleanedUp(a.server.tracked, step.minTimestamp).nextIndex == a.server.tracked.nextIndex;
  }

  lemma SimulatedAck(cfg: Config, b: ByteSystem, a: Protocol.System, step: Step)
    requires Suitable(cfg.cs) && step.ReceiveAck? && ServerIs(b, a) && ChannelsAre(cfg, b, a)
    requires Possible(cfg, b, step) && Assumed(cfg, b, a, step)
    ensures
      var p := Mirror(cfg, b, step).value;
      && Protocol.Allowed(a, p, true)
      && ServerIs(Next(cfg, b, step), Protocol.Next(a, p)) && ChannelsAre(cfg, Next(cfg, b, step), Protocol.Next(a, p))
  {
    hide SameEntry, InRuns, Labelled, Protocol.StampedBy, UpdatesAre, NetIs, AllRepresent, Wrapped;
    AckLabelled(b.runs, a.server.tracked, a.acks[step.i]);
    assert Acked(a.server.tracked, a.acks[step.i]).nextIndex == a.server.tracked.nextIndex;
  }

  // ---------------------------------------------------------------------------------------------
  // Frames and losses.

  lemma SimulatedLoss(cfg: Config, b: ByteSystem, a: Protocol.System, step: Step)
    requires Suitable(cfg.cs) && step.Lose? && NetIs(cfg, b.net, a.net)
    ensures NetIs(cfg, Next(cfg, b, step).net, a.net - {step.d.says})
  {
    hide MutateBytes;
    var net := Next(cfg, b, step).net;
    forall m ensures m in SaidBy(net) <==> m in a.net - {step.d.says} {
      if m in a.net && m != step.d.says {
        var d :| d in b.net && d.says == m;
        assert d in net;
      }
    }
  }

  lemma SimulatedFrame(cfg: Config, b: ByteSystem, a: Protocol.System, step: Step)
    requires Suitable(cfg.cs) && step.Frame? && ServerIs(b, a) && ChannelsAre(cfg, b, a)
    requires Possible(cfg, b, step) && Assumed(cfg, b, a, step)
    ensures
      var p := Mirror(cfg, b, step).value;
      && Protocol.Allowed(a, p, true) && ClientAfter(cfg, b, step.updates, step.batch).Some?
      && ServerIs(Next(cfg, b, step), Protocol.Next(a, p)) && ChannelsAre(cfg, Next(cfg, b, step), Protocol.Next(a, p))
  {
    hide UpdateBytes, MutateBytes, FrameApplied, Live, InSpan, Relabels, Later, Protocol.StampedBy, Models, Protocol.Frame;
    var base :| Spans(base, a, step.updates, step.batch);
    var updates := b.updates[b.received..b.received + step.updates];
    var p := Mirror(cfg, b, step).value;
    forall i | 0 <= i < |step.batch|
      ensures MutateBytes(cfg.cs, cfg.tracked, BytesOf(step.batch)[i], p.batch[i]) && p.batch[i] in a.net
      ensures InSpan(base, p.batch[i].updateTick) && InSpan(base, p.batch[i].tick)
    {
      assert step.batch[i] in step.batch;
    }
    forall i | 0 <= i < |updates| ensures UpdateBytes(cfg.cs, updates[i], a.log[a.received + i]) {
    }
    FrameRefines(cfg.cs, b.client, a, updates, cfg.tracked, BytesOf(step.batch), p.batch, base);
    FrameKeepsRest(a, step.updates, p.batch);
  }

  lemma FrameKeepsRest(a: Protocol.System, updates: nat, batch: seq<MutateMsg>)
    requires a.received + updates <= |a.log|
    ensures
      var a' := Protocol.Frame(a, updates, batch);
      && a'.server == a.server && a'.log == a.log && a'.received == a.received + updates
      && a'.net == a.net && a'.history == a.history
  {
    PopsKeepRest(a, updates);
    BuffersKeepRest(Protocol.PopUpdates(a, updates), batch);
    AppliesKeepRest(Protocol.BufferAll(Protocol.PopUpdates(a, updates), batch), 0);
  }

  lemma {:induction false} PopsKeepRest(a: Protocol.System, n: nat)
    requires a.received + n <= |a.log|
    ensures Protocol.PopUpdates(a, n) == a.(client := Protocol.PopUpdates(a, n).client, received := a.received + n)
    decreases n
  {
    if n > 0 {
      PopsKeepRest(Protocol.PopUpdate(a), n - 1);
    }
  }

  lemma {:induction false} BuffersKeepRest(a: Protocol.System, ms: seq<MutateMsg>)
    ensures
      var a' := Protocol.BufferAll(a, ms);
      a' == a.(client := a'.client, acks := a'.acks)
    decreases |ms|
  {
    if ms != [] {
      BuffersKeepRest(Protocol.BufferOne(a, ms[0]), ms[1..]);
    }
  }

  lemma {:induction false} AppliesKeepRest(a: Protocol.System, j: nat)
    requires j <= |a.client.buffered|
    ensures
      var a' := Protocol.ApplyReady(a, j);
      a' == a.(client := a'.client, applied := a'.applied)
    decreases |a.client.buffered| - j
  {
    if j < |a.client.buffered| {
      if a.client.buffered[j].updateTick > a.client.updateTick {
        AppliesKeepRest(a, j + 1);
      } else {
        AppliesKeepRest(Protocol.ApplyOne(a, j), j);
      }
    }
  }

  // ---------------------------------------------------------------------------------------------
  // The run.

  lemma RunOfStep(cfg: Config, b: ByteSystem, a: Protocol.System, step: Step)
    requires Suitable(cfg.cs) && step.Send? && ServerIs(b, a) && Possible(cfg, b, step)
    ensures RunOf(step.ev, b.runs, a.server, b.server, ClockOf(cfg, b, step), step.own)
  {
    hide Reflects, Relabels, Enumerates, SentOk;
  }

  lemma UpdateTickInTime(a: Protocol.System)
    requires Invariant.Inv(a)
    ensures a.server.tracked.updateTick <= a.server.tick
    ensures forall e <- a.server.world :: Protocol.StampedBy(a.server.world[e], Protocol.Now(a))
  {
  }

  lemma NextSend(cfg: Config, b: ByteSystem, step: Step)
    requires Suitable(cfg.cs) && step.Send? && Possible(cfg, b, step)
    ensures
      var b' := Next(cfg, b, step);
      && b'.server == b.server.(tick := b.now, despawned := [], removed := map[], tracked := step.sent.t)
      && b'.now == b.now + 1 && b'.serverTick == step.serverTick > b.serverTick
      && b'.runs == b.runs[step.serverTick := b.now]
      && b'.history == b.history[step.serverTick := Protocol.SnapshotOf(b.server.world)]
  {
    hide SentOk, Reflects, Enumerates, Protocol.SnapshotOf;
  }

  lemma ClocksAfterRun(b: ByteSystem, b': ByteSystem)
    requires ClocksOk(b) && b'.serverTick > b.serverTick && b'.now == b.now + 1
    requires b'.runs == b.runs[b'.serverTick := b.now] && b'.server.world == b.server.world
    ensures ClocksOk(b') && Later(b.runs, b'.serverTick, b.now)
  {
    hide Protocol.StampedBy;
    forall e <- b.server.world ensures Protocol.StampedBy(b.server.world[e], b.now + 1) {
      StampedLater(b.server.world[e], b.now, b.now + 1);
    }
  }

  /** The server after the run, on both clocks. */
  lemma ServerAfterRun(cfg: Config, b: ByteSystem, a: Protocol.System, step: Step, t: Tracked)
    requires Suitable(cfg.cs) && step.Send? && ServerIs(b, a) && Possible(cfg, b, step)
    requires forall e <- a.server.world :: Protocol.StampedBy(a.server.world[e], Protocol.Now(a))
    requires var runs' := b.runs[step.serverTick := b.now]; step.sent.t == Labelled(runs', t) && InRuns(runs', t)
    requires t.nextIndex < INDEX_SPACE
    ensures
      var s' := a.server.(tick := step.serverTick, despawned := [], removed := map[], tracked := t);
      var a' := a.(server := s', history := a.history[step.serverTick := Protocol.SnapshotOf(a.server.world)]);
      ServerIs(Next(cfg, b, step), a')
  {
    NextSend(cfg, b, step);
    hide Possible, Next;
    ServerIsAfterRun(b, a, Next(cfg, b, step), t);
  }

  lemma ServerIsAfterRun(b: ByteSystem, a: Protocol.System, b': ByteSystem, t: Tracked)
    requires ServerIs(b, a) && b'.serverTick > b.serverTick && b'.now == b.now + 1
    requires b'.runs == b.runs[b'.serverTick := b.now] && InRuns(b'.runs, t) && t.nextIndex < INDEX_SPACE
    requires b'.server == b.server.(tick := b.now, despawned := [], removed := map[], tracked := Labelled(b'.runs, t))
    requires b'.history == b.history[b'.serverTick := Protocol.SnapshotOf(b.server.world)]
    requires forall e <- a.server.world :: Protocol.StampedBy(a.server.world[e], Protocol.Now(a))
    ensures
      var s' := a.server.(tick := b'.serverTick, despawned := [], removed := map[], tracked := t);
      ServerIs(b', a.(server := s', history := a.history[b'.serverTick := Protocol.SnapshotOf(a.server.world)]))
  {
    hide InRuns, Labelled, Relabels, Protocol.StampedBy, Protocol.SnapshotOf, Later;
    ClocksAfterRun(b, b');
    RelabelsAfterRun(b.runs, a.server, b.server, b'.serverTick, b.now, t);
    SameSnapshot(b.runs, a.server, b.server);
    hide ClocksOk;
  }

  lemma RelabelsAfterRun(runs: Runs, a: Protocol.Server, c: Protocol.Server, serverTick: nat, thisRun: nat, t: Tracked)
    requires Relabels(runs, a, c) && Later(runs, serverTick, thisRun) && a.tick < serverTick
    requires forall e <- a.world :: Protocol.StampedBy(a.world[e], a.tick + 1)
    requires forall e <- c.world :: Protocol.StampedBy(c.world[e], thisRun)
    requires InRuns(runs[serverTick := thisRun], t)
    ensures
      var runs' := runs[serverTick := thisRun];
      Relabels(runs', a.(tick := serverTick, despawned := [], removed := map[], tracked := t),
               c.(tick := thisRun, despawned := [], removed := map[], tracked := Labelled(runs', t)))
  {
    hide SameEntry, InRuns, Labelled, Protocol.StampedBy;
    forall e <- a.world ensures SameEntry(runs[serverTick := thisRun], a.world[e], c.world[e]) {
      StampedLater(a.world[e], a.tick + 1, serverTick);
      SameAfterRun(runs, a.world[e], c.world[e], serverTick, thisRun);
    }
  }

  lemma StampedLater(entry: Entry, now: nat, later: nat)
    requires Protocol.StampedBy(entry, now) && now <= later
    ensures Protocol.StampedBy(entry, later)
  {
  }

  lemma SameSnapshot(runs: Runs, a: Protocol.Server, c: Protocol.Server)
    requires Relabels(runs, a, c)
    ensures Protocol.SnapshotOf(a.world) == Protocol.SnapshotOf(c.world)
  {
    forall e <- a.world ensures Values(a.world[e].comps) == Values(c.world[e].comps) {
      assert SameEntry(runs, a.world[e], c.world[e]);
    }
  }

  /** The datagrams of the run are its mutate messages. */
  lemma DatagramsAre(cfg: Config, b: ByteSystem, a: Protocol.System, step: Step)
    requires Suitable(cfg.cs) && step.Send? && ServerIs(b, a) && Possible(cfg, b, step)
    ensures
      var groups := GroupsFor(ProgressOf(cfg, b, step), ClockOf(cfg, b, step));
      && |step.sent.mutations| == |groups|
      && forall k :: 0 <= k < |groups| ==>
           MutateBytes(cfg.cs, cfg.tracked, DatagramAt(cfg, b, step, k).bytes, DatagramAt(cfg, b, step, k).says)
  {
    hide MutateBytes, SentMutation, MessageFor, PlanFor, SentState, SentUpdate, Relabels, Later, RunOf, Served;
    RunOfStep(cfg, b, a, step);
    var pr, clock := ProgressOf(cfg, b, step), ClockOf(cfg, b, step);
    if SendsMutations(pr, clock) {
      forall k | 0 <= k < |step.sent.mutations|
        ensures k < |GroupsFor(pr, clock)| && MutateBytes(cfg.cs, cfg.tracked, step.sent.mutations[k], MessageFor(step.ev, b.server, pr, clock, k))
      {
        SentMutationStandsForRun(cfg.cs, step.ev, b.runs, a.server, b.server, clock, step.own, k);
      }
    }
  }

  lemma NetAfterRun(cfg: Config, b: ByteSystem, a: Protocol.System, step: Step, batch: seq<MutateMsg>)
    requires Suitable(cfg.cs) && step.Send? && ServerIs(b, a) && Possible(cfg, b, step) && NetIs(cfg, b.net, a.net)
    requires
      var (pr, clock) := (ProgressOf(cfg, b, step), ClockOf(cfg, b, step));
      && |batch| == |GroupsFor(pr, clock)|
      && forall k :: 0 <= k < |batch| ==> batch[k] == MessageFor(step.ev, b.server, pr, clock, k)
    ensures NetIs(cfg, Next(cfg, b, step).net, a.net + Protocol.MessageSet(batch))
  {
    hide MutateBytes, MessageFor, GroupsFor, ServerIs, Served, Reflects, Enumerates, SentOk;
    DatagramsAre(cfg, b, a, step);
    var net := b.net + Datagrams(cfg, b, step);
    forall m ensures m in SaidBy(net) <==> m in a.net + Protocol.MessageSet(batch) {
      if m in SaidBy(net) {
        var d :| d in net && d.says == m;
        if d in b.net {
          assert m in SaidBy(b.net);
        }
      }
      if m in a.net {
        var d :| d in b.net && d.says == m;
        assert d in net;
      }
      if k :| 0 <= k < |batch| && batch[k] == m {
        assert DatagramAt(cfg, b, step, k) in net;
      }
    }
  }

  lemma UpdatesAfterRun(cfg: Config, b: ByteSystem, a: Protocol.System, step: Step, update: UpdateMsg)
    requires Suitable(cfg.cs) && step.Send? && ServerIs(b, a) && Possible(cfg, b, step) && UpdatesAre(cfg.cs, b.updates, a.log)
    requires update == RunFor(cfg.cs, step.ev, a.server, b.server, ClockOf(cfg, b, step), step.own).update
    ensures UpdatesAre(cfg.cs, Next(cfg, b, step).updates, if update.IsEmpty() then a.log else a.log + [update])
  {
    hide UpdateBytes, SentUpdate, SentState, PlanFor, Relabels, Later, RunOf, RunFor, Served, Reflects, Enumerates;
    RunOfStep(cfg, b, a, step);
    SentUpdateStandsForRun(cfg.cs, step.ev, b.runs, a.server, b.server, ClockOf(cfg, b, step), step.own);
    assert step.sent.update == SentUpdate(ProgressOf(cfg, b, step), ClockOf(cfg, b, step));
  }

  /** What the run of the protocol is, in step with the bytes. */
  lemma RunIsReplicated(cfg: Config, b: ByteSystem, a: Protocol.System, step: Step)
    requires Suitable(cfg.cs) && step.Send? && ServerIs(b, a) && Invariant.Inv(a)
    requires Possible(cfg, b, step) && Assumed(cfg, b, a, step)
    ensures
      var (pr, clock) := (ProgressOf(cfg, b, step), ClockOf(cfg, b, step));
      var run := RunFor(cfg.cs, step.ev, a.server, b.server, clock, step.own);
      var t, runs' := run.tracked.(filter := Updated(run.tracked.filter)), b.runs[step.serverTick := b.now];
      && step.sent.t == Labelled(runs', t) && InRuns(runs', t) && t.nextIndex < INDEX_SPACE
      && |run.batch| == |GroupsFor(pr, clock)|
      && (forall k :: 0 <= k < |run.batch| ==> run.batch[k] == MessageFor(step.ev, b.server, pr, clock, k))
      && Protocol.Covers(GroupsFor(pr, clock), run.mutations)
  {
    hide RunOf, Relabels, InRuns, Labelled, Updated, MessageFor, Served, GroupsFor, PlanFor, SentUpdate, Later, Protocol.Covers;
    hide Protocol.CollectUpdate, Protocol.CollectMutations, Protocol.BumpBaselines, Protocol.DespawnPhase, Reflects, Enumerates;
    var clock := ClockOf(cfg, b, step);
    RunOfStep(cfg, b, a, step);
    UpdateTickInTime(a);
    SentStateIsRun(cfg.cs, step.ev, b.runs, a.server, b.server, clock, step.own);
    GroupsCover(cfg.cs, step.ev, b.runs, a.server, b.server, clock, step.own);
    var run := RunFor(cfg.cs, step.ev, a.server, b.server, clock, step.own);
    InRunsFilter(b.runs[step.serverTick := b.now], run.tracked);
    IndexInSpace(a.server, step.serverTick, step.timestamp, GroupsFor(ProgressOf(cfg, b, step), clock));
  }

  lemma IndexInSpace(s: Protocol.Server, tick: nat, timestamp: nat, groups: seq<seq<Entity>>)
    requires s.tracked.nextIndex < INDEX_SPACE
    ensures Protocol.Replicate(s, tick, timestamp, groups).tracked.nextIndex < INDEX_SPACE
  {
    hide Protocol.CollectUpdate, Protocol.CollectMutations, Protocol.BumpBaselines;
    var t1 := Protocol.DespawnPhase(s.tracked, s.despawned).0;
    KeptTick(s.tracked, s.despawned);
    SplitIsRegistered(Collected(s, tick), tick, timestamp, Protocol.CollectMutations(s, t1), groups);
    IndicesAreConsecutive(Collected(s, tick), tick, timestamp, groups);
  }

  lemma SameFilter(b: ByteSystem, a: Protocol.System)
    requires ServerIs(b, a)
    ensures a.server.tracked.filter == b.server.tracked.filter && a.server.despawned == b.server.despawned
  {
  }

  lemma SimulatedSend(cfg: Config, b: ByteSystem, a: Protocol.System, step: Step)
    requires Suitable(cfg.cs) && step.Send? && ServerIs(b, a) && ChannelsAre(cfg, b, a) && Invariant.Inv(a)
    requires Possible(cfg, b, step) && Assumed(cfg, b, a, step)
    ensures
      var p := Mirror(cfg, b, step).value;
      && Protocol.Allowed(a, p, true)
      && ServerIs(Next(cfg, b, step), Protocol.Next(a, p)) && ChannelsAre(cfg, Next(cfg, b, step), Protocol.Next(a, p))
  {
    hide RunOf, Relabels, InRuns, Labelled, Updated, MessageFor, Served, GroupsFor, SentOk, Later, Protocol.Covers, UpdatesAre;
    hide AllRepresent, Wrapped, ClocksOk, Lost, Protocol.Replicate, Protocol.StampedBy, Reflects, Enumerates, NetIs, Invariant.Inv, Protocol.IndicesFresh, Datagrams;
    var run := RunFor(cfg.cs, step.ev, a.server, b.server, ClockOf(cfg, b, step), step.own);
    RunIsReplicated(cfg, b, a, step);
    SameFilter(b, a);
    UpdateTickInTime(a);
    ServerAfterRun(cfg, b, a, step, run.tracked.(filter := Updated(run.tracked.filter)));
    UpdatesAfterRun(cfg, b, a, step, run.update);
    NetAfterRun(cfg, b, a, step, run.batch);
  }

  // ---------------------------------------------------------------------------------------------
  // All steps.

  /** The protocol after its step, if there is one. */
  ghost function Mirrored(cfg: Config, b: ByteSystem, a: Protocol.System, step: Step): Protocol.System {
    match Mirror(cfg, b, step)
    case None => a
    case Some(p) =>
      if (p.FrameStep? ==> a.received + p.updates <= |a.log|) && (p.ReceiveAck? ==> p.i < |a.acks|)
         && (p.Put? ==> p.e in a.server.world)
      then Protocol.Next(a, p)
      else a
  }

  /** The step `p` of the protocol does what `step` does to the bytes. */
  ghost predicate Follows(cfg: Config, b: ByteSystem, a: Protocol.System, step: Step)
    requires Suitable(cfg.cs) && Possible(cfg, b, step)
  {
    && (Mirror(cfg, b, step).Some? ==> Protocol.Allowed(a, Mirror(cfg, b, step).value, true))
    && ServerIs(Next(cfg, b, step), Mirrored(cfg, b, a, step))
    && ChannelsAre(cfg, Next(cfg, b, step), Mirrored(cfg, b, a, step))
  }

  lemma SimulatedElapse(cfg: Config, b: ByteSystem, a: Protocol.System, step: Step)
    requires Suitable(cfg.cs) && step.Elapse? && ServerIs(b, a) && ChannelsAre(cfg, b, a)
    ensures Follows(cfg, b, a, step)
  {
    hide Relabels, Protocol.StampedBy, UpdatesAre, NetIs, AllRepresent, Wrapped;
    forall e <- b.server.world ensures Protocol.StampedBy(b.server.world[e], b.now + step.n) {
      StampedLater(b.server.world[e], b.now, b.now + step.n);
    }
  }

  predicate OfWorld(step: Step) {
    step.Start? || step.Stop? || step.Put? || step.Remove? || step.SetVisible? || step.Cleanup?
  }

  lemma WorldKeepsChannels(cfg: Config, b: ByteSystem, a: Protocol.System, step: Step)
    requires Suitable(cfg.cs) && ChannelsAre(cfg, b, a) && Possible(cfg, b, step) && OfWorld(step)
    requires Protocol.Allowed(a, Mirror(cfg, b, step).value, true)
    ensures ChannelsAre(cfg, Next(cfg, b, step), Protocol.Next(a, Mirror(cfg, b, step).value))
  {
    hide UpdatesAre, NetIs, AllRepresent, Wrapped;
  }

  lemma SimulatedServer(cfg: Config, b: ByteSystem, a: Protocol.System, step: Step)
    requires Suitable(cfg.cs) && ServerIs(b, a) && Possible(cfg, b, step) && Assumed(cfg, b, a, step) && OfWorld(step)
    ensures
      && Mirror(cfg, b, step).Some?
      && var p := Mirror(cfg, b, step).value;
         Protocol.Allowed(a, p, true) && ServerIs(Next(cfg, b, step), Protocol.Next(a, p))
  {
    hide ServerIs, Assumed, Possible, Next, Protocol.Next, Protocol.Allowed;
    match step
    case Start(_, _) => SimulatedStart(cfg, b, a, step);
    case Put(_, _, _) => SimulatedPut(cfg, b, a, step);
    case Remove(_, _) => SimulatedRemove(cfg, b, a, step);
    case Cleanup(_) => SimulatedCleanup(cfg, b, a, step);
    case _ => SimulatedOther(cfg, b, a, step);
  }

  /** Steps that neither send nor receive. */
  lemma SimulatedWorld(cfg: Config, b: ByteSystem, a: Protocol.System, step: Step)
    requires Suitable(cfg.cs) && ServerIs(b, a) && ChannelsAre(cfg, b, a) && Possible(cfg, b, step) && Assumed(cfg, b, a, step)
    requires OfWorld(step)
    ensures Follows(cfg, b, a, step)
  {
    hide *;
    SimulatedServer(cfg, b, a, step);
    WorldKeepsChannels(cfg, b, a, step);
    MirroredIs(cfg, b, a, step);
    FollowsIs(cfg, b, a, step);
  }

  lemma FollowsIs(cfg: Config, b: ByteSystem, a: Protocol.System, step: Step)
    requires Suitable(cfg.cs) && Possible(cfg, b, step)
    requires Mirror(cfg, b, step).Some? ==> Protocol.Allowed(a, Mirror(cfg, b, step).value, true)
    requires ServerIs(Next(cfg, b, step), Mirrored(cfg, b, a, step))
    requires ChannelsAre(cfg, Next(cfg, b, step), Mirrored(cfg, b, a, step))
    ensures Follows(cfg, b, a, step)
  {
    hide ServerIs, ChannelsAre, Mirrored, Mirror, Next, Possible, Protocol.Allowed;
  }

  lemma SimulatedLose(cfg: Config, b: ByteSystem, a: Protocol.System, step: Step)
    requires Suitable(cfg.cs) && step.Lose? && ServerIs(b, a) && ChannelsAre(cfg, b, a)
    ensures Follows(cfg, b, a, step)
  {
    hide Relabels, Later, Protocol.StampedBy, UpdatesAre, NetIs, AllRepresent, Wrapped;
    SimulatedLoss(cfg, b, a, step);
    MirroredIs(cfg, b, a, step);
  }

  lemma StepFollowed(cfg: Config, b: ByteSystem, a: Protocol.System, step: Step)
    requires Suitable(cfg.cs) && Simulates(cfg, b, a) && Possible(cfg, b, step) && Assumed(cfg, b, a, step)
    ensures Follows(cfg, b, a, step)
  {
    hide ServerIs, ChannelsAre, Assumed, Possible, Next, Protocol.Next, Protocol.Allowed, Invariant.Inv, Mirrored;
    match step
    case Elapse(_) => SimulatedElapse(cfg, b, a, step);
    case Lose(_) => SimulatedLose(cfg, b, a, step);
    case Send(_, _, _, _, _) =>
      SimulatedSend(cfg, b, a, step);
      MirroredIs(cfg, b, a, step);
    case Frame(_, _) =>
      SimulatedFrame(cfg, b, a, step);
      MirroredIs(cfg, b, a, step);
    case ReceiveAck(_) =>
      SimulatedAck(cfg, b, a, step);
      MirroredIs(cfg, b, a, step);
    case _ => SimulatedWorld(cfg, b, a, step);
  }

  lemma StepSimulated(cfg: Config, b: ByteSystem, a: Protocol.System, step: Step)
    requires Suitable(cfg.cs) && Simulates(cfg, b, a) && Possible(cfg, b, step) && Assumed(cfg, b, a, step)
    ensures Mirror(cfg, b, step).Some? ==> Protocol.Allowed(a, Mirror(cfg, b, step).value, true)
    ensures Simulates(cfg, Next(cfg, b, step), Mirrored(cfg, b, a, step))
  {
    hide ServerIs, ChannelsAre, Assumed, Possible, Next, Protocol.Next, Protocol.Allowed, Invariant.Inv, Mirrored, Mirror;
    StepFollowed(cfg, b, a, step);
    MirroredIs(cfg, b, a, step);
    if Mirror(cfg, b, step).Some? {
      Theorems.StepOk(a, Mirror(cfg, b, step).value);
    }
  }

  // ---------------------------------------------------------------------------------------------
  // Runs.

  /** `steps` is a run of the bytes, with the protocol in step, that respects the assumptions. */
  ghost predicate Reaches(cfg: Config, b: ByteSystem, a: Protocol.System, steps: seq<Step>, end: ByteSystem, a': Protocol.System)
    requires Suitable(cfg.cs)
    decreases |steps|
  {
    if steps == [] then end == b && a' == a
    else
      && Possible(cfg, b, steps[0]) && Assumed(cfg, b, a, steps[0])
      && Reaches(cfg, Next(cfg, b, steps[0]), Mirrored(cfg, b, a, steps[0]), steps[1..], end, a')
  }

  /** A server that may have been running for a while, and a client that has just started to replicate from it. */
  ghost predicate Init(b: ByteSystem) {
    && (exists policy :: b.server.tracked == Fresh(policy))
    && (forall e <- b.server.world :: Protocol.StampedBy(b.server.world[e], b.now))
    && b.server.tick < b.now && b.runs == map[b.serverTick := b.server.tick]
    && b.client == ClientState(map[], 0, [], []) && b.updates == [] && b.received == 0 && b.net == {} && b.history == map[]
  }

  /** The protocol that starts with the bytes. */
  function Companion(b: ByteSystem): Protocol.System {
    var s := b.server;
    var world := map e | e in s.world :: EntryAt(b.runs, s.world[e], b.serverTick);
    Protocol.System(Protocol.Server(world, b.serverTick, s.despawned, s.removed, s.tracked), Receiver.Client(map[], 0, []),
                    [], 0, {}, [], map[], {}, {}, {})
  }

  lemma StartsTogether(cfg: Config, b: ByteSystem)
    requires Suitable(cfg.cs) && Init(b)
    ensures Protocol.Init(Companion(b)) && Simulates(cfg, b, Companion(b))
  {
    hide SameEntry, EntryAt, Protocol.StampedBy;
    var a := Companion(b);
    assert Monotone(b.runs);
    forall e <- b.server.world
      ensures SameEntry(b.runs, a.server.world[e], b.server.world[e]) && Protocol.StampedBy(a.server.world[e], Protocol.Now(a))
    {
      EntryIsSame(b.runs, b.server.world[e], b.serverTick);
    }
    assert Labelled(b.runs, a.server.tracked) == b.server.tracked;
    assert Wrapped(map[]) == map[];
    Theorems.InitOk(a);
  }

  /** Every run of the bytes is a run of the protocol. */
  lemma {:induction false} RunSimulated(cfg: Config, b: ByteSystem, a: Protocol.System, steps: seq<Step>, end: ByteSystem, a': Protocol.System)
    returns (protocol: seq<Protocol.Step>)
    requires Suitable(cfg.cs) && Simulates(cfg, b, a) && Reaches(cfg, b, a, steps, end, a')
    ensures Protocol.Reaches(a, protocol, a', true) && Simulates(cfg, end, a')
    decreases |steps|
  {
    hide Simulates, Possible, Assumed, Next, Protocol.Next, Protocol.Allowed, Mirror;
    protocol := [];
    if steps != [] {
      StepSimulated(cfg, b, a, steps[0]);
      var rest := RunSimulated(cfg, Next(cfg, b, steps[0]), Mirrored(cfg, b, a, steps[0]), steps[1..], end, a');
      protocol := rest;
      if Mirror(cfg, b, steps[0]).Some? {
        protocol := [Mirror(cfg, b, steps[0]).value] + rest;
        assert protocol[1..] == rest;
        MirroredIs(cfg, b, a, steps[0]);
      } else {
        MirroredIs(cfg, b, a, steps[0]);
      }
    }
  }

  lemma MirroredIs(cfg: Config, b: ByteSystem, a: Protocol.System, step: Step)
    requires Mirror(cfg, b, step).Some? ==> Protocol.Allowed(a, Mirror(cfg, b, step).value, true)
    ensures match Mirror(cfg, b, step)
      case None => Mirrored(cfg, b, a, step) == a
      case Some(p) =>
        && (p.FrameStep? ==> a.received + p.updates <= |a.log|) && (p.ReceiveAck? ==> p.i < |a.acks|)
        && (p.Put? ==> p.e in a.server.world) && Mirrored(cfg, b, a, step) == Protocol.Next(a, p)
  {
    hide Protocol.Next, Mirror;
  }

  ghost predicate Reachable(cfg: Config, end: ByteSystem)
    requires Suitable(cfg.cs)
  {
    exists b, steps, a :: Init(b) && Reaches(cfg, b, Companion(b), steps, end, a)
  }

  /** In every reachable state the bytes stand for a reachable state of the protocol. */
  lemma ReachableSimulates(cfg: Config, end: ByteSystem) returns (a: Protocol.System)
    requires Suitable(cfg.cs) && Reachable(cfg, end)
    ensures Theorems.Reachable(a) && Simulates(cfg, end, a)
  {
    hide Simulates, Init, Protocol.Init;
    var b, steps, a' :| Init(b) && Reaches(cfg, b, Companion(b), steps, end, a');
    StartsTogether(cfg, b);
    var protocol := RunSimulated(cfg, b, Companion(b), steps, end, a');
    assert Protocol.Init(Companion(b)) && Protocol.Reaches(Companion(b), protocol, a', true);
    a := a';
  }

  /**
   Per-entity snapshot, for a client that parses bytes: every entity has exactly the components and values that the
   server's entity had in some run, whose tick, as it was sent, is the confirmed one.
   */
  lemma EveryEntityIsASnapshot(cfg: Config, b: ByteSystem, e: Entity)
    requires Suitable(cfg.cs) && Reachable(cfg, b) && e in b.client.entities
    ensures exists k ::
      k in b.history && e in b.history[k] && b.client.entities[e] == Receiver.ClientEntity(WireTick(k), b.history[k][e])
  {
    hide Reachable, Relabels, ClocksOk, Invariant.Inv, WireTick, UpdatesAre, NetIs, AllRepresent;
    var a := ReachableSimulates(cfg, b);
    Theorems.EveryEntityIsASnapshot(a, e);
    var k := a.client.entities[e].confirmed;
    assert b.client.entities[e] == Receiver.ClientEntity(WireTick(k), b.history[k][e]);
  }

  /** Within the assumptions, every message parses: no frame fails. */
  lemma FramesSucceed(cfg: Config, b: ByteSystem, a: Protocol.System, step: Step)
    requires Suitable(cfg.cs) && Simulates(cfg, b, a) && step.Frame? && Possible(cfg, b, step) && Assumed(cfg, b, a, step)
    ensures ClientAfter(cfg, b, step.updates, step.batch).Some?
  {
    hide ServerIs, ChannelsAre;
    SimulatedFrame(cfg, b, a, step);
  }
}
