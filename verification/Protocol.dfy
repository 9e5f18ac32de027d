/**
 The replication protocol as a transition system: a server world, what the server tracks about one client,
 that client, and the network between them.

 Update messages travel on a reliable ordered channel, mutate messages on a channel that may lose, duplicate
 and reorder, acknowledgements on a reliable channel that is not even assumed to be ordered.
 */
module Protocol {
  import opened Domain
  import opened Visibility
  import opened Changes
  import opened Messages
  import opened Receiver
  import opened Tracker

  type World = map<Entity, Entry>

  /** The components of all replicated entities at some tick. */
  type Snapshot = map<Entity, Comps>

  /** `despawned` and `removed` hold the events buffered since the last replication run at `tick`. */
  datatype Server = Server(
    world: World,
    tick: nat,
    despawned: seq<Entity>,
    removed: map<Entity, set<FnsId>>,
    tracked: Tracked)

  /**
   `log` is every update message sent, of which the client has received the first `received`; `net` holds
   the mutate messages that may still be delivered. The last four fields are history: the world at every
   replication run, the mutate messages of the last run, those the client has applied, and the entities
   that were visible to the client in the last run.
   */
  datatype System = System(
    server: Server,
    client: Client,
    log: seq<UpdateMsg>,
    received: nat,
    net: set<MutateMsg>,
    acks: seq<nat>,
    history: map<nat, Snapshot>,
    lastBatch: set<MutateMsg>,
    applied: set<MutateMsg>,
    shown: set<Entity>)

  function SnapshotOf(w: World): Snapshot {
    map e | e in w :: Values(w[e].comps)
  }

  // ---------------------------------------------------------------------------------------------
  // The replication run.

  /** Despawned entities in order: reported if visible, and forgotten. */
  function DespawnEach(t: Tracked, es: seq<Entity>): (Tracked, set<Entity>) {
    if es == [] then (t, {}) else
      var (t', out) := DespawnEach(t, es[..|es| - 1]);
      var e := es[|es| - 1];
      (WithoutEntity(t', e), if IsVisible(t'.filter, e) then out + {e} else out)
  }

  function DespawnPhase(t: Tracked, es: seq<Entity>): (Tracked, set<Entity>) {
    var (t', out) := DespawnEach(t, es);
    (WithoutLost(t'), out + Lost(t'.filter))
  }

  /** Components with a removal event that the entity does not have any more. */
  function RemovalsOf(s: Server, e: Entity): set<FnsId> {
    if e in s.world && e in s.removed then s.removed[e] - s.world[e].comps.Keys else {}
  }

  function PerspectiveOf(s: Server, t: Tracked, e: Entity): Perspective {
    Perspective(
      StateOf(t.filter, e),
      if e in t.baseline then Some(t.baseline[e]) else None,
      RemovalsOf(s, e) != {},
      s.tick)
  }

  function CollectUpdate(s: Server, t: Tracked, despawns: set<Entity>, tick: nat): UpdateMsg {
    UpdateMsg(
      tick,
      despawns,
      map e | e in s.world && RemovalsOf(s, e) != {} && IsVisible(t.filter, e) :: RemovalsOf(s, e),
      map e | e in s.world && UpdateItem(s.world[e], PerspectiveOf(s, t, e)).Some? ::
        UpdateItem(s.world[e], PerspectiveOf(s, t, e)).value)
  }

  function CollectMutations(s: Server, t: Tracked): map<Entity, Comps> {
    map e | e in s.world && MutateItem(s.world[e], PerspectiveOf(s, t, e)).Some? ::
      MutateItem(s.world[e], PerspectiveOf(s, t, e)).value
  }

  function BumpBaselines(s: Server, t: Tracked, tick: nat): map<Entity, nat> {
    t.baseline + map e | e in s.world && Structural(s.world[e], PerspectiveOf(s, t, e)) :: tick
  }

  function Restrict(mutations: map<Entity, Comps>, es: seq<Entity>): map<Entity, Comps> {
    map e | e in mutations && e in es :: mutations[e]
  }

  /** One mutate message per group of entities, each registered under its own index. */
  function Split(t: Tracked, tick: nat, timestamp: nat, mutations: map<Entity, Comps>, groups: seq<seq<Entity>>)
    : (Tracked, seq<MutateMsg>)
  {
    if groups == [] then (t, []) else
      var (t', ms) := Split(t, tick, timestamp, mutations, groups[..|groups| - 1]);
      var es := groups[|groups| - 1];
      (Registered(t', MutateInfo(tick, timestamp, es)),
       ms + [MutateMsg(t.updateTick, tick, t'.nextIndex, Restrict(mutations, es))])
  }

  datatype Run = Run(update: UpdateMsg, mutations: map<Entity, Comps>, batch: seq<MutateMsg>, tracked: Tracked)

  /** Everything `send_replication` produces for this client, before visibility is updated. */
  function Replicate(s: Server, tick: nat, timestamp: nat, groups: seq<seq<Entity>>): Run {
    var (t1, despawns) := DespawnPhase(s.tracked, s.despawned);
    var update := CollectUpdate(s, t1, despawns, tick);
    var mutations := CollectMutations(s, t1);
    var t2 := t1.(baseline := BumpBaselines(s, t1, tick),
                  updateTick := if update.IsEmpty() then t1.updateTick else tick);
    var (t3, batch) := Split(t2, tick, timestamp, mutations, groups);
    Run(update, mutations, batch, t3)
  }

  function MessageSet(ms: seq<MutateMsg>): set<MutateMsg> {
    set m | m in ms
  }

  /** The system after a run at `tick` has produced `run`. */
  function Deliver(sys: System, tick: nat, run: Run): System {
    var s := sys.server;
    sys.(
      server := s.(tick := tick, despawned := [], removed := map[],
                   tracked := run.tracked.(filter := Updated(run.tracked.filter))),
      log := if run.update.IsEmpty() then sys.log else sys.log + [run.update],
      net := sys.net + MessageSet(run.batch),
      history := sys.history[tick := SnapshotOf(s.world)],
      lastBatch := MessageSet(run.batch),
      shown := set e | e in s.world && IsVisible(run.tracked.filter, e))
  }

  function Send(sys: System, tick: nat, timestamp: nat, groups: seq<seq<Entity>>): System {
    Deliver(sys, tick, Replicate(sys.server, tick, timestamp, groups))
  }

  // ---------------------------------------------------------------------------------------------
  // The client frame, in the order of `apply_replication`.

  function PopUpdate(sys: System): System
    requires sys.received < |sys.log|
  {
    sys.(client := ReceiveUpdate(sys.client, sys.log[sys.received]), received := sys.received + 1)
  }

  function PopUpdates(sys: System, n: nat): System
    requires sys.received + n <= |sys.log|
    decreases n
  {
    if n == 0 then sys else PopUpdates(PopUpdate(sys), n - 1)
  }

  /** The acknowledgement is queued as soon as the message is buffered. */
  function BufferOne(sys: System, m: MutateMsg): System {
    sys.(client := Buffer(sys.client, m), acks := sys.acks + [m.index])
  }

  function BufferAll(sys: System, ms: seq<MutateMsg>): System
    decreases |ms|
  {
    if ms == [] then sys else BufferAll(BufferOne(sys, ms[0]), ms[1..])
  }

  function ApplyOne(sys: System, j: nat): System
    requires j < |sys.client.buffered|
  {
    sys.(client := ApplyAt(sys.client, j), applied := sys.applied + {sys.client.buffered[j]})
  }

  /** The retain loop from position `j` on. */
  function ApplyReady(sys: System, j: nat): System
    requires j <= |sys.client.buffered|
    decreases |sys.client.buffered| - j
  {
    if j == |sys.client.buffered| then sys
    else if sys.client.buffered[j].updateTick > sys.client.updateTick then ApplyReady(sys, j + 1)
    else ApplyReady(ApplyOne(sys, j), j)
  }

  function Frame(sys: System, updates: nat, batch: seq<MutateMsg>): System
    requires sys.received + updates <= |sys.log|
  {
    ApplyReady(BufferAll(PopUpdates(sys, updates), batch), 0)
  }

  // ---------------------------------------------------------------------------------------------
  // Steps.

  datatype Step =
    | Start(e: Entity, entry: Entry)               // the marker is inserted
    | Stop(e: Entity)                              // the marker is removed or the entity is despawned
    | Put(e: Entity, c: FnsId, v: Value)           // a component is inserted or mutated
    | Remove(e: Entity, c: FnsId)                  // a component is removed
    | SetVisible(e: Entity, visible: bool)
    | SendStep(tick: nat, timestamp: nat, groups: seq<seq<Entity>>)
    | FrameStep(updates: nat, batch: seq<MutateMsg>)
    | Lose(m: MutateMsg)
    | ReceiveAck(i: nat)
    | Cleanup(minTimestamp: nat)

  /** The stamp of a change that happens now: the earliest run that can see it. */
  function Now(sys: System): nat {
    sys.server.tick + 1
  }

  /** No stamp lies in the future. A component may be older than the marker. */
  predicate StampedBy(entry: Entry, now: nat) {
    entry.marker <= now && forall c <- entry.comps :: entry.comps[c].added <= now && entry.comps[c].changed <= now
  }

  function PutComponent(entry: Entry, c: FnsId, v: Value, now: nat): Entry {
    entry.(comps := entry.comps[c :=
      if c in entry.comps then entry.comps[c].(value := v, changed := now) else Stamped(v, now, now)])
  }

  function RemovalEvent(removed: map<Entity, set<FnsId>>, e: Entity, c: FnsId): map<Entity, set<FnsId>> {
    removed[e := (if e in removed then removed[e] else {}) + {c}]
  }

  /** The groups cover the mutated entities. */
  predicate Covers(groups: seq<seq<Entity>>, mutations: map<Entity, Comps>) {
    && (forall es <- groups, e <- es :: e in mutations)
    && (forall e <- mutations :: exists es <- groups :: e in es)
  }

  /** No index that is about to be used is still unresolved anywhere. */
  ghost predicate IndicesFresh(sys: System, batch: seq<MutateMsg>) {
    && (forall m <- batch :: m.index !in sys.server.tracked.mutations && m.index !in sys.acks)
    && (forall m <- batch, m' <- sys.net :: m.index != m'.index)
    && (forall m <- batch, m' <- sys.client.buffered :: m.index != m'.index)
    && (forall i, j :: 0 <= i < j < |batch| ==> batch[i].index != batch[j].index)
  }

  ghost predicate Resolvable(sys: System, groups: seq<seq<Entity>>, run: Run) {
    Covers(groups, run.mutations) && IndicesFresh(sys, run.batch)
  }

  /** A blacklisted entity must not be hidden and despawned between two runs. */
  predicate NoHiddenDespawn(s: Server) {
    s.tracked.filter.Blacklist? ==> forall e <- s.despawned :: e !in Lost(s.tracked.filter)
  }

  /** What the environment may do next. `ackApplied` is the assumption that acks come after application. */
  ghost predicate Allowed(sys: System, step: Step, ackApplied: bool) {
    var s := sys.server;
    match step
    case Start(e, entry) => e !in s.world && entry.marker == Now(sys) && StampedBy(entry, Now(sys))
    case Stop(e) => e in s.world
    case Put(e, c, v) => e in s.world
    case Remove(e, c) => true
    case SetVisible(e, visible) =>
      visible && s.tracked.filter.Whitelist? ==> e !in Lost(s.tracked.filter)
    case SendStep(tick, timestamp, groups) =>
      tick > s.tick && NoHiddenDespawn(s) && Resolvable(sys, groups, Replicate(s, tick, timestamp, groups))
    case FrameStep(updates, batch) =>
      sys.received + updates <= |sys.log| && forall m <- batch :: m in sys.net
    case Lose(m) => true
    case ReceiveAck(i) =>
      && i < |sys.acks|
      && (ackApplied ==> forall m <- sys.client.buffered :: m.index != sys.acks[i])
    case Cleanup(_) => true
  }

  function Next(sys: System, step: Step): System
    requires step.FrameStep? ==> sys.received + step.updates <= |sys.log|
    requires step.ReceiveAck? ==> step.i < |sys.acks|
    requires step.Put? ==> step.e in sys.server.world
  {
    var s := sys.server;
    match step
    case Start(e, entry) => sys.(server := s.(world := s.world[e := entry]))
    case Stop(e) => sys.(server := s.(world := s.world - {e}, despawned := s.despawned + [e]))
    case Put(e, c, v) => sys.(server := s.(world := s.world[e := PutComponent(s.world[e], c, v, Now(sys))]))
    case Remove(e, c) =>
      sys.(server := s.(
        world := if e in s.world then s.world[e := s.world[e].(comps := s.world[e].comps - {c})] else s.world,
        removed := RemovalEvent(s.removed, e, c)))
    case SetVisible(e, visible) =>
      sys.(server := s.(tracked := s.tracked.(filter := WithVisibility(s.tracked.filter, e, visible))))
    case SendStep(tick, timestamp, groups) => Send(sys, tick, timestamp, groups)
    case FrameStep(updates, batch) => Frame(sys, updates, batch)
    case Lose(m) => sys.(net := sys.net - {m})
    case ReceiveAck(i) =>
      sys.(server := s.(tracked := Acked(s.tracked, sys.acks[i])), acks := sys.acks[..i] + sys.acks[i + 1..])
    case Cleanup(minTimestamp) => sys.(server := s.(tracked := CleanedUp(s.tracked, minTimestamp)))
  }

  /** A client has just started replicating from a server that may have been running for a while. */
  ghost predicate Init(sys: System) {
    && (exists policy :: sys.server.tracked == Fresh(policy))
    && (forall e <- sys.server.world :: StampedBy(sys.server.world[e], Now(sys)))
    && sys.client == Client(map[], 0, [])
    && sys.log == [] && sys.received == 0 && sys.net == {} && sys.acks == []
    && sys.history == map[] && sys.lastBatch == {} && sys.applied == {} && sys.shown == {}
  }

  /** `steps` is a run from `sys` to `end` that respects the environment assumptions. */
  ghost predicate Reaches(sys: System, steps: seq<Step>, end: System, ackApplied: bool)
    decreases |steps|
  {
    if steps == [] then end == sys
    else Allowed(sys, steps[0], ackApplied) && Reaches(Next(sys, steps[0]), steps[1..], end, ackApplied)
  }
}
