/** Why the environment assumptions are needed: what happens without them. */
module Necessity {
  import opened Domain
  import opened Visibility
  import opened Changes
  import opened Messages
  import opened Receiver
  import opened Tracker
  import opened Protocol
  import opened Invariant
  import SendSteps

  // ---------------------------------------------------------------------------------------------
  // Acknowledging a message that is only buffered.
  //
  // The update message that announces `f` is delayed while the mutate message with the new value of component `c`
  // of `e` is buffered behind it and acknowledged. Then component `d` is inserted. The update message with `d` leaves
  // out `c`, because the server takes its value for known, and makes the buffered message outdated: it is dropped.

  /** The two entities, the component of `e` with its first and its later value, and the component that is inserted. */
  datatype Scene = Scene(e: Entity, f: Entity, c: FnsId, c0: Value, c1: Value, d: FnsId, v: Value)

  ghost predicate Proper(x: Scene) {
    x.e != x.f && x.c0 != x.c1 && x.d != x.c
  }

  function Spawned(x: Scene): Entry { Entry(1, map[x.c := Stamped(x.c0, 1, 1)]) }

  function Mutated(x: Scene): Entry { Entry(1, map[x.c := Stamped(x.c1, 1, 2)]) }

  const Empty: Entry := Entry(2, map[])

  function CompsOf(x: Scene, v: Value): Comps { map[x.c := v] }

  function Snapshot1(x: Scene): Snapshot { map[x.e := CompsOf(x, x.c0)] }

  function Snapshot2(x: Scene): Snapshot { map[x.e := CompsOf(x, x.c1), x.f := map[]] }

  function Update1(x: Scene): UpdateMsg { UpdateMsg(1, {}, map[], map[x.e := CompsOf(x, x.c0)]) }

  function Update2(x: Scene): UpdateMsg { UpdateMsg(2, {}, map[], map[x.f := map[]]) }

  function OnlyC(x: Scene): MutateMsg { MutateMsg(2, 2, 0, map[x.e := map[x.c := x.c1]]) }

  function ServerAt(world: World, tick: nat, tracked: Tracked): Server {
    Server(world, tick, [], map[], tracked)
  }

  function Replicas1(x: Scene): Replica {
    map[x.e := ClientEntity(1, CompsOf(x, x.c0))]
  }

  function World1(x: Scene): World { map[x.e := Spawned(x)] }

  function World2(x: Scene): World { map[x.e := Mutated(x), x.f := Empty] }

  function Track1(x: Scene): Tracked { Tracked(map[x.e := 1], All, 1, map[], 0) }

  function Info(x: Scene, tick: nat): MutateInfo { MutateInfo(tick, 0, [x.e]) }

  function Track2(x: Scene): Tracked { Tracked(map[x.e := 1, x.f := 2], All, 2, map[0 := Info(x, 2)], 1) }

  function Track3(x: Scene): Tracked { Tracked(map[x.e := 2, x.f := 2], All, 2, map[], 1) }

  const Sys0: System :=
    System(ServerAt(map[], 0, Fresh(PolicyAll)), Client(map[], 0, []), [], 0, {}, [], map[], {}, {}, {})

  function Sys1(x: Scene): System { Sys0.(server := ServerAt(World1(x), 0, Fresh(PolicyAll))) }

  function Sys2(x: Scene): System {
    System(ServerAt(World1(x), 1, Track1(x)), Client(map[], 0, []), [Update1(x)], 0, {}, [],
           map[1 := Snapshot1(x)], {}, {}, {x.e})
  }

  function Sys3(x: Scene): System { Sys2(x).(client := Client(Replicas1(x), 1, []), received := 1) }

  function Sys4(x: Scene): System {
    Sys3(x).(server := ServerAt(map[x.e := Spawned(x), x.f := Empty], 1, Track1(x)))
  }

  function Sys5(x: Scene): System { Sys3(x).(server := ServerAt(World2(x), 1, Track1(x))) }

  function Sys6(x: Scene): System {
    System(ServerAt(World2(x), 2, Track2(x)), Client(Replicas1(x), 1, []), [Update1(x), Update2(x)], 1, {OnlyC(x)}, [],
           map[1 := Snapshot1(x), 2 := Snapshot2(x)], {OnlyC(x)}, {}, {x.e, x.f})
  }

  function Sys7(x: Scene): System { Sys6(x).(client := Client(Replicas1(x), 1, [OnlyC(x)]), acks := [0]) }

  function Sys8(x: Scene): System { Sys7(x).(server := ServerAt(World2(x), 2, Track3(x)), acks := []) }

  function Inserted(x: Scene): Entry { Entry(1, map[x.c := Stamped(x.c1, 1, 2), x.d := Stamped(x.v, 3, 3)]) }

  function World3(x: Scene): World { map[x.e := Inserted(x), x.f := Empty] }

  /** What the server has at tick 3, and what the client will have then. */
  function Now3(x: Scene): Comps { map[x.c := x.c1, x.d := x.v] }

  function Stale3(x: Scene): Comps { map[x.c := x.c0, x.d := x.v] }

  function Snapshot3(x: Scene): Snapshot { map[x.e := Now3(x), x.f := map[]] }

  function Update3(x: Scene): UpdateMsg { UpdateMsg(3, {}, map[], map[x.e := map[x.d := x.v]]) }

  function Track4(x: Scene): Tracked { Tracked(map[x.e := 3, x.f := 2], All, 3, map[], 1) }

  function Replicas3(x: Scene): Replica {
    map[x.e := ClientEntity(3, Stale3(x)), x.f := ClientEntity(2, map[])]
  }

  function Sys9(x: Scene): System { Sys8(x).(server := ServerAt(World3(x), 2, Track3(x))) }

  function Sys10(x: Scene): System {
    System(ServerAt(World3(x), 3, Track4(x)), Client(Replicas1(x), 1, [OnlyC(x)]), [Update1(x), Update2(x), Update3(x)], 1,
           {OnlyC(x)}, [], map[1 := Snapshot1(x), 2 := Snapshot2(x), 3 := Snapshot3(x)], {}, {}, {x.e, x.f})
  }

  function Sys11(x: Scene): System {
    Sys10(x).(client := Client(Replicas3(x), 3, []), received := 3, applied := {OnlyC(x)})
  }

  lemma PlainPhase(t: Tracked)
    requires t.filter == All
    ensures DespawnPhase(t, []) == (t, {})
  {
    var lost: set<Entity> := {};
    assert t.baseline - lost == t.baseline && lost + lost == lost;
    assert DespawnEach(t, []) == (t, lost);
    assert WithoutLost(t) == t;
  }

  /** What a run without despawns and visibility makes of the things it collects. */
  datatype Collected = Collected(update: UpdateMsg, mutations: map<Entity, Comps>, baseline: map<Entity, nat>,
                                 snapshot: Snapshot)

  ghost predicate Collects(s: Server, tick: nat, c: Collected) {
    && s.tracked.filter == All && s.despawned == []
    && CollectUpdate(s, s.tracked, {}, tick) == c.update && CollectMutations(s, s.tracked) == c.mutations
    && BumpBaselines(s, s.tracked, tick) == c.baseline && SnapshotOf(s.world) == c.snapshot
  }

  function Bumped(t: Tracked, tick: nat, c: Collected): Tracked {
    t.(baseline := c.baseline, updateTick := if c.update.IsEmpty() then t.updateTick else tick)
  }

  function Sent(sys: System, tick: nat, c: Collected, tracked: Tracked, batch: set<MutateMsg>): System {
    sys.(
      server := ServerAt(sys.server.world, tick, tracked),
      log := if c.update.IsEmpty() then sys.log else sys.log + [c.update],
      net := sys.net + batch,
      history := sys.history[tick := c.snapshot],
      lastBatch := batch,
      shown := sys.server.world.Keys)
  }

  lemma SentIs(sys: System, tick: nat, c: Collected, tracked: Tracked, batch: set<MutateMsg>, sys': System)
    requires sys'.server == ServerAt(sys.server.world, tick, tracked) && sys'.client == sys.client
    requires sys'.log == (if c.update.IsEmpty() then sys.log else sys.log + [c.update])
    requires sys'.received == sys.received && sys'.net == sys.net + batch && sys'.acks == sys.acks
    requires sys'.history == sys.history[tick := c.snapshot] && sys'.lastBatch == batch
    requires sys'.applied == sys.applied && sys'.shown == sys.server.world.Keys
    ensures Sent(sys, tick, c, tracked, batch) == sys'
  {
  }

  lemma RunWithoutMutations(sys: System, tick: nat, c: Collected)
    requires Collects(sys.server, tick, c) && tick > sys.server.tick && c.mutations == map[]
    ensures Allowed(sys, SendStep(tick, 0, []), false)
    ensures Next(sys, SendStep(tick, 0, [])) == Sent(sys, tick, c, Bumped(sys.server.tracked, tick, c), {})
  {
    var s := sys.server;
    PlainPhase(s.tracked);
    var t := Bumped(s.tracked, tick, c);
    assert Split(t, tick, 0, c.mutations, []) == (t, []);
    assert Replicate(s, tick, 0, []) == Run(c.update, c.mutations, [], t);
    assert MessageSet([]) == {};
    assert (set e | e in s.world && IsVisible(All, e)) == s.world.Keys;
  }

  function Message(t: Tracked, tick: nat, c: Collected): MutateMsg {
    MutateMsg(t.updateTick, tick, t.nextIndex, c.mutations)
  }

  lemma SplitOne(t: Tracked, tick: nat, mutations: map<Entity, Comps>, e: Entity)
    requires mutations.Keys == {e}
    ensures Split(t, tick, 0, mutations, [[e]]) ==
      (Registered(t, MutateInfo(tick, 0, [e])), [MutateMsg(t.updateTick, tick, t.nextIndex, mutations)])
  {
    var groups := [[e]];
    assert |groups| == 1 && groups[..0] == [];
    var (t', ms) := Split(t, tick, 0, mutations, groups[..0]);
    assert t' == t && ms == [];
    assert Restrict(mutations, groups[0]) == mutations;
    var m := MutateMsg(t.updateTick, tick, t.nextIndex, mutations);
    assert ms + [m] == [m];
  }

  lemma ReplicateOne(s: Server, tick: nat, c: Collected, e: Entity)
    requires Collects(s, tick, c) && c.mutations.Keys == {e}
    ensures
      var t := Bumped(s.tracked, tick, c);
      Replicate(s, tick, 0, [[e]]) ==
        Run(c.update, c.mutations, [Message(t, tick, c)], Registered(t, MutateInfo(tick, 0, [e])))
  {
    PlainPhase(s.tracked);
    SplitOne(Bumped(s.tracked, tick, c), tick, c.mutations, e);
  }

  function RunOne(t: Tracked, tick: nat, c: Collected, e: Entity): Run {
    Run(c.update, c.mutations, [Message(t, tick, c)], Registered(t, MutateInfo(tick, 0, [e])))
  }

  lemma DeliveredOne(sys: System, tick: nat, c: Collected, t: Tracked, e: Entity)
    requires t.filter == All && c.snapshot == SnapshotOf(sys.server.world)
    ensures Deliver(sys, tick, RunOne(t, tick, c, e)) ==
      Sent(sys, tick, c, Registered(t, MutateInfo(tick, 0, [e])), {Message(t, tick, c)})
  {
    assert MessageSet([Message(t, tick, c)]) == {Message(t, tick, c)};
    assert (set x | x in sys.server.world && IsVisible(All, x)) == sys.server.world.Keys;
  }

  lemma ResolvableOne(sys: System, tick: nat, c: Collected, t: Tracked, e: Entity)
    requires c.mutations.Keys == {e} && sys.server.tracked.mutations == map[] && sys.acks == []
    requires forall m <- sys.net :: m.index != t.nextIndex
    requires forall m <- sys.client.buffered :: m.index != t.nextIndex
    ensures Resolvable(sys, [[e]], RunOne(t, tick, c, e))
  {
    assert [e] in [[e]] && e in [e];
  }

  lemma RunWithMutations(sys: System, tick: nat, c: Collected, e: Entity)
    requires Collects(sys.server, tick, c) && tick > sys.server.tick && c.mutations.Keys == {e}
    requires sys.server.tracked.mutations == map[] && sys.acks == []
    requires forall m <- sys.net :: m.index != sys.server.tracked.nextIndex
    requires forall m <- sys.client.buffered :: m.index != sys.server.tracked.nextIndex
    ensures Allowed(sys, SendStep(tick, 0, [[e]]), false)
    ensures
      var t := Bumped(sys.server.tracked, tick, c);
      Next(sys, SendStep(tick, 0, [[e]])) ==
        Sent(sys, tick, c, Registered(t, MutateInfo(tick, 0, [e])), {Message(t, tick, c)})
  {
    var t := Bumped(sys.server.tracked, tick, c);
    ReplicateOne(sys.server, tick, c, e);
    ResolvableOne(sys, tick, c, t, e);
    DeliveredOne(sys, tick, c, t, e);
  }

  /** The items of one entity in a run without removals. */
  ghost predicate ItemsOk(s: Server, c: Collected, structural: set<Entity>, e: Entity)
    requires e in s.world
  {
    var entry, p := s.world[e], PerspectiveOf(s, s.tracked, e);
    && UpdateItem(entry, p) == (if e in c.update.changes then Some(c.update.changes[e]) else None)
    && MutateItem(entry, p) == (if e in c.mutations then Some(c.mutations[e]) else None)
    && (Structural(entry, p) <==> e in structural)
  }

  lemma CollectsChanges(s: Server, tick: nat, c: Collected, structural: set<Entity>)
    requires s.removed == map[] && c.update.changes.Keys <= s.world.Keys
    requires forall e <- s.world :: ItemsOk(s, c, structural, e)
    ensures CollectUpdate(s, s.tracked, {}, tick) == UpdateMsg(tick, {}, map[], c.update.changes)
  {
    hide UpdateItem, MutateItem, Structural, PerspectiveOf;
    var u := CollectUpdate(s, s.tracked, {}, tick);
    assert u.removals == map[];
    forall e <- s.world
      ensures (e in u.changes <==> e in c.update.changes) && (e in u.changes ==> u.changes[e] == c.update.changes[e])
    {
      assert ItemsOk(s, c, structural, e);
    }
    assert u.changes == c.update.changes;
  }

  lemma CollectsMutations(s: Server, c: Collected, structural: set<Entity>)
    requires c.mutations.Keys <= s.world.Keys
    requires forall e <- s.world :: ItemsOk(s, c, structural, e)
    ensures CollectMutations(s, s.tracked) == c.mutations
  {
    var m := CollectMutations(s, s.tracked);
    forall e <- s.world ensures (e in m <==> e in c.mutations) && (e in m ==> m[e] == c.mutations[e]) {
      assert ItemsOk(s, c, structural, e);
    }
  }

  lemma CollectsBaselines(s: Server, tick: nat, c: Collected, structural: set<Entity>)
    requires structural <= s.world.Keys
    requires forall e <- s.world :: ItemsOk(s, c, structural, e)
    ensures BumpBaselines(s, s.tracked, tick) == s.tracked.baseline + map e | e in structural :: tick
  {
    var m := map e | e in s.world && Structural(s.world[e], PerspectiveOf(s, s.tracked, e)) :: tick;
    forall e <- s.world ensures e in m <==> e in structural {
      assert ItemsOk(s, c, structural, e);
    }
    assert m == map e | e in structural :: tick;
  }

  /** Collecting from a world without removals, given the items of its entities. */
  lemma CollectsItems(s: Server, tick: nat, c: Collected, structural: set<Entity>)
    requires s.tracked.filter == All && s.despawned == [] && s.removed == map[]
    requires c.update == UpdateMsg(tick, {}, map[], c.update.changes)
    requires c.update.changes.Keys + c.mutations.Keys + structural <= s.world.Keys
    requires forall e <- s.world :: ItemsOk(s, c, structural, e)
    requires c.baseline == s.tracked.baseline + map e | e in structural :: tick
    requires c.snapshot == SnapshotOf(s.world)
    ensures Collects(s, tick, c)
  {
    CollectsChanges(s, tick, c, structural);
    CollectsMutations(s, c, structural);
    CollectsBaselines(s, tick, c, structural);
  }

  function Collected1(x: Scene): Collected {
    Collected(Update1(x), map[], map[x.e := 1], Snapshot1(x))
  }

  function Collected2(x: Scene): Collected {
    Collected(Update2(x), OnlyC(x).mutations, map[x.e := 1, x.f := 2], Snapshot2(x))
  }

  lemma Collect1(x: Scene)
    requires Proper(x)
    ensures Collects(Sys1(x).server, 1, Collected1(x))
  {
    var s := Sys1(x).server;
    UnknownSentInFull(Spawned(x), PerspectiveOf(s, s.tracked, x.e));
    assert Values(Spawned(x).comps) == CompsOf(x, x.c0);
    assert SnapshotOf(s.world) == Snapshot1(x);
    CollectsItems(s, 1, Collected1(x), {x.e});
  }

  lemma Run1(x: Scene)
    requires Proper(x)
    ensures Allowed(Sys1(x), SendStep(1, 0, []), false) && Next(Sys1(x), SendStep(1, 0, [])) == Sys2(x)
  {
    Collect1(x);
    assert x.e in Update1(x).changes;
    RunWithoutMutations(Sys1(x), 1, Collected1(x));
    SentIs(Sys1(x), 1, Collected1(x), Track1(x), {}, Sys2(x));
  }

  lemma Frame1(x: Scene)
    requires Proper(x)
    ensures Allowed(Sys2(x), FrameStep(1, []), false) && Next(Sys2(x), FrameStep(1, [])) == Sys3(x)
  {
    SpawnByUpdate(map[], Update1(x), x.e);
    assert PopUpdates(Sys2(x), 1) == PopUpdates(PopUpdate(Sys2(x)), 0);
    assert PopUpdate(Sys2(x)) == Sys3(x);
  }

  /** An update message that only announces one entity the client does not have. */
  lemma SpawnByUpdate(r: Replica, u: UpdateMsg, e: Entity)
    requires e !in r && u.despawns == {} && u.removals == map[] && u.changes.Keys == {e}
    ensures ApplyUpdate(r, u) == r[e := ClientEntity(u.tick, u.changes[e])]
  {
    var none: Comps := map[];
    assert BaseComps(r, u, e) - u.Removed(e) == none;
    assert none + u.changes[e] == u.changes[e];
  }

  /** A visible, tracked entity in which only `c` changed since its baseline. */
  lemma OnlyMutated(entry: Entry, p: Perspective, c: FnsId)
    requires p.view == Visible && p.baseline.Some? && entry.marker <= p.lastRun && !p.removal && c in entry.comps
    requires forall d <- entry.comps :: entry.comps[d].added <= p.lastRun
    requires forall d <- entry.comps :: entry.comps[d].changed > p.baseline.value <==> d == c
    ensures UpdateItem(entry, p) == None && !Structural(entry, p)
    ensures MutateItem(entry, p) == Some(map[c := entry.comps[c].value])
  {
    assert Routed(entry, p, ToUpdate) == map[];
    var mutated := Routed(entry, p, ToMutate);
    assert mutated == map[c := entry.comps[c].value];
    assert c in mutated;
  }

  lemma EmptyItem(entry: Entry, p: Perspective)
    requires p.view == Visible && !p.removal && entry.comps == map[]
    ensures MutateItem(entry, p) == None && (Structural(entry, p) <==> entry.marker > p.lastRun)
    ensures UpdateItem(entry, p) == if entry.marker > p.lastRun then Some(map[]) else None
  {
    assert Routed(entry, p, ToUpdate) == map[] && Routed(entry, p, ToMutate) == map[];
    assert Routed(entry, p, ToUpdate) + Routed(entry, p, ToMutate) == map[];
  }

  /** A run over an entity with one mutated component and a new one without components. */
  lemma CollectsPair(s: Server, tick: nat, e: Entity, c: FnsId, f: Entity, col: Collected)
    requires e != f && s.world.Keys == {e, f} && s.world[f].comps == map[] && s.world[f].marker > s.tick
    requires s.tracked.filter == All && s.despawned == [] && s.removed == map[]
    requires e in s.tracked.baseline && s.world[e].marker <= s.tick && c in s.world[e].comps
    requires forall d <- s.world[e].comps ::
      && s.world[e].comps[d].added <= s.tick
      && (s.world[e].comps[d].changed > s.tracked.baseline[e] <==> d == c)
    requires col == Collected(UpdateMsg(tick, {}, map[], map[f := map[]]), map[e := map[c := s.world[e].comps[c].value]],
                              s.tracked.baseline[f := tick], SnapshotOf(s.world))
    ensures Collects(s, tick, col)
  {
    hide UpdateItem, MutateItem, Structural, Collects, SnapshotOf;
    assert ItemsOk(s, col, {f}, e) by {
      OnlyMutated(s.world[e], PerspectiveOf(s, s.tracked, e), c);
    }
    assert ItemsOk(s, col, {f}, f) by {
      EmptyItem(s.world[f], PerspectiveOf(s, s.tracked, f));
    }
    CollectsItems(s, tick, col, {f});
  }

  lemma Collect2(x: Scene, s: Server)
    requires Proper(x) && s == ServerAt(World2(x), 1, Track1(x))
    ensures Collects(s, 2, Collected2(x))
  {
    assert Values(Mutated(x).comps) == CompsOf(x, x.c1);
    assert SnapshotOf(World2(x)) == Snapshot2(x);
    CollectsPair(s, 2, x.e, x.c, x.f, Collected2(x));
  }

  lemma Registered2(x: Scene)
    requires Proper(x)
    ensures
      var t := Bumped(Track1(x), 2, Collected2(x));
      Registered(t, Info(x, 2)) == Track2(x) && Message(t, 2, Collected2(x)) == OnlyC(x)
  {
    assert x.f in Update2(x).changes;
  }

  lemma Sent2(x: Scene, a: System, b: System)
    requires Proper(x) && a == Sys5(x) && b == Sys6(x)
    ensures Sent(a, 2, Collected2(x), Track2(x), {OnlyC(x)}) == b
  {
    assert x.f in Update2(x).changes;
    SentIs(a, 2, Collected2(x), Track2(x), {OnlyC(x)}, b);
  }

  lemma Run2(x: Scene, a: System)
    requires Proper(x) && a == Sys5(x)
    ensures Allowed(a, SendStep(2, 0, [[x.e]]), false)
    ensures Next(a, SendStep(2, 0, [[x.e]])) == Sent(a, 2, Collected2(x), Track2(x), {OnlyC(x)})
  {
    Collect2(x, a.server);
    Registered2(x);
    RunWithMutations(a, 2, Collected2(x), x.e);
  }

  lemma Frame2(x: Scene)
    requires Proper(x)
    ensures Allowed(Sys6(x), FrameStep(0, [OnlyC(x)]), false) && Next(Sys6(x), FrameStep(0, [OnlyC(x)])) == Sys7(x)
  {
    assert BufferAll(Sys6(x), [OnlyC(x)]) == BufferAll(Sys7(x), []) == Sys7(x);
    assert ApplyReady(Sys7(x), 0) == ApplyReady(Sys7(x), 1) == Sys7(x);
  }

  lemma Ack(x: Scene)
    requires Proper(x)
    ensures Allowed(Sys7(x), ReceiveAck(0), false) && Next(Sys7(x), ReceiveAck(0)) == Sys8(x)
  {
    assert AckedBaseline(Track2(x).baseline, Info(x, 2)) == Track3(x).baseline;
    assert Track2(x).mutations - {0} == map[];
  }

  /**
   What is lost once a baseline is unsound: the next message omits what the older one carries, and of two ready
   messages about `e` the newer one is applied first and makes the older one outdated.
   */
  lemma NewerThenOlder(sys: System, e: Entity, newer: MutateMsg, older: MutateMsg)
    requires sys.client.buffered == [newer, older]
    requires newer.updateTick <= sys.client.updateTick && older.updateTick <= sys.client.updateTick
    requires e in sys.client.entities && newer.mutations.Keys == older.mutations.Keys == {e}
    requires sys.client.entities[e].confirmed < newer.tick && older.tick <= newer.tick
    ensures
      var comps := sys.client.entities[e].comps + newer.mutations[e];
      ApplyReady(sys, 0) == sys.(
        client := Client(sys.client.entities[e := ClientEntity(newer.tick, comps)], sys.client.updateTick, []),
        applied := sys.applied + {newer} + {older})
  {
    var c := sys.client;
    var r := c.entities[e := ClientEntity(newer.tick, c.entities[e].comps + newer.mutations[e])];
    assert ApplyMutations(c.entities, newer) == r && ApplyMutations(r, older) == r;
    var sys' := ApplyOne(sys, 0);
    assert sys'.client == Client(r, c.updateTick, [older]);
    var sys'' := ApplyOne(sys', 0);
    assert sys''.client == Client(r, c.updateTick, []);
    assert ApplyReady(sys, 0) == ApplyReady(sys', 0) == ApplyReady(sys'', 0) == sys'';
  }

  lemma FirstWorldStep(x: Scene)
    requires Proper(x)
    ensures Allowed(Sys0, Start(x.e, Spawned(x)), false) && Next(Sys0, Start(x.e, Spawned(x))) == Sys1(x)
  {
  }

  lemma SecondWorldSteps(x: Scene)
    requires Proper(x)
    ensures Allowed(Sys3(x), Start(x.f, Empty), false) && Next(Sys3(x), Start(x.f, Empty)) == Sys4(x)
    ensures Allowed(Sys4(x), Put(x.e, x.c, x.c1), false) && Next(Sys4(x), Put(x.e, x.c, x.c1)) == Sys5(x)
  {
    assert World1(x)[x.f := Empty] == map[x.e := Spawned(x), x.f := Empty];
    assert PutComponent(Spawned(x), x.c, x.c1, 2) == Mutated(x);
    assert map[x.e := Spawned(x), x.f := Empty][x.e := Mutated(x)] == World2(x);
  }

  /** A run with one more step in front. */
  lemma Prepend(sys: System, step: Step, mid: System, rest: seq<Step>, end: System) returns (steps: seq<Step>)
    requires Allowed(sys, step, false) && Next(sys, step) == mid && Reaches(mid, rest, end, false)
    ensures Reaches(sys, steps, end, false)
  {
    steps := [step] + rest;
    assert steps[1..] == rest;
  }

  /** A visible, tracked entity in which nothing changed since its baseline but for the insertion of `d`. */
  lemma OnlyInserted(entry: Entry, p: Perspective, d: FnsId)
    requires p.view == Visible && p.baseline.Some? && entry.marker <= p.lastRun && !p.removal && d in entry.comps
    requires entry.comps[d].added > p.lastRun
    requires forall c <- entry.comps :: c != d ==> entry.comps[c].added <= p.lastRun && entry.comps[c].changed <= p.baseline.value
    ensures Structural(entry, p) && MutateItem(entry, p) == None
    ensures UpdateItem(entry, p) == Some(map[d := entry.comps[d].value])
  {
    var inserted, mutated := Routed(entry, p, ToUpdate), Routed(entry, p, ToMutate);
    assert mutated == map[];
    assert inserted == map[d := entry.comps[d].value];
    assert d in inserted && inserted + mutated == inserted;
  }

  function Collected3(x: Scene): Collected {
    Collected(Update3(x), map[], map[x.e := 3, x.f := 2], Snapshot3(x))
  }

  /** A run over an entity with an inserted component and one in which nothing changed. */
  lemma CollectsInserted(s: Server, tick: nat, e: Entity, d: FnsId, f: Entity, col: Collected)
    requires e != f && s.world.Keys == {e, f} && s.world[f].comps == map[] && s.world[f].marker <= s.tick
    requires s.tracked.filter == All && s.despawned == [] && s.removed == map[]
    requires e in s.tracked.baseline && s.world[e].marker <= s.tick && d in s.world[e].comps
    requires s.world[e].comps[d].added > s.tick
    requires forall c <- s.world[e].comps :: c != d ==>
      s.world[e].comps[c].added <= s.tick && s.world[e].comps[c].changed <= s.tracked.baseline[e]
    requires col == Collected(UpdateMsg(tick, {}, map[], map[e := map[d := s.world[e].comps[d].value]]), map[],
                              s.tracked.baseline[e := tick], SnapshotOf(s.world))
    ensures Collects(s, tick, col)
  {
    assert ItemsOk(s, col, {e}, e) by {
      OnlyInserted(s.world[e], PerspectiveOf(s, s.tracked, e), d);
    }
    assert ItemsOk(s, col, {e}, f) by {
      EmptyItem(s.world[f], PerspectiveOf(s, s.tracked, f));
    }
    CollectsItems(s, tick, col, {e});
  }

  lemma World3Snapshot(x: Scene)
    requires Proper(x)
    ensures SnapshotOf(World3(x)) == Snapshot3(x)
  {
    assert Values(Inserted(x).comps) == Now3(x);
  }

  lemma Collect3(x: Scene, s: Server)
    requires Proper(x) && s == ServerAt(World3(x), 2, Track3(x))
    ensures Collects(s, 3, Collected3(x))
  {
    World3Snapshot(x);
    hide SnapshotOf, Collects;
    CollectsInserted(s, 3, x.e, x.d, x.f, Collected3(x));
  }

  lemma Sent3(x: Scene, a: System, b: System)
    requires Proper(x) && a == Sys9(x) && b == Sys10(x)
    ensures Sent(a, 3, Collected3(x), Track4(x), {}) == b
  {
    assert x.e in Update3(x).changes;
    SentIs(a, 3, Collected3(x), Track4(x), {}, b);
  }

  lemma Insert3(x: Scene)
    requires Proper(x)
    ensures Allowed(Sys8(x), Put(x.e, x.d, x.v), false) && Next(Sys8(x), Put(x.e, x.d, x.v)) == Sys9(x)
  {
    assert PutComponent(Mutated(x), x.d, x.v, 3) == Inserted(x);
    assert World2(x)[x.e := Inserted(x)] == World3(x);
  }

  lemma Run3(x: Scene, a: System, b: System)
    requires Proper(x) && a == Sys9(x) && b == Sys10(x)
    ensures Allowed(a, SendStep(3, 0, []), false) && Next(a, SendStep(3, 0, [])) == b
  {
    Collect3(x, a.server);
    Sent3(x, a, b);
    assert x.e in Update3(x).changes;
    assert Bumped(a.server.tracked, 3, Collected3(x)) == Track4(x);
    hide Next, Allowed, Sent, Collects, Bumped;
    RunWithoutMutations(a, 3, Collected3(x));
  }

  lemma Update3Applied(x: Scene, r: Replica)
    requires Proper(x) && r == map[x.e := ClientEntity(1, CompsOf(x, x.c0)), x.f := ClientEntity(2, map[])]
    ensures ApplyUpdate(r, Update3(x)) == Replicas3(x)
  {
    var u := Update3(x);
    var none: set<FnsId> := {};
    assert u.Removed(x.e) == none && BaseComps(r, u, x.e) - none == CompsOf(x, x.c0);
    assert CompsOf(x, x.c0) + u.changes[x.e] == Stale3(x);
  }

  lemma Pops3(x: Scene, a: System, b: System)
    requires Proper(x) && a == Sys10(x) && b == Popped3(x)
    ensures PopUpdates(a, 2) == b
  {
    SpawnByUpdate(Replicas1(x), Update2(x), x.f);
    var r := Replicas1(x)[x.f := ClientEntity(2, map[])];
    Update3Applied(x, r);
    assert a.log[1] == Update2(x) && a.log[2] == Update3(x);
    var mid := PopUpdate(a);
    assert mid == a.(client := Client(r, 2, [OnlyC(x)]), received := 2);
    assert PopUpdate(mid) == b;
    assert PopUpdates(a, 2) == PopUpdates(mid, 1) == PopUpdates(b, 0);
  }

  /** The client after the updates, with the outdated message still in its buffer. */
  function Popped3(x: Scene): System {
    Sys11(x).(client := Client(Replicas3(x), 3, [OnlyC(x)]), applied := {})
  }

  lemma Outdated3(x: Scene)
    requires Proper(x)
    ensures ApplyMutations(Replicas3(x), OnlyC(x)) == Replicas3(x)
  {
  }

  /** A client with one buffered message that is ready and changes nothing. */
  lemma RetainOne(a: System, m: MutateMsg)
    requires a.client.buffered == [m] && m.updateTick <= a.client.updateTick
    requires ApplyMutations(a.client.entities, m) == a.client.entities
    ensures ApplyReady(a, 0) == a.(client := a.client.(buffered := []), applied := a.applied + {m})
  {
    hide ApplyMutations;
    var b := ApplyOne(a, 0);
    assert b.client.buffered == [];
    assert ApplyReady(a, 0) == ApplyReady(b, 0) == b;
  }

  lemma Retain3(x: Scene, a: System, b: System)
    requires Proper(x) && a == Popped3(x) && b == Sys11(x)
    ensures ApplyReady(a, 0) == b
  {
    Outdated3(x);
    hide ApplyMutations, ApplyReady;
    RetainOne(a, OnlyC(x));
  }

  lemma NoneBuffered(sys: System)
    ensures BufferAll(sys, []) == sys
  {
  }

  lemma Frame3(x: Scene, a: System, b: System)
    requires Proper(x) && a == Sys10(x) && b == Sys11(x)
    ensures Allowed(a, FrameStep(2, []), false) && Next(a, FrameStep(2, [])) == b
  {
    assert a.received + 2 <= |a.log|;
    hide PopUpdates, BufferAll, ApplyReady, Sys10, Sys11, Popped3;
    Pops3(x, a, Popped3(x));
    NoneBuffered(Popped3(x));
    Retain3(x, Popped3(x), b);
  }

  lemma StaleSteps(x: Scene, sys: System, end: System) returns (steps: seq<Step>)
    requires Proper(x) && sys == Sys8(x) && end == Sys11(x)
    ensures Reaches(sys, steps, end, false)
  {
    Frame3(x, Sys10(x), end);
    steps := Prepend(Sys10(x), FrameStep(2, []), end, [], end);
    Run3(x, Sys9(x), Sys10(x));
    steps := Prepend(Sys9(x), SendStep(3, 0, []), Sys10(x), steps, end);
    Insert3(x);
    steps := Prepend(sys, Put(x.e, x.d, x.v), Sys9(x), steps, end);
  }

  lemma LastSteps(x: Scene, sys: System, end: System) returns (steps: seq<Step>)
    requires Proper(x) && sys == Sys6(x) && end == Sys11(x)
    ensures Reaches(sys, steps, end, false)
  {
    steps := StaleSteps(x, Sys8(x), end);
    Ack(x);
    steps := Prepend(Sys7(x), ReceiveAck(0), Sys8(x), steps, end);
    Frame2(x);
    steps := Prepend(sys, FrameStep(0, [OnlyC(x)]), Sys7(x), steps, end);
  }

  lemma MiddleSteps(x: Scene, sys: System, end: System) returns (steps: seq<Step>)
    requires Proper(x) && sys == Sys5(x) && end == Sys11(x)
    ensures Reaches(sys, steps, end, false)
  {
    var mid := Sys6(x);
    steps := LastSteps(x, mid, end);
    Run2(x, sys);
    Sent2(x, sys, mid);
    steps := Prepend(sys, SendStep(2, 0, [[x.e]]), mid, steps, end);
  }

  lemma WorldSteps(x: Scene, sys: System, end: System) returns (steps: seq<Step>)
    requires Proper(x) && sys == Sys3(x) && end == Sys11(x)
    ensures Reaches(sys, steps, end, false)
  {
    SecondWorldSteps(x);
    steps := MiddleSteps(x, Sys5(x), end);
    steps := Prepend(Sys4(x), Put(x.e, x.c, x.c1), Sys5(x), steps, end);
    steps := Prepend(sys, Start(x.f, Empty), Sys4(x), steps, end);
  }

  lemma WholeRun(x: Scene, end: System) returns (steps: seq<Step>)
    requires Proper(x) && end == Sys11(x)
    ensures Reaches(Sys0, steps, end, false)
  {
    steps := WorldSteps(x, Sys3(x), end);
    Frame1(x);
    steps := Prepend(Sys2(x), FrameStep(1, []), Sys3(x), steps, end);
    Run1(x);
    steps := Prepend(Sys1(x), SendStep(1, 0, []), Sys2(x), steps, end);
    FirstWorldStep(x);
    steps := Prepend(Sys0, Start(x.e, Spawned(x)), Sys1(x), steps, end);
  }

  /**
   The client's value of `c` of `e` is not that of the snapshot at the confirmed tick, and the server takes the
   current one for known, so that it will not be sent before it changes again.
   */
  ghost predicate Missed(sys: System, e: Entity, c: FnsId) {
    && e in sys.client.entities && e in sys.server.world && e in sys.server.tracked.baseline
    && var (r, entry) := (sys.client.entities[e], sys.server.world[e]);
       && r.confirmed in sys.history && e in sys.history[r.confirmed]
       && c in r.comps && c in sys.history[r.confirmed][e] && r.comps[c] != sys.history[r.confirmed][e][c]
       && c in entry.comps && entry.marker <= sys.server.tick && entry.comps[c].added <= sys.server.tick
       && entry.comps[c].changed <= sys.server.tracked.baseline[e]
  }

  /**
   Without the assumption that acknowledgements come after application, clients stop being snapshots: for any two
   entities there is a run after which everything was received and applied, nothing is buffered or under way, and
   the client misses a value for good.
   */
  lemma AckOnBufferingBreaksSnapshots(x: Scene)
    requires Proper(x)
    ensures exists steps, end ::
      && Init(Sys0) && Reaches(Sys0, steps, end, false)
      && end.received == |end.log| && end.client.buffered == [] && end.acks == [] && end.applied == end.net
      && Missed(end, x.e, x.c)
  {
    var steps := WholeRun(x, Sys11(x));
    assert Sys0.server.tracked == Fresh(PolicyAll);
    Violated(x, Sys11(x));
  }

  lemma Violated(x: Scene, end: System)
    requires Proper(x) && end == Sys11(x)
    ensures Missed(end, x.e, x.c)
  {
    assert end.client.entities[x.e] == ClientEntity(3, Stale3(x)) && end.history[3][x.e] == Now3(x);
  }

  /** A component that is missed stays out of the messages of a run until it changes: it is not relevant to it. */
  lemma MissedIsNotSent(sys: System, e: Entity, c: FnsId)
    requires Missed(sys, e, c) && sys.server.removed == map[] && StateOf(sys.server.tracked.filter, e) == Visible
    ensures c !in Changes.Sent(sys.server.world[e], PerspectiveOf(sys.server, sys.server.tracked, e))
  {
    var entry, p := sys.server.world[e], PerspectiveOf(sys.server, sys.server.tracked, e);
    ClassificationAtomic(entry, p);
    assert !Relevant(entry, c, p);
  }

  // ---------------------------------------------------------------------------------------------
  // When acknowledging is sound.

  /** The client has `e` confirmed at `tick` or later, or an update message on its way will confirm it. */
  ghost predicate WillReach(sys: System, e: Entity, tick: nat)
    requires sys.received <= |sys.log|
  {
    || (e in sys.client.entities && sys.client.entities[e].confirmed >= tick)
    || exists u <- InFlight(sys) :: u.Touches(e) && u.tick >= tick
  }

  lemma {:induction false} AfterReaches(us: seq<UpdateMsg>, e: Entity, c: Option<nat>, tick: nat)
    requires Increasing(us) && (c.Some? ==> forall u <- us :: c.value < u.tick) && After(us, e, c).Some?
    ensures After(us, e, c).value >= tick <==> (c.Some? && c.value >= tick) || exists u <- us :: u.Touches(e) && u.tick >= tick
  {
    if us != [] {
      var init, last := us[..|us| - 1], us[|us| - 1];
      assert us == init + [last] && last in us;
      assert forall u <- init :: u.tick < last.tick;
      if !last.Touches(e) {
        AfterReaches(init, e, c, tick);
      }
    }
  }

  lemma SettledReaches(sys: System, e: Entity, tick: nat)
    requires Inv(sys) && Settled(sys, e).Some?
    ensures Settled(sys, e).value >= tick <==> WillReach(sys, e, tick)
  {
    assert EntityOk(sys, e);
    forall u <- InFlight(sys) | e in sys.client.entities ensures sys.client.entities[e].confirmed < u.tick {
      var i :| 0 <= i < |InFlight(sys)| && InFlight(sys)[i] == u;
      assert sys.log[sys.received + i] == u;
    }
    AfterReaches(InFlight(sys), e, Confirmed(sys.client.entities, e), tick);
  }

  /** No baseline is ahead of what the client will have confirmed. */
  ghost predicate Sound(sys: System, baseline: map<Entity, nat>)
    requires sys.received <= |sys.log|
  {
    forall e <- baseline :: Settled(sys, e).Some? && baseline[e] <= Settled(sys, e).value
  }

  /**
   The exact condition: processing an acknowledgement keeps the baselines sound if and only if its message is not
   buffered any more, or every tracked entity of it is confirmed, or will be by an update message on its way, for the
   tick of the message or a later one.
   */
  lemma AckSoundIff(sys: System, i: nat)
    requires Inv(sys) && i < |sys.acks| && sys.acks[i] in sys.server.tracked.mutations
    ensures
      var info := sys.server.tracked.mutations[sys.acks[i]];
      Sound(sys, Acked(sys.server.tracked, sys.acks[i]).baseline) <==>
        || (forall m <- sys.client.buffered :: m.index != sys.acks[i])
        || forall e <- sys.server.tracked.baseline :: e in info.entities ==> WillReach(sys, e, info.tick)
  {
    hide WillReach, EntityOk, Settled;
    var info := sys.server.tracked.mutations[sys.acks[i]];
    var baseline' := Acked(sys.server.tracked, sys.acks[i]).baseline;
    forall e <- sys.server.tracked.baseline
      ensures Settled(sys, e).Some?
      ensures e in baseline' && (baseline'[e] <= Settled(sys, e).value <==>
        (e in info.entities ==> WillReach(sys, e, info.tick)))
    {
      TrackedIsSettled(sys, e);
      SettledReaches(sys, e, info.tick);
    }
    if forall m <- sys.client.buffered :: m.index != sys.acks[i] {
      assert AckOk(sys, sys.acks[i]);
      var m :| m in sys.applied && Acknowledges(sys, m, sys.acks[i]);
      forall e <- sys.server.tracked.baseline | e in info.entities ensures WillReach(sys, e, info.tick) {
        assert AppliedOk(sys, m, e);
        SettledReaches(sys, e, info.tick);
      }
    }
  }

  lemma TrackedIsSettled(sys: System, e: Entity)
    requires Inv(sys) && e in sys.server.tracked.baseline
    ensures Settled(sys, e).Some? && sys.server.tracked.baseline[e] <= Settled(sys, e).value
  {
    assert EntityOk(sys, e);
  }

  /**
   The guard that the client could check before it acknowledges: after a frame, exactly those messages are still
   buffered whose update tick was not reached in it.
   */
  lemma StillBufferedIff(sys: System, updates: nat, batch: seq<MutateMsg>, m: MutateMsg)
    requires sys.received + updates <= |sys.log|
    ensures
      var tick := PopUpdates(sys, updates).client.updateTick;
      && Frame(sys, updates, batch).client.updateTick == tick
      && (m in Frame(sys, updates, batch).client.buffered <==> (m in sys.client.buffered || m in batch) && m.updateTick > tick)
  {
    PopsKeepBuffer(sys, updates);
    var popped := PopUpdates(sys, updates);
    BufferedHas(popped, batch, m);
    var all := BufferAll(popped, batch);
    assert all.client.buffered[0..] == all.client.buffered;
    KeptHas(all, 0, m);
  }

  lemma {:induction false} PopsKeepBuffer(sys: System, n: nat)
    requires sys.received + n <= |sys.log|
    ensures PopUpdates(sys, n).client.buffered == sys.client.buffered
    decreases n
  {
    if n > 0 {
      PopsKeepBuffer(PopUpdate(sys), n - 1);
    }
  }

  lemma {:induction false} BufferedHas(sys: System, ms: seq<MutateMsg>, m: MutateMsg)
    ensures BufferAll(sys, ms).client.updateTick == sys.client.updateTick
    ensures m in BufferAll(sys, ms).client.buffered <==> m in sys.client.buffered || m in ms
    decreases |ms|
  {
    if ms != [] {
      var inserted := Insert(sys.client.buffered, ms[0]);
      assert m in inserted <==> m in sys.client.buffered || m == ms[0] by {
        var i := PartitionPoint(sys.client.buffered, ms[0]);
        assert sys.client.buffered == sys.client.buffered[..i] + sys.client.buffered[i..];
      }
      BufferedHas(BufferOne(sys, ms[0]), ms[1..], m);
      assert ms == [ms[0]] + ms[1..];
    }
  }

  lemma {:induction false} KeptHas(sys: System, j: nat, m: MutateMsg)
    requires j <= |sys.client.buffered|
    ensures ApplyReady(sys, j).client.updateTick == sys.client.updateTick
    ensures
      var buffered := sys.client.buffered;
      m in ApplyReady(sys, j).client.buffered <==>
        m in buffered[..j] || (m in buffered[j..] && m.updateTick > sys.client.updateTick)
    decreases |sys.client.buffered| - j
  {
    var buffered := sys.client.buffered;
    if j < |buffered| {
      assert buffered[j..] == [buffered[j]] + buffered[j + 1..];
      if buffered[j].updateTick > sys.client.updateTick {
        assert buffered[..j + 1] == buffered[..j] + [buffered[j]];
        KeptHas(sys, j + 1, m);
      } else {
        var sys' := ApplyOne(sys, j);
        assert sys'.client.buffered[..j] == buffered[..j] && sys'.client.buffered[j..] == buffered[j + 1..];
        KeptHas(sys', j, m);
      }
    } else {
      assert buffered[..j] == buffered;
    }
  }

  // ---------------------------------------------------------------------------------------------
  // Hiding and despawning an entity between two runs.

  /** How often `e` occurs in `es`. */
  function Occurrences(es: seq<Entity>, e: Entity): nat {
    multiset(es)[e]
  }

  /**
   A despawned entity that the client knows is reported to it, unless the entity was blacklisted since the last
   run: then nothing tells the client, which keeps the entity, and the server no longer tracks it.
   */
  lemma DespawnReportedIff(t: Tracked, es: seq<Entity>, e: Entity)
    requires Consistent(t.filter) && e in t.baseline && Secure(t.filter, e) && Occurrences(es, e) == 1
    ensures
      var (t', out) := DespawnPhase(t, es);
      && e !in t'.baseline
      && (e in out <==> !(t.filter.Blacklist? && e in Lost(t.filter)))
  {
    if t.filter.Blacklist? && e in Lost(t.filter) {
      DespawnOnce(t, es, e);
    }
    SendSteps.DespawnEachFacts(t, es, e);
    assert e in es;
  }

  /**
   Of every entity, despawned or not: it is reported if it is despawned while the client sees it, or again after a despawn
   made it visible by default, or if the client lost sight of it, unless the despawn made a blacklist forget that.
   */
  lemma ReportedIff(t: Tracked, es: seq<Entity>, e: Entity)
    requires Consistent(t.filter)
    ensures
      e in DespawnPhase(t, es).1 <==>
        || (e in es && IsVisible(t.filter, e))
        || (Occurrences(es, e) >= 2 && ByDefault(PolicyOf(t.filter)))
        || (e in Lost(t.filter) && (e in es ==> t.filter.Whitelist?))
  {
    EachReportedIff(t, es, e);
  }

  lemma {:induction false} EachReportedIff(t: Tracked, es: seq<Entity>, e: Entity)
    requires Consistent(t.filter)
    ensures
      var (t', out) := DespawnEach(t, es);
      && (e in out <==> (e in es && IsVisible(t.filter, e)) || (Occurrences(es, e) >= 2 && ByDefault(PolicyOf(t.filter))))
      && (e in Lost(t'.filter) <==> e in Lost(t.filter) && (e in es ==> t.filter.Whitelist?))
  {
    SendSteps.DespawnEachFilter(t, es);
    DespawnsForget(t.filter, es, e);
    if es != [] {
      var init, last := es[..|es| - 1], es[|es| - 1];
      assert es == init + [last];
      assert e in init <==> Occurrences(init, e) >= 1;
      hide Occurrences, WithoutDespawned, Lost, StateOf;
      EachReportedIff(t, init, e);
      SendSteps.DespawnEachFilter(t, init);
      DespawnsForget(t.filter, init, e);
    }
  }

  /** After its only despawn, a freshly blacklisted entity is neither reported nor remembered as lost. */
  lemma {:induction false} DespawnOnce(t: Tracked, es: seq<Entity>, e: Entity)
    requires Consistent(t.filter) && Occurrences(es, e) <= 1
    requires t.filter.Blacklist? && e in Lost(t.filter)
    ensures
      var (t', out) := DespawnEach(t, es);
      && e !in out && t'.filter.Blacklist? && Consistent(t'.filter)
      && (e in Lost(t'.filter) <==> e !in es)
  {
    if es != [] {
      var init, last := es[..|es| - 1], es[|es| - 1];
      assert es == init + [last];
      assert last == e ==> Occurrences(init, e) == 0 && e !in init;
      hide Occurrences, Lost, IsVisible, WithoutDespawned, Consistent;
      DespawnOnce(t, init, e);
      LostAndForgotten(DespawnEach(t, init).0.filter, last, e);
    }
  }

  lemma LostAndForgotten(f: Filter, last: Entity, e: Entity)
    requires Consistent(f) && f.Blacklist?
    ensures
      var f' := WithoutDespawned(f, last);
      && f'.Blacklist? && Consistent(f') && (e in Lost(f') <==> e in Lost(f) && e != last)
      && (e in Lost(f) ==> !IsVisible(f, e))
  {
  }
}
