/** Building and splitting the mutate messages of one client (mutate_message.rs). */
module MutateMessages {
  import opened Domain
  import opened Wire
  import opened UpdateWire
  import opened MutateWire
  import opened SerializedBuffer
  import opened Tracker
  import opened ReplicatedClients

  const MAX_PACKET_SIZE: nat := 1200
  const MAX_COUNT_SIZE: nat := 9

  // ---------------------------------------------------------------------------------------------
  // Packing.

  predicate CanPack(messageSize: nat, add: nat) {
    var dangling := messageSize % 1200;
    dangling > 0 && dangling + add <= 1200
  }

  /** The number of packets a message takes. */
  function Packets(size: nat): nat {
    (size + 1199) / 1200
  }

  /** Packing into a partly filled last packet is allowed exactly when it costs no further packet. */
  lemma CanPackIff(messageSize: nat, add: nat)
    ensures CanPack(messageSize, add) <==>
      messageSize % 1200 > 0 && Packets(messageSize + add) == Packets(messageSize)
  {
    var q, d := messageSize / 1200, messageSize % 1200;
    assert messageSize == q * 1200 + d;
    if d > 0 {
      assert Packets(messageSize) == q + 1;
    }
  }

  /** A body of size `a` takes no more packets behind the header than one of size `b`. */
  predicate NoDearer(header: nat, a: nat, b: nat) {
    Packets(header + a) <= Packets(header + b)
  }

  /** Packing back or forward costs no more than the more expensive of the two parts. */
  lemma PackedCost(header: nat, body: nat, add: nat)
    requires CanPack(header + body, add) || CanPack(header + add, body)
    ensures NoDearer(header, body + add, body) || NoDearer(header, body + add, add)
  {
    CanPackIff(header + body, add);
    CanPackIff(header + add, body);
    assert header + (body + add) == header + body + add;
  }

  // ---------------------------------------------------------------------------------------------
  // Sizes.

  function MutationSize(m: ComponentChanges): (size: nat)
    ensures size >= 1
  {
    m.entity.Len() + RequiredSpace(m.ComponentsSize()) + m.ComponentsSize()
  }

  function Sizes(ms: seq<ComponentChanges>): (sizes: seq<nat>)
    ensures |sizes| == |ms| && forall i :: 0 <= i < |ms| ==> sizes[i] == MutationSize(ms[i])
  {
    seq(|ms|, i requires 0 <= i < |ms| => MutationSize(ms[i]))
  }

  function Sum(sizes: seq<nat>): nat {
    if sizes == [] then 0 else Sum(sizes[..|sizes| - 1]) + sizes[|sizes| - 1]
  }

  lemma {:induction false} SumFromFront(sizes: seq<nat>)
    requires sizes != []
    ensures Sum(sizes) == sizes[0] + Sum(sizes[1..])
  {
    var init := sizes[..|sizes| - 1];
    if init != [] {
      SumFromFront(init);
      assert sizes[1..][..|sizes| - 2] == init[1..];
    } else {
      assert Sum(sizes) == Sum(init) + sizes[0];
    }
  }

  /** The precomputed size of an entity is the number of bytes written for it. */
  lemma SizeIsWritten(data: Bytes, m: ComponentChanges)
    requires m.In(data)
    ensures MutationSize(m) == |MutationBytes(m.ItemIn(data))|
  {
    TotalLenIsSize(data, m.components);
  }

  lemma {:induction false} SumIsWritten(data: Bytes, ms: seq<ComponentChanges>)
    requires ChangesIn(ms, data)
    ensures Sum(Sizes(ms)) == |AllMutations(ItemsIn(data, ms))|
  {
    if ms != [] {
      assert ItemsIn(data, ms)[1..] == ItemsIn(data, ms[1..]);
      assert Sizes(ms)[1..] == Sizes(ms[1..]);
      assert ms[0] in ms;
      SumIsWritten(data, ms[1..]);
      SizeIsWritten(data, ms[0]);
      SumFromFront(Sizes(ms));
    }
  }

  // ---------------------------------------------------------------------------------------------
  // The plan: which entities go into which message.

  /** A message before it is written: its index, the reserved size of its header, its size and its entities. */
  datatype Planned = Planned(index: nat, header: nat, size: nat, range: Range)

  /** All of the range together costs no more than one of its entities would cost alone. */
  ghost predicate Cheap(sizes: seq<nat>, header: nat, r: Range)
    requires r.start <= r.end <= |sizes|
  {
    exists j :: r.start <= j < r.end && NoDearer(header, Sum(sizes[r.start..r.end]), sizes[j])
  }

  ghost predicate PlannedOk(p: Planned, sizes: seq<nat>) {
    && p.range.start < p.range.end <= |sizes|
    && p.size == p.header + Sum(sizes[p.range.start..p.range.end])
    && Cheap(sizes, p.header, p.range)
  }

  /** The ranges follow each other from 0 to `n`. */
  ghost predicate Tiles(plan: seq<Planned>, n: nat) {
    if plan == [] then n == 0
    else n == plan[|plan| - 1].range.end && Tiles(plan[..|plan| - 1], plan[|plan| - 1].range.start)
  }

  function Group(entities: seq<Entity>, r: Range): seq<Entity> {
    if r.start <= r.end <= |entities| then entities[r.start..r.end] else []
  }

  function Groups(entities: seq<Entity>, plan: seq<Planned>): (groups: seq<seq<Entity>>)
    ensures |groups| == |plan|
  {
    seq(|plan|, k requires 0 <= k < |plan| => Group(entities, plan[k].range))
  }

  ghost predicate PlanOk(plan: seq<Planned>, sizes: seq<nat>) {
    forall p <- plan :: PlannedOk(p, sizes)
  }

  /** The indices are consecutive, and the headers have the size that is needed for them. */
  ghost predicate Numbered(plan: seq<Planned>, metadata: nat, next: nat) {
    forall k :: 0 <= k < |plan| ==>
      plan[k].index == IndexAt(next, k) && plan[k].header == metadata + RequiredSpace(plan[k].index)
  }

  /** Pushing an entity into the last registered message is registering it with that entity. */
  lemma PushIsRegister(t: Tracked, tick: nat, timestamp: nat, groups: seq<seq<Entity>>, g: seq<Entity>, e: Entity)
    ensures
      var index := RegisteredAll(t, tick, timestamp, groups).nextIndex;
      var before := RegisteredAll(t, tick, timestamp, groups + [g]);
      && index in before.mutations && before.mutations[index] == MutateInfo(tick, timestamp, g)
      && before.(mutations := before.mutations[index := MutateInfo(tick, timestamp, g + [e])])
         == RegisteredAll(t, tick, timestamp, groups + [g + [e]])
  {
    assert (groups + [g])[..|groups|] == groups && (groups + [g + [e]])[..|groups|] == groups;
  }

  lemma CheaperWith(sizes: seq<nat>, header: nat, r: Range, i: nat)
    requires r.start < r.end == i < |sizes| && Cheap(sizes, header, r)
    requires
      var (body, add) := (Sum(sizes[r.start..i]), sizes[i]);
      NoDearer(header, body + add, body) || NoDearer(header, body + add, add)
    ensures Cheap(sizes, header, Range(r.start, i + 1))
  {
    NextBody(sizes, r.start, i);
    var j :| r.start <= j < i && NoDearer(header, Sum(sizes[r.start..i]), sizes[j]);
    assert NoDearer(header, Sum(sizes[r.start..i + 1]), sizes[j]) || NoDearer(header, Sum(sizes[r.start..i + 1]), sizes[i]);
  }

  /** The variables of the splitting loop: `range` is the message that is being filled. */
  datatype Splitting = Splitting(plan: seq<Planned>, index: nat, header: nat, body: nat, range: Range)

  function Closed(s: Splitting, header: nat): Splitting {
    Splitting(s.plan + [Planned(s.index, s.header, s.body + s.header, s.range)], IndexAt(s.index, 1), header,
              0, Range(s.range.end, s.range.end))
  }

  function Grown(s: Splitting, size: nat): Splitting {
    s.(body := s.body + size, range := Range(s.range.start, s.range.end + 1))
  }

  /** What holds after `i` entities. */
  ghost predicate Filling(sizes: seq<nat>, s: Splitting, i: nat) {
    && s.range.start <= s.range.end == i <= |sizes|
    && Tiles(s.plan, s.range.start) && PlanOk(s.plan, sizes)
    && s.body == Sum(sizes[s.range.start..i]) && (s.body == 0 <==> s.range.start == i)
    && (s.range.start < i ==> Cheap(sizes, s.header, s.range))
  }

  lemma TilesNext(plan: seq<Planned>, n: nat, p: Planned)
    requires Tiles(plan, n) && p.range.start == n
    ensures Tiles(plan + [p], p.range.end)
  {
    assert (plan + [p])[..|plan|] == plan;
  }

  lemma CloseGroup(sizes: seq<nat>, s: Splitting, header: nat, i: nat)
    requires Filling(sizes, s, i) && s.range.start < i
    ensures Filling(sizes, Closed(s, header), i)
  {
    var p := Planned(s.index, s.header, s.body + s.header, s.range);
    TilesNext(s.plan, s.range.start, p);
    assert PlannedOk(p, sizes);
  }

  lemma Fill(sizes: seq<nat>, s: Splitting, i: nat)
    requires Filling(sizes, s, i) && i < |sizes| && sizes[i] >= 1
    requires s.body == 0 || NoDearer(s.header, s.body + sizes[i], s.body) || NoDearer(s.header, s.body + sizes[i], sizes[i])
    ensures Filling(sizes, Grown(s, sizes[i]), i + 1)
  {
    NextBody(sizes, s.range.start, i);
    if s.body == 0 {
      assert NoDearer(s.header, Sum(sizes[i..i + 1]), sizes[i]);
    } else {
      CheaperWith(sizes, s.header, s.range, i);
    }
  }

  predicate MustSplit(s: Splitting, size: nat) {
    s.body != 0 && !CanPack(s.header + s.body, size) && !CanPack(s.header + size, s.body)
  }

  /** One turn of the loop. The next message has the next index, and a header of the size that needs. */
  function Turn(s: Splitting, size: nat, metadata: nat): Splitting {
    Grown(if MustSplit(s, size) then Closed(s, metadata + RequiredSpace(IndexAt(s.index, 1))) else s, size)
  }

  function FirstTurn(metadata: nat, next: nat): Splitting {
    Splitting([], next, metadata + RequiredSpace(next), 0, Range(0, 0))
  }

  /** The loop after `i` turns. */
  function Turns(sizes: seq<nat>, metadata: nat, next: nat, i: nat): Splitting
    requires i <= |sizes|
  {
    if i == 0 then FirstTurn(metadata, next) else Turn(Turns(sizes, metadata, next, i - 1), sizes[i - 1], metadata)
  }

  lemma TurnKeepsFilling(sizes: seq<nat>, s: Splitting, metadata: nat, i: nat)
    requires Filling(sizes, s, i) && i < |sizes| && sizes[i] >= 1
    ensures Filling(sizes, Turn(s, sizes[i], metadata), i + 1) && Turn(s, sizes[i], metadata).range.start <= i
  {
    if MustSplit(s, sizes[i]) {
      var header := metadata + RequiredSpace(IndexAt(s.index, 1));
      CloseGroup(sizes, s, header, i);
      Fill(sizes, Closed(s, header), i);
    } else {
      if s.body != 0 {
        PackedCost(s.header, s.body, sizes[i]);
      }
      Fill(sizes, s, i);
    }
  }

  ghost predicate Headed(s: Splitting, metadata: nat, next: nat) {
    Numbered(s.plan, metadata, next) && s.index == IndexAt(next, |s.plan|) && s.header == metadata + RequiredSpace(s.index)
  }

  lemma TurnKeepsHeaded(s: Splitting, size: nat, metadata: nat, next: nat)
    requires Headed(s, metadata, next)
    ensures Headed(Turn(s, size, metadata), metadata, next)
  {
    NextAfter(next, |s.plan|);
  }

  /** What the loop keeps: an ordered partition, cheap messages, consecutive indices. */
  lemma {:induction false} TurnsOk(sizes: seq<nat>, metadata: nat, next: nat, i: nat)
    requires i <= |sizes| && next < INDEX_SPACE && forall size <- sizes :: size >= 1
    ensures
      var s := Turns(sizes, metadata, next, i);
      Filling(sizes, s, i) && Headed(s, metadata, next) && (i > 0 ==> s.range.start < i)
  {
    if i > 0 {
      hide Filling, Headed, Turn;
      var before := Turns(sizes, metadata, next, i - 1);
      TurnsOk(sizes, metadata, next, i - 1);
      assert sizes[i - 1] in sizes;
      TurnKeepsFilling(sizes, before, metadata, i - 1);
      TurnKeepsHeaded(before, sizes[i - 1], metadata, next);
    }
  }

  lemma NextBody(sizes: seq<nat>, start: nat, i: nat)
    requires start <= i < |sizes|
    ensures Sum(sizes[start..i + 1]) == Sum(sizes[start..i]) + sizes[i]
    ensures start == i ==> Sum(sizes[start..i]) == 0
  {
    assert sizes[start..i + 1][..i - start] == sizes[start..i];
  }

  /** After the first turn, some message is being filled. */
  lemma {:induction false} TurnsRange(sizes: seq<nat>, metadata: nat, next: nat, i: nat)
    requires i <= |sizes|
    ensures
      var s := Turns(sizes, metadata, next, i);
      s.range.end == i && if i == 0 then s == FirstTurn(metadata, next) else s.range.start < i
  {
    if i > 0 {
      TurnsRange(sizes, metadata, next, i - 1);
    }
  }

  function LastPlanned(s: Splitting): Planned {
    Planned(s.index, s.header, s.body + s.header, s.range)
  }

  /** The messages that are left after the loop, with the one that was being filled. */
  function FinalPlan(sizes: seq<nat>, metadata: nat, next: nat, tracked: bool): seq<Planned> {
    var s := Turns(sizes, metadata, next, |sizes|);
    if s.range.start != s.range.end || tracked then s.plan + [LastPlanned(s)] else s.plan
  }

  lemma LastNumbered(s: Splitting, metadata: nat, next: nat)
    requires Headed(s, metadata, next)
    ensures Numbered(s.plan + [LastPlanned(s)], metadata, next)
  {
  }

  /** Without mutations there is no message, or an empty one with tracking. */
  lemma NothingPlanned(metadata: nat, next: nat, tracked: bool)
    ensures FinalPlan([], metadata, next, tracked) == if tracked then [EmptyPlan(metadata, next)] else []
  {
  }

  /**
   Splitting is an ordered partition of the entities into messages with consecutive indices, none of which costs
   more packets than its most expensive entity.
   */
  lemma PlanIsOk(sizes: seq<nat>, metadata: nat, next: nat, tracked: bool)
    requires next < INDEX_SPACE && sizes != [] && forall size <- sizes :: size >= 1
    ensures
      var plan := FinalPlan(sizes, metadata, next, tracked);
      Numbered(plan, metadata, next) && Tiles(plan, |sizes|) && PlanOk(plan, sizes)
  {
    TurnsOk(sizes, metadata, next, |sizes|);
    var s := Turns(sizes, metadata, next, |sizes|);
    TurnsRange(sizes, metadata, next, |sizes|);
    LastNumbered(s, metadata, next);
    ClosedIsOk(sizes, s);
  }

  lemma ClosedIsOk(sizes: seq<nat>, s: Splitting)
    requires Filling(sizes, s, |sizes|) && s.range.start < |sizes|
    ensures Tiles(s.plan + [LastPlanned(s)], |sizes|) && PlanOk(s.plan + [LastPlanned(s)], sizes)
  {
    CloseGroup(sizes, s, 0, |sizes|);
  }

  // ---------------------------------------------------------------------------------------------
  // The plan is the greedy one.

  /** `add` more bytes fit what is left of the last packet of a message that does not end with one. */
  predicate Fills(size: nat, add: nat) {
    size % 1200 != 0 && Packets(size + add) <= Packets(size)
  }

  /** What is in a message and the next entity go together: either fits behind the other. */
  predicate Joins(header: nat, body: nat, add: nat) {
    Fills(header + body, add) || Fills(header + add, body)
  }

  lemma JoinsIff(s: Splitting, size: nat)
    ensures MustSplit(s, size) <==> s.body != 0 && !Joins(s.header, s.body, size)
  {
    CanPackIff(s.header + s.body, size);
    CanPackIff(s.header + size, s.body);
  }

  ghost predicate Precise(p: Planned, sizes: seq<nat>) {
    p.range.start < p.range.end <= |sizes| && p.size == p.header + Sum(sizes[p.range.start..p.range.end])
  }

  /** Each entity of the message goes together with those before it. */
  ghost predicate Together(sizes: seq<nat>, header: nat, r: Range) {
    r.start <= r.end <= |sizes| && forall i :: r.start < i < r.end ==> Joins(header, Sum(sizes[r.start..i]), sizes[i])
  }

  /** The next entity does not go together with what is in the message. */
  ghost predicate Full(p: Planned, sizes: seq<nat>) {
    p.range.end < |sizes| && p.header <= p.size && !Joins(p.header, p.size - p.header, sizes[p.range.end])
  }

  ghost predicate Greedy(plan: seq<Planned>, sizes: seq<nat>) {
    plan != [] && (forall p <- plan :: Together(sizes, p.header, p.range)) && forall p <- plan[..|plan| - 1] :: Full(p, sizes)
  }

  /** What the plan has to be: messages with consecutive indices for all entities in order, filled greedily. */
  ghost predicate GreedyPlan(plan: seq<Planned>, sizes: seq<nat>, metadata: nat, next: nat) {
    && Numbered(plan, metadata, next) && Tiles(plan, |sizes|) && (forall p <- plan :: Precise(p, sizes))
    && Greedy(plan, sizes)
  }

  ghost predicate GreedyUntil(sizes: seq<nat>, s: Splitting) {
    && (forall p <- s.plan :: Together(sizes, p.header, p.range) && Full(p, sizes))
    && Together(sizes, s.header, s.range)
  }

  lemma {:induction false} TurnsGreedy(sizes: seq<nat>, metadata: nat, next: nat, i: nat)
    requires i <= |sizes| && next < INDEX_SPACE && forall size <- sizes :: size >= 1
    ensures GreedyUntil(sizes, Turns(sizes, metadata, next, i))
  {
    if i > 0 {
      hide Filling, GreedyUntil, Turn;
      TurnsGreedy(sizes, metadata, next, i - 1);
      TurnsOk(sizes, metadata, next, i - 1);
      TurnKeepsGreedy(sizes, Turns(sizes, metadata, next, i - 1), metadata, i - 1);
    }
  }

  lemma TurnKeepsGreedy(sizes: seq<nat>, s: Splitting, metadata: nat, i: nat)
    requires i < |sizes| && Filling(sizes, s, i) && GreedyUntil(sizes, s)
    ensures GreedyUntil(sizes, Turn(s, sizes[i], metadata))
  {
    hide Joins, Cheap, Tiles, PlanOk, MustSplit, RequiredSpace;
    JoinsIff(s, sizes[i]);
    if MustSplit(s, sizes[i]) {
      assert Full(LastPlanned(s), sizes);
    } else {
      NextBody(sizes, s.range.start, i);
    }
  }

  lemma PlanIsGreedy(sizes: seq<nat>, metadata: nat, next: nat, tracked: bool)
    requires next < INDEX_SPACE && sizes != [] && forall size <- sizes :: size >= 1
    ensures GreedyPlan(FinalPlan(sizes, metadata, next, tracked), sizes, metadata, next)
  {
    hide Numbered, Tiles, Together, Full, Turns, Cheap;
    var s, plan := Turns(sizes, metadata, next, |sizes|), FinalPlan(sizes, metadata, next, tracked);
    PlanIsOk(sizes, metadata, next, tracked);
    TurnsGreedy(sizes, metadata, next, |sizes|);
    TurnsRange(sizes, metadata, next, |sizes|);
    assert plan[..|plan| - 1] == s.plan;
    forall p <- plan ensures Precise(p, sizes) {
      assert PlannedOk(p, sizes);
    }
  }

  lemma {:induction false} TilesAt(plan: seq<Planned>, n: nat, k: nat)
    requires Tiles(plan, n) && k < |plan|
    ensures k == 0 ==> plan[k].range.start == 0
    ensures plan[k].range.end == if k + 1 < |plan| then plan[k + 1].range.start else n
  {
    var last := |plan| - 1;
    if k < last {
      TilesAt(plan[..last], plan[last].range.start, k);
    } else if k == 0 {
      assert plan[..0] == [];
    }
  }

  /** The loop is in the middle of message `|s.plan|` of the plan. */
  ghost predicate InStep(s: Splitting, plan: seq<Planned>, sizes: seq<nat>, i: nat)
    requires i <= |sizes|
  {
    var n := |s.plan|;
    && n < |plan| && s.plan == plan[..n] && s.index == plan[n].index && s.header == plan[n].header
    && s.range == Range(plan[n].range.start, i) && s.range.start < i <= plan[n].range.end
    && s.body == Sum(sizes[s.range.start..i]) >= 1
  }

  lemma {:induction false} TurnsFollow(plan: seq<Planned>, sizes: seq<nat>, metadata: nat, next: nat, i: nat)
    requires 0 < i <= |sizes| && next < INDEX_SPACE && forall size <- sizes :: size >= 1
    requires GreedyPlan(plan, sizes, metadata, next)
    ensures InStep(Turns(sizes, metadata, next, i), plan, sizes, i)
  {
    hide Turns, Turn, InStep, GreedyPlan;
    assert sizes[i - 1] in sizes && sizes[0] in sizes;
    if i == 1 {
      FirstInStep(plan, sizes, metadata, next);
    } else {
      TurnsFollow(plan, sizes, metadata, next, i - 1);
      TurnsNext(sizes, metadata, next, i);
      NextInStep(Turns(sizes, metadata, next, i - 1), plan, sizes, metadata, next, i - 1);
    }
  }

  lemma NextInStep(s: Splitting, plan: seq<Planned>, sizes: seq<nat>, metadata: nat, next: nat, i: nat)
    requires i < |sizes| && sizes[i] >= 1 && GreedyPlan(plan, sizes, metadata, next) && InStep(s, plan, sizes, i)
    ensures InStep(Turn(s, sizes[i], metadata), plan, sizes, i + 1)
  {
    hide Tiles, Greedy, Numbered, Turn;
    var n := |s.plan|;
    if i < plan[n].range.end {
      StaysInMessage(s, plan, sizes, metadata, i);
    } else {
      OthersAreBefore(plan, sizes, n);
      TilesAt(plan, |sizes|, n);
      assert plan[n + 1] in plan && plan[n] in plan;
      StartsMessage(s, plan, sizes, metadata, next, i);
    }
  }

  lemma TurnsNext(sizes: seq<nat>, metadata: nat, next: nat, i: nat)
    requires 0 < i <= |sizes|
    ensures Turns(sizes, metadata, next, i) == Turn(Turns(sizes, metadata, next, i - 1), sizes[i - 1], metadata)
    ensures Turns(sizes, metadata, next, 0) == FirstTurn(metadata, next)
  {
    hide Turn;
  }

  lemma NoTiles(n: nat)
    ensures Tiles([], n) <==> n == 0
  {
  }

  lemma FirstInStep(plan: seq<Planned>, sizes: seq<nat>, metadata: nat, next: nat)
    requires sizes != [] && sizes[0] >= 1 && next < INDEX_SPACE && GreedyPlan(plan, sizes, metadata, next)
    ensures InStep(Turns(sizes, metadata, next, 1), plan, sizes, 1)
  {
    hide Tiles, Greedy;
    assert plan != [] by { NoTiles(|sizes|); }
    assert plan[0] in plan;
    TilesAt(plan, |sizes|, 0);
    TurnsNext(sizes, metadata, next, 1);
    assert IndexAt(next, 0) == next && plan[..0] == [];
    NextBody(sizes, 0, 0);
  }

  lemma StaysInMessage(s: Splitting, plan: seq<Planned>, sizes: seq<nat>, metadata: nat, i: nat)
    requires i < |sizes| && InStep(s, plan, sizes, i) && i < plan[|s.plan|].range.end && Greedy(plan, sizes)
    ensures InStep(Turn(s, sizes[i], metadata), plan, sizes, i + 1)
  {
    hide Joins, MustSplit, Full;
    assert plan[|s.plan|] in plan;
    JoinsIff(s, sizes[i]);
    NextBody(sizes, s.range.start, i);
  }

  lemma StartsMessage(s: Splitting, plan: seq<Planned>, sizes: seq<nat>, metadata: nat, next: nat, i: nat)
    requires i < |sizes| && InStep(s, plan, sizes, i) && i == plan[|s.plan|].range.end
    requires Greedy(plan, sizes) && Numbered(plan, metadata, next) && sizes[i] >= 1
    requires |s.plan| + 1 < |plan| && plan[|s.plan| + 1].range.start == i < plan[|s.plan| + 1].range.end
    requires Precise(plan[|s.plan|], sizes)
    ensures InStep(Turn(s, sizes[i], metadata), plan, sizes, i + 1)
  {
    hide Joins, MustSplit, Together, RequiredSpace;
    var n := |s.plan|;
    var p := plan[n];
    assert p in plan[..|plan| - 1] && Full(p, sizes);
    JoinsIff(s, sizes[i]);
    NextBody(sizes, i, i);
    NextAfter(next, n);
    assert plan[..n + 1] == plan[..n] + [p];
  }

  /** The plan of the loop is the greedy plan, and there is no other. */
  lemma PlanIffGreedy(plan: seq<Planned>, sizes: seq<nat>, metadata: nat, next: nat, tracked: bool)
    requires next < INDEX_SPACE && sizes != [] && forall size <- sizes :: size >= 1
    ensures plan == FinalPlan(sizes, metadata, next, tracked) <==> GreedyPlan(plan, sizes, metadata, next)
  {
    PlanIsGreedy(sizes, metadata, next, tracked);
    if GreedyPlan(plan, sizes, metadata, next) {
      hide Turns, InStep, GreedyPlan;
      TurnsFollow(plan, sizes, metadata, next, |sizes|);
      LastInStep(Turns(sizes, metadata, next, |sizes|), plan, sizes, metadata, next);
    }
  }

  lemma LastInStep(s: Splitting, plan: seq<Planned>, sizes: seq<nat>, metadata: nat, next: nat)
    requires InStep(s, plan, sizes, |sizes|) && GreedyPlan(plan, sizes, metadata, next)
    ensures plan == s.plan + [LastPlanned(s)] && s.range.start != s.range.end
  {
    hide Tiles, Greedy, Numbered;
    OthersAreBefore(plan, sizes, |s.plan|);
    TilesAt(plan, |sizes|, |s.plan|);
    assert plan[|s.plan|] in plan;
  }

  lemma OthersAreBefore(plan: seq<Planned>, sizes: seq<nat>, k: nat)
    requires Tiles(plan, |sizes|) && (forall p <- plan :: Precise(p, sizes)) && k < |plan|
    ensures k + 1 < |plan| ==> plan[k].range.end < |sizes|
  {
    hide Tiles;
    TilesAt(plan, |sizes|, k);
    if k + 1 < |plan| {
      assert plan[k + 1] in plan;
    }
  }

  /** Entities that fit one packet together are sent in one message. */
  lemma OneMessageIfOnePacket(sizes: seq<nat>, metadata: nat, next: nat, tracked: bool)
    requires next < INDEX_SPACE && sizes != [] && forall size <- sizes :: size >= 1
    requires metadata + RequiredSpace(next) + Sum(sizes) <= MAX_PACKET_SIZE
    ensures
      var header := metadata + RequiredSpace(next);
      FinalPlan(sizes, metadata, next, tracked) == [Planned(next, header, header + Sum(sizes), Range(0, |sizes|))]
  {
    var header := metadata + RequiredSpace(next);
    OneIsGreedy(sizes, metadata, next, Planned(next, header, header + Sum(sizes), Range(0, |sizes|)));
    hide FinalPlan, GreedyPlan;
    PlanIffGreedy([Planned(next, header, header + Sum(sizes), Range(0, |sizes|))], sizes, metadata, next, tracked);
  }

  lemma OneIsGreedy(sizes: seq<nat>, metadata: nat, next: nat, p: Planned)
    requires next < INDEX_SPACE && sizes != [] && forall size <- sizes :: size >= 1
    requires p == Planned(next, metadata + RequiredSpace(next), metadata + RequiredSpace(next) + Sum(sizes), Range(0, |sizes|))
    requires p.size <= MAX_PACKET_SIZE
    ensures GreedyPlan([p], sizes, metadata, next)
  {
    assert sizes[0..|sizes|] == sizes;
    OneIsTogether(sizes, p.header);
    OneTiles(p);
    hide Together, Tiles, Sum, RequiredSpace;
    assert IndexAt(next, 0) == next && [p][..0] == [];
  }

  lemma OneTiles(p: Planned)
    requires p.range.start == 0
    ensures Tiles([p], p.range.end)
  {
    NoTiles(0);
    TilesNext([], 0, p);
    assert [] + [p] == [p];
  }

  lemma OneIsTogether(sizes: seq<nat>, header: nat)
    requires header >= 1 && (forall size <- sizes :: size >= 1) && header + Sum(sizes) <= MAX_PACKET_SIZE
    ensures Together(sizes, header, Range(0, |sizes|))
  {
    hide Joins;
    forall i | 0 < i < |sizes| ensures Joins(header, Sum(sizes[0..i]), sizes[i]) {
      SumOfFirst(sizes, i);
      assert sizes[i] in sizes;
      OnePacketJoins(header, Sum(sizes[0..i]), sizes[i]);
    }
  }

  lemma OnePacketJoins(header: nat, body: nat, add: nat)
    requires header >= 1 && add >= 1 && header + body + add <= MAX_PACKET_SIZE
    ensures Joins(header, body, add)
  {
  }

  lemma {:induction false} SumOfFirst(sizes: seq<nat>, i: nat)
    requires i < |sizes|
    ensures Sum(sizes[0..i]) + sizes[i] <= Sum(sizes)
    decreases |sizes|
  {
    var init := sizes[..|sizes| - 1];
    if i < |init| {
      SumOfFirst(init, i);
      assert init[0..i] == sizes[0..i];
    } else {
      assert sizes[0..i] == init;
    }
  }

  function EmptyPlan(metadata: nat, index: nat): Planned {
    Planned(index, metadata + RequiredSpace(index), metadata + RequiredSpace(index), Range(0, 0))
  }

  function Flatten(groups: seq<seq<Entity>>): seq<Entity> {
    if groups == [] then [] else Flatten(groups[..|groups| - 1]) + groups[|groups| - 1]
  }

  /** The groups are the entities, in order, each once. */
  lemma {:induction false} GroupsPartition(entities: seq<Entity>, plan: seq<Planned>, n: nat)
    requires Tiles(plan, n) && n <= |entities| && PlanFits(plan, |entities|)
    ensures Flatten(Groups(entities, plan)) == entities[..n]
  {
    if plan != [] {
      var init, last := plan[..|plan| - 1], plan[|plan| - 1];
      assert last in plan && plan == init + [last];
      GroupsPartition(entities, init, last.range.start);
      NextGroup(entities, init, last);
      var groups := Groups(entities, plan);
      assert groups[..|groups| - 1] == Groups(entities, init);
      assert entities[..last.range.start] + entities[last.range.start..n] == entities[..n];
    }
  }

  /** Every planned message fits one packet if and only if every entity does with the header of its message. */
  lemma OnePacketIff(plan: seq<Planned>, sizes: seq<nat>)
    requires PlanOk(plan, sizes)
    ensures (forall p <- plan :: p.size <= MAX_PACKET_SIZE) <==>
      forall p <- plan, j | p.range.start <= j < p.range.end :: p.header + sizes[j] <= MAX_PACKET_SIZE
  {
    forall p <- plan ensures p.size <= MAX_PACKET_SIZE <==>
      forall j | p.range.start <= j < p.range.end :: p.header + sizes[j] <= MAX_PACKET_SIZE
    {
      assert PlannedOk(p, sizes);
      OnePacketOnly(p, sizes);
    }
  }

  lemma OnePacketOnly(p: Planned, sizes: seq<nat>)
    requires PlannedOk(p, sizes)
    ensures p.size <= MAX_PACKET_SIZE <==>
      forall j | p.range.start <= j < p.range.end :: p.header + sizes[j] <= MAX_PACKET_SIZE
  {
    var body := sizes[p.range.start..p.range.end];
    forall j | p.range.start <= j < p.range.end ensures sizes[j] <= Sum(body) {
      PartOfSum(body, j - p.range.start);
    }
    var j :| p.range.start <= j < p.range.end && NoDearer(p.header, Sum(body), sizes[j]);
    assert forall n: nat :: Packets(n) <= 1 <==> n <= MAX_PACKET_SIZE;
    assert Packets(p.header + Sum(body)) <= Packets(p.header + sizes[j]);
  }

  lemma {:induction false} PartOfSum(sizes: seq<nat>, j: nat)
    requires j < |sizes|
    ensures sizes[j] <= Sum(sizes)
  {
    if j < |sizes| - 1 {
      PartOfSum(sizes[..|sizes| - 1], j);
    }
  }

  /**
   The size of a message is exact: what is planned for it, less what was reserved for the number of messages but
   not needed.
   */
  lemma PlannedSizeIsExact(data: Bytes, ms: seq<ComponentChanges>, p: Planned, updateTick: Bytes, tick: Bytes,
                           tracked: bool, count: nat)
    requires ChangesIn(ms, data) && |updateTick| == |tick| == 4 && p.range.start <= p.range.end <= |ms|
    requires p.header == Metadata(tracked) + RequiredSpace(p.index)
    requires p.size == p.header + Sum(Sizes(ms)[p.range.start..p.range.end])
    ensures
      var items := ItemsIn(data, ms)[p.range.start..p.range.end];
      |EncodeMutate(updateTick, tick, tracked, count, p.index, items)|
      == p.size - if tracked then MAX_COUNT_SIZE - RequiredSpace(count) else 0
  {
    hide AllMutations, RequiredSpace, Sum, Sizes, ItemsIn, ChangesIn;
    var items, part := ItemsIn(data, ms)[p.range.start..p.range.end], ms[p.range.start..p.range.end];
    EncodedSize(updateTick, tick, tracked, count, p.index, items);
    PartIs(data, ms, p.range);
    SumIsWritten(data, part);
  }

  lemma EncodedSize(updateTick: Bytes, tick: Bytes, tracked: bool, count: nat, index: nat, items: seq<Item>)
    requires |updateTick| == |tick| == 4
    ensures |EncodeMutate(updateTick, tick, tracked, count, index, items)| ==
      8 + (if tracked then RequiredSpace(count) else 0) + RequiredSpace(index) + |AllMutations(items)|
  {
    hide AllMutations, RequiredSpace;
  }

  lemma PartIs(data: Bytes, ms: seq<ComponentChanges>, r: Range)
    requires ChangesIn(ms, data) && r.start <= r.end <= |ms|
    ensures ChangesIn(ms[r.start..r.end], data)
    ensures Sizes(ms[r.start..r.end]) == Sizes(ms)[r.start..r.end]
    ensures ItemsIn(data, ms[r.start..r.end]) == ItemsIn(data, ms)[r.start..r.end]
  {
    hide MutationSize, Slice, Chunks;
  }

  /** The ticks of the header, and the most that the number of messages may take. */
  function Metadata(tracked: bool): nat {
    8 + if tracked then MAX_COUNT_SIZE else 0
  }

  /** What is reserved for the number of messages is enough exactly for numbers below 2^63. */
  lemma CountFitsIff(count: nat)
    ensures RequiredSpace(count) <= MAX_COUNT_SIZE <==> count < 0x8000_0000_0000_0000
  {
    RequiredSpaceIff(count, 9);
    assert Power128(9) == 0x80 * Power128(8) == 0x4000 * Power128(7) == 0x20_0000 * Power128(6);
    assert Power128(6) == 0x80 * Power128(5) == 0x4000 * Power128(4) == 0x20_0000 * Power128(3);
    assert Power128(3) == 0x80 * Power128(2) == 0x4000 * Power128(1) == 0x20_0000 * Power128(0);
  }

  /** What is reserved for the number of messages and not written. */
  function Gap(tracked: bool, count: nat): int {
    if tracked then MAX_COUNT_SIZE - RequiredSpace(count) else 0
  }

  /** The bytes of a planned message. */
  function SentBytes(data: Bytes, ms: seq<ComponentChanges>, p: Planned, updateTick: Bytes, tick: Bytes, tracked: bool, count: nat): Bytes
    requires ChangesIn(ms, data) && p.range.start <= p.range.end <= |ms|
  {
    EncodeMutate(updateTick, tick, tracked, count, p.index, ItemsIn(data, ms)[p.range.start..p.range.end])
  }

  /** By how much an entity does not fit a packet behind the reserved header. */
  function Excess(p: Planned, size: nat): int {
    p.header + size - MAX_PACKET_SIZE
  }

  /** The entity fits behind the reserved header, or it and all the others of its message use the gap at most. */
  predicate InPacket(p: Planned, sizes: seq<nat>, j: nat, gap: int)
    requires p.range.start <= j < p.range.end <= |sizes|
  {
    Excess(p, sizes[j]) <= 0 || Excess(p, sizes[j]) + (Sum(sizes[p.range.start..p.range.end]) - sizes[j]) <= gap
  }

  /**
   When what is sent fits packets, tracked or not: if and only if every entity fits behind the header that is reserved,
   or lies in the gap between that header and the written one and leaves room there for its whole message.
   */
  lemma SentFitsIff(data: Bytes, ms: seq<ComponentChanges>, next: nat, updateTick: Bytes, tick: Bytes, tracked: bool)
    requires ChangesIn(ms, data) && ms != [] && |updateTick| == |tick| == 4 && next < INDEX_SPACE
    requires
      var plan := FinalPlan(Sizes(ms), Metadata(tracked), next, tracked);
      |plan| < 0x8000_0000_0000_0000 && PlanFits(plan, |ms|)
    ensures
      var sizes, plan := Sizes(ms), FinalPlan(Sizes(ms), Metadata(tracked), next, tracked);
      (forall p <- plan :: |SentBytes(data, ms, p, updateTick, tick, tracked, |plan|)| <= MAX_PACKET_SIZE) <==>
        forall p <- plan, j | p.range.start <= j < p.range.end :: InPacket(p, sizes, j, Gap(tracked, |plan|))
  {
    hide InPacket, SentBytes, FinalPlan, Gap, Sizes, ChangesIn, Cheap, Tiles, Metadata;
    var sizes, plan := Sizes(ms), FinalPlan(Sizes(ms), Metadata(tracked), next, tracked);
    PlanIsOk(sizes, Metadata(tracked), next, tracked);
    forall p <- plan
      ensures |SentBytes(data, ms, p, updateTick, tick, tracked, |plan|)| <= MAX_PACKET_SIZE <==>
        forall j | p.range.start <= j < p.range.end :: InPacket(p, sizes, j, Gap(tracked, |plan|))
    {
      var k :| 0 <= k < |plan| && plan[k] == p;
      assert PlannedOk(p, sizes);
      SentSize(data, ms, p, updateTick, tick, tracked, |plan|);
      GapFits(tracked, |plan|);
      MessageFitsIff(p, sizes, Gap(tracked, |plan|));
    }
  }

  lemma GapFits(tracked: bool, count: nat)
    requires count < 0x8000_0000_0000_0000
    ensures Gap(tracked, count) >= 0
  {
    CountFitsIff(count);
  }

  lemma SentSize(data: Bytes, ms: seq<ComponentChanges>, p: Planned, updateTick: Bytes, tick: Bytes, tracked: bool, count: nat)
    requires ChangesIn(ms, data) && |updateTick| == |tick| == 4 && p.range.start <= p.range.end <= |ms|
    requires p.header == Metadata(tracked) + RequiredSpace(p.index)
    requires p.size == p.header + Sum(Sizes(ms)[p.range.start..p.range.end])
    ensures |SentBytes(data, ms, p, updateTick, tick, tracked, count)| == p.size - Gap(tracked, count)
  {
    PlannedSizeIsExact(data, ms, p, updateTick, tick, tracked, count);
  }

  lemma MessageFitsIff(p: Planned, sizes: seq<nat>, gap: int)
    requires PlannedOk(p, sizes) && gap >= 0
    ensures p.size - gap <= MAX_PACKET_SIZE <==> forall j | p.range.start <= j < p.range.end :: InPacket(p, sizes, j, gap)
  {
    OnePacketOnly(p, sizes);
    var first := p.range.start;
    assert InPacket(p, sizes, first, gap) ==> Excess(p, sizes[first]) <= 0 || p.size - MAX_PACKET_SIZE <= gap;
    if p.size > MAX_PACKET_SIZE {
      var j :| p.range.start <= j < p.range.end && p.header + sizes[j] > MAX_PACKET_SIZE;
      assert InPacket(p, sizes, j, gap) <==> p.size - MAX_PACKET_SIZE <= gap;
    }
  }

  /**
   With tracking, packing goes by the reserved header. Two entities of a size that fits one packet behind the header
   that is written are sent in messages of one packet if and only if the size fits behind the reserved one, too:
   otherwise they are put into one message.
   */
  lemma PairFitsIff(size: nat, next: nat)
    requires size >= 1 && next < INDEX_SPACE && 9 + RequiredSpace(next) + size <= MAX_PACKET_SIZE
    ensures
      var plan := FinalPlan([size, size], Metadata(true), next, true);
      && (forall p <- plan :: p.size - Gap(true, |plan|) <= MAX_PACKET_SIZE) <==>
           Metadata(true) + RequiredSpace(next) + size <= MAX_PACKET_SIZE
  {
    hide RequiredSpace, FinalPlan, MustSplit;
    SmallIndex(next);
    SmallIndex(IndexAt(next, 1));
    PairPlan(size, next);
    PairSplitsIff(17 + RequiredSpace(next), size, next);
    assert RequiredSpace(1) == RequiredSpace(2) == 1 by { FewMessages(); }
  }

  lemma FewMessages()
    ensures RequiredSpace(1) == RequiredSpace(2) == 1
  {
  }

  lemma SmallIndex(index: nat)
    requires index < INDEX_SPACE
    ensures 1 <= RequiredSpace(index) <= 3
  {
    RequiredSpaceIff(index, 3);
    assert Power128(3) == 0x80 * Power128(2) == 0x4000 * Power128(1) == 0x20_0000 * Power128(0);
  }

  lemma PairSplitsIff(header: nat, size: nat, next: nat)
    requires 18 <= header <= 20 && size >= 1 && header - 8 + size <= MAX_PACKET_SIZE
    ensures MustSplit(Splitting([], next, header, size, Range(0, 1)), size) <==>
      header + size <= MAX_PACKET_SIZE < header + 2 * size
  {
    var m := header + size;
    assert m < 1200 ==> m % 1200 == m;
    assert 1200 < m <= 1208 ==> m % 1200 == m - 1200;
  }

  lemma PairPlan(size: nat, next: nat)
    requires size >= 1
    ensures
      var header, second := 17 + RequiredSpace(next), IndexAt(next, 1);
      FinalPlan([size, size], Metadata(true), next, true) ==
        if MustSplit(Splitting([], next, header, size, Range(0, 1)), size)
        then [Planned(next, header, size + header, Range(0, 1)),
              Planned(second, 17 + RequiredSpace(second), size + 17 + RequiredSpace(second), Range(1, 2))]
        else [Planned(next, header, 2 * size + header, Range(0, 2))]
  {
    hide RequiredSpace, CanPack;
    var sizes := [size, size];
    var first := Splitting([], next, 17 + RequiredSpace(next), size, Range(0, 1));
    assert Turns(sizes, 17, next, 1) == Turn(FirstTurn(17, next), size, 17) == first;
    assert Turns(sizes, 17, next, 2) == Turn(first, size, 17);
  }

  /** All the indices that `n` messages can take need `w` bytes. */
  ghost predicate SameWidth(next: nat, n: nat, w: nat) {
    forall k :: 0 <= k <= n ==> RequiredSpace(IndexAt(next, k)) == w
  }

  /** Every entity alone fits a packet of which `gap` bytes are not written, and none is smaller than those. */
  ghost predicate FitAlone(sizes: seq<nat>, header: nat, gap: nat) {
    forall z <- sizes :: z >= 1 && z >= gap && header + z <= MAX_PACKET_SIZE + gap
  }

  /** One of the first `i` entities does not fit behind the header. */
  ghost predicate Over(sizes: seq<nat>, header: nat, i: nat)
    requires i <= |sizes|
  {
    exists j :: 0 <= j < i && header + sizes[j] > MAX_PACKET_SIZE
  }

  /** A message that is planned, or the one that is being filled, is longer than `limit`. */
  ghost predicate TooLong(s: Splitting, limit: nat) {
    s.header + s.body > limit || exists p <- s.plan :: p.size > limit
  }

  /** What is too long stays so: its message only grows or is closed. */
  lemma TurnKeepsLong(s: Splitting, size: nat, metadata: nat, limit: nat)
    requires TooLong(s, limit)
    ensures TooLong(Turn(s, size, metadata), limit)
  {
    hide MustSplit, RequiredSpace;
    var closed := Planned(s.index, s.header, s.body + s.header, s.range);
    if MustSplit(s, size) {
      var plan := s.plan + [closed];
      assert closed in plan && forall p <- s.plan :: p in plan;
    }
  }

  /** Behind a header, what exceeds a packet a little leaves room for any neighbour. */
  lemma PacksWith(header: nat, long: nat, other: nat, gap: nat)
    requires gap <= 8 && 18 <= header && MAX_PACKET_SIZE < header + long <= MAX_PACKET_SIZE + gap
    requires header + other <= MAX_PACKET_SIZE + gap
    ensures CanPack(header + long, other)
  {
    assert (header + long) % 1200 == header + long - 1200;
  }

  /** An entity that does not fit is put together with its neighbour. */
  lemma TurnGetsLong(s: Splitting, size: nat, metadata: nat, gap: nat)
    requires gap <= 8 && 18 <= s.header && s.body >= 1 && s.body >= gap && size >= 1 && size >= gap
    requires s.header + size <= MAX_PACKET_SIZE + gap
    requires s.header + s.body > MAX_PACKET_SIZE || s.header + size > MAX_PACKET_SIZE
    ensures TooLong(Turn(s, size, metadata), MAX_PACKET_SIZE + gap)
  {
    if TooLong(s, MAX_PACKET_SIZE + gap) {
      TurnKeepsLong(s, size, metadata, MAX_PACKET_SIZE + gap);
    } else if s.header + size > MAX_PACKET_SIZE {
      PacksWith(s.header, size, s.body, gap);
    } else {
      PacksWith(s.header, s.body, size, gap);
    }
  }

  /** The state of the loop after `i` entities. */
  ghost predicate LongAfter(sizes: seq<nat>, next: nat, header: nat, gap: nat, i: nat)
    requires i <= |sizes|
  {
    var s := Turns(sizes, 17, next, i);
    && s.header == header && s.index == IndexAt(next, |s.plan|) && |s.plan| <= i
    && (i > 0 ==> s.body >= 1 && s.body >= gap && |s.plan| < i)
    && (i == 1 ==> s.body == sizes[0])
    && (i >= 2 && Over(sizes, header, i) ==> TooLong(s, MAX_PACKET_SIZE + gap))
  }

  lemma {:induction false} TurnsLong(sizes: seq<nat>, next: nat, w: nat, gap: nat, i: nat)
    requires i <= |sizes| && next < INDEX_SPACE && gap <= 8 && w >= 1
    requires SameWidth(next, |sizes|, w) && FitAlone(sizes, 17 + w, gap)
    ensures LongAfter(sizes, next, 17 + w, gap, i)
  {
    if i == 0 {
      assert IndexAt(next, 0) == next;
    } else {
      TurnsLong(sizes, next, w, gap, i - 1);
      var s, size := Turns(sizes, 17, next, i - 1), sizes[i - 1];
      assert size in sizes;
      NextAfter(next, |s.plan|);
      if i >= 2 && Over(sizes, 17 + w, i) {
        LongNext(sizes, next, w, gap, i);
      }
    }
  }

  lemma LongNext(sizes: seq<nat>, next: nat, w: nat, gap: nat, i: nat)
    requires 2 <= i <= |sizes| && gap <= 8 && w >= 1 && FitAlone(sizes, 17 + w, gap)
    requires LongAfter(sizes, next, 17 + w, gap, i - 1) && Over(sizes, 17 + w, i)
    ensures TooLong(Turns(sizes, 17, next, i), MAX_PACKET_SIZE + gap)
  {
    hide Turn, TooLong;
    var s, size := Turns(sizes, 17, next, i - 1), sizes[i - 1];
    assert size in sizes;
    if 17 + w + size > MAX_PACKET_SIZE || i == 2 {
      TurnGetsLong(s, size, 17, gap);
    } else {
      assert Over(sizes, 17 + w, i - 1);
      TurnKeepsLong(s, size, 17, MAX_PACKET_SIZE + gap);
    }
  }

  /** Planned sizes, less what is not written, fit packets if and only if every entity fits behind the reserved header. */
  lemma PlannedFitIff(sizes: seq<nat>, next: nat, w: nat, gap: nat)
    requires |sizes| >= 2 && next < INDEX_SPACE && gap <= 8 && w >= 1
    requires SameWidth(next, |sizes|, w) && FitAlone(sizes, 17 + w, gap)
    ensures (forall p <- FinalPlan(sizes, 17, next, true) :: p.size <= MAX_PACKET_SIZE + gap)
       <==> forall z <- sizes :: 17 + w + z <= MAX_PACKET_SIZE
  {
    hide FinalPlan, SameWidth, Cheap, Tiles;
    if forall z <- sizes :: 17 + w + z <= MAX_PACKET_SIZE {
      AllFit(sizes, next, w);
    } else {
      var z :| z in sizes && 17 + w + z > MAX_PACKET_SIZE;
      SomeIsLong(sizes, next, w, gap, z);
    }
  }

  lemma AllFit(sizes: seq<nat>, next: nat, w: nat)
    requires sizes != [] && next < INDEX_SPACE && SameWidth(next, |sizes|, w)
    requires forall z <- sizes :: z >= 1 && 17 + w + z <= MAX_PACKET_SIZE
    ensures forall p <- FinalPlan(sizes, 17, next, true) :: p.size <= MAX_PACKET_SIZE
  {
    hide FinalPlan, SameWidth, Cheap, Tiles;
    var plan := FinalPlan(sizes, 17, next, true);
    PlanIsOk(sizes, 17, next, true);
    HeadersAre(sizes, plan, next, w);
    forall p <- plan, j | p.range.start <= j < p.range.end ensures p.header + sizes[j] <= MAX_PACKET_SIZE {
      assert PlannedOk(p, sizes) && sizes[j] in sizes;
    }
    OnePacketIff(plan, sizes);
  }

  lemma SomeIsLong(sizes: seq<nat>, next: nat, w: nat, gap: nat, z: nat)
    requires |sizes| >= 2 && next < INDEX_SPACE && gap <= 8 && w >= 1
    requires SameWidth(next, |sizes|, w) && FitAlone(sizes, 17 + w, gap)
    requires z in sizes && 17 + w + z > MAX_PACKET_SIZE
    ensures exists p <- FinalPlan(sizes, 17, next, true) :: p.size > MAX_PACKET_SIZE + gap
  {
    hide Turns, SameWidth, FitAlone;
    var j :| 0 <= j < |sizes| && sizes[j] == z;
    assert Over(sizes, 17 + w, |sizes|);
    TurnsLong(sizes, next, w, gap, |sizes|);
    var s, plan := Turns(sizes, 17, next, |sizes|), FinalPlan(sizes, 17, next, true);
    assert LastPlanned(s) in plan && forall p <- s.plan :: p in plan;
  }

  lemma HeadersAre(sizes: seq<nat>, plan: seq<Planned>, next: nat, w: nat)
    requires Numbered(plan, 17, next) && Tiles(plan, |sizes|) && PlanOk(plan, sizes) && SameWidth(next, |sizes|, w)
    ensures forall p <- plan :: p.header == 17 + w
  {
    hide RequiredSpace, Cheap;
    TilesAreFew(plan, |sizes|, sizes);
    forall p <- plan ensures p.header == 17 + w {
      var k :| 0 <= k < |plan| && plan[k] == p;
    }
  }

  lemma {:induction false} TilesAreFew(plan: seq<Planned>, n: nat, sizes: seq<nat>)
    requires Tiles(plan, n) && PlanOk(plan, sizes)
    ensures |plan| <= n
  {
    hide Cheap;
    if plan != [] {
      var init, last := plan[..|plan| - 1], plan[|plan| - 1];
      assert last in plan && forall p <- init :: p in plan;
      TilesAreFew(init, last.range.start, sizes);
    }
  }

  /**
   With tracking, packing goes by the reserved header, which is longer than the one that is written. Entities that each
   fit one packet alone are sent in messages of one packet if and only if there is but one, or every one fits behind the
   reserved header: an entity in between is always put together with a neighbour. This can be told from the sizes, as
   long as they are not smaller than what is reserved in vain and all indices need the same number of bytes.
   */
  lemma TrackedFitsIff(data: Bytes, ms: seq<ComponentChanges>, next: nat, w: nat, updateTick: Bytes, tick: Bytes)
    requires ChangesIn(ms, data) && ms != [] && |updateTick| == |tick| == 4 && next < INDEX_SPACE
    requires SameWidth(next, |ms|, w) && 1 <= w <= 3
    requires
      var plan := FinalPlan(Sizes(ms), Metadata(true), next, true);
      && |plan| < 0x8000_0000_0000_0000 && PlanFits(plan, |ms|)
      && forall z <- Sizes(ms) :: z >= Gap(true, |plan|) && 8 + RequiredSpace(|plan|) + w + z <= MAX_PACKET_SIZE
    ensures
      var plan := FinalPlan(Sizes(ms), Metadata(true), next, true);
      (forall p <- plan :: |SentBytes(data, ms, p, updateTick, tick, true, |plan|)| <= MAX_PACKET_SIZE) <==>
        |ms| == 1 || forall z <- Sizes(ms) :: Metadata(true) + w + z <= MAX_PACKET_SIZE
  {
    hide SentBytes, FinalPlan, Cheap, Tiles, SameWidth, ChangesIn, RequiredSpace;
    var sizes, plan := Sizes(ms), FinalPlan(Sizes(ms), Metadata(true), next, true);
    var gap := Gap(true, |plan|);
    GapFits(true, |plan|);
    PlanIsOk(sizes, 17, next, true);
    forall p <- plan ensures |SentBytes(data, ms, p, updateTick, tick, true, |plan|)| == p.size - gap {
      var k :| 0 <= k < |plan| && plan[k] == p;
      assert PlannedOk(p, sizes);
      SentSize(data, ms, p, updateTick, tick, true, |plan|);
    }
    if |ms| == 1 {
      SingleFits(sizes, plan, next, w, gap);
    } else {
      PlannedFitIff(sizes, next, w, gap);
    }
  }

  lemma SingleFits(sizes: seq<nat>, plan: seq<Planned>, next: nat, w: nat, gap: nat)
    requires |sizes| == 1 && Numbered(plan, 17, next) && Tiles(plan, 1) && PlanOk(plan, sizes) && SameWidth(next, 1, w)
    requires FitAlone(sizes, 17 + w, gap)
    ensures forall p <- plan :: p.size <= MAX_PACKET_SIZE + gap
  {
    HeadersAre(sizes, plan, next, w);
    forall p <- plan ensures p.size <= MAX_PACKET_SIZE + gap {
      assert PlannedOk(p, sizes) && sizes[0] in sizes;
      assert sizes[p.range.start..p.range.end] == sizes && sizes[..0] == [];
      assert Sum(sizes) == Sum([]) + sizes[0];
    }
  }

  /** An instance: two entities that fill a packet each are sent in one message of two packets. */
  lemma ReservedHeaderIsNotTheWrittenOne()
    ensures
      var plan := FinalPlan([1190, 1190], Metadata(true), 0, true);
      exists p <- plan :: p.size - Gap(true, |plan|) > MAX_PACKET_SIZE
  {
    var sizes := [1190, 1190];
    assert SameWidth(0, 2, 1) && sizes[0] in sizes && FitAlone(sizes, 18, 8);
    hide FinalPlan, SameWidth, FitAlone, RequiredSpace;
    SomeIsLong(sizes, 0, 1, 8, 1190);
    GapIsSmall(|FinalPlan(sizes, 17, 0, true)|);
  }

  lemma GapIsSmall(count: nat)
    ensures Gap(true, count) <= 8
  {
  }

  class MutateMessage {
    var entities: seq<Entity>
    var mutations: seq<ComponentChanges>
    var mutationsWritten: bool

    constructor ()
      ensures entities == [] && mutations == [] && !mutationsWritten
    {
      entities, mutations, mutationsWritten := [], [], false;
    }

    method StartEntityMutations()
      modifies this`mutationsWritten
      ensures !mutationsWritten
    {
      mutationsWritten := false;
    }

    method AddMutatedEntity(e: Entity, entity: Range)
      modifies this
      ensures entities == old(entities) + [e] && mutationsWritten
      ensures mutations == old(mutations) + [ComponentChanges(entity, 0, [])]
    {
      mutations := mutations + [ComponentChanges(entity, 0, [])];
      entities := entities + [e];
      mutationsWritten := true;
    }

    /** Adds a component to the entity that was added last. */
    method AddMutatedComponent(component: Range)
      requires mutations != []
      modifies this`mutations
      ensures
        var n := |old(mutations)| - 1;
        mutations == old(mutations)[..n] + [old(mutations)[n].AddComponent(component)]
    {
      var n := |mutations| - 1;
      mutations := mutations[..n] + [mutations[n].AddComponent(component)];
    }

    method PopMutations()
      modifies this`entities, this`mutations
      ensures entities == if old(entities) == [] then [] else old(entities)[..|old(entities)| - 1]
      ensures mutations == if old(mutations) == [] then [] else old(mutations)[..|old(mutations)| - 1]
    {
      if entities != [] {
        entities := entities[..|entities| - 1];
      }
      if mutations != [] {
        mutations := mutations[..|mutations| - 1];
      }
    }

    /** All entities are registered with the messages they are planned for. */
    ghost predicate Registers(state: Tracked, t: Tracked, tick: nat, timestamp: nat, s: Splitting)
      reads this
    {
      state == RegisteredAll(t, tick, timestamp, Groups(entities, s.plan) + [Group(entities, s.range)])
    }

    /** Finishes the message that is being filled and starts the next one. */
    method StartNext(client: ReplicatedClient, metadataSize: nat, tick: nat, timestamp: nat, s: Splitting, ghost t: Tracked)
      returns (s': Splitting)
      requires Registers(client.State(), t, tick, timestamp, s) && s.index == IndexAt(t.nextIndex, |s.plan|)
      requires t.nextIndex < INDEX_SPACE && s.range.end <= |entities|
      modifies client`mutations, client`nextMutateIndex
      ensures s' == Closed(s, metadataSize + RequiredSpace(IndexAt(s.index, 1)))
      ensures Registers(client.State(), t, tick, timestamp, s') && s'.index == IndexAt(t.nextIndex, |s'.plan|)
    {
      var done := Planned(s.index, s.header, s.body + s.header, s.range);
      NextGroup(entities, s.plan, done);
      var index := NextMessage(client, tick, timestamp, t, Groups(entities, s.plan) + [Group(entities, s.range)]);
      NextAfter(t.nextIndex, |s.plan|);
      EmptyGroup(entities, s.range.end);
      s' := Splitting(s.plan + [done], index, metadataSize + RequiredSpace(index), 0, Range(s.range.end, s.range.end));
    }

    /** One turn of the splitting loop: tries to pack back first, then to pack forward. */
    method Place(client: ReplicatedClient, metadataSize: nat, tick: nat, timestamp: nat, s: Splitting, i: nat, ghost t: Tracked)
      returns (s': Splitting)
      requires s.range.start <= s.range.end == i < |entities| == |mutations| && t.nextIndex < INDEX_SPACE
      requires Registers(client.State(), t, tick, timestamp, s) && s.index == IndexAt(t.nextIndex, |s.plan|)
      modifies client`mutations, client`nextMutateIndex
      ensures s' == Turn(s, MutationSize(mutations[i]), metadataSize)
      ensures Registers(client.State(), t, tick, timestamp, s') && s'.index == IndexAt(t.nextIndex, |s'.plan|)
    {
      hide RequiredSpace, CanPack, RegisteredAll, Group;
      var mutationsSize := MutationSize(mutations[i]);
      s' := s;
      if s.body != 0 && !CanPack(s.header + s.body, mutationsSize) && !CanPack(s.header + mutationsSize, s.body) {
        s' := StartNext(client, metadataSize, tick, timestamp, s, t);
      }
      GrowGroup(entities, s'.range);
      AddToMessage(client, s'.index, entities[i], tick, timestamp, t, Groups(entities, s'.plan), Group(entities, s'.range));
      s' := s'.(body := s'.body + mutationsSize, range := Range(s'.range.start, s'.range.end + 1));
    }

    /** Distributes the entities over messages, of which the last one is still being filled. */
    method Distribute(client: ReplicatedClient, metadataSize: nat, tick: nat, timestamp: nat) returns (s: Splitting)
      requires |entities| == |mutations| && client.nextMutateIndex < INDEX_SPACE
      modifies client`mutations, client`nextMutateIndex
      ensures s == Turns(Sizes(mutations), metadataSize, old(client.nextMutateIndex), |entities|)
      ensures Registers(client.State(), old(client.State()), tick, timestamp, s)
    {
      ghost var t, sizes := client.State(), Sizes(mutations);
      var index := NextMessage(client, tick, timestamp, t, []);
      EmptyGroup(entities, 0);
      s := Splitting([], index, metadataSize + RequiredSpace(index), 0, Range(0, 0));
      var i := 0;
      while i < |entities|
        invariant i <= |entities| && s == Turns(sizes, metadataSize, t.nextIndex, i)
        invariant Registers(client.State(), t, tick, timestamp, s) && s.index == IndexAt(t.nextIndex, |s.plan|)
      {
        hide Turn, Registers, RequiredSpace;
        TurnsRange(sizes, metadataSize, t.nextIndex, i);
        s := Place(client, metadataSize, tick, timestamp, s, i, t);
        i := i + 1;
      }
    }

    /** Plans the messages and registers their entities, packing greedily. */
    method Split(client: ReplicatedClient, metadataSize: nat, tracked: bool, tick: nat, timestamp: nat)
      returns (plan: seq<Planned>)
      requires |entities| == |mutations| && client.nextMutateIndex < INDEX_SPACE
      modifies client`mutations, client`nextMutateIndex
      ensures plan == FinalPlan(Sizes(mutations), metadataSize, old(client.nextMutateIndex), tracked)
      ensures client.State() == RegisteredAll(old(client.State()), tick, timestamp,
        if plan == [] then [[]] else Groups(entities, plan))
      ensures entities != [] ==> GreedyPlan(plan, Sizes(mutations), metadataSize, old(client.nextMutateIndex))
    {
      hide GreedyPlan;
      ghost var next := client.nextMutateIndex;
      if entities != [] {
        PlanIsGreedy(Sizes(mutations), metadataSize, next, tracked);
      }
      var s := Distribute(client, metadataSize, tick, timestamp);
      TurnsRange(Sizes(mutations), metadataSize, next, |entities|);
      var last := Planned(s.index, s.header, s.body + s.header, s.range);
      NextGroup(entities, s.plan, last);
      plan := if s.range.start != s.range.end || tracked then s.plan + [last] else s.plan;
    }

    /**
     Sends one message per planned range, registered with the client under its index: its bytes are the header
     and the entities of the range, and every message tells how many there are.
     */
    method Send(client: ReplicatedClient, data: Bytes, tracked: bool, serverTick: Range, tick: nat, timestamp: nat)
      returns (messages: seq<Bytes>, ghost plan: seq<Planned>)
      requires |entities| == |mutations| && ChangesIn(mutations, data) && serverTick.In(data) && serverTick.Len() == 4
      requires client.nextMutateIndex < INDEX_SPACE
      modifies client`mutations, client`nextMutateIndex
      ensures plan == FinalPlan(Sizes(mutations), Metadata(tracked), old(client.nextMutateIndex), tracked)
      ensures PlanFits(plan, |mutations|) && |messages| == |plan|
      ensures forall k :: 0 <= k < |plan| ==> messages[k] == PlannedBytes(
        TickBytes(WireTick(client.updateTick)), Slice(data, serverTick), tracked, plan, k, ItemsIn(data, mutations))
      ensures client.State() == RegisteredAll(old(client.State()), tick, timestamp,
        if plan == [] then [[]] else Groups(entities, plan))
    {
      var updateTick := TickBytes(WireTick(client.updateTick));
      var metadataSize := |updateTick| + serverTick.Len() + if tracked then MAX_COUNT_SIZE else 0;
      ghost var next := client.nextMutateIndex;
      var planned := Split(client, metadataSize, tracked, tick, timestamp);
      plan := planned;
      PlanRangesFit(mutations, metadataSize, next, tracked);
      messages := WriteMessages(updateTick, data[serverTick.start..serverTick.end], tracked, planned, data, mutations);
    }
  }

  method WriteMessages(updateTick: Bytes, tick: Bytes, tracked: bool, plan: seq<Planned>, data: Bytes, ms: seq<ComponentChanges>)
    returns (messages: seq<Bytes>)
    requires ChangesIn(ms, data) && PlanFits(plan, |ms|)
    ensures |messages| == |plan|
    ensures forall k :: 0 <= k < |plan| ==>
      messages[k] == PlannedBytes(updateTick, tick, tracked, plan, k, ItemsIn(data, ms))
  {
    messages := [];
    var k := 0;
    while k < |plan|
      invariant k <= |plan| && |messages| == k
      invariant forall i :: 0 <= i < k ==>
        messages[i] == PlannedBytes(updateTick, tick, tracked, plan, i, ItemsIn(data, ms))
    {
      var message := WriteMessage(updateTick, tick, tracked, plan, k, data, ms);
      messages := messages + [message];
      k := k + 1;
    }
  }

  method WriteMessage(updateTick: Bytes, tick: Bytes, tracked: bool, plan: seq<Planned>, k: nat,
                      data: Bytes, ms: seq<ComponentChanges>) returns (message: Bytes)
    requires k < |plan| && ChangesIn(ms, data) && plan[k].range.start <= plan[k].range.end <= |ms|
    ensures message == PlannedBytes(updateTick, tick, tracked, plan, k, ItemsIn(data, ms))
  {
    var p := plan[k];
    message := updateTick + tick;
    if tracked {
      message := message + Varint(|plan|);
    }
    message := message + Varint(p.index);
    HeaderIs(updateTick, tick, tracked, |plan|, p.index);
    var body := WriteBody(data, ms[p.range.start..p.range.end]);
    assert ItemsIn(data, ms[p.range.start..p.range.end]) == ItemsIn(data, ms)[p.range.start..p.range.end];
    message := message + body;
  }

  /** The written ranges lie within the mutations. */
  ghost predicate PlanFits(plan: seq<Planned>, n: nat) {
    forall p <- plan :: p.range.start <= p.range.end <= n
  }

  function PlannedBytes(updateTick: Bytes, tick: Bytes, tracked: bool, plan: seq<Planned>, k: nat, items: seq<Item>): Bytes
    requires k < |plan| && plan[k].range.start <= plan[k].range.end <= |items|
  {
    EncodeMutate(updateTick, tick, tracked, |plan|, plan[k].index, items[plan[k].range.start..plan[k].range.end])
  }

  lemma PlanRangesFit(ms: seq<ComponentChanges>, metadata: nat, next: nat, tracked: bool)
    requires next < INDEX_SPACE
    ensures PlanFits(FinalPlan(Sizes(ms), metadata, next, tracked), |ms|)
  {
    if ms == [] {
      NothingPlanned(metadata, next, tracked);
      assert Sizes(ms) == [];
    } else {
      PlanIsOk(Sizes(ms), metadata, next, tracked);
    }
  }

  lemma HeaderIs(updateTick: Bytes, tick: Bytes, tracked: bool, count: nat, index: nat)
    ensures HeaderBytes(updateTick, tick, tracked, count, index)
         == updateTick + tick + (if tracked then Varint(count) else []) + Varint(index)
  {
    var c := if tracked then Varint(count) else [];
    Associative(tick, c, Varint(index));
    Associative(updateTick, tick, c);
    Associative(updateTick, tick + c, Varint(index));
  }

  method WriteBody(data: Bytes, ms: seq<ComponentChanges>) returns (body: Bytes)
    requires ChangesIn(ms, data)
    ensures body == AllMutations(ItemsIn(data, ms))
  {
    body := [];
    var i := 0;
    while i < |ms|
      invariant 0 <= i <= |ms|
      invariant body == AllMutations(ItemsIn(data, ms)[..i])
    {
      assert ms[i] in ms;
      AllMutationsNext(ItemsIn(data, ms), i);
      var item := data[ms[i].entity.start..ms[i].entity.end] + Varint(ms[i].ComponentsSize());
      item := WriteChunks(item, data, ms[i].components);
      TotalLenIsSize(data, ms[i].components);
      body := body + item;
      i := i + 1;
    }
    assert ItemsIn(data, ms)[..i] == ItemsIn(data, ms);
  }

  lemma {:induction false} AllMutationsNext(items: seq<Item>, i: nat)
    requires i < |items|
    ensures AllMutations(items[..i + 1]) == AllMutations(items[..i]) + MutationBytes(items[i])
  {
    if i == 0 {
      assert items[..1][1..] == [] && items[..0] == [];
    } else {
      AllMutationsNext(items[1..], i - 1);
      assert items[..i + 1][1..] == items[1..][..i] && items[..i][1..] == items[1..][..i - 1];
      Associative(MutationBytes(items[0]), AllMutations(items[1..][..i - 1]), MutationBytes(items[i]));
    }
  }

  method NextMessage(client: ReplicatedClient, tick: nat, timestamp: nat, ghost t: Tracked, ghost groups: seq<seq<Entity>>)
    returns (index: nat)
    requires client.State() == RegisteredAll(t, tick, timestamp, groups) && t.nextIndex < INDEX_SPACE
    modifies client`mutations, client`nextMutateIndex
    ensures index == IndexAt(t.nextIndex, |groups|) && (groups == [] ==> index == t.nextIndex)
    ensures client.State() == RegisteredAll(t, tick, timestamp, groups + [[]])
  {
    IndicesAreConsecutive(t, tick, timestamp, groups);
    RegisterNext(t, tick, timestamp, groups);
    index := client.RegisterMutateMessage(tick, timestamp);
  }

  method AddToMessage(client: ReplicatedClient, index: nat, e: Entity, tick: nat, timestamp: nat,
                      ghost t: Tracked, ghost groups: seq<seq<Entity>>, ghost g: seq<Entity>)
    requires client.State() == RegisteredAll(t, tick, timestamp, groups + [g]) && t.nextIndex < INDEX_SPACE
    requires index == IndexAt(t.nextIndex, |groups|)
    modifies client`mutations
    ensures client.State() == RegisteredAll(t, tick, timestamp, groups + [g + [e]])
  {
    IndicesAreConsecutive(t, tick, timestamp, groups);
    PushIsRegister(t, tick, timestamp, groups, g, e);
    client.PushEntity(index, e);
  }

  lemma RegisterNext(t: Tracked, tick: nat, timestamp: nat, groups: seq<seq<Entity>>)
    ensures Registered(RegisteredAll(t, tick, timestamp, groups), MutateInfo(tick, timestamp, []))
         == RegisteredAll(t, tick, timestamp, groups + [[]])
  {
    assert (groups + [[]])[..|groups|] == groups;
  }

  lemma EmptyGroup(entities: seq<Entity>, i: nat)
    ensures Group(entities, Range(i, i)) == []
  {
  }

  lemma GrowGroup(entities: seq<Entity>, r: Range)
    requires r.start <= r.end < |entities|
    ensures Group(entities, Range(r.start, r.end + 1)) == Group(entities, r) + [entities[r.end]]
  {
  }

  lemma NextGroup(entities: seq<Entity>, plan: seq<Planned>, p: Planned)
    ensures Groups(entities, plan + [p]) == Groups(entities, plan) + [Group(entities, p.range)]
  {
  }
}
