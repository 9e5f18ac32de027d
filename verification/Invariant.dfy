/** The inductive invariant of the protocol. */
module Invariant {
  import opened Domain
  import opened Visibility
  import opened Messages
  import opened Receiver
  import opened Tracker
  import opened Protocol

  // ---------------------------------------------------------------------------------------------
  // The confirmed tick of an entity once some update messages have been applied.

  function Confirmed(r: Replica, e: Entity): Option<nat> {
    if e in r then Some(r[e].confirmed) else None
  }

  function Touch(u: UpdateMsg, e: Entity, c: Option<nat>): Option<nat> {
    if u.Touches(e) then Some(u.tick) else if e in u.despawns then None else c
  }

  function After(us: seq<UpdateMsg>, e: Entity, c: Option<nat>): Option<nat> {
    if us == [] then c else Touch(us[|us| - 1], e, After(us[..|us| - 1], e, c))
  }

  /** The updates that are needed before a mutate message with this update tick may be applied. */
  function UpTo(us: seq<UpdateMsg>, tick: nat): seq<UpdateMsg> {
    if us == [] || us[0].tick > tick then [] else [us[0]] + UpTo(us[1..], tick)
  }

  function InFlight(sys: System): seq<UpdateMsg>
    requires sys.received <= |sys.log|
  {
    sys.log[sys.received..]
  }

  /** The confirmed tick of `e` once everything in flight has arrived. */
  function Settled(sys: System, e: Entity): Option<nat>
    requires sys.received <= |sys.log|
  {
    After(InFlight(sys), e, Confirmed(sys.client.entities, e))
  }

  // ---------------------------------------------------------------------------------------------
  // Parts of the invariant.

  ghost predicate Increasing(us: seq<UpdateMsg>) {
    forall i, j :: 0 <= i < j < |us| ==> us[i].tick < us[j].tick
  }

  ghost predicate TicksOk(sys: System) {
    && sys.received <= |sys.log|
    && Increasing(sys.log)
    && (forall i :: 0 <= i < |sys.log| ==>
          sys.log[i].tick in sys.history && 0 < sys.log[i].tick <= sys.server.tracked.updateTick)
    && (forall i :: 0 <= i < sys.received ==> sys.log[i].tick <= sys.client.updateTick)
    && (forall i :: sys.received <= i < |sys.log| ==> sys.client.updateTick < sys.log[i].tick)
    && sys.client.updateTick <= sys.server.tracked.updateTick <= sys.server.tick
    && (forall t <- sys.history :: t <= sys.server.tick)
    && (sys.history != map[] ==> sys.server.tick in sys.history)
    && (forall m <- sys.lastBatch :: m.tick == sys.server.tick)
  }

  /** Change detection is sound: what is not stamped after a recorded run is as that run saw it. */
  ghost predicate StampsOk(sys: System, e: Entity, t: nat)
    requires t in sys.history
  {
    e in sys.server.world && sys.server.world[e].marker <= t ==>
      var comps := sys.server.world[e].comps;
      && e in sys.history[t]
      && (forall c <- comps :: comps[c].added <= t ==> c in sys.history[t][e])
      && (forall c <- comps :: comps[c].changed <= t ==>
            c in sys.history[t][e] && sys.history[t][e][c] == comps[c].value)
  }

  ghost predicate WorldOk(sys: System) {
    && (forall e <- sys.server.world :: StampedBy(sys.server.world[e], Now(sys)))
    && (forall e, t :: t in sys.history ==> StampsOk(sys, e, t))
  }

  /** Every component that disappeared since the last run has a removal event. */
  ghost predicate RemovalsOk(sys: System, e: Entity) {
    var s := sys.server;
    s.tick in sys.history && e in s.world && s.world[e].marker <= s.tick && e in sys.history[s.tick] ==>
      forall c <- sys.history[s.tick][e] :: c !in s.world[e].comps ==> e in s.removed && c in s.removed[e]
  }

  /** A tracked entity that becomes hidden will be reported as lost. */
  ghost predicate Secure(f: Filter, e: Entity) {
    match f
    case All => true
    case Blacklist(list, added, _) => e in list ==> list[e] == BlackHidden && e in added
    case Whitelist(list, _, removed) => if e in list then list[e] == WhiteVisible else e in removed
  }

  /** The server tracks exactly what the client will have, from a baseline the client will have reached. */
  ghost predicate TrackedOk(sys: System, e: Entity)
    requires sys.received <= |sys.log|
  {
    var t := sys.server.tracked;
    && (e in t.baseline <==> Settled(sys, e).Some?)
    && (e in t.baseline ==>
          var k := Settled(sys, e).value;
          && t.baseline[e] <= k && k in sys.history
          && Secure(t.filter, e)
          && (e in sys.server.despawned || (e in sys.server.world && sys.server.world[e].marker <= k)))
  }

  /** Since its settled tick, a tracked entity has not gained or lost components. */
  ghost predicate StructureOk(sys: System, e: Entity)
    requires sys.received <= |sys.log|
  {
    e in sys.server.tracked.baseline && Settled(sys, e).Some? && Settled(sys, e).value in sys.history ==>
      var k := Settled(sys, e).value;
      forall t <- sys.history :: t >= k ==>
        e in sys.history[t] && e in sys.history[k] && sys.history[t][e].Keys == sys.history[k][e].Keys
  }

  /** What the last run did not send for a tracked entity did not change. */
  ghost predicate QuietOk(sys: System, e: Entity)
    requires sys.received <= |sys.log|
  {
    var now := sys.server.tick;
    e in sys.server.tracked.baseline && Settled(sys, e).Some? && now in sys.history ==>
      || (exists m <- sys.lastBatch :: e in m.mutations)
      || (forall t <- sys.history :: t >= Settled(sys, e).value ==>
            e in sys.history[t] && e in sys.history[now] && sys.history[t][e] == sys.history[now][e])
  }

  /** Exact snapshots, older than anything in flight. */
  ghost predicate ClientOk(sys: System, e: Entity)
    requires sys.received <= |sys.log|
  {
    e in sys.client.entities ==>
      var k := sys.client.entities[e].confirmed;
      && k in sys.history && e in sys.history[k]
      && sys.client.entities[e].comps == sys.history[k][e]
      && (forall i :: sys.received <= i < |sys.log| ==> k < sys.log[i].tick)
  }

  /** The state of `e` in `history` at `t`, changed as `u` says, is its state at the tick of `u`. */
  ghost predicate Delta(history: map<nat, Snapshot>, u: UpdateMsg, e: Entity, t: nat) {
    && u.tick in history && e in history[u.tick] && t in history && e in history[t]
    && history[u.tick][e] == (history[t][e] - u.Removed(e)) + u.Changed(e)
  }

  /** `u` turns whatever confirmed state it can meet into the state at its own tick. */
  ghost predicate UpdateOk(history: map<nat, Snapshot>, u: UpdateMsg, e: Entity, met: Option<nat>) {
    u.Touches(e) ==>
      && u.tick in history && e in history[u.tick]
      && match if e in u.despawns then None else met
         case None => history[u.tick][e] == u.Changed(e)
         case Some(k) => k < u.tick && forall t <- history :: k <= t < u.tick ==> Delta(history, u, e, t)
  }

  ghost predicate UpdatesOk(sys: System, e: Entity)
    requires sys.received <= |sys.log|
  {
    forall i :: 0 <= i < |InFlight(sys)| ==>
      UpdateOk(sys.history, InFlight(sys)[i], e,
               After(InFlight(sys)[..i], e, Confirmed(sys.client.entities, e)))
  }

  /** `m` turns a state of `e` confirmed at `t` into the state at the tick of `m`. */
  ghost predicate MutateDelta(history: map<nat, Snapshot>, m: MutateMsg, e: Entity, t: nat)
    requires e in m.mutations
  {
    && m.tick in history && e in history[m.tick] && t in history && e in history[t]
    && history[m.tick][e] == history[t][e] + m.mutations[e]
  }

  ghost predicate MutateOk(history: map<nat, Snapshot>, m: MutateMsg, e: Entity, met: Option<nat>) {
    e in m.mutations && met.Some? && met.value < m.tick ==>
      forall t <- history :: met.value <= t < m.tick ==> MutateDelta(history, m, e, t)
  }

  /** A mutate message that may still be applied. */
  ghost predicate MessageOk(sys: System, m: MutateMsg)
    requires sys.received <= |sys.log|
  {
    var t := sys.server.tracked;
    && m.tick in sys.history && m.updateTick <= t.updateTick
    && (forall u <- InFlight(sys) :: u.tick <= m.tick ==> u.tick <= m.updateTick)
    && (forall e :: MutateOk(sys.history, m, e,
                             After(UpTo(InFlight(sys), m.updateTick), e, Confirmed(sys.client.entities, e))))
    && (m.index in t.mutations ==> Describes(t.mutations[m.index], m))
  }

  ghost predicate Describes(info: MutateInfo, m: MutateMsg) {
    info.tick == m.tick && forall e :: e in info.entities <==> e in m.mutations
  }

  /** An applied message is reflected in every entity it mentions that is still there. */
  ghost predicate AppliedOk(sys: System, m: MutateMsg, e: Entity)
    requires sys.received <= |sys.log|
  {
    && m.tick <= sys.server.tick
    && (e in m.mutations && Settled(sys, e).Some? ==> m.tick <= Settled(sys, e).value)
  }

  /** An acknowledged message is buffered or applied. */
  ghost predicate AckOk(sys: System, index: nat) {
    index in sys.server.tracked.mutations ==>
      exists m :: (m in sys.applied || m in sys.client.buffered) && Acknowledges(sys, m, index)
  }

  ghost predicate Acknowledges(sys: System, m: MutateMsg, index: nat)
    requires index in sys.server.tracked.mutations
  {
    m.index == index && Describes(sys.server.tracked.mutations[index], m)
  }

  /** Only entities without components can be shown to the client without being tracked. */
  ghost predicate ShownOk(sys: System, e: Entity) {
    var s := sys.server;
    && (e in s.tracked.baseline ==> e in sys.shown)
    && (e in sys.shown ==> s.tick in sys.history && e in sys.history[s.tick])
    && (e in sys.shown && e !in s.tracked.baseline ==> sys.history[s.tick][e] == map[])
  }

  /** A confirmed tick is that of the last update or of an applied mutate message about the entity. */
  ghost predicate OriginOk(sys: System, e: Entity)
    requires sys.received <= |sys.log|
  {
    var p := After(sys.log[..sys.received], e, None);
    && (p.Some? <==> e in sys.client.entities)
    && (p.Some? ==>
          var k := sys.client.entities[e].confirmed;
          p.value <= k && (k == p.value || exists m <- sys.applied :: e in m.mutations && m.tick == k))
  }

  ghost predicate EntityOk(sys: System, e: Entity)
    requires sys.received <= |sys.log|
  {
    && RemovalsOk(sys, e) && TrackedOk(sys, e) && StructureOk(sys, e) && QuietOk(sys, e)
    && ClientOk(sys, e) && UpdatesOk(sys, e) && ShownOk(sys, e) && OriginOk(sys, e)
  }

  ghost predicate Pending(sys: System, m: MutateMsg) {
    m in sys.net || m in sys.client.buffered
  }

  ghost predicate Inv(sys: System) {
    && TicksOk(sys) && WorldOk(sys) && Consistent(sys.server.tracked.filter)
    && (forall e :: EntityOk(sys, e))
    && (forall m :: Pending(sys, m) ==> MessageOk(sys, m))
    && (forall m, e :: m in sys.applied ==> AppliedOk(sys, m, e))
    && (forall index <- sys.acks :: AckOk(sys, index))
  }

  // ---------------------------------------------------------------------------------------------
  // Facts about After and UpTo.

  lemma {:induction false} AfterCons(us: seq<UpdateMsg>, e: Entity, c: Option<nat>)
    requires us != []
    ensures After(us, e, c) == After(us[1..], e, Touch(us[0], e, c))
  {
    if |us| > 1 {
      var init := us[..|us| - 1];
      AfterCons(init, e, c);
      assert us[1..][..|us[1..]| - 1] == init[1..];
    }
  }

  /** A later confirmed tick only matters if no update overrides it. */
  lemma {:induction false} AfterRaised(us: seq<UpdateMsg>, e: Entity, a: nat, b: nat)
    ensures
      || (After(us, e, Some(a)) == Some(a) && After(us, e, Some(b)) == Some(b))
      || After(us, e, Some(a)) == After(us, e, Some(b))
  {
    if us != [] {
      AfterRaised(us[..|us| - 1], e, a, b);
    }
  }

  lemma {:induction false} AfterBounds(us: seq<UpdateMsg>, e: Entity, c: Option<nat>)
    ensures After(us, e, c).Some? ==>
      After(us, e, c) == c || exists u <- us :: u.Touches(e) && After(us, e, c) == Some(u.tick)
  {
    if us != [] {
      AfterBounds(us[..|us| - 1], e, c);
      var init, last := us[..|us| - 1], us[|us| - 1];
      if !last.Touches(e) && e !in last.despawns && After(us, e, c).Some? && After(us, e, c) != c {
        var u :| u in init && u.Touches(e) && After(us, e, c) == Some(u.tick);
        assert u in us;
      } else {
        assert last in us;
      }
    }
  }

  lemma {:induction false} UpToAll(us: seq<UpdateMsg>, tick: nat)
    requires forall u <- us :: u.tick <= tick
    ensures UpTo(us, tick) == us
  {
    if us != [] {
      UpToAll(us[1..], tick);
    }
  }

  lemma {:induction false} UpToAppend(us: seq<UpdateMsg>, u: UpdateMsg, tick: nat)
    requires u.tick > tick
    ensures UpTo(us + [u], tick) == UpTo(us, tick)
  {
    if us != [] {
      assert (us + [u])[1..] == us[1..] + [u];
      UpToAppend(us[1..], u, tick);
    }
  }
}
