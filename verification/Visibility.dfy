/** Per-client visibility (client_visibility.rs). */
module Visibility {
  import opened Domain

  datatype Policy = PolicyAll | PolicyBlacklist | PolicyWhitelist

  datatype BlacklistInfo = BlackHidden | QueuedForRemoval

  datatype WhitelistInfo = WhiteVisible | JustAdded

  /** What collecting changes sees. Losing visibility is reported separately by `Lost`. */
  datatype View = Hidden | Gained | Visible

  datatype Filter =
    | All
    | Blacklist(blacklist: map<Entity, BlacklistInfo>, added: set<Entity>, removed: set<Entity>)
    | Whitelist(whitelist: map<Entity, WhitelistInfo>, added: set<Entity>, removed: set<Entity>)

  function NewFilter(policy: Policy): Filter {
    match policy
    case PolicyAll => All
    case PolicyBlacklist => Blacklist(map[], {}, {})
    case PolicyWhitelist => Whitelist(map[], {}, {})
  }

  function WithVisibility(f: Filter, e: Entity, visible: bool): Filter {
    match f
    case All => f
    case Blacklist(list, added, removed) =>
      if visible then
        if e !in list then f
        else if e in added then Blacklist(list - {e}, added - {e}, removed)
        else Blacklist(list[e := QueuedForRemoval], added, removed + {e})
      else if e in list then Blacklist(list[e := BlackHidden], added, removed - {e})
      else Blacklist(list[e := BlackHidden], added + {e}, removed)
    case Whitelist(list, added, removed) =>
      if visible then
        var list' := if e in list then list else list[e := JustAdded];
        Whitelist(list', if list'[e] == JustAdded then added + {e} else added, removed - {e})
      else if e !in list then f
      else if e in added then Whitelist(list - {e}, added - {e}, removed)
      else Whitelist(list - {e}, added, removed + {e})
  }

  function StateOf(f: Filter, e: Entity): View {
    match f
    case All => Visible
    case Blacklist(list, _, _) =>
      if e !in list then Visible else if list[e] == QueuedForRemoval then Gained else Hidden
    case Whitelist(list, _, _) =>
      if e !in list then Hidden else if list[e] == JustAdded then Gained else Visible
  }

  predicate IsVisible(f: Filter, e: Entity) {
    StateOf(f, e) != Hidden
  }

  function WithoutDespawned(f: Filter, e: Entity): Filter {
    match f
    case All => f
    case Blacklist(list, added, removed) =>
      if e in list then Blacklist(list - {e}, added - {e}, removed - {e}) else f
    case Whitelist(list, added, removed) =>
      if e in list then Whitelist(list - {e}, added - {e}, removed - {e}) else f
  }

  /** The entities `drain_lost` yields. */
  function Lost(f: Filter): set<Entity> {
    match f
    case All => {}
    case Blacklist(_, added, _) => added
    case Whitelist(_, _, removed) => removed
  }

  function Drained(f: Filter): Filter {
    match f
    case All => f
    case Blacklist(list, _, removed) => Blacklist(list, {}, removed)
    case Whitelist(list, added, _) => Whitelist(list, added, {})
  }

  function Updated(f: Filter): Filter {
    match f
    case All => f
    case Blacklist(list, _, removed) => Blacklist(list - removed, {}, {})
    case Whitelist(list, added, _) =>
      Whitelist(map e | e in list.Keys + added :: if e in added then WhiteVisible else list[e], {}, {})
  }

  // ---------------------------------------------------------------------------------------------
  // Consistency of the list with its two sets.

  ghost predicate Consistent(f: Filter) {
    match f
    case All => true
    case Blacklist(list, added, removed) =>
      && (forall e <- added :: e in list && list[e] == BlackHidden)
      && (forall e :: e in removed <==> e in list && list[e] == QueuedForRemoval)
    case Whitelist(list, added, removed) =>
      && (forall e :: e in added <==> e in list && list[e] == JustAdded)
      && (forall e <- removed :: e !in list)
  }

  lemma ConsistencyKept(f: Filter, e: Entity, visible: bool)
    requires Consistent(f)
    ensures Consistent(WithVisibility(f, e, visible))
    ensures Consistent(WithoutDespawned(f, e))
    ensures Consistent(Drained(f))
    ensures Consistent(Updated(f))
  {
  }

  /** Draining leaves nothing to drain, and every entity as visible as it was. */
  lemma DrainedIs(f: Filter, e: Entity)
    ensures Lost(Drained(f)) == {} && StateOf(Drained(f), e) == StateOf(f, e)
  {
  }

  /** Between ticks no entity is marked as just added or removed. */
  ghost predicate AtBoundary(f: Filter) {
    Consistent(f) && (f != All ==> f.added == {} && f.removed == {})
  }

  lemma UpdateReachesBoundary(f: Filter)
    requires Consistent(f)
    ensures AtBoundary(Updated(f))
    ensures forall e :: StateOf(Updated(f), e) == (if IsVisible(f, e) then Visible else Hidden)
  {
  }

  // ---------------------------------------------------------------------------------------------
  // Toggles within one tick, against "visible at the last boundary" and "visible now".

  type Toggles = seq<(Entity, bool)>

  function Toggle(f: Filter, ts: Toggles): Filter {
    if ts == [] then f else
      var g := Toggle(f, ts[..|ts| - 1]);
      var (e, visible) := ts[|ts| - 1];
      WithVisibility(g, e, visible)
  }

  /** Whether `e` should be visible after the toggles: the last one for `e` decides. */
  function VisibleNow(was: bool, ts: Toggles, e: Entity): bool {
    if ts == [] then was
    else if ts[|ts| - 1].0 == e then ts[|ts| - 1].1
    else VisibleNow(was, ts[..|ts| - 1], e)
  }

  /** `e` is hidden by one toggle and shown by a later one. */
  ghost predicate HiddenThenShown(ts: Toggles, e: Entity) {
    exists i, j :: 0 <= i < j < |ts| && ts[i] == (e, false) && ts[j] == (e, true)
  }

  /** What is reported for `e` is what follows from its visibility before and now. */
  ghost predicate Exact(f: Filter, e: Entity, was: bool, now: bool) {
    && StateOf(f, e) == (if !now then Hidden else if was then Visible else Gained)
    && (e in Lost(f) <==> was && !now)
  }

  lemma {:induction false} ToggleConsistent(f: Filter, ts: Toggles)
    requires Consistent(f)
    ensures Consistent(Toggle(f, ts))
    ensures Toggle(f, ts).All? == f.All? && Toggle(f, ts).Blacklist? == f.Blacklist?
  {
    if ts != [] {
      var (e, visible) := ts[|ts| - 1];
      ToggleConsistent(f, ts[..|ts| - 1]);
      ConsistencyKept(Toggle(f, ts[..|ts| - 1]), e, visible);
    }
  }

  /** The blacklist reports every entity exactly, whatever is toggled within the tick. */
  lemma {:induction false} BlacklistExact(f: Filter, ts: Toggles, e: Entity)
    requires f.Blacklist? && AtBoundary(f)
    ensures
      var was := IsVisible(f, e);
      Exact(Toggle(f, ts), e, was, VisibleNow(was, ts, e))
  {
    if ts != [] {
      BlacklistExact(f, ts[..|ts| - 1], e);
      ToggleConsistent(f, ts[..|ts| - 1]);
    }
  }

  lemma HiddenThenShownStep(ts: Toggles, e: Entity)
    requires ts != []
    ensures
      var before := ts[..|ts| - 1];
      HiddenThenShown(ts, e) <==>
        HiddenThenShown(before, e) || (ts[|ts| - 1] == (e, true) && (e, false) in before)
  {
    var n := |ts| - 1;
    var before := ts[..n];
    if HiddenThenShown(ts, e) {
      var i, j :| 0 <= i < j < |ts| && ts[i] == (e, false) && ts[j] == (e, true);
      if j < n {
        assert before[i] == (e, false) && before[j] == (e, true);
      } else {
        assert before[i] == (e, false);
      }
    }
    if HiddenThenShown(before, e) {
      var i, j :| 0 <= i < j < |before| && before[i] == (e, false) && before[j] == (e, true);
      assert ts[i] == (e, false) && ts[j] == (e, true);
    }
    if ts[n] == (e, true) && (e, false) in before {
      var i :| 0 <= i < n && before[i] == (e, false);
      assert ts[i] == (e, false);
    }
  }

  /** Where each entity stands in the whitelist, in terms of its toggles. */
  ghost predicate WhitelistStatus(g: Filter, was: bool, ts: Toggles, e: Entity)
    requires g.Whitelist?
  {
    var now := VisibleNow(was, ts, e);
    var broken := was && HiddenThenShown(ts, e);
    && (now <==> e in g.whitelist)
    && (now && (!was || broken) ==> g.whitelist[e] == JustAdded)
    && (now && was && !broken ==> g.whitelist[e] == WhiteVisible && (e, false) !in ts)
    && (e in g.removed <==> was && !now && !broken)
    && (!now && was ==> (e, false) in ts)
  }

  lemma {:induction false} WhitelistToggled(f: Filter, ts: Toggles, e: Entity)
    requires f.Whitelist? && AtBoundary(f)
    ensures Toggle(f, ts).Whitelist? && WhitelistStatus(Toggle(f, ts), IsVisible(f, e), ts, e)
  {
    ToggleConsistent(f, ts);
    if ts != [] {
      var before := ts[..|ts| - 1];
      WhitelistToggled(f, before, e);
      ToggleConsistent(f, before);
      HiddenThenShownStep(ts, e);
      assert ts == before + [ts[|ts| - 1]];
    }
  }

  /**
   The whitelist reports an entity exactly if and only if, within the tick, an entity that was visible
   is not hidden and then shown again. After such a pair, a still-visible entity is reported as Gained
   and one that is hidden once more is not reported as lost.
   */
  lemma WhitelistExactIff(f: Filter, ts: Toggles, e: Entity)
    requires f.Whitelist? && AtBoundary(f)
    ensures
      var was := IsVisible(f, e);
      Exact(Toggle(f, ts), e, was, VisibleNow(was, ts, e)) <==> !(was && HiddenThenShown(ts, e))
  {
    WhitelistToggled(f, ts, e);
    ToggleConsistent(f, ts);
  }

  // ---------------------------------------------------------------------------------------------
  // Despawns.

  function PolicyOf(f: Filter): Policy {
    match f
    case All => PolicyAll
    case Blacklist(_, _, _) => PolicyBlacklist
    case Whitelist(_, _, _) => PolicyWhitelist
  }

  /**
   A despawned entity is as visible as one that was never toggled, and nothing is left of it that could be drained, save
   for a whitelisted one that was hidden before. No other entity is affected.
   */
  lemma DespawnForgets(f: Filter, e: Entity, other: Entity)
    requires Consistent(f)
    ensures
      var g := WithoutDespawned(f, e);
      && PolicyOf(g) == PolicyOf(f) && StateOf(g, e) == StateOf(NewFilter(PolicyOf(f)), e)
      && (e in Lost(g) <==> f.Whitelist? && e in Lost(f))
      && (other != e ==> StateOf(g, other) == StateOf(f, other) && (other in Lost(g) <==> other in Lost(f)))
  {
  }

  function Forgotten(f: Filter, es: seq<Entity>): Filter {
    if es == [] then f else WithoutDespawned(Forgotten(f, es[..|es| - 1]), es[|es| - 1])
  }

  lemma {:induction false} DespawnsForget(f: Filter, es: seq<Entity>, e: Entity)
    requires Consistent(f)
    ensures
      var g := Forgotten(f, es);
      && Consistent(g) && PolicyOf(g) == PolicyOf(f)
      && StateOf(g, e) == (if e in es then StateOf(NewFilter(PolicyOf(f)), e) else StateOf(f, e))
      && (e in Lost(g) <==> e in Lost(f) && (e in es ==> f.Whitelist?))
  {
    if es != [] {
      var init, last := es[..|es| - 1], es[|es| - 1];
      assert es == init + [last];
      DespawnsForget(f, init, e);
      ConsistencyKept(Forgotten(f, init), last, true);
      DespawnForgets(Forgotten(f, init), last, e);
    }
  }

  // ---------------------------------------------------------------------------------------------
  // Runs.

  /** What happens in a tick: toggles, and then what was despawned is forgotten. */
  datatype Tick = Tick(toggles: Toggles, despawned: seq<Entity>)

  /** What the run of the tick collects with. */
  function InTick(f: Filter, tick: Tick): Filter {
    Forgotten(Toggle(f, tick.toggles), tick.despawned)
  }

  /** Then the lost entities are drained and the marks are cleared. */
  function AfterTicks(policy: Policy, ticks: seq<Tick>): Filter {
    if ticks == [] then NewFilter(policy)
    else Updated(Drained(InTick(AfterTicks(policy, ticks[..|ticks| - 1]), ticks[|ticks| - 1])))
  }

  /** Whether an entity that is not mentioned is visible. */
  predicate ByDefault(policy: Policy) {
    policy != PolicyWhitelist
  }

  /** Whether an entity should be visible after the ticks: a despawn makes it new. */
  function VisibleAfter(policy: Policy, ticks: seq<Tick>, e: Entity): bool {
    if ticks == [] then ByDefault(policy)
    else
      var init, last := ticks[..|ticks| - 1], ticks[|ticks| - 1];
      if e in last.despawned then ByDefault(policy) else VisibleNow(VisibleAfter(policy, init, e), last.toggles, e)
  }

  /**
   Over every run of toggles, despawns and ticks: the filter remembers at each boundary what is visible, and reports,
   within the next tick, exactly what changed since that boundary, except for the pairs that break the whitelist. An
   entity that is despawned is visible or not as if it had never been toggled, so it is again when it returns.
   */
  lemma RunsAreExactIff(policy: Policy, ticks: seq<Tick>, tick: Tick, e: Entity)
    requires policy != PolicyAll
    ensures
      var f, was := AfterTicks(policy, ticks), VisibleAfter(policy, ticks, e);
      && AtBoundary(f) && IsVisible(f, e) == was
      && (e !in tick.despawned ==>
           (Exact(InTick(f, tick), e, was, VisibleNow(was, tick.toggles, e)) <==>
              policy == PolicyBlacklist || !(was && HiddenThenShown(tick.toggles, e))))
      && (e in tick.despawned ==>
            StateOf(InTick(f, tick), e) == (if ByDefault(policy) then Visible else Hidden)
            && (e in Lost(InTick(f, tick)) <==> policy == PolicyWhitelist && e in Lost(Toggle(f, tick.toggles))))
  {
    BoundaryRemembers(policy, ticks, e);
    var f := AfterTicks(policy, ticks);
    ToggleConsistent(f, tick.toggles);
    DespawnsForget(Toggle(f, tick.toggles), tick.despawned, e);
    if policy == PolicyBlacklist {
      BlacklistExact(f, tick.toggles, e);
    } else {
      WhitelistExactIff(f, tick.toggles, e);
    }
  }

  lemma {:induction false} BoundaryRemembers(policy: Policy, ticks: seq<Tick>, e: Entity)
    requires policy != PolicyAll
    ensures
      var f := AfterTicks(policy, ticks);
      AtBoundary(f) && PolicyOf(f) == policy && IsVisible(f, e) == VisibleAfter(policy, ticks, e)
  {
    if ticks != [] {
      var init, tick := ticks[..|ticks| - 1], ticks[|ticks| - 1];
      BoundaryRemembers(policy, init, e);
      TickRemembers(AfterTicks(policy, init), tick, e);
    }
  }

  lemma TickRemembers(f: Filter, tick: Tick, e: Entity)
    requires AtBoundary(f) && !f.All?
    ensures
      var g, now := Updated(Drained(InTick(f, tick))), VisibleNow(IsVisible(f, e), tick.toggles, e);
      && AtBoundary(g) && PolicyOf(g) == PolicyOf(f)
      && IsVisible(g, e) == if e in tick.despawned then ByDefault(PolicyOf(f)) else now
  {
    var toggled := Toggle(f, tick.toggles);
    ToggleConsistent(f, tick.toggles);
    DespawnsForget(toggled, tick.despawned, e);
    ConsistencyKept(InTick(f, tick), e, true);
    UpdateReachesBoundary(Drained(InTick(f, tick)));
    if f.Blacklist? {
      BlacklistExact(f, tick.toggles, e);
    } else {
      WhitelistToggled(f, tick.toggles, e);
    }
  }

  /** An entity that was hidden, is despawned and returns is shown again to a client that has a blacklist. */
  lemma HiddenReturns(e: Entity)
    ensures
      var ticks := [Tick([(e, false)], []), Tick([], [e])];
      !IsVisible(AfterTicks(PolicyBlacklist, ticks[..1]), e) && IsVisible(AfterTicks(PolicyBlacklist, ticks), e)
  {
    var ticks := [Tick([(e, false)], []), Tick([], [e])];
    BoundaryRemembers(PolicyBlacklist, ticks[..1], e);
    BoundaryRemembers(PolicyBlacklist, ticks, e);
    assert ticks[..1] == [ticks[0]] && ticks[..1][..0] == [];
    assert VisibleNow(true, [(e, false)], e) == false;
  }

  /** A concrete run that hides, shows and hides a visible entity: nobody tells the client to drop it. */
  lemma WhitelistLosesDespawn(e: Entity)
    ensures
      var f := Whitelist(map[e := WhiteVisible], {}, {});
      var g := Toggle(f, [(e, false), (e, true), (e, false)]);
      AtBoundary(f) && IsVisible(f, e) && !IsVisible(g, e) && e !in Lost(g)
  {
    var f := Whitelist(map[e := WhiteVisible], {}, {});
    var ts := [(e, false), (e, true), (e, false)];
    assert ts[..2] == [(e, false), (e, true)] && ts[..2][..1] == [(e, false)] && ts[..2][..1][..0] == [];
    assert Toggle(f, ts[..2][..1]) == WithVisibility(f, e, false);
    assert Toggle(f, ts[..2]) == WithVisibility(WithVisibility(f, e, false), e, true);
  }

  // ---------------------------------------------------------------------------------------------
  // The object that is mutated in place.

  class ClientVisibility {
    var filter: Filter

    constructor (policy: Policy)
      ensures filter == NewFilter(policy) && AtBoundary(filter)
    {
      filter := NewFilter(policy);
    }

    method SetVisibility(e: Entity, visible: bool)
      modifies this
      ensures filter == WithVisibility(old(filter), e, visible)
    {
      match filter
      case All =>
      case Blacklist(list, added, removed) =>
        if visible {
          if e !in list {
            return;
          }
          if e in added {
            filter := Blacklist(list - {e}, added - {e}, removed);
            return;
          }
          filter := Blacklist(list[e := QueuedForRemoval], added, removed + {e});
        } else {
          if e in list {
            filter := Blacklist(list[e := BlackHidden], added, removed - {e});
            return;
          }
          filter := Blacklist(list[e := BlackHidden], added + {e}, removed);
        }
      case Whitelist(list, added, removed) =>
        if visible {
          var list', added' := list, added;
          if e !in list' {
            list' := list'[e := JustAdded];
          }
          if list'[e] == JustAdded {
            added' := added' + {e};
          }
          filter := Whitelist(list', added', removed - {e});
        } else {
          if e !in list {
            return;
          }
          if e in added {
            filter := Whitelist(list - {e}, added - {e}, removed);
            return;
          }
          filter := Whitelist(list - {e}, added, removed + {e});
        }
    }

    method State(e: Entity) returns (view: View)
      ensures view == StateOf(filter, e)
    {
      match filter
      case All => view := Visible;
      case Blacklist(list, _, _) =>
        if e !in list {
          view := Visible;
        } else {
          view := if list[e] == QueuedForRemoval then Gained else Hidden;
        }
      case Whitelist(list, _, _) =>
        if e !in list {
          view := Hidden;
        } else {
          view := if list[e] == JustAdded then Gained else Visible;
        }
    }

    method RemoveDespawned(e: Entity)
      modifies this
      ensures filter == WithoutDespawned(old(filter), e)
    {
      match filter
      case All =>
      case Blacklist(list, added, removed) =>
        if e in list {
          filter := Blacklist(list - {e}, added - {e}, removed - {e});
        }
      case Whitelist(list, added, removed) =>
        if e in list {
          filter := Whitelist(list - {e}, added - {e}, removed - {e});
        }
    }

    method DrainLost() returns (lost: set<Entity>)
      modifies this
      ensures lost == Lost(old(filter)) && filter == Drained(old(filter))
    {
      lost := Lost(filter);
      match filter
      case All =>
      case Blacklist(list, _, removed) => filter := Blacklist(list, {}, removed);
      case Whitelist(list, added, _) => filter := Whitelist(list, added, {});
    }

    /** Called after each tick. */
    method Update()
      modifies this
      ensures filter == Updated(old(filter))
    {
      match filter
      case All =>
      case Blacklist(list, added, removed) =>
        var list', rest := list, removed;
        while rest != {}
          invariant rest <= removed && list' == list - (removed - rest)
          decreases rest
        {
          var e :| e in rest;
          list', rest := list' - {e}, rest - {e};
          assert removed - rest == removed - (rest + {e}) + {e};
        }
        filter := Blacklist(list', {}, {});
      case Whitelist(list, added, removed) =>
        var list', rest := list, added;
        while rest != {}
          invariant rest <= added && list'.Keys == list.Keys + (added - rest)
          invariant forall e <- list' :: list'[e] == if e in added - rest then WhiteVisible else list[e]
          decreases rest
        {
          var e :| e in rest;
          list', rest := list'[e := WhiteVisible], rest - {e};
        }
        filter := Whitelist(list', {}, {});
    }
  }
}
