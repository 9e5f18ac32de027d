/** The removals of components that wait to be sent (removal_buffer.rs). */
module RemovalBuffers {
  import opened Domain
  import opened Rules

  type Buffered = map<Entity, seq<Item>>

  /** One pass of removals for an entity. An earlier list of the same entity is replaced. */
  function Updated(buffered: Buffered, rules: seq<Rule>, post: Archetype, entity: Entity, removed: set<ComponentId>): Buffered {
    var list := Removals(rules, post, removed);
    if list == [] then buffered else buffered[entity := list]
  }

  function ListOf(buffered: Buffered, entity: Entity): seq<Item> {
    if entity in buffered then buffered[entity] else []
  }

  /** A pass removes `id` from an entity that is left with `post`, and has to tell so, with the functions `fns`. */
  predicate Tells(rules: seq<Rule>, post: Archetype, removed: set<ComponentId>, id: ComponentId, fns: FnsId) {
    id in removed && id !in post && FnsFor(rules, post + removed, id) == Some(fns)
  }

  lemma {:induction false} InDistinct(list: seq<Item>, item: Item)
    requires DistinctComponents(list)
    ensures item in list <==> FnsIn(list, item.id) == Some(item.fns)
  {
    if list != [] {
      assert list == [list[0]] + list[1..];
      InDistinct(list[1..], item);
      ListedIff(list[1..], item.id);
    }
  }

  lemma RemovalsTell(rules: seq<Rule>, post: Archetype, removed: set<ComponentId>, item: Item)
    ensures item in Removals(rules, post, removed) <==> Tells(rules, post, removed, item.id, item.fns)
  {
    RemovalsIff(rules, post, removed, item.id);
    InDistinct(Removals(rules, post, removed), item);
  }

  /**
   Removals of two passes between two sendings both stay if and only if the later pass has nothing to tell, or tells
   again, with the same functions, whatever the earlier one had to tell. So an earlier removal is lost as soon as another
   component is removed in a later pass.
   */
  lemma BothPassesIff(rules: seq<Rule>, entity: Entity, post: Archetype, removed: set<ComponentId>, laterPost: Archetype, laterRemoved: set<ComponentId>)
    ensures
      var buffered := Updated(Updated(map[], rules, post, entity, removed), rules, laterPost, entity, laterRemoved);
      (forall id, fns :: Tells(rules, post, removed, id, fns) ==> Item(id, fns) in ListOf(buffered, entity))
      <==>
        || (forall id, fns :: !Tells(rules, laterPost, laterRemoved, id, fns))
        || (forall id, fns :: Tells(rules, post, removed, id, fns) ==> Tells(rules, laterPost, laterRemoved, id, fns))
  {
    hide Removals, Tells;
    var first, later := Removals(rules, post, removed), Removals(rules, laterPost, laterRemoved);
    var list := if later == [] then first else later;
    assert ListOf(Updated(Updated(map[], rules, post, entity, removed), rules, laterPost, entity, laterRemoved), entity) == list;
    forall id, fns
      ensures Item(id, fns) in first <==> Tells(rules, post, removed, id, fns)
      ensures Item(id, fns) in later <==> Tells(rules, laterPost, laterRemoved, id, fns)
    {
      RemovalsTell(rules, post, removed, Item(id, fns));
      RemovalsTell(rules, laterPost, laterRemoved, Item(id, fns));
    }
    if later != [] {
      assert later[0] in later && later[0] == Item(later[0].id, later[0].fns);
    }
  }

  /** Two components with a rule each, removed in two passes: only the second removal is sent. */
  lemma SecondPassLosesFirst(entity: Entity, c: Item, d: Item)
    requires c.id != d.id
    ensures
      var rules := [Rule(1, [c]), Rule(1, [d])];
      ListOf(Updated(Updated(map[], rules, {d.id}, entity, {c.id}), rules, {}, entity, {d.id}), entity) == [d]
  {
    var rules := [Rule(1, [c]), Rule(1, [d])];
    assert rules[..1] == [rules[0]] && rules[..1][..0] == [];
    assert Rule(1, [c]).components[0] == c && Rule(1, [d]).components[0] == d;
    assert !Rule(1, [c]).LosesTo({}, {d.id}) && Rule(1, [d]).LosesTo({}, {d.id});
    assert [d][..0] == [] && Added([], [d], {}) == [d];
    assert Removals(rules[..1], {}, {d.id}) == [];
    assert Removals(rules, {}, {d.id}) == [d];
  }

  // ---------------------------------------------------------------------------------------------
  // Reading the removals of a tick.

  /** The removals of one component, as they happened. */
  datatype Removed = Removed(component: ComponentId, entities: seq<Entity>)

  type Grouped = map<Entity, set<ComponentId>>

  function GroupOf(grouped: Grouped, entity: Entity): set<ComponentId> {
    if entity in grouped then grouped[entity] else {}
  }

  /** The components of an entity that were removed. */
  ghost predicate WasRemoved(events: seq<Removed>, entity: Entity, id: ComponentId) {
    exists i :: 0 <= i < |events| && events[i].component == id && entity in events[i].entities
  }

  /** `grouped` has exactly the removals from `replicated` entities of components of some rule. */
  ghost predicate Groups(grouped: Grouped, events: seq<Removed>, components: set<ComponentId>, replicated: set<Entity>) {
    && (forall e <- grouped :: e in replicated && grouped[e] != {})
    && forall e, id ::
      (id in GroupOf(grouped, e) <==> e in replicated && id in components && WasRemoved(events, e, id))
  }

  lemma RemovedSplit(events: seq<Removed>, event: Removed)
    ensures forall e, id :: WasRemoved(events + [event], e, id) <==>
      WasRemoved(events, e, id) || (event.component == id && e in event.entities)
  {
    var all := events + [event];
    forall e, id | WasRemoved(events, e, id) || (event.component == id && e in event.entities)
      ensures WasRemoved(all, e, id)
    {
      assert all[|events|] == event;
      if i :| 0 <= i < |events| && events[i].component == id && e in events[i].entities {
        assert all[i] == events[i];
      }
    }
  }

  method Read(events: seq<Removed>, components: set<ComponentId>, replicated: set<Entity>) returns (grouped: Grouped)
    ensures Groups(grouped, events, components, replicated)
  {
    grouped := map[];
    var i := 0;
    assert forall e, id :: !WasRemoved(events[..0], e, id);
    while i < |events|
      invariant 0 <= i <= |events|
      invariant Groups(grouped, events[..i], components, replicated)
    {
      assert events[..i + 1] == events[..i] + [events[i]];
      RemovedSplit(events[..i], events[i]);
      if events[i].component in components {
        grouped := Group(grouped, events[i], events[..i], components, replicated);
      }
      i := i + 1;
    }
    assert events[..i] == events;
  }

  method Group(before: Grouped, event: Removed, ghost events: seq<Removed>, ghost components: set<ComponentId>, replicated: set<Entity>) returns (grouped: Grouped)
    requires event.component in components && Groups(before, events, components, replicated)
    ensures Groups(grouped, events + [event], components, replicated)
  {
    grouped := before;
    var i := 0;
    RemovedSplit(events, event.(entities := []));
    while i < |event.entities|
      invariant 0 <= i <= |event.entities|
      invariant Groups(grouped, events + [event.(entities := event.entities[..i])], components, replicated)
    {
      var entity := event.entities[i];
      assert event.entities[..i + 1] == event.entities[..i] + [entity];
      RemovedSplit(events, event.(entities := event.entities[..i]));
      RemovedSplit(events, event.(entities := event.entities[..i + 1]));
      if entity in replicated {
        grouped := grouped[entity := GroupOf(grouped, entity) + {event.component}];
      }
      i := i + 1;
    }
    assert event.entities[..i] == event.entities;
  }

  /** The removals from `entity` of components of some rule. */
  ghost function RemovedOf(events: seq<Removed>, components: set<ComponentId>, entity: Entity): set<ComponentId> {
    set id <- components | WasRemoved(events, entity, id)
  }

  /** The list of an entity after a pass. */
  function ListAfter(before: Buffered, rules: seq<Rule>, world: map<Entity, Archetype>, entity: Entity, removed: set<ComponentId>): seq<Item>
    requires entity in world
  {
    ListOf(Updated(before, rules, world[entity], entity, removed), entity)
  }

  // ---------------------------------------------------------------------------------------------
  // The object.

  class RemovalBuffer {
    var removals: Buffered
    /** Empty lists, kept to reuse their memory. */
    var idsBuffer: seq<seq<Item>>

    constructor ()
      ensures Valid() && removals == map[]
    {
      removals, idsBuffer := map[], [];
    }

    ghost predicate Valid()
      reads this
    {
      forall ids <- idsBuffer :: ids == []
    }

    method Update(rules: seq<Rule>, archetype: Archetype, entity: Entity, components: set<ComponentId>)
      requires Valid()
      modifies this
      ensures Valid() && removals == Updated(old(removals), rules, archetype, entity, components)
    {
      var removedIds := [];
      if idsBuffer != [] {
        removedIds := idsBuffer[|idsBuffer| - 1];
        assert removedIds in idsBuffer;
        idsBuffer := idsBuffer[..|idsBuffer| - 1];
        assert forall ids <- idsBuffer :: ids in old(idsBuffer);
      }
      var i := 0;
      while i < |rules|
        invariant 0 <= i <= |rules|
        invariant Valid() && removals == old(removals)
        invariant removedIds == Removals(rules[..i], archetype, components)
      {
        assert rules[..i + 1][..i] == rules[..i];
        var loses := MatchesRemovals(rules[i], archetype, components);
        if loses {
          removedIds := AddComponents(removedIds, rules[i], archetype);
        }
        i := i + 1;
      }
      assert rules[..i] == rules;
      if removedIds == [] {
        idsBuffer := idsBuffer + [removedIds];
      } else {
        removals := removals[entity := removedIds];
      }
    }

    /** One pass over the removals of a tick. Every entity that removals are read for exists. */
    method BufferRemovals(rules: seq<Rule>, world: map<Entity, Archetype>, events: seq<Removed>, components: set<ComponentId>, replicated: set<Entity>)
      requires Valid() && replicated <= world.Keys
      modifies this
      ensures Valid()
      ensures forall e <- replicated ::
        ListOf(removals, e) == ListAfter(old(removals), rules, world, e, RemovedOf(events, components, e))
      ensures forall e :: e !in replicated ==> ListOf(removals, e) == ListOf(old(removals), e)
    {
      hide WasRemoved, Removals;
      var grouped := Read(events, components, replicated);
      var todo := grouped.Keys;
      while todo != {}
        invariant Valid() && todo <= grouped.Keys
        invariant forall e :: ListOf(removals, e) == ListOf(
          if e in grouped && e !in todo then Updated(old(removals), rules, world[e], e, grouped[e]) else old(removals), e)
      {
        var entity :| entity in todo;
        Update(rules, world[entity], entity, grouped[entity]);
        todo := todo - {entity};
      }
      forall e <- replicated
        ensures ListOf(removals, e) == ListAfter(old(removals), rules, world, e, RemovedOf(events, components, e))
      {
        assert RemovedOf(events, components, e) == GroupOf(grouped, e);
        NothingRemoved(rules, world[e]);
      }
    }

    method Clear()
      requires Valid()
      modifies this
      ensures Valid() && removals == map[]
    {
      var left := removals.Keys;
      while left != {}
        invariant Valid()
        modifies this`idsBuffer
      {
        var entity :| entity in left;
        idsBuffer := idsBuffer + [[]];
        left := left - {entity};
      }
      removals := map[];
    }
  }

  lemma {:induction false} NothingRemoved(rules: seq<Rule>, post: Archetype)
    ensures Removals(rules, post, {}) == []
  {
    if rules != [] {
      NothingRemoved(rules[..|rules| - 1], post);
    }
  }
}
