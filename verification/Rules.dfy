/** Replication rules, and what they select in an archetype (replication_rules.rs, replicated_archetypes.rs). */
module Rules {
  import opened Domain

  type ComponentId = nat

  /** An archetype is the set of the components of its entities. */
  type Archetype = set<ComponentId>

  datatype Item = Item(id: ComponentId, fns: FnsId)

  datatype Rule = Rule(priority: nat, components: seq<Item>) {
    predicate Matches(archetype: Archetype) {
      forall item <- components :: item.id in archetype
    }

    /** The rule matched before the removals, and does not match any more because of one of them. */
    predicate LosesTo(post: Archetype, removed: set<ComponentId>) {
      Matches(post + removed) && exists item <- components :: item.id in removed
    }
  }

  method MatchesRemovals(rule: Rule, post: Archetype, removed: set<ComponentId>) returns (matches: bool)
    ensures matches <==> rule.LosesTo(post, removed)
    ensures matches <==>
      (forall item <- rule.components :: item.id in post || item.id in removed) && exists item <- rule.components :: item.id in removed
  {
    matches := false;
    var i := 0;
    while i < |rule.components|
      invariant 0 <= i <= |rule.components|
      invariant forall j :: 0 <= j < i ==> rule.components[j].id in post + removed
      invariant matches <==> exists j :: 0 <= j < i && rule.components[j].id in removed
    {
      var item := rule.components[i];
      if item.id in removed {
        matches := true;
      } else if item.id !in post {
        assert item in rule.components;
        return false;
      }
      i := i + 1;
    }
  }

  // ---------------------------------------------------------------------------------------------
  // The list of rules.

  ghost predicate Sorted(rules: seq<Rule>) {
    forall i, j :: 0 <= i < j < |rules| ==> rules[i].priority >= rules[j].priority
  }

  /**
   A position of a rule with that priority, or else the only position that keeps the order. Of several rules with the
   priority, any one may be found.
   */
  method BinarySearch(rules: seq<Rule>, priority: nat) returns (index: nat, found: bool)
    requires Sorted(rules)
    ensures index <= |rules|
    ensures found ==> index < |rules| && rules[index].priority == priority
    ensures !found ==> forall i :: 0 <= i < |rules| ==> (i < index <==> rules[i].priority > priority)
    ensures !found ==> forall i :: index <= i < |rules| ==> rules[i].priority < priority
  {
    var low, high := 0, |rules|;
    while low < high
      invariant 0 <= low <= high <= |rules|
      invariant forall i :: 0 <= i < low ==> rules[i].priority > priority
      invariant forall i :: high <= i < |rules| ==> rules[i].priority < priority
    {
      var middle := (low + high) / 2;
      if rules[middle].priority == priority {
        return middle, true;
      } else if rules[middle].priority > priority {
        low := middle + 1;
      } else {
        high := middle;
      }
    }
    return low, false;
  }

  function Inserted(rules: seq<Rule>, rule: Rule, index: nat): seq<Rule>
    requires index <= |rules|
  {
    rules[..index] + [rule] + rules[index..]
  }

  lemma InsertedMultiset(rules: seq<Rule>, rule: Rule, index: nat)
    requires index <= |rules|
    ensures multiset(Inserted(rules, rule, index)) == multiset(rules) + multiset{rule}
  {
    assert rules == rules[..index] + rules[index..];
  }

  /** Beside a rule of the same priority, or between the higher and the lower ones. */
  lemma InsertedSorted(rules: seq<Rule>, rule: Rule, index: nat)
    requires Sorted(rules) && index <= |rules|
    requires forall i :: 0 <= i < index ==> rules[i].priority >= rule.priority
    requires forall i :: index <= i < |rules| ==> rules[i].priority <= rule.priority
    ensures Sorted(Inserted(rules, rule, index))
  {
    var after := Inserted(rules, rule, index);
    assert forall i :: 0 <= i < |after| ==> after[i] == if i < index then rules[i] else if i == index then rule else rules[i - 1];
  }

  class ReplicationRules {
    var rules: seq<Rule>

    constructor ()
      ensures rules == []
    {
      rules := [];
    }

    /** The list stays sorted, the other rules keep their order, and no rule is lost. */
    method Insert(rule: Rule)
      requires Sorted(rules)
      modifies this
      ensures Sorted(rules)
      ensures exists i :: 0 <= i <= |old(rules)| && rules == old(rules)[..i] + [rule] + old(rules)[i..]
      ensures multiset(rules) == multiset(old(rules)) + multiset{rule}
    {
      var index, found := BinarySearch(rules, rule.priority);
      InsertedMultiset(rules, rule, index);
      InsertedSorted(rules, rule, index);
      rules := Inserted(rules, rule, index);
    }
  }

  // ---------------------------------------------------------------------------------------------
  // What is selected.

  predicate Listed(list: seq<Item>, id: ComponentId) {
    exists item <- list :: item.id == id
  }

  /** Adds the components of a rule that are not listed yet. Components in `skipped` are passed over. */
  function Added(list: seq<Item>, components: seq<Item>, skipped: Archetype): seq<Item> {
    if components == [] then list
    else
      var before, item := Added(list, components[..|components| - 1], skipped), components[|components| - 1];
      if Listed(before, item.id) || item.id in skipped then before else before + [item]
  }

  /** What is replicated of the entities of an archetype. */
  function Selection(rules: seq<Rule>, archetype: Archetype): seq<Item> {
    if rules == [] then []
    else
      var before, rule := Selection(rules[..|rules| - 1], archetype), rules[|rules| - 1];
      if rule.Matches(archetype) then Added(before, rule.components, {}) else before
  }

  /** The removals to replicate for an entity that is left with `post`. */
  function Removals(rules: seq<Rule>, post: Archetype, removed: set<ComponentId>): seq<Item> {
    if rules == [] then []
    else
      var before, rule := Removals(rules[..|rules| - 1], post, removed), rules[|rules| - 1];
      if rule.LosesTo(post, removed) then Added(before, rule.components, post) else before
  }

  ghost predicate DistinctComponents(list: seq<Item>) {
    forall i, j :: 0 <= i < j < |list| ==> list[i].id != list[j].id
  }

  /** The functions of a component in one rule. */
  function FnsIn(components: seq<Item>, id: ComponentId): Option<FnsId> {
    if components == [] then None
    else if components[0].id == id then Some(components[0].fns)
    else FnsIn(components[1..], id)
  }

  /** The first rule that matches and has the component decides. */
  function FnsFor(rules: seq<Rule>, archetype: Archetype, id: ComponentId): Option<FnsId> {
    if rules == [] then None
    else if rules[0].Matches(archetype) && FnsIn(rules[0].components, id).Some? then FnsIn(rules[0].components, id)
    else FnsFor(rules[1..], archetype, id)
  }

  /** All components of the rule are there, and `id` is one of them. */
  ghost predicate Replicates(rule: Rule, archetype: Archetype, id: ComponentId) {
    (forall item <- rule.components :: item.id in archetype) && exists item <- rule.components :: item.id == id
  }

  ghost predicate IsFirst(rules: seq<Rule>, archetype: Archetype, id: ComponentId, k: nat)
    requires k < |rules|
  {
    Replicates(rules[k], archetype, id) && forall j :: 0 <= j < k ==> !Replicates(rules[j], archetype, id)
  }

  /** A component is replicated if and only if some rule does it, with the functions of the first one that does. */
  lemma {:induction false} FirstRuleDecides(rules: seq<Rule>, archetype: Archetype, id: ComponentId)
    ensures
      match FnsFor(rules, archetype, id)
      case None => forall rule <- rules :: !Replicates(rule, archetype, id)
      case Some(fns) =>
        exists k :: 0 <= k < |rules| && IsFirst(rules, archetype, id, k) && Item(id, fns) in rules[k].components
  {
    if rules != [] {
      var fns, rest := FnsFor(rules, archetype, id), rules[1..];
      assert rules == [rules[0]] + rest;
      ListedIff(rules[0].components, id);
      if Replicates(rules[0], archetype, id) {
        assert Listed(rules[0].components, id) && IsFirst(rules, archetype, id, 0);
      } else {
        FirstRuleDecides(rest, archetype, id);
        if fns.Some? {
          var k :| 0 <= k < |rest| && IsFirst(rest, archetype, id, k) && Item(id, fns.value) in rest[k].components;
          assert rules[k + 1] == rest[k];
          forall j | 0 <= j < k + 1 ensures !Replicates(rules[j], archetype, id) {
            if j > 0 {
              assert rules[j] == rest[j - 1];
            }
          }
          assert IsFirst(rules, archetype, id, k + 1);
        }
      }
    }
  }

  function Or(a: Option<FnsId>, b: Option<FnsId>): Option<FnsId> {
    if a.Some? then a else b
  }

  lemma {:induction false} FnsInSplit(a: seq<Item>, b: seq<Item>, id: ComponentId)
    ensures FnsIn(a + b, id) == Or(FnsIn(a, id), FnsIn(b, id))
  {
    if a == [] {
      assert a + b == b;
    } else {
      assert (a + b)[1..] == a[1..] + b;
      FnsInSplit(a[1..], b, id);
    }
  }

  lemma {:induction false} FnsForSplit(a: seq<Rule>, b: seq<Rule>, archetype: Archetype, id: ComponentId)
    ensures FnsFor(a + b, archetype, id) == Or(FnsFor(a, archetype, id), FnsFor(b, archetype, id))
  {
    if a == [] {
      assert a + b == b;
    } else {
      assert (a + b)[1..] == a[1..] + b;
      FnsForSplit(a[1..], b, archetype, id);
    }
  }

  lemma {:induction false} ListedIff(list: seq<Item>, id: ComponentId)
    ensures Listed(list, id) <==> FnsIn(list, id).Some?
    ensures FnsIn(list, id).Some? ==> Item(id, FnsIn(list, id).value) in list
  {
    if list != [] && list[0].id != id {
      ListedIff(list[1..], id);
    }
  }

  lemma {:induction false} AddedIs(list: seq<Item>, components: seq<Item>, skipped: Archetype, id: ComponentId)
    requires DistinctComponents(list)
    ensures DistinctComponents(Added(list, components, skipped))
    ensures FnsIn(Added(list, components, skipped), id) ==
      Or(FnsIn(list, id), if id in skipped then None else FnsIn(components, id))
  {
    if components != [] {
      var init, item := components[..|components| - 1], components[|components| - 1];
      AddedIs(list, init, skipped, id);
      AddedIs(list, init, skipped, item.id);
      var before := Added(list, init, skipped);
      assert components == init + [item];
      FnsInSplit(init, [item], id);
      FnsInSplit(before, [item], id);
      ListedIff(before, item.id);
      assert FnsIn([item], id) == if item.id == id then Some(item.fns) else None;
    }
  }

  /** Every component is listed once, with the functions of the first rule that decides. */
  lemma {:induction false} SelectionIs(rules: seq<Rule>, archetype: Archetype, id: ComponentId)
    ensures DistinctComponents(Selection(rules, archetype))
    ensures FnsIn(Selection(rules, archetype), id) == FnsFor(rules, archetype, id)
  {
    if rules != [] {
      var init, rule := rules[..|rules| - 1], rules[|rules| - 1];
      SelectionIs(init, archetype, id);
      AddedIs(Selection(init, archetype), rule.components, {}, id);
      assert rules == init + [rule];
      FnsForSplit(init, [rule], archetype, id);
    }
  }

  function Outside(list: seq<Item>, post: Archetype): seq<Item> {
    if list == [] then []
    else
      var item := list[|list| - 1];
      Outside(list[..|list| - 1], post) + if item.id in post then [] else [item]
  }

  lemma {:induction false} OutsideListed(list: seq<Item>, post: Archetype, id: ComponentId)
    ensures Listed(Outside(list, post), id) <==> id !in post && Listed(list, id)
  {
    if list != [] {
      var init, item := list[..|list| - 1], list[|list| - 1];
      OutsideListed(init, post, id);
      assert list == init + [item];
    }
  }

  lemma OutsideOne(list: seq<Item>, item: Item, post: Archetype)
    ensures Outside(list + [item], post) == Outside(list, post) + if item.id in post then [] else [item]
  {
    assert (list + [item])[..|list|] == list;
  }

  lemma {:induction false} AddedOutside(list: seq<Item>, components: seq<Item>, post: Archetype)
    ensures Outside(Added(list, components, {}), post) == Added(Outside(list, post), components, post)
  {
    if components != [] {
      var init, item := components[..|components| - 1], components[|components| - 1];
      AddedOutside(list, init, post);
      var before := Added(list, init, {});
      OutsideListed(before, post, item.id);
      OutsideOne(before, item, post);
    }
  }

  lemma {:induction false} NothingAdded(list: seq<Item>, components: seq<Item>, post: Archetype)
    requires forall item <- components :: item.id in post
    ensures Added(list, components, post) == list
  {
    if components != [] {
      NothingAdded(list, components[..|components| - 1], post);
    }
  }

  /**
   The removals are exactly what was selected before the removals and is no longer in the archetype: the same
   components, in the same order, with the same functions.
   */
  lemma {:induction false} RemovalsAreSelected(rules: seq<Rule>, post: Archetype, removed: set<ComponentId>)
    ensures Removals(rules, post, removed) == Outside(Selection(rules, post + removed), post)
  {
    if rules != [] {
      var init, rule := rules[..|rules| - 1], rules[|rules| - 1];
      RemovalsAreSelected(init, post, removed);
      var before := Selection(init, post + removed);
      if rule.Matches(post + removed) {
        AddedOutside(before, rule.components, post);
        if !rule.LosesTo(post, removed) {
          NothingAdded(Outside(before, post), rule.components, post);
        }
      }
    }
  }

  /** Of the removed components, exactly those that are gone and that a rule selected. */
  lemma {:induction false} RemovalsIff(rules: seq<Rule>, post: Archetype, removed: set<ComponentId>, id: ComponentId)
    ensures DistinctComponents(Removals(rules, post, removed))
    ensures FnsIn(Removals(rules, post, removed), id) ==
      if id in removed && id !in post then FnsFor(rules, post + removed, id) else None
  {
    if rules != [] {
      var init, rule := rules[..|rules| - 1], rules[|rules| - 1];
      RemovalsIff(init, post, removed, id);
      assert rules == init + [rule];
      FnsForSplit(init, [rule], post + removed, id);
      ListedIff(rule.components, id);
      AddedIs(Removals(init, post, removed), rule.components, post, id);
    }
  }

  // ---------------------------------------------------------------------------------------------
  // The cached archetypes.

  datatype ReplicatedArchetype = ReplicatedArchetype(id: nat, components: seq<Item>)

  /** The archetypes with the marker, and what is selected in them. */
  function View(archetypes: seq<Archetype>, rules: seq<Rule>, marker: ComponentId): seq<ReplicatedArchetype> {
    if archetypes == [] then []
    else
      var n := |archetypes| - 1;
      View(archetypes[..n], rules, marker)
      + if marker in archetypes[n] then [ReplicatedArchetype(n, Selection(rules, archetypes[n]))] else []
  }

  /** Every archetype with the marker, once and in order, with what the rules select in it; and no other archetype. */
  ghost predicate ListsMarked(list: seq<ReplicatedArchetype>, archetypes: seq<Archetype>, rules: seq<Rule>, marker: ComponentId) {
    && (forall i, j :: 0 <= i < j < |list| ==> list[i].id < list[j].id)
    && (forall x <- list :: x.id < |archetypes| && x.components == Selection(rules, archetypes[x.id]))
    && forall k :: 0 <= k < |archetypes| ==> (marker in archetypes[k] <==> exists x <- list :: x.id == k)
  }

  lemma {:induction false} ViewListsMarked(archetypes: seq<Archetype>, rules: seq<Rule>, marker: ComponentId)
    ensures ListsMarked(View(archetypes, rules, marker), archetypes, rules, marker)
  {
    if archetypes != [] {
      hide Selection, ListsMarked;
      var init := archetypes[..|archetypes| - 1];
      ViewListsMarked(init, rules, marker);
      ListsMarkedNext(View(init, rules, marker), archetypes, rules, marker);
    }
  }

  lemma ListsMarkedNext(list: seq<ReplicatedArchetype>, archetypes: seq<Archetype>, rules: seq<Rule>, marker: ComponentId)
    requires archetypes != [] && ListsMarked(list, archetypes[..|archetypes| - 1], rules, marker)
    ensures
      var n := |archetypes| - 1;
      ListsMarked(list + if marker in archetypes[n] then [ReplicatedArchetype(n, Selection(rules, archetypes[n]))] else [],
                  archetypes, rules, marker)
  {
    hide Selection;
    var n := |archetypes| - 1;
    var init := archetypes[..n];
    var next := ReplicatedArchetype(n, Selection(rules, archetypes[n]));
    assert forall k :: 0 <= k < n ==> init[k] == archetypes[k];
    if marker in archetypes[n] {
      assert next in list + [next] && forall x <- list :: x in list + [next];
    } else {
      assert list + [] == list;
    }
  }

  /** Appends the components of a rule that are not listed yet. */
  method AddComponents(list: seq<Item>, rule: Rule, skipped: Archetype) returns (after: seq<Item>)
    ensures after == Added(list, rule.components, skipped)
  {
    after := list;
    var i := 0;
    while i < |rule.components|
      invariant 0 <= i <= |rule.components|
      invariant after == Added(list, rule.components[..i], skipped)
    {
      assert rule.components[..i + 1][..i] == rule.components[..i];
      var item := rule.components[i];
      if !Listed(after, item.id) && item.id !in skipped {
        after := after + [item];
      }
      i := i + 1;
    }
    assert rule.components[..i] == rule.components;
  }

  class ReplicatedArchetypes {
    const marker: ComponentId
    /** How many archetypes were processed. */
    var generation: nat
    var archetypes: seq<ReplicatedArchetype>

    constructor (marker: ComponentId)
      ensures this.marker == marker && generation == 0 && archetypes == []
    {
      this.marker, generation, archetypes := marker, 0, [];
    }

    /** Archetypes are never removed, so only the new ones are looked at: the view is that of the whole world. */
    method Update(world: seq<Archetype>, rules: seq<Rule>)
      requires generation <= |world| && archetypes == View(world[..generation], rules, marker)
      modifies this
      ensures generation == |world| && archetypes == View(world, rules, marker)
      ensures ListsMarked(archetypes, world, rules, marker)
    {
      ViewListsMarked(world, rules, marker);
      hide ListsMarked;
      var next := generation;
      generation := |world|;
      while next < |world|
        invariant next <= |world| && archetypes == View(world[..next], rules, marker)
        modifies this`archetypes
      {
        assert world[..next + 1][..next] == world[..next];
        if marker in world[next] {
          var components := Select(world[next], rules);
          archetypes := archetypes + [ReplicatedArchetype(next, components)];
        }
        next := next + 1;
      }
      assert world[..next] == world;
    }
  }

  method Select(archetype: Archetype, rules: seq<Rule>) returns (components: seq<Item>)
    ensures components == Selection(rules, archetype)
  {
    components := [];
    var i := 0;
    while i < |rules|
      invariant 0 <= i <= |rules|
      invariant components == Selection(rules[..i], archetype)
    {
      assert rules[..i + 1][..i] == rules[..i];
      if rules[i].Matches(archetype) {
        components := AddComponents(components, rules[i], {});
      }
      i := i + 1;
    }
    assert rules[..i] == rules;
  }
}
