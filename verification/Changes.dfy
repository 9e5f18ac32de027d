/**
 How one replication run classifies the components of an entity for one client
 (`collect_changes` in server.rs).

 Change stamps are compared strictly. A stamp is the tick of the earliest replication run that can see
 the change, so `stamp > tick` says "changed after the run of `tick`".
 */
module Changes {
  import opened Domain
  import opened Visibility

  type Comps = map<FnsId, Value>

  datatype Stamped = Stamped(value: Value, added: nat, changed: nat)

  /** A replicated entity: the stamp of its marker and its replicated components. */
  datatype Entry = Entry(marker: nat, comps: map<FnsId, Stamped>)

  /** What the run knows about one entity from the perspective of one client. */
  datatype Perspective = Perspective(view: View, baseline: Option<nat>, removal: bool, lastRun: nat)

  function Values(comps: map<FnsId, Stamped>): Comps {
    map c | c in comps :: comps[c].value
  }

  datatype Route = Skip | ToUpdate | ToMutate

  function RouteOf(entry: Entry, st: Stamped, p: Perspective): Route {
    if p.view == Hidden then Skip
    else if p.baseline.Some? && entry.marker <= p.lastRun && p.view != Gained && st.added <= p.lastRun then
      if st.changed > p.baseline.value then ToMutate else Skip
    else ToUpdate
  }

  function Routed(entry: Entry, p: Perspective, r: Route): Comps {
    map c | c in entry.comps && RouteOf(entry, entry.comps[c], p) == r :: entry.comps[c].value
  }

  /** The entity just became known to the client. */
  predicate NewEntity(entry: Entry, p: Perspective) {
    entry.marker > p.lastRun || p.view == Gained
  }

  /** The entity has an insertion or a removal, or is new: all of its data belongs to the update message. */
  predicate Structural(entry: Entry, p: Perspective) {
    p.view != Hidden && (NewEntity(entry, p) || Routed(entry, p, ToUpdate) != map[] || p.removal)
  }

  /** The entity's item in the CHANGES section of the update message. */
  function UpdateItem(entry: Entry, p: Perspective): Option<Comps> {
    var inserted := Routed(entry, p, ToUpdate);
    var mutated := Routed(entry, p, ToMutate);
    if Structural(entry, p) && (NewEntity(entry, p) || inserted != map[] || mutated != map[])
    then Some(inserted + mutated)
    else None
  }

  /** The entity's item in the mutate messages. */
  function MutateItem(entry: Entry, p: Perspective): Option<Comps> {
    var mutated := Routed(entry, p, ToMutate);
    if p.view != Hidden && !Structural(entry, p) && mutated != map[] then Some(mutated) else None
  }

  /** Components the client has to learn about to move from any state at or after the baseline to now. */
  ghost predicate Relevant(entry: Entry, c: FnsId, p: Perspective) {
    && c in entry.comps
    && (p.baseline == None || NewEntity(entry, p) || entry.comps[c].added > p.lastRun
        || entry.comps[c].changed > p.baseline.value)
  }

  /** What is sent for the entity, in whichever message. */
  function Sent(entry: Entry, p: Perspective): Comps {
    if UpdateItem(entry, p).Some? then UpdateItem(entry, p).value
    else if MutateItem(entry, p).Some? then MutateItem(entry, p).value
    else map[]
  }

  /**
   Atomic classification: an entity never has data in both kinds of message, a hidden one has none, and
   the data sent for a visible one is exactly its relevant components with their current values.
   */
  lemma ClassificationAtomic(entry: Entry, p: Perspective)
    ensures UpdateItem(entry, p).None? || MutateItem(entry, p).None?
    ensures p.view == Hidden ==> UpdateItem(entry, p).None? && MutateItem(entry, p).None?
    ensures p.view != Hidden ==> forall c :: c in Sent(entry, p) <==> Relevant(entry, c, p)
    ensures forall c <- Sent(entry, p) :: c in entry.comps && Sent(entry, p)[c] == entry.comps[c].value
    ensures MutateItem(entry, p).Some? ==> !Structural(entry, p) && p.baseline.Some?
  {
    var inserted, mutated := Routed(entry, p, ToUpdate), Routed(entry, p, ToMutate);
    assert forall c <- inserted :: c in entry.comps && inserted[c] == entry.comps[c].value;
    assert forall c <- mutated :: c in entry.comps && mutated[c] == entry.comps[c].value;
    assert p.baseline == None || NewEntity(entry, p) ==> mutated == map[];
    if p.view != Hidden {
      assert forall c <- entry.comps :: Relevant(entry, c, p) <==> c in inserted || c in mutated;
      assert !Structural(entry, p) ==> inserted == map[];
      assert Sent(entry, p).Keys == inserted.Keys + mutated.Keys;
    }
  }

  /** Something about the entity, other than values, is new to the client since the last run. */
  ghost predicate Changed(entry: Entry, p: Perspective) {
    || entry.marker > p.lastRun || p.view == Gained || p.removal
    || (exists c <- entry.comps :: p.baseline.None? || entry.comps[c].added > p.lastRun)
  }

  ghost predicate HasNewValue(entry: Entry, p: Perspective) {
    p.baseline.Some? && exists c <- entry.comps :: entry.comps[c].changed > p.baseline.value
  }

  /**
   Which message an entity goes into: the mutate messages if and only if nothing but values changed, the update message if
   and only if something else did and there is data to send or the entity is new.
   */
  lemma WhichMessageIff(entry: Entry, p: Perspective)
    ensures Structural(entry, p) <==> p.view != Hidden && Changed(entry, p)
    ensures MutateItem(entry, p).Some? <==> p.view != Hidden && !Changed(entry, p) && HasNewValue(entry, p)
    ensures UpdateItem(entry, p).Some? <==>
      p.view != Hidden && Changed(entry, p)
      && (entry.marker > p.lastRun || p.view == Gained || exists c :: Relevant(entry, c, p))
  {
    var inserted, mutated := Routed(entry, p, ToUpdate), Routed(entry, p, ToMutate);
    ClassificationAtomic(entry, p);
    if p.view != Hidden {
      assert forall c <- entry.comps :: RouteOf(entry, entry.comps[c], p) == ToUpdate ==> c in inserted;
      assert forall c <- entry.comps :: RouteOf(entry, entry.comps[c], p) == ToMutate ==> c in mutated;
      assert forall c <- inserted + mutated :: Relevant(entry, c, p);
      assert forall c :: Relevant(entry, c, p) ==> c in inserted + mutated;
    }
  }

  /** The client gets everything about an entity it does not know, in the update message if there is anything. */
  lemma UnknownSentInFull(entry: Entry, p: Perspective)
    requires p.view != Hidden && (p.baseline == None || NewEntity(entry, p))
    ensures Sent(entry, p) == Values(entry.comps)
    ensures MutateItem(entry, p).None?
    ensures entry.comps != map[] || NewEntity(entry, p) ==> Structural(entry, p) && UpdateItem(entry, p).Some?
  {
    ClassificationAtomic(entry, p);
    assert forall c <- entry.comps :: c in Routed(entry, p, ToUpdate);
    assert Routed(entry, p, ToMutate) == map[];
    if entry.comps != map[] {
      var c :| c in entry.comps;
      assert c in Routed(entry, p, ToUpdate);
    }
  }

  /** `base` is a state of the entity since its baseline, and `removed` are the removals reported for it. */
  ghost predicate Evolved(entry: Entry, p: Perspective, base: Comps, removed: set<FnsId>) {
    && p.view == Visible && p.baseline.Some? && entry.marker <= p.lastRun
    && p.removal == (removed != {}) && removed !! entry.comps.Keys
    && (forall c <- entry.comps :: entry.comps[c].added <= p.lastRun ==> c in base)
    && (forall c <- entry.comps :: entry.comps[c].changed <= p.baseline.value ==>
          c in base && base[c] == entry.comps[c].value)
    && (forall c <- base :: c !in entry.comps ==> c in removed)
  }

  /** Removing what is reported as removed and writing what is sent brings an old state up to date. */
  lemma SentCatchesUp(entry: Entry, p: Perspective, base: Comps, removed: set<FnsId>)
    requires Evolved(entry, p, base, removed)
    ensures Values(entry.comps) == (base - removed) + Sent(entry, p)
    ensures !Structural(entry, p) ==> removed == {} && Values(entry.comps).Keys == base.Keys
  {
    ClassificationAtomic(entry, p);
    var now := (base - removed) + Sent(entry, p);
    forall c | c in entry.comps ensures c in now && now[c] == entry.comps[c].value {
      if !Relevant(entry, c, p) {
        assert c in base && c !in removed;
      }
    }
    if !Structural(entry, p) {
      forall c <- entry.comps ensures c in base {
        assert c !in Routed(entry, p, ToUpdate);
      }
    }
  }
}
