/** Building and sending the update message of one client (update_message.rs). */
module UpdateMessages {
  import opened Domain
  import opened Visibility
  import opened Wire
  import opened UpdateWire
  import opened SerializedBuffer
  import opened MutateMessages

  datatype ComponentRemovals = ComponentRemovals(entity: Range, idsLen: nat, fnIds: Range) {
    predicate In(data: Bytes) {
      entity.In(data) && fnIds.In(data)
    }

    function ItemIn(data: Bytes): Item
      requires In(data)
    {
      Item(Slice(data, entity), idsLen, Slice(data, fnIds))
    }

    function Size(): nat {
      entity.Len() + RequiredSpace(idsLen) + fnIds.Len()
    }
  }

  predicate RemovalsIn(rs: seq<ComponentRemovals>, data: Bytes) {
    forall r <- rs :: r.In(data)
  }

  function RemovalItems(data: Bytes, rs: seq<ComponentRemovals>): (items: seq<Item>)
    requires RemovalsIn(rs, data)
    ensures |items| == |rs|
  {
    seq(|rs|, i requires 0 <= i < |rs| => rs[i].ItemIn(data))
  }

  class UpdateMessage {
    var mappings: Range
    var mappingsLen: nat
    var despawns: seq<Range>
    var despawnsLen: nat
    var removals: seq<ComponentRemovals>
    var changes: seq<ComponentChanges>
    var entityVisibility: View
    var entityWritten: bool

    constructor ()
      ensures mappings == Range(0, 0) && mappingsLen == 0 && despawns == [] && despawnsLen == 0
      ensures removals == [] && changes == [] && !entityWritten
    {
      mappings, mappingsLen, despawns, despawnsLen := Range(0, 0), 0, [], 0;
      removals, changes, entityVisibility, entityWritten := [], [], Visible, false;
    }

    /** The ranges lie within the buffer, and there are despawns exactly if they are counted. */
    predicate In(data: Bytes)
      reads this
    {
      && mappings.In(data) && AllIn(despawns, data) && RemovalsIn(removals, data) && ChangesIn(changes, data)
      && (despawns == [] <==> despawnsLen == 0)
    }

    /** What the message consists of, as bytes. */
    function ContentIn(data: Bytes): Content
      requires In(data)
      reads this
    {
      Content(Slice(data, mappings), mappingsLen, Chunks(data, despawns), despawnsLen,
              RemovalItems(data, removals), ItemsIn(data, changes))
    }

    method SetMappings(mappings: Range, len: nat)
      modifies this`mappings, this`mappingsLen
      ensures this.mappings == mappings && mappingsLen == len
    {
      this.mappings, mappingsLen := mappings, len;
    }

    /** Adjacent despawns are merged: the bytes and the number of entities are as if they were not. */
    method AddDespawn(entity: Range, ghost data: Bytes)
      requires In(data) && entity.In(data)
      modifies this`despawns, this`despawnsLen
      ensures In(data)
      ensures ContentIn(data) == old(ContentIn(data)).(
        despawns := Chunks(data, old(despawns)) + Slice(data, entity), despawnsLen := old(despawnsLen) + 1)
    {
      MergedStandsForBoth(data, despawns, entity);
      hide Merged, Chunks, Slice, ItemsIn, RemovalItems, ChangesIn, RemovalsIn, AllIn;
      MergeDespawn(entity);
      despawnsLen := despawnsLen + 1;
    }

    method MergeDespawn(entity: Range)
      modifies this`despawns
      ensures despawns == Merged(old(despawns), entity) != []
    {
      if despawns != [] && despawns[|despawns| - 1].end == entity.start {
        var n := |despawns| - 1;
        despawns := despawns[..n] + [Range(despawns[n].start, entity.end)];
        return;
      }
      despawns := despawns + [entity];
    }

    method AddRemovals(entity: Range, idsLen: nat, fnIds: Range)
      modifies this`removals
      ensures removals == old(removals) + [ComponentRemovals(entity, idsLen, fnIds)]
    {
      removals := removals + [ComponentRemovals(entity, idsLen, fnIds)];
    }

    method StartEntityChanges(visibility: View)
      modifies this`entityVisibility, this`entityWritten
      ensures entityVisibility == visibility && !entityWritten
    {
      entityVisibility := visibility;
      entityWritten := false;
    }

    method AddChangedEntity(entity: Range)
      modifies this`changes, this`entityWritten
      ensures changes == old(changes) + [ComponentChanges(entity, 0, [])] && entityWritten
    {
      changes := changes + [ComponentChanges(entity, 0, [])];
      entityWritten := true;
    }

    /** Adds a component to the entity that was added last. */
    method AddInsertedComponent(component: Range)
      requires changes != []
      modifies this`changes
      ensures
        var n := |old(changes)| - 1;
        changes == old(changes)[..n] + [old(changes)[n].AddComponent(component)]
    {
      var n := |changes| - 1;
      changes := changes[..n] + [changes[n].AddComponent(component)];
    }

    /** Moves the last mutated entity into this message, behind its insertions if there are any. */
    method TakeMutations(mutate: MutateMessage)
      requires mutate.mutationsWritten ==> mutate.mutations != [] && |mutate.entities| == |mutate.mutations|
      requires mutate.mutationsWritten && entityWritten ==>
        changes != [] && changes[|changes| - 1].entity == mutate.mutations[|mutate.mutations| - 1].entity
      modifies this`changes, mutate`entities, mutate`mutations
      ensures
        var taken := old(mutate.mutations);
        if !old(mutate.mutationsWritten) then
          changes == old(changes) && mutate.mutations == old(mutate.mutations) && mutate.entities == old(mutate.entities)
        else
          var m, n := |taken| - 1, |old(changes)| - 1;
          && mutate.mutations == taken[..m] && mutate.entities == old(mutate.entities)[..m]
          && changes == if old(entityWritten)
             then old(changes)[..n] + [old(changes)[n].Extend(taken[m])]
             else old(changes) + [ComponentChanges(taken[m].entity, 0, []).Extend(taken[m])]
    {
      if !mutate.mutationsWritten {
        return;
      }
      var mutations := mutate.mutations[|mutate.mutations| - 1];
      if !entityWritten {
        changes := changes + [ComponentChanges(mutations.entity, 0, [])];
      }
      var n := |changes| - 1;
      changes := changes[..n] + [changes[n].Extend(mutations)];
      mutate.PopMutations();
    }

    method IsEmpty(ghost data: Bytes) returns (empty: bool)
      requires In(data)
      ensures empty == ContentIn(data).IsEmpty()
    {
      empty := changes == [] && despawns == [] && removals == [] && mappings.Len() == 0;
    }

    method Flags(ghost data: Bytes) returns (flags: Byte)
      requires In(data)
      ensures flags == ContentIn(data).Flags()
    {
      flags := 0;
      if mappings.Len() != 0 {
        flags := flags + MAPPINGS;
      }
      if despawns != [] {
        flags := flags + DESPAWNS;
      }
      if removals != [] {
        flags := flags + REMOVALS;
      }
      if changes != [] {
        flags := flags + CHANGES;
      }
    }

    /** The size that is allocated before writing is exactly the size of the message. */
    method MessageSize(flags: Byte, ghost data: Bytes, ghost tick: Bytes, tickLen: nat) returns (size: nat)
      requires In(data) && !ContentIn(data).IsEmpty() && flags == ContentIn(data).Flags() && tickLen == |tick|
      ensures EncodeContent(ContentIn(data), tick).Some? ==> size == |EncodeContent(ContentIn(data), tick).value|
    {
      ghost var c := ContentIn(data);
      FlagsArePositive(c);
      SectionsSize(c);
      TotalLenIsSize(data, despawns);
      var m := SectionSize(flags, MAPPINGS, mappingsLen, mappings.Len());
      var d := SectionSize(flags, DESPAWNS, despawnsLen, TotalLen(despawns));
      var n := RemovalsSize(removals, data);
      var r := SectionSize(flags, REMOVALS, |removals|, n);
      n := ChangesSize(changes, data);
      size := 1 + tickLen + m + d + r + SectionSize(flags, CHANGES, |changes|, n);
    }

    /** A message with nothing but mappings is not sent. */
    method Send(data: Bytes, serverTick: Range) returns (sent: Option<Bytes>)
      requires In(data) && !ContentIn(data).IsEmpty() && serverTick.In(data)
      ensures sent == EncodeContent(ContentIn(data), Slice(data, serverTick))
    {
      ghost var c := ContentIn(data);
      FlagsArePositive(c);
      var flags := Flags(data);
      var last := Last(flags);
      if last == MAPPINGS {
        return None;
      }
      var message := [flags] + data[serverTick.start..serverTick.end];
      var s1 := WriteSection(flags, MAPPINGS, mappingsLen, data[mappings.start..mappings.end]);
      var body := WriteChunks([], data, despawns);
      assert body == Chunks(data, despawns);
      var s2 := WriteSection(flags, DESPAWNS, despawnsLen, body);
      body := WriteRemovals(data, removals);
      var s3 := WriteSection(flags, REMOVALS, |removals|, body);
      body := WriteChanges(data, changes);
      var s4 := WriteSection(flags, CHANGES, |changes|, body);
      Associative(s1, s2, s3 + s4);
      Associative(s1 + s2, s3, s4);
      assert s1 + s2 + s3 + s4 == Sections(c);
      message := message + (s1 + s2 + s3 + s4);
      var messageSize := MessageSize(flags, data, Slice(data, serverTick), serverTick.Len());
      assert |message| == messageSize;
      sent := Some(message);
    }
  }

  function SectionSize(flags: Byte, flag: Byte, len: nat, size: nat): nat
    requires flags > 0 && flag > 0
  {
    if !Has(flags, flag) then 0
    else if flag != Last(flags) then RequiredSpace(len) + size
    else size
  }

  lemma SectionsSize(c: Content)
    requires !c.IsEmpty() && c.Flags() > 0
    ensures |Sections(c)| ==
      SectionSize(c.Flags(), MAPPINGS, c.mappingsLen, |c.mappings|)
      + SectionSize(c.Flags(), DESPAWNS, c.despawnsLen, |c.despawns|)
      + SectionSize(c.Flags(), REMOVALS, |c.removals|, |AllItems(c.removals)|)
      + SectionSize(c.Flags(), CHANGES, |c.changes|, |AllItems(c.changes)|)
  {
    hide AllItems, Last, Has;
  }

  method RemovalsSize(rs: seq<ComponentRemovals>, ghost data: Bytes) returns (size: nat)
    requires RemovalsIn(rs, data)
    ensures size == |AllItems(RemovalItems(data, rs))|
  {
    size := 0;
    var i := 0;
    while i < |rs|
      invariant 0 <= i <= |rs| && size == |AllItems(RemovalItems(data, rs)[..i])|
    {
      assert rs[i] in rs;
      AllItemsNext(RemovalItems(data, rs), i);
      size := size + rs[i].Size();
      i := i + 1;
    }
    assert RemovalItems(data, rs)[..i] == RemovalItems(data, rs);
  }

  method ChangesSize(cs: seq<ComponentChanges>, ghost data: Bytes) returns (size: nat)
    requires ChangesIn(cs, data)
    ensures size == |AllItems(ItemsIn(data, cs))|
  {
    size := 0;
    var i := 0;
    while i < |cs|
      invariant 0 <= i <= |cs| && size == |AllItems(ItemsIn(data, cs)[..i])|
    {
      assert cs[i] in cs;
      AllItemsNext(ItemsIn(data, cs), i);
      TotalLenIsSize(data, cs[i].components);
      size := size + cs[i].entity.Len() + RequiredSpace(cs[i].len) + cs[i].ComponentsSize();
      i := i + 1;
    }
    assert ItemsIn(data, cs)[..i] == ItemsIn(data, cs);
  }

  lemma FlagsArePositive(c: Content)
    requires !c.IsEmpty()
    ensures c.Flags() > 0
  {
  }

  /** A section of the message: nothing, its elements, or their number and its elements. */
  method WriteSection(flags: Byte, flag: Byte, len: nat, body: Bytes) returns (section: Bytes)
    requires flags > 0 && flag > 0
    ensures section == Section(flags, flag, len, body)
  {
    section := [];
    if Has(flags, flag) {
      if flag != Last(flags) {
        section := Varint(len);
      }
      section := section + body;
    }
  }

  method WriteRemovals(data: Bytes, rs: seq<ComponentRemovals>) returns (body: Bytes)
    requires RemovalsIn(rs, data)
    ensures body == AllItems(RemovalItems(data, rs))
  {
    body := [];
    var i := 0;
    while i < |rs|
      invariant 0 <= i <= |rs|
      invariant body == AllItems(RemovalItems(data, rs)[..i])
    {
      assert rs[i] in rs;
      AllItemsNext(RemovalItems(data, rs), i);
      var r := rs[i];
      body := body + (data[r.entity.start..r.entity.end] + Varint(r.idsLen) + data[r.fnIds.start..r.fnIds.end]);
      i := i + 1;
    }
    assert RemovalItems(data, rs)[..i] == RemovalItems(data, rs);
  }

  method WriteChanges(data: Bytes, cs: seq<ComponentChanges>) returns (body: Bytes)
    requires ChangesIn(cs, data)
    ensures body == AllItems(ItemsIn(data, cs))
  {
    body := [];
    var i := 0;
    while i < |cs|
      invariant 0 <= i <= |cs|
      invariant body == AllItems(ItemsIn(data, cs)[..i])
    {
      assert cs[i] in cs;
      AllItemsNext(ItemsIn(data, cs), i);
      var item := data[cs[i].entity.start..cs[i].entity.end] + Varint(cs[i].len);
      item := WriteChunks(item, data, cs[i].components);
      body := body + item;
      i := i + 1;
    }
    assert ItemsIn(data, cs)[..i] == ItemsIn(data, cs);
  }

  lemma {:induction false} AllItemsNext(items: seq<Item>, i: nat)
    requires i < |items|
    ensures AllItems(items[..i + 1]) == AllItems(items[..i]) + ItemBytes(items[i])
  {
    if i == 0 {
      assert items[..1][1..] == [] && items[..0] == [];
    } else {
      AllItemsNext(items[1..], i - 1);
      assert items[..i + 1][1..] == items[1..][..i] && items[..i][1..] == items[1..][..i - 1];
      Associative(ItemBytes(items[0]), AllItems(items[1..][..i - 1]), ItemBytes(items[i]));
    }
  }
}
