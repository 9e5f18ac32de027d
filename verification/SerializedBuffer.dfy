/**
 The shared append-only buffer and the ranges of it that messages are made of (serialized_data.rs,
 component_changes.rs).
 */
module SerializedBuffer {
  import opened Domain
  import opened Wire
  import opened EntitySerde
  import opened UpdateWire

  datatype Range = Range(start: nat, end: nat) {
    predicate In(data: Bytes) {
      start <= end <= |data|
    }

    function Len(): nat {
      if start <= end then end - start else 0
    }
  }

  predicate AllIn(rs: seq<Range>, data: Bytes) {
    forall r <- rs :: r.In(data)
  }

  function Slice(data: Bytes, r: Range): Bytes
    requires r.In(data)
  {
    data[r.start..r.end]
  }

  /** What a list of ranges stands for. */
  function Chunks(data: Bytes, rs: seq<Range>): Bytes
    requires AllIn(rs, data)
  {
    if rs == [] then [] else Chunks(data, rs[..|rs| - 1]) + Slice(data, rs[|rs| - 1])
  }

  /** Appends a range, extending the last one if it is adjacent. */
  function Merged(rs: seq<Range>, r: Range): seq<Range> {
    if rs != [] && rs[|rs| - 1].end == r.start then rs[..|rs| - 1] + [Range(rs[|rs| - 1].start, r.end)]
    else rs + [r]
  }

  function TotalLen(rs: seq<Range>): nat {
    if rs == [] then 0 else TotalLen(rs[..|rs| - 1]) + rs[|rs| - 1].Len()
  }

  /** Merging adjacent ranges does not change what they stand for. */
  lemma MergedStandsForBoth(data: Bytes, rs: seq<Range>, r: Range)
    requires AllIn(rs, data) && r.In(data)
    ensures AllIn(Merged(rs, r), data)
    ensures Chunks(data, Merged(rs, r)) == Chunks(data, rs) + Slice(data, r)
  {
    var merged := Merged(rs, r);
    if rs != [] && rs[|rs| - 1].end == r.start {
      var last := rs[|rs| - 1];
      assert last in rs && last.In(data);
      assert merged[..|merged| - 1] == rs[..|rs| - 1];
      assert Slice(data, Range(last.start, r.end)) == Slice(data, last) + Slice(data, r);
    } else {
      assert merged[..|merged| - 1] == rs;
    }
  }

  /** No range starts where the one before it ends. */
  ghost predicate Apart(rs: seq<Range>) {
    forall i, j :: 0 <= i < |rs| && j == i + 1 < |rs| ==> rs[i].end != rs[j].start
  }

  /** Ranges that are written one behind the other are one range. */
  lemma MergedKeepsApart(rs: seq<Range>, r: Range)
    requires Apart(rs)
    ensures Apart(Merged(rs, r))
    ensures |Merged(rs, r)| == |rs| + if rs != [] && rs[|rs| - 1].end == r.start then 0 else 1
  {
  }

  /** The precomputed size is the number of bytes. */
  lemma {:induction false} TotalLenIsSize(data: Bytes, rs: seq<Range>)
    requires AllIn(rs, data)
    ensures TotalLen(rs) == |Chunks(data, rs)|
  {
    if rs != [] {
      assert rs[|rs| - 1] in rs;
      TotalLenIsSize(data, rs[..|rs| - 1]);
    }
  }

  lemma {:induction false} ChunksConcat(data: Bytes, rs: seq<Range>, more: seq<Range>)
    requires AllIn(rs, data) && AllIn(more, data)
    ensures AllIn(rs + more, data) && Chunks(data, rs + more) == Chunks(data, rs) + Chunks(data, more)
  {
    if more == [] {
      assert rs + more == rs;
    } else {
      var all := rs + more;
      assert all[..|all| - 1] == rs + more[..|more| - 1];
      ChunksConcat(data, rs, more[..|more| - 1]);
      Associative(Chunks(data, rs), Chunks(data, more[..|more| - 1]), Slice(data, more[|more| - 1]));
    }
  }

  /** Whatever is appended to the buffer later, a range keeps its meaning. */
  lemma {:induction false} ChunksKept(data: Bytes, data': Bytes, rs: seq<Range>)
    requires AllIn(rs, data) && data <= data'
    ensures AllIn(rs, data') && Chunks(data', rs) == Chunks(data, rs)
  {
    if rs != [] {
      assert rs[|rs| - 1] in rs;
      ChunksKept(data, data', rs[..|rs| - 1]);
    }
  }

  // ---------------------------------------------------------------------------------------------
  // The components of an entity.

  datatype ComponentChanges = ComponentChanges(entity: Range, len: nat, components: seq<Range>) {
    predicate In(data: Bytes) {
      entity.In(data) && AllIn(components, data)
    }

    function ComponentsSize(): nat {
      TotalLen(components)
    }

    function AddComponent(component: Range): ComponentChanges {
      this.(len := len + 1, components := Merged(components, component))
    }

    function Extend(other: ComponentChanges): ComponentChanges {
      this.(len := len + other.len, components := components + other.components)
    }

    /** The entity and its components as bytes. */
    function ItemIn(data: Bytes): Item
      requires In(data)
    {
      Item(Slice(data, entity), len, Chunks(data, components))
    }
  }

  lemma AddComponentAdds(data: Bytes, c: ComponentChanges, r: Range)
    requires c.In(data) && r.In(data)
    ensures c.AddComponent(r).In(data)
    ensures
      var i := c.ItemIn(data);
      c.AddComponent(r).ItemIn(data) == Item(i.entity, i.len + 1, i.data + Slice(data, r))
  {
    MergedStandsForBoth(data, c.components, r);
  }

  lemma ExtendAdds(data: Bytes, c: ComponentChanges, d: ComponentChanges)
    requires c.In(data) && d.In(data)
    ensures c.Extend(d).In(data)
    ensures
      var (i, j) := (c.ItemIn(data), d.ItemIn(data));
      c.Extend(d).ItemIn(data) == Item(i.entity, i.len + j.len, i.data + j.data)
  {
    ChunksConcat(data, c.components, d.components);
  }

  predicate ChangesIn(cs: seq<ComponentChanges>, data: Bytes) {
    forall c <- cs :: c.In(data)
  }

  function ItemsIn(data: Bytes, cs: seq<ComponentChanges>): (items: seq<Item>)
    requires ChangesIn(cs, data)
    ensures |items| == |cs|
  {
    seq(|cs|, i requires 0 <= i < |cs| => cs[i].ItemIn(data))
  }

  /** Writing the ranges one after the other. */
  method WriteChunks(message: Bytes, data: Bytes, rs: seq<Range>) returns (message': Bytes)
    requires AllIn(rs, data)
    ensures message' == message + Chunks(data, rs)
  {
    message' := message;
    var i := 0;
    while i < |rs|
      invariant 0 <= i <= |rs| && AllIn(rs[..i], data)
      invariant message' == message + Chunks(data, rs[..i])
    {
      assert rs[i] in rs && rs[..i + 1][..i] == rs[..i];
      Associative(message, Chunks(data, rs[..i]), Slice(data, rs[i]));
      message' := message' + data[rs[i].start..rs[i].end];
      i := i + 1;
    }
    assert rs[..i] == rs;
  }

  lemma ItemsKept(data: Bytes, data': Bytes, cs: seq<ComponentChanges>)
    requires ChangesIn(cs, data) && data <= data'
    ensures ChangesIn(cs, data') && ItemsIn(data', cs) == ItemsIn(data, cs)
  {
    forall i | 0 <= i < |cs| ensures cs[i].In(data') && cs[i].ItemIn(data') == cs[i].ItemIn(data) {
      assert cs[i] in cs;
      ChunksKept(data, data', cs[i].components);
    }
  }

  // ---------------------------------------------------------------------------------------------
  // The buffer.

  class SerializedData {
    var data: Bytes

    constructor ()
      ensures data == []
    {
      data := [];
    }

    /** What every write promises: the bytes are appended, and the range stands for exactly them. */
    twostate predicate Appended(r: Range, bytes: Bytes)
      reads this
    {
      data == old(data) + bytes && r == Range(|old(data)|, |data|) && r.In(data) && Slice(data, r) == bytes
    }

    method WriteMappings(mappings: seq<(Entity, Entity)>) returns (r: Range)
      modifies this
      ensures Appended(r, WriteAll(MappingCodec(), mappings))
    {
      var start := |data|;
      ghost var c := MappingCodec();
      var i := 0;
      while i < |mappings|
        invariant 0 <= i <= |mappings| && c == MappingCodec()
        invariant data == old(data) + WriteAll(c, mappings[..i])
      {
        WriteMapping(c, mappings[i]);
        Associative(old(data), WriteAll(c, mappings[..i]), c.encode(mappings[i]));
        WriteNext(c, mappings, i);
        i := i + 1;
      }
      assert mappings[..i] == mappings;
      r := Range(start, |data|);
    }

    method WriteMapping(ghost c: Codec<(Entity, Entity)>, mapping: (Entity, Entity))
      requires c == MappingCodec()
      modifies this
      ensures data == old(data) + c.encode(mapping)
    {
      var _ := WriteEntity(mapping.0);
      var _ := WriteEntity(mapping.1);
      EncodeBoth(EntityCodec(), EntityCodec(), mapping);
      Associative(old(data), EntityBytes(mapping.0), EntityBytes(mapping.1));
    }

    method WriteFnIds(c: Codec<FnsId>, ids: seq<FnsId>) returns (r: Range)
      modifies this
      ensures Appended(r, WriteAll(c, ids))
    {
      var start := |data|;
      var i := 0;
      while i < |ids|
        invariant 0 <= i <= |ids|
        invariant data == old(data) + WriteAll(c, ids[..i])
      {
        data := data + c.encode(ids[i]);
        Associative(old(data), WriteAll(c, ids[..i]), c.encode(ids[i]));
        WriteNext(c, ids, i);
        i := i + 1;
      }
      assert ids[..i] == ids;
      r := Range(start, |data|);
    }

    method WriteComponent(c: Codec<Component>, component: Component) returns (r: Range)
      modifies this
      ensures Appended(r, c.encode(component))
    {
      var start := |data|;
      data := data + c.encode(component);
      r := Range(start, |data|);
    }

    method WriteEntity(e: Entity) returns (r: Range)
      modifies this
      ensures Appended(r, EntityBytes(e))
    {
      var start := |data|;
      data := SerializeEntity(data, e);
      r := Range(start, |data|);
    }

    method WriteTick(tick: U32) returns (r: Range)
      modifies this
      ensures Appended(r, TickBytes(tick))
    {
      var start := |data|;
      data := data + TickBytes(tick);
      r := Range(start, |data|);
    }
  }

  lemma EncodeBoth<T, U>(a: Codec<T>, b: Codec<U>, x: (T, U))
    ensures Both(a, b).encode(x) == a.encode(x.0) + b.encode(x.1)
  {
  }

  lemma WriteNext<T>(c: Codec<T>, xs: seq<T>, i: nat)
    requires i < |xs|
    ensures WriteAll(c, xs[..i + 1]) == WriteAll(c, xs[..i]) + c.encode(xs[i])
  {
    WriteAllConcat(c, xs[..i], [xs[i]]);
    assert xs[..i + 1] == xs[..i] + [xs[i]];
    assert WriteAll(c, [xs[i]]) == c.encode(xs[i]) + WriteAll(c, []);
  }
}
