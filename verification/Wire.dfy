/**
 Bytes, the readers and writers over them, and codecs.

 Variable-length integers are the base-128 varints of the Protocol Buffers Encoding guide (section "Base 128
 Varints"), the same as unsigned LEB128 (section 7.6 of DWARF 5).
 */
module Wire {
  import opened Domain

  type Byte = x: int | 0 <= x < 0x100

  type Bytes = seq<Byte>

  /** What a read gives: a value and the bytes after it. */
  datatype Parsed<+T> = Failure | Parsed(value: T, rest: Bytes)

  predicate IsSuffix(rest: Bytes, s: Bytes) {
    |rest| <= |s| && rest == s[|s| - |rest|..]
  }

  lemma Associative(a: Bytes, b: Bytes, c: Bytes)
    ensures a + b + c == a + (b + c)
  {
  }

  lemma SuffixTransitive(a: Bytes, b: Bytes, c: Bytes)
    requires IsSuffix(a, b) && IsSuffix(b, c)
    ensures IsSuffix(a, c)
  {
  }

  // ---------------------------------------------------------------------------------------------
  // Integers.

  function Varint(n: nat): (s: Bytes)
    ensures |s| == RequiredSpace(n)
  {
    if n < 0x80 then [n] else [n % 0x80 + 0x80] + Varint(n / 0x80)
  }

  function RequiredSpace(n: nat): (k: nat)
    ensures k >= 1
  {
    if n < 0x80 then 1 else 1 + RequiredSpace(n / 0x80)
  }

  function ReadVarint(s: Bytes): (p: Parsed<nat>)
    ensures p.Parsed? ==> |p.rest| < |s| && IsSuffix(p.rest, s)
  {
    if s == [] then Failure
    else if s[0] < 0x80 then Parsed(s[0], s[1..])
    else match ReadVarint(s[1..])
      case Failure => Failure
      case Parsed(high, rest) => Parsed(s[0] - 0x80 + 0x80 * high, rest)
  }

  lemma {:induction false} VarintRoundTrip(n: nat, rest: Bytes)
    ensures ReadVarint(Varint(n) + rest) == Parsed(n, rest)
  {
    var s := Varint(n) + rest;
    if n >= 0x80 {
      assert s[1..] == Varint(n / 0x80) + rest;
      VarintRoundTrip(n / 0x80, rest);
    } else {
      assert s[1..] == rest;
    }
  }

  /** The number that base-128 groups stand for, least significant group first, whatever their high bits. */
  function ValueOf(s: Bytes): nat {
    if s == [] then 0 else s[0] % 0x80 + 0x80 * ValueOf(s[1..])
  }

  /** The high bit says whether more groups follow, and there are no groups that say nothing. */
  lemma {:induction false} VarintIsLeb128(n: nat)
    ensures
      var s := Varint(n);
      && ValueOf(s) == n && (forall i :: 0 <= i < |s| ==> (s[i] >= 0x80 <==> i < |s| - 1))
      && (|s| > 1 ==> s[|s| - 1] != 0)
  {
    var s := Varint(n);
    if n >= 0x80 {
      VarintIsLeb128(n / 0x80);
      assert s[1..] == Varint(n / 0x80);
      forall i | 0 <= i < |s| ensures s[i] >= 0x80 <==> i < |s| - 1 {
        if i > 0 {
          assert s[i] == s[1..][i - 1];
        }
      }
    } else {
      assert s[1..] == [];
    }
  }

  /** The number of 7-bit groups. */
  function Power128(k: nat): (p: nat)
    ensures p >= 1
  {
    if k == 0 then 1 else 0x80 * Power128(k - 1)
  }

  lemma {:induction false} RequiredSpaceIff(n: nat, k: nat)
    requires k >= 1
    ensures RequiredSpace(n) <= k <==> n < Power128(k)
  {
    if k == 1 {
      assert Power128(1) == 0x80 * Power128(0);
    } else if n >= 0x80 {
      RequiredSpaceIff(n / 0x80, k - 1);
      assert n / 0x80 < Power128(k - 1) <==> n < 0x80 * Power128(k - 1);
    } else {
      assert Power128(k) == 0x80 * Power128(k - 1);
    }
  }

  /** Ticks are written with a fixed size, least significant byte first. */
  function TickBytes(t: U32): (s: Bytes)
    ensures |s| == 4
  {
    [t % 0x100, t / 0x100 % 0x100, t / 0x1_0000 % 0x100, t / 0x100_0000]
  }

  /** A tick as it is sent: the counter wraps around. */
  function WireTick(tick: int): U32 {
    tick % 0x1_0000_0000
  }

  function Quad(a: int, b: int, c: int, d: int): int {
    a + 0x100 * b + 0x1_0000 * c + 0x100_0000 * d
  }

  function ReadTick(s: Bytes): (p: Parsed<U32>)
    ensures p.Parsed? ==> |p.rest| < |s| && IsSuffix(p.rest, s)
  {
    if |s| < 4 then Failure else Parsed(Quad(s[0], s[1], s[2], s[3]), s[4..])
  }

  lemma TickRoundTrip(t: U32, rest: Bytes)
    ensures ReadTick(TickBytes(t) + rest) == Parsed(t, rest)
  {
    var s := TickBytes(t) + rest;
    assert s[4..] == rest;
    var b := t / 0x100;
    var c := b / 0x100;
    assert t / 0x1_0000 == c && t / 0x100_0000 == c / 0x100;
  }

  lemma TickIsLittleEndian(t: U32)
    ensures
      var s := TickBytes(t);
      t as int == s[0] as int + 0x100 * (s[1] as int) + 0x1_0000 * (s[2] as int) + 0x100_0000 * (s[3] as int)
  {
    var b := t / 0x100;
    var c := b / 0x100;
    assert t / 0x1_0000 == c && t / 0x100_0000 == c / 0x100;
  }

  // ---------------------------------------------------------------------------------------------
  // Codecs whose decoder consumes exactly what the encoder wrote.

  datatype Codec<!T> = Codec(encode: T -> Bytes, decode: Bytes -> Parsed<T>)

  ghost predicate RoundTrips<T(!new)>(c: Codec<T>) {
    forall x, rest :: c.decode(c.encode(x) + rest) == Parsed(x, rest)
  }

  /** Decoding consumes at least one byte and never looks back. */
  ghost predicate Advances<T(!new)>(decode: Bytes -> Parsed<T>) {
    forall s :: decode(s).Parsed? ==> |decode(s).rest| < |s| && IsSuffix(decode(s).rest, s)
  }

  ghost predicate SelfDelimiting<T(!new)>(c: Codec<T>) {
    RoundTrips(c) && Advances(c.decode)
  }

  /** Nothing is written in no bytes. */
  lemma EncodesSomething<T(!new)>(c: Codec<T>, x: T)
    requires SelfDelimiting(c)
    ensures |c.encode(x)| >= 1
  {
    assert c.encode(x) + [] == c.encode(x);
    assert c.decode(c.encode(x) + []) == Parsed(x, []);
  }

  /** No value's bytes start another's. */
  lemma PrefixFree<T(!new)>(c: Codec<T>, x: T, y: T)
    requires SelfDelimiting(c) && c.encode(x) <= c.encode(y)
    ensures x == y
  {
    var tail := c.encode(y)[|c.encode(x)|..];
    assert c.encode(x) + tail == c.encode(y) == c.encode(y) + [];
    assert c.decode(c.encode(x) + tail) == Parsed(x, tail) && c.decode(c.encode(y) + []) == Parsed(y, []);
  }

  function Both<T, U>(a: Codec<T>, b: Codec<U>): Codec<(T, U)> {
    Codec((x: (T, U)) => a.encode(x.0) + b.encode(x.1),
          s => match a.decode(s)
            case Failure => Failure
            case Parsed(x, s') =>
              match b.decode(s')
              case Failure => Failure
              case Parsed(y, rest) => Parsed((x, y), rest))
  }

  lemma BothSelfDelimiting<T(!new), U(!new)>(a: Codec<T>, b: Codec<U>)
    requires SelfDelimiting(a) && SelfDelimiting(b)
    ensures SelfDelimiting(Both(a, b))
  {
    var c := Both(a, b);
    forall x: (T, U), rest ensures c.decode(c.encode(x) + rest) == Parsed(x, rest) {
      BothRoundTrip(a, b, x, rest);
    }
    forall s | c.decode(s).Parsed? ensures |c.decode(s).rest| < |s| && IsSuffix(c.decode(s).rest, s) {
      SuffixTransitive(c.decode(s).rest, a.decode(s).rest, s);
    }
  }

  lemma BothRoundTrip<T(!new), U(!new)>(a: Codec<T>, b: Codec<U>, x: (T, U), rest: Bytes)
    requires RoundTrips(a) && RoundTrips(b)
    ensures Both(a, b).decode(Both(a, b).encode(x) + rest) == Parsed(x, rest)
  {
    var first, second := a.encode(x.0), b.encode(x.1);
    Associative(first, second, rest);
    assert a.decode(first + (second + rest)) == Parsed(x.0, second + rest);
    assert b.decode(second + rest) == Parsed(x.1, rest);
  }

  // ---------------------------------------------------------------------------------------------
  // Arrays.

  function WriteAll<T>(c: Codec<T>, xs: seq<T>): Bytes {
    if xs == [] then [] else c.encode(xs[0]) + WriteAll(c, xs[1..])
  }

  lemma {:induction false} WriteAllConcat<T>(c: Codec<T>, xs: seq<T>, ys: seq<T>)
    ensures WriteAll(c, xs + ys) == WriteAll(c, xs) + WriteAll(c, ys)
  {
    if xs == [] {
      assert xs + ys == ys;
    } else {
      WriteAllConcat(c, xs[1..], ys);
      var all := xs + ys;
      assert all[0] == xs[0] && all[1..] == xs[1..] + ys;
      Associative(c.encode(xs[0]), WriteAll(c, xs[1..]), WriteAll(c, ys));
    }
  }

  /** An array whose length is written before it. */
  function ReadMany<T(!new)>(decode: Bytes -> Parsed<T>, n: nat, s: Bytes): (p: Parsed<seq<T>>)
    requires Advances(decode)
    ensures p.Parsed? ==> IsSuffix(p.rest, s) && |p.value| == n
    decreases n
  {
    if n == 0 then Parsed([], s)
    else match decode(s)
      case Failure => Failure
      case Parsed(x, s') =>
        match ReadMany(decode, n - 1, s')
        case Failure => Failure
        case Parsed(xs, rest) => SuffixTransitive(rest, s', s); Parsed([x] + xs, rest)
  }

  /** An array that extends to the end of the message. */
  function ReadAll<T(!new)>(decode: Bytes -> Parsed<T>, s: Bytes): (p: Parsed<seq<T>>)
    requires Advances(decode)
    ensures p.Parsed? ==> p.rest == [] && |p.value| <= |s|
    decreases |s|
  {
    if s == [] then Parsed([], [])
    else match decode(s)
      case Failure => Failure
      case Parsed(x, s') =>
        match ReadAll(decode, s')
        case Failure => Failure
        case Parsed(xs, rest) => Parsed([x] + xs, rest)
  }

  lemma {:induction false} ManyRoundTrip<T(!new)>(c: Codec<T>, xs: seq<T>, rest: Bytes)
    requires SelfDelimiting(c)
    ensures ReadMany(c.decode, |xs|, WriteAll(c, xs) + rest) == Parsed(xs, rest)
  {
    if xs != [] {
      var tail := WriteAll(c, xs[1..]) + rest;
      Associative(c.encode(xs[0]), WriteAll(c, xs[1..]), rest);
      assert c.decode(c.encode(xs[0]) + tail) == Parsed(xs[0], tail);
      ManyRoundTrip(c, xs[1..], rest);
      assert [xs[0]] + xs[1..] == xs;
    } else {
      assert WriteAll(c, xs) + rest == rest;
    }
  }

  lemma {:induction false} AllRoundTrip<T(!new)>(c: Codec<T>, xs: seq<T>)
    requires SelfDelimiting(c)
    ensures ReadAll(c.decode, WriteAll(c, xs)) == Parsed(xs, [])
    ensures xs != [] ==> WriteAll(c, xs) != []
  {
    if xs != [] {
      var tail := WriteAll(c, xs[1..]);
      assert c.decode(c.encode(xs[0]) + tail) == Parsed(xs[0], tail);
      EncodesSomething(c, xs[0]);
      AllRoundTrip(c, xs[1..]);
      assert [xs[0]] + xs[1..] == xs;
    }
  }

  /** A varint length and the elements. */
  function Sized<T(!new)>(c: Codec<T>): Codec<seq<T>>
    requires SelfDelimiting(c)
  {
    Codec((xs: seq<T>) => Varint(|xs|) + WriteAll(c, xs), s => ReadSized(c.decode, s))
  }

  function ReadSized<T(!new)>(decode: Bytes -> Parsed<T>, s: Bytes): (p: Parsed<seq<T>>)
    requires Advances(decode)
    ensures p.Parsed? ==> |p.rest| < |s| && IsSuffix(p.rest, s)
  {
    match ReadVarint(s)
    case Failure => Failure
    case Parsed(n, s') =>
      match ReadMany(decode, n, s')
      case Failure => Failure
      case Parsed(xs, rest) => SuffixTransitive(rest, s', s); Parsed(xs, rest)
  }

  lemma SizedSelfDelimiting<T(!new)>(c: Codec<T>)
    requires SelfDelimiting(c)
    ensures SelfDelimiting(Sized(c))
  {
    var d := Sized(c);
    forall xs: seq<T>, rest ensures d.decode(d.encode(xs) + rest) == Parsed(xs, rest) {
      VarintRoundTrip(|xs|, WriteAll(c, xs) + rest);
      Associative(Varint(|xs|), WriteAll(c, xs), rest);
      ManyRoundTrip(c, xs, rest);
    }
  }

  // ---------------------------------------------------------------------------------------------
  // The reader.

  /** A position in a message. It may be moved past the end, where nothing can be read. */
  class Cursor {
    const bytes: Bytes
    var position: nat

    constructor (bytes: Bytes)
      ensures this.bytes == bytes && position == 0 && Rest() == bytes
    {
      this.bytes := bytes;
      position := 0;
    }

    function Rest(): Bytes
      reads this
    {
      if position <= |bytes| then bytes[position..] else []
    }

    method Read<T>(decode: Bytes -> Parsed<T>) returns (r: Option<T>)
      requires decode(Rest()).Parsed? ==> |decode(Rest()).rest| < |Rest()| && IsSuffix(decode(Rest()).rest, Rest())
      modifies this
      ensures
        match decode(old(Rest()))
        case Failure => r.None?
        case Parsed(x, rest) => r == Some(x) && Rest() == rest && position <= |bytes|
    {
      match decode(Rest())
      case Failure =>
        r := None;
      case Parsed(x, rest) =>
        r := Some(x);
        position := |bytes| - |rest|;
    }
  }
}
