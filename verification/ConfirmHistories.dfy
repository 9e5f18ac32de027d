/** The ticks that an entity received, as a 64-bit mask behind the last tick (confirm_history.rs). */
module ConfirmHistories {
  import opened Domain
  import opened Wire
  import opened Ticks

  // ---------------------------------------------------------------------------------------------
  // 64-bit words, bit by bit.

  const BITS: nat := 64

  type Word = w: seq<bool> | |w| == 64 witness seq(64, _ => false)

  function Shl(w: Word, n: nat): Word {
    seq(64, i requires 0 <= i < 64 => i >= n && w[i - n])
  }

  /** The shift amount is taken modulo 64. */
  function WrappingShl(w: Word, n: nat): Word {
    Shl(w, n % 64)
  }

  function Or(a: Word, b: Word): Word {
    seq(64, i requires 0 <= i < 64 => a[i] || b[i])
  }

  function And(a: Word, b: Word): Word {
    seq(64, i requires 0 <= i < 64 => a[i] && b[i])
  }

  function Bit(n: nat): Word {
    seq(64, i requires 0 <= i < 64 => i == n)
  }

  function Ones(n: nat): Word {
    seq(64, i requires 0 <= i < 64 => i < n)
  }

  predicate NonZero(w: Word) {
    exists i :: 0 <= i < 64 && w[i]
  }

  // ---------------------------------------------------------------------------------------------
  // The set of ticks that a mask stands for. Ticks are unbounded; `last` is the last one received.

  ghost predicate Refines(mask: Word, last: int, received: set<int>) {
    && last in received && (forall t <- received :: t <= last)
    && forall i :: 0 <= i < 64 ==> (mask[i] <==> Younger(last, i) in received)
  }

  /** Everything older than the mask counts as received. */
  ghost predicate Contained(last: int, received: set<int>, t: int) {
    t <= last && (last - t >= 64 || t in received)
  }

  function Younger(t: int, ago: nat): int {
    t - ago
  }

  function Advanced(mask: Word, diff: nat): Word {
    Or(WrappingShl(mask, diff), Bit(0))
  }

  /**
   Receiving a later tick is recorded correctly if and only if the jump is shorter than 64 ticks, or is a multiple of
   64 from a history in which only the last tick was received: the shift amount wraps and old bits stay.
   */
  lemma AdvancedIff(mask: Word, last: int, received: set<int>, t: int)
    requires Refines(mask, last, received) && t > last
    ensures Refines(Advanced(mask, t - last), t, received + {t}) <==> t - last < 64 || ((t - last) % 64 == 0 && mask == Bit(0))
  {
    var d := t - last;
    var after := Advanced(mask, d);
    if d < 64 {
      assert d % 64 == d;
      assert Refines(after, t, received + {t});
    } else {
      var r := d % 64;
      assert forall i :: 1 <= i < 64 ==> Younger(t, i) !in received;
      if r > 0 {
        assert mask[0] && after[r];
      } else if mask != Bit(0) {
        var i :| 0 <= i < 64 && mask[i] != Bit(0)[i];
        assert after[i];
      }
    }
  }

  lemma SameTick(mask: Word, last: int, received: set<int>)
    requires Refines(mask, last, received)
    ensures Refines(Advanced(mask, 0), last, received + {last})
  {
    assert Younger(last, 0) == last && received + {last} == received;
  }

  // ---------------------------------------------------------------------------------------------
  // Runs of confirmations.

  function Confirmed(mask: Word, last: int, t: int): (Word, int) {
    if t > last then (Advanced(mask, t - last), t)
    else if last - t < 64 then (Or(mask, Bit(last - t)), last)
    else (mask, last)
  }

  function Run(mask: Word, last: int, ts: seq<int>): (Word, int) {
    if ts == [] then (mask, last)
    else
      var (mask', last') := Run(mask, last, ts[..|ts| - 1]);
      Confirmed(mask', last', ts[|ts| - 1])
  }

  /** No tick is 64 or more ahead of the last one before it. */
  ghost predicate Smooth(mask: Word, last: int, ts: seq<int>) {
    ts != [] ==>
      var init := ts[..|ts| - 1];
      Smooth(mask, last, init) && ts[|ts| - 1] - Run(mask, last, init).1 < 64
  }

  function SetOfTicks(ts: seq<int>): set<int> {
    set t | t in ts
  }

  /** Over any run without long jumps the mask stands for exactly the ticks that were confirmed. */
  lemma {:induction false} RunRefines(mask: Word, last: int, received: set<int>, ts: seq<int>)
    requires Refines(mask, last, received) && Smooth(mask, last, ts)
    ensures
      var (mask', last') := Run(mask, last, ts);
      Refines(mask', last', received + SetOfTicks(ts))
  {
    hide Confirmed, Refines;
    if ts == [] {
      assert received + SetOfTicks(ts) == received;
    } else {
      var init, t := ts[..|ts| - 1], ts[|ts| - 1];
      RunRefines(mask, last, received, init);
      assert ts == init + [t];
      assert received + SetOfTicks(ts) == received + SetOfTicks(init) + {t};
      ConfirmedRefines(Run(mask, last, init).0, Run(mask, last, init).1, received + SetOfTicks(init), t);
    }
  }

  lemma ConfirmedRefines(mask: Word, last: int, received: set<int>, t: int)
    requires Refines(mask, last, received) && t - last < 64
    ensures Refines(Confirmed(mask, last, t).0, Confirmed(mask, last, t).1, received + {t})
  {
    if t > last {
      AdvancedIff(mask, last, received, t);
    }
  }

  /** Three ticks are enough to be told of a tick that was never received. */
  lemma StaleBit()
    ensures
      var mask := Advanced(Bit(0), 65);
      mask[1] && !Refines(mask, 65, {0, 65})
  {
    assert 65 % 64 == 1;
    assert Advanced(Bit(0), 65)[1];
    assert 65 - 1 !in {0, 65};
  }

  function ContainsAnyOf(mask: Word, lastTick: U32, startTick: U32, endTick: U32): bool {
    if After(startTick, lastTick) then false
    else if !After(startTick, WireTick(lastTick - 64)) then true
    else
      var end := if Compare(endTick, lastTick) == Less then endTick else lastTick;
      var len := Difference(end, startTick) + 1;
      NonZero(And(mask, WrappingShl(Ones(len % 64), Difference(lastTick, end))))
  }

  ghost predicate AnyContained(last: int, received: set<int>, start: int, end: int) {
    exists t :: start <= t <= end && Contained(last, received, t)
  }

  /**
   The answer for a range is right if and only if the range does not start with the oldest of the 64 ticks and reach
   the last one: then the length of the range is 64, and shifting by it wraps to an empty range.
   */
  lemma ContainsAnyIff(mask: Word, last: int, received: set<int>, start: int, end: int)
    requires Refines(mask, last, received) && start <= end
    requires Near(start, last) && Near(start, last - 64) && Near(end, last)
    ensures start == last - 63 && end >= last ==> AnyContained(last, received, start, end)
    ensures ContainsAnyOf(mask, WireTick(last), WireTick(start), WireTick(end)) == AnyContained(last, received, start, end)
       <==> !(start == last - 63 && end >= last)
  {
    CompareIff(start, last);
    ArithmeticWraps(last, 64);
    CompareIff(start, last - 64);
    CompareIff(end, last);
    if start == last - 63 && end >= last {
      assert Contained(last, received, last);
    }
    if start > last {
      assert !AnyContained(last, received, start, end);
    } else if start <= last - 64 {
      assert Contained(last, received, start);
    } else {
      InWindow(mask, last, received, start, end);
    }
  }

  lemma RangeBits(n: nat, offset: nat)
    requires n <= 64 && offset + n <= 64 && n > 0
    ensures
      var range := WrappingShl(Ones(n % 64), offset);
      forall i :: 0 <= i < 64 ==> (range[i] <==> n < 64 && offset <= i < offset + n)
  {
    if n < 64 {
      assert n % 64 == n;
    }
    assert offset % 64 == offset;
  }

  lemma InWindow(mask: Word, last: int, received: set<int>, start: int, end: int)
    requires Refines(mask, last, received) && last - 63 <= start <= last && start <= end
    ensures
      var stop := if end < last then end else last;
      var range := WrappingShl(Ones((stop - start + 1) % 64), last - stop);
      && Difference(WireTick(stop), WireTick(start)) == stop - start && Difference(WireTick(last), WireTick(stop)) == last - stop
      && (NonZero(And(mask, range)) == AnyContained(last, received, start, end) <==> !(start == last - 63 && end >= last))
  {
    var stop := if end < last then end else last;
    DifferenceIs(stop, start);
    DifferenceIs(last, stop);
    var n, offset := stop - start + 1, last - stop;
    RangeBits(n, offset);
    RangeMeets(mask, last, received, start, end, WrappingShl(Ones(n % 64), offset));
  }

  lemma RangeMeets(mask: Word, last: int, received: set<int>, start: int, end: int, range: Word)
    requires Refines(mask, last, received) && last - 63 <= start <= last && start <= end
    requires
      var stop := if end < last then end else last;
      forall i :: 0 <= i < 64 ==> (range[i] <==> stop - start < 63 && last - stop <= i <= last - start)
    ensures NonZero(And(mask, range)) == AnyContained(last, received, start, end) <==> !(start == last - 63 && end >= last)
  {
    if NonZero(And(mask, range)) {
      var i :| 0 <= i < 64 && And(mask, range)[i];
      assert Contained(last, received, Younger(last, i));
    }
    if start == last - 63 && end >= last {
      assert Contained(last, received, last);
    } else if t :| start <= t <= end && Contained(last, received, t) {
      assert And(mask, range)[last - t] && Younger(last, last - t) == t;
    }
  }

  // ---------------------------------------------------------------------------------------------
  // The object.

  class ConfirmHistory {
    var mask: Word
    var lastTick: U32

    constructor (tick: U32, ghost t: int)
      requires tick == WireTick(t)
      ensures Holds(t, {t})
    {
      mask, lastTick := Bit(0), tick;
    }

    ghost predicate Holds(last: int, received: set<int>)
      reads this
    {
      lastTick == WireTick(last) && Refines(mask, last, received)
    }

    method Contains(tick: U32, ghost last: int, ghost received: set<int>, ghost t: int) returns (contains: bool)
      requires Holds(last, received) && tick == WireTick(t) && Near(t, last)
      ensures contains == Contained(last, received, t)
    {
      CompareIff(t, last);
      DifferenceIs(last, t);
      if After(tick, lastTick) {
        return false;
      }
      var ago := Difference(lastTick, tick);
      contains := ago >= BITS || mask[ago];
    }

    /** The answer is right, except that the whole window of 64 ticks is never contained. */
    method ContainsAny(startTick: U32, endTick: U32, ghost last: int, ghost received: set<int>, ghost start: int, ghost end: int)
      returns (any: bool)
      requires Holds(last, received) && startTick == WireTick(start) && endTick == WireTick(end) && start <= end
      requires Near(start, last) && Near(start, last - 64) && Near(end, last)
      ensures any <==> AnyContained(last, received, start, end) && !(start == last - 63 && end >= last)
    {
      ContainsAnyIff(mask, last, received, start, end);
      hide Refines, Difference, WireTick, NonZero, And, WrappingShl, Ones, AnyContained;
      if After(startTick, lastTick) {
        return false;
      }
      if !After(startTick, WireTick(lastTick - 64)) {
        return true;
      }
      var end := if Compare(endTick, lastTick) == Less then endTick else lastTick;
      var len := Difference(end, startTick) + 1;
      var range := Ones(len % 64);
      var offset := Difference(lastTick, end);
      any := NonZero(And(mask, WrappingShl(range, offset)));
    }

    /** An earlier tick within the window. */
    method Set(ago: nat, ghost last: int, ghost received: set<int>)
      requires ago < BITS && Holds(last, received)
      modifies this`mask
      ensures Holds(last, received + {last - ago})
    {
      mask := Or(mask, Bit(ago));
    }

    method SetLastTick(tick: U32, ghost last: int, ghost received: set<int>, ghost t: int)
      requires Holds(last, received) && tick == WireTick(t) && 0 <= t - last < 0x1_0000_0000
      modifies this
      ensures lastTick == tick && mask == Advanced(old(mask), t - last)
      ensures t - last < 64 ==> Holds(t, received + {t})
    {
      hide WrappingShl, Or, Bit, Refines, Difference, WireTick;
      DifferenceIs(t, last);
      var diff := Difference(tick, lastTick);
      mask := WrappingShl(mask, diff);
      lastTick := tick;
      mask := Or(mask, Bit(0));
      if t > last {
        AdvancedIff(old(mask), last, received, t);
      } else {
        SameTick(old(mask), last, received);
      }
    }

    /** Ticks that are too old are ignored; they count as received anyway. */
    method Confirm(tick: U32, ghost last: int, ghost received: set<int>, ghost t: int)
      requires Holds(last, received) && tick == WireTick(t) && Near(t, last)
      modifies this
      ensures t - last < 64 ==> Holds(if t > last then t else last, if last - t < 64 then received + {t} else received)
      ensures t > last ==> lastTick == tick && mask == Advanced(old(mask), t - last)
    {
      CompareIff(t, last);
      DifferenceIs(last, t);
      if After(tick, lastTick) {
        SetLastTick(tick, last, received, t);
      } else {
        var ago := Difference(lastTick, tick);
        if ago < BITS {
          Set(ago, last, received);
        }
      }
    }
  }
}
