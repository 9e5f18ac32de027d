/** The mutate messages received per tick, in a 64-slot window (server_mutate_ticks.rs). */
module MutateTicks {
  import opened Domain
  import opened Wire
  import opened Ticks

  /** The messages of one tick: how many were sent and how many were received. */
  datatype TickMessages = TickMessages(messagesCount: nat, received: nat) {
    predicate AllReceived() {
      messagesCount != 0 && messagesCount == received
    }

    function Confirmed(count: nat): TickMessages {
      TickMessages(count, received + 1)
    }
  }

  const NONE: TickMessages := TickMessages(0, 0)

  // ---------------------------------------------------------------------------------------------
  // The unbounded counters.

  /** Counters for every tick, and the last tick. Ticks are unbounded. */
  datatype Counters = Counters(last: int, of: map<int, TickMessages>) {
    function At(t: int): TickMessages {
      if t in of then of[t] else NONE
    }

    ghost predicate Valid() {
      forall t <- of :: t <= last
    }

    /** Whether a message for `t` is still counted. */
    predicate Counts(t: int) {
      last - t < 64
    }

    function Confirm(t: int, count: nat): Counters {
      if Counts(t) then Counters(if t > last then t else last, of[t := At(t).Confirmed(count)]) else this
    }

    predicate Contains(t: int) {
      t <= last && (last - t >= 64 || At(t).AllReceived())
    }
  }

  /** Slot `i` holds the counters of tick `last - i`. */
  ghost predicate Refines(ticks: seq<TickMessages>, c: Counters) {
    |ticks| == 64 && c.Valid() && forall i :: 0 <= i < 64 ==> ticks[i] == c.At(c.last - i)
  }

  function Default(n: nat): seq<TickMessages> {
    seq(n, _ => NONE)
  }

  /** The window moves by `ago` slots. */
  function Shifted(ticks: seq<TickMessages>, ago: nat): seq<TickMessages>
    requires |ticks| == 64
  {
    if ago >= 64 then Default(64) else Default(ago) + ticks[..64 - ago]
  }

  function ConfirmAt(ticks: seq<TickMessages>, i: nat, count: nat): seq<TickMessages>
    requires i < |ticks|
  {
    ticks[i := ticks[i].Confirmed(count)]
  }

  /** Any jump, however long, keeps the window in step with the counters. */
  lemma ShiftedRefines(ticks: seq<TickMessages>, c: Counters, t: int)
    requires Refines(ticks, c) && t > c.last
    ensures Refines(Shifted(ticks, t - c.last), c.(last := t))
  {
    var ago := t - c.last;
    var after := Shifted(ticks, ago);
    forall i | 0 <= i < 64 ensures after[i] == c.At(t - i) {
      if i < ago {
        assert t - i !in c.of;
      } else {
        assert after[i] == ticks[i - ago] == c.At(c.last - (i - ago));
      }
    }
  }

  lemma ConfirmRefines(ticks: seq<TickMessages>, c: Counters, t: int, count: nat)
    requires Refines(ticks, c)
    ensures t > c.last ==> Refines(ConfirmAt(Shifted(ticks, t - c.last), 0, count), c.Confirm(t, count))
    ensures 0 <= c.last - t < 64 ==> Refines(ConfirmAt(ticks, c.last - t, count), c.Confirm(t, count))
    ensures c.last - t >= 64 ==> c.Confirm(t, count) == c
  {
    if t > c.last {
      ShiftedRefines(ticks, c, t);
      SlotRefines(Shifted(ticks, t - c.last), c.(last := t), t, count);
    } else if c.last - t < 64 {
      SlotRefines(ticks, c, t, count);
    }
  }

  lemma SlotRefines(ticks: seq<TickMessages>, c: Counters, t: int, count: nat)
    requires Refines(ticks, c) && 0 <= c.last - t < 64
    ensures Refines(ConfirmAt(ticks, c.last - t, count), c.(of := c.of[t := c.At(t).Confirmed(count)]))
  {
    var c' := c.(of := c.of[t := c.At(t).Confirmed(count)]);
    var slots := ConfirmAt(ticks, c.last - t, count);
    forall i | 0 <= i < 64 ensures slots[i] == c'.At(c.last - i) {
      assert i == c.last - t <==> c.last - i == t;
    }
  }

  // ---------------------------------------------------------------------------------------------
  // Runs of confirmations.

  datatype Call = Call(tick: int, count: nat)

  function Run(c: Counters, calls: seq<Call>): Counters {
    if calls == [] then c
    else Run(c, calls[..|calls| - 1]).Confirm(calls[|calls| - 1].tick, calls[|calls| - 1].count)
  }

  /** How many messages of `t` arrived. */
  function Arrived(calls: seq<Call>, t: int): nat {
    if calls == [] then 0
    else Arrived(calls[..|calls| - 1], t) + if calls[|calls| - 1].tick == t then 1 else 0
  }

  /** Every message of `t` says that `count` messages were sent. */
  ghost predicate Consistent(calls: seq<Call>, t: int, count: nat) {
    forall call <- calls :: call.tick == t ==> call.count == count
  }

  /** As long as a tick is in the window, all of its messages were counted. */
  lemma {:induction false} AllCounted(calls: seq<Call>, t: int, count: nat)
    requires Consistent(calls, t, count)
    ensures
      var c := Run(Counters(0, map[]), calls);
      && c.Valid() && c.last >= 0
      && (c.Counts(t) ==> c.At(t) == if Arrived(calls, t) == 0 then NONE else TickMessages(count, Arrived(calls, t)))
  {
    if calls != [] {
      var init, last := calls[..|calls| - 1], calls[|calls| - 1];
      assert calls == init + [last];
      AllCounted(init, t, count);
      var before := Run(Counters(0, map[]), init);
      assert forall x <- before.Confirm(last.tick, last.count).of :: x <= before.Confirm(last.tick, last.count).last;
    }
  }

  function Latest(calls: seq<Call>): int {
    if calls == [] then 0
    else
      var before, tick := Latest(calls[..|calls| - 1]), calls[|calls| - 1].tick;
      if tick > before then tick else before
  }

  /** A tick is contained if and only if it is not ahead, and older than 64 ticks or all of its messages arrived. */
  lemma ContainedIff(calls: seq<Call>, t: int, count: nat)
    requires Consistent(calls, t, count) && count > 0
    ensures Run(Counters(0, map[]), calls).Contains(t) <==>
      t <= Latest(calls) && (Latest(calls) - t >= 64 || Arrived(calls, t) == count)
  {
    AllCounted(calls, t, count);
    LastIsLatest(calls);
  }

  lemma {:induction false} LastIsLatest(calls: seq<Call>)
    ensures Run(Counters(0, map[]), calls).last == Latest(calls)
  {
    if calls != [] {
      LastIsLatest(calls[..|calls| - 1]);
    }
  }

  /** What the call after `calls` answers. */
  function Answer(calls: seq<Call>, call: Call): bool {
    var c := Run(Counters(0, map[]), calls);
    c.Counts(call.tick) && c.Confirm(call.tick, call.count).At(call.tick).AllReceived()
  }

  /**
   A tick is reported when, and only when, the last of its messages arrives in time: so exactly once, as long as
   messages are not duplicated.
   */
  lemma CompletedExactlyOnce(calls: seq<Call>, call: Call)
    requires call.count > 0 && Consistent(calls, call.tick, call.count)
    ensures Answer(calls, call) <==>
      Run(Counters(0, map[]), calls).Counts(call.tick) && Arrived(calls, call.tick) + 1 == call.count
  {
    AllCounted(calls, call.tick, call.count);
  }

  /** Some tick from `start` to `end` is contained. */
  ghost predicate AnyContained(c: Counters, start: int, end: int) {
    exists t :: start <= t <= end && c.Contains(t)
  }

  /** What the comparisons of wrapped ticks say, and how many slots back a range starts and ends. */
  lemma RangeIs(start: int, end: int, last: int)
    requires start <= end && Near(start, last) && Near(start, last - 64) && Near(end, last)
    ensures After(WireTick(start), WireTick(last)) <==> start > last
    ensures After(WireTick(start), WireTick(WireTick(last) - 64)) <==> start > last - 64
    ensures Compare(WireTick(end), WireTick(last)) == Less <==> end < last
    ensures start <= last ==> Difference(WireTick(last), WireTick(start)) == last - start
    ensures end <= last ==> Difference(WireTick(last), WireTick(end)) == last - end
    ensures Difference(WireTick(last), WireTick(last)) == 0
  {
    hide Compare, Difference, WireTick;
    CompareIff(start, last);
    ArithmeticWraps(last, 64);
    CompareIff(start, last - 64);
    CompareIff(end, last);
    DifferenceIs(last, start);
    DifferenceIs(last, end);
    DifferenceIs(last, last);
  }

  lemma UpToLast(c: Counters, start: int, end: int)
    ensures AnyContained(c, start, end) <==> AnyContained(c, start, if end < c.last then end else c.last)
  {
    if t :| start <= t <= end && c.Contains(t) {
      assert t <= c.last;
    }
  }

  // ---------------------------------------------------------------------------------------------
  // The object.

  class ServerMutateTicks {
    var ticks: seq<TickMessages>
    var lastTick: U32

    constructor ()
      ensures Holds(Counters(0, map[]))
    {
      ticks, lastTick := Default(64), 0;
    }

    ghost predicate Holds(c: Counters)
      reads this
    {
      lastTick == WireTick(c.last) && Refines(ticks, c)
    }

    /** Bit `i` of the mask tells whether tick `last - i` is complete. */
    method Mask(ghost c: Counters) returns (mask: seq<bool>)
      requires Holds(c)
      ensures |mask| == 64 && forall i :: 0 <= i < 64 ==> (mask[i] <==> c.At(c.last - i).AllReceived())
    {
      mask := seq(64, _ => false);
      var i := 0;
      while i < |ticks|
        invariant 0 <= i <= 64 && |mask| == 64
        invariant forall j :: 0 <= j < 64 ==> (mask[j] <==> j < i && ticks[j].AllReceived())
      {
        if ticks[i].AllReceived() {
          mask := mask[i := true];
        }
        i := i + 1;
      }
    }

    method Contains(tick: U32, ghost c: Counters, ghost t: int) returns (contains: bool)
      requires Holds(c) && tick == WireTick(t) && Near(t, c.last)
      ensures contains == c.Contains(t)
    {
      CompareIff(t, c.last);
      DifferenceIs(c.last, t);
      if After(tick, lastTick) {
        return false;
      }
      var ago := Difference(lastTick, tick);
      contains := if ago < |ticks| then ticks[ago].AllReceived() else true;
    }

    method ContainsAny(startTick: U32, endTick: U32, ghost c: Counters, ghost start: int, ghost end: int) returns (any: bool)
      requires Holds(c) && startTick == WireTick(start) && endTick == WireTick(end) && start <= end
      requires Near(start, c.last) && Near(start, c.last - 64) && Near(end, c.last)
      ensures any <==> AnyContained(c, start, end)
    {
      RangeIs(start, end, c.last);
      UpToLast(c, start, end);
      assert start > c.last ==> !AnyContained(c, start, end);
      assert start <= c.last - 64 ==> c.Contains(start) && AnyContained(c, start, end);
      hide Compare, Difference, WireTick, After, Near, AnyContained;
      if After(startTick, lastTick) {
        return false;
      }
      if !After(startTick, WireTick(lastTick - |ticks|)) {
        return true;
      }
      var last := if Compare(endTick, lastTick) == Less then endTick else lastTick;
      any := AnyReceived(Difference(lastTick, last), Difference(lastTick, startTick), c);
    }

    /** The slots from `from` to `to`. */
    method AnyReceived(from: nat, to: nat, ghost c: Counters) returns (any: bool)
      requires Holds(c) && from <= to < 64
      ensures any <==> AnyContained(c, c.last - to, c.last - from)
    {
      any := false;
      var i := from;
      while i <= to
        invariant from <= i <= to + 1
        invariant any <==> exists t :: c.last - i < t <= c.last - from && c.Contains(t)
      {
        assert ticks[i].AllReceived() <==> c.Contains(c.last - i);
        any := any || ticks[i].AllReceived();
        i := i + 1;
      }
    }

    /** Counts a message, and tells whether it completes its tick. Messages that are too old are not counted. */
    method Confirm(tick: U32, messagesCount: nat, ghost c: Counters, ghost t: int) returns (complete: bool)
      requires Holds(c) && tick == WireTick(t) && Near(t, c.last)
      modifies this
      ensures Holds(c.Confirm(t, messagesCount))
      ensures complete <==> c.Counts(t) && c.Confirm(t, messagesCount).At(t).AllReceived()
    {
      hide Compare, Difference, WireTick, Shifted;
      CompareIff(t, c.last);
      DifferenceIs(t, c.last);
      DifferenceIs(c.last, t);
      ConfirmRefines(ticks, c, t, messagesCount);
      if After(tick, lastTick) {
        var ago := Difference(tick, lastTick);
        Shift(ago);
        lastTick := tick;
        ticks := ConfirmAt(ticks, 0, messagesCount);
        complete := ticks[0].AllReceived();
      } else {
        var ago := Difference(lastTick, tick);
        if ago < |ticks| {
          ticks := ConfirmAt(ticks, ago, messagesCount);
          complete := ticks[ago].AllReceived();
        } else {
          complete := false;
        }
      }
    }

    method Shift(ago: nat)
      requires |ticks| == 64
      modifies this`ticks
      ensures ticks == Shifted(old(ticks), ago) && |ticks| == 64
    {
      if ago >= |ticks| {
        ticks := Default(64);
      } else {
        var n := 0;
        while n < ago
          invariant 0 <= n <= ago && ticks == Default(n) + old(ticks)[..64 - n]
        {
          ticks := ticks[..|ticks| - 1];
          ticks := [NONE] + ticks;
          n := n + 1;
        }
      }
    }
  }
}
