/** Server events on a client: the queue that keeps them until their update tick (server_event.rs). */
module EventReceiving {
  import opened Domain
  import opened Wire
  import opened Ticks
  import EventSending

  datatype Queued = Queued(tick: U32, message: Bytes)

  /**
   How an event of type `E` is received. The queue is a multimap from another crate that gives its entries back in
   the order of insertion; `duplicate` is what it does with a key that it already holds.
   */
  datatype Settings<!E> = Settings(
    independent: bool, decode: Bytes -> Option<E>, duplicate: (seq<Queued>, Queued) -> seq<Queued>)

  /** The queue, and the events given to the application so far. */
  datatype Reception<+E> = Reception(queue: seq<Queued>, events: seq<E>)

  function Inserted<E>(s: Settings<E>, queue: seq<Queued>, x: Queued): seq<Queued> {
    if exists i :: 0 <= i < |queue| && queue[i].tick == x.tick then s.duplicate(queue, x) else queue + [x]
  }

  /** A message that does not decode is skipped. */
  function Decoded<E>(s: Settings<E>, message: Bytes): seq<E> {
    match s.decode(message)
    case Some(event) => [event]
    case None => []
  }

  function Drained<E>(s: Settings<E>, r: Reception<E>, updateTick: U32): Reception<E>
    decreases |r.queue|
  {
    if r.queue == [] || After(r.queue[0].tick, updateTick) then r
    else Drained(s, Reception(r.queue[1..], r.events + Decoded(s, r.queue[0].message)), updateTick)
  }

  function Received<E>(s: Settings<E>, r: Reception<E>, message: Bytes, updateTick: U32): Reception<E> {
    if s.independent then r.(events := r.events + Decoded(s, message))
    else match ReadTick(message)
      case Failure => r
      case Parsed(tick, rest) =>
        if After(tick, updateTick) then r.(queue := Inserted(s, r.queue, Queued(tick, rest)))
        else r.(events := r.events + Decoded(s, rest))
  }

  function ReceivedAll<E>(s: Settings<E>, r: Reception<E>, messages: seq<Bytes>, updateTick: U32): Reception<E> {
    if messages == [] then r
    else Received(s, ReceivedAll(s, r, messages[..|messages| - 1], updateTick), messages[|messages| - 1], updateTick)
  }

  /** What one frame does. */
  function AfterFrame<E>(s: Settings<E>, r: Reception<E>, messages: seq<Bytes>, updateTick: U32): Reception<E> {
    ReceivedAll(s, Drained(s, r, updateTick), messages, updateTick)
  }

  // ---------------------------------------------------------------------------------------------
  // Runs.

  /** An event as the server sent it: its tick, and its bytes. */
  datatype Sent = Sent(tick: int, payload: Bytes)

  function Encode(x: Sent): Bytes {
    TickBytes(WireTick(x.tick)) + x.payload
  }

  function Encoded(sent: seq<Sent>): seq<Bytes> {
    seq(|sent|, i requires 0 <= i < |sent| => Encode(sent[i]))
  }

  /** A frame of the client: what arrives, and the tick of the last update that was applied. */
  datatype Frame = Frame(messages: seq<Sent>, updateTick: int)

  function Run<E>(s: Settings<E>, frames: seq<Frame>): Reception<E> {
    if frames == [] then Reception([], [])
    else
      var last := frames[|frames| - 1];
      AfterFrame(s, Run(s, frames[..|frames| - 1]), Encoded(last.messages), WireTick(last.updateTick))
  }

  function Arrived(frames: seq<Frame>): seq<Sent> {
    if frames == [] then [] else Arrived(frames[..|frames| - 1]) + frames[|frames| - 1].messages
  }

  function UpdateTick(frames: seq<Frame>): int {
    if frames == [] then 0 else frames[|frames| - 1].updateTick
  }

  ghost predicate Sorted(sent: seq<Sent>) {
    forall i, j :: 0 <= i < j < |sent| ==> sent[i].tick <= sent[j].tick
  }

  /** The multimap keeps all the values of a key, in order. */
  ghost predicate Appends<E>(s: Settings<E>) {
    forall queue, x :: s.duplicate(queue, x) == queue + [x]
  }

  /** If event `i` has to wait at update tick `u`, then no event of the same tick is waiting already. */
  predicate WaitsAlone(sent: seq<Sent>, i: nat, u: int)
    requires i < |sent|
  {
    sent[i].tick > u && i > 0 ==> sent[i - 1].tick < sent[i].tick
  }

  /** Update ticks only grow, and the ticks that are compared span less than 2^31. */
  ghost predicate Timely(frames: seq<Frame>) {
    frames != [] ==>
      var init, last := frames[..|frames| - 1], frames[|frames| - 1];
      && Timely(init)
      && UpdateTick(init) <= last.updateTick < UpdateTick(init) + 0x8000_0000
      && (forall x <- last.messages :: last.updateTick - 0x8000_0000 <= x.tick < last.updateTick + 0x8000_0000)
  }

  /** No event has to wait beside one of the same tick. */
  ghost predicate AllAlone(frames: seq<Frame>) {
    frames != [] ==>
      var init, last := frames[..|frames| - 1], frames[|frames| - 1];
      && AllAlone(init)
      && forall i: nat :: |Arrived(init)| <= i < |Arrived(frames)| ==> WaitsAlone(Arrived(frames), i, last.updateTick)
  }

  ghost predicate Orderly<E>(s: Settings<E>, frames: seq<Frame>) {
    Timely(frames) && (Appends(s) || AllAlone(frames))
  }

  /** How many events of a sorted list the update tick reaches. */
  function Reached(sent: seq<Sent>, u: int): (k: nat)
    ensures k <= |sent|
    ensures forall i :: 0 <= i < k ==> sent[i].tick <= u
    ensures k < |sent| ==> sent[k].tick > u
  {
    if sent == [] || sent[0].tick > u then 0 else 1 + Reached(sent[1..], u)
  }

  function Events<E>(s: Settings<E>, sent: seq<Sent>): seq<E> {
    if sent == [] then [] else Events(s, sent[..|sent| - 1]) + Decoded(s, sent[|sent| - 1].payload)
  }

  /** Where everything decodes, the events are one for one what the bytes decode to, in order ... */
  lemma {:induction false} EventsAreDecoded<E>(s: Settings<E>, sent: seq<Sent>)
    requires forall x <- sent :: s.decode(x.payload).Some?
    ensures |Events(s, sent)| == |sent|
    ensures forall i :: 0 <= i < |sent| ==> s.decode(sent[i].payload) == Some(Events(s, sent)[i])
  {
    if sent != [] {
      var init, last := sent[..|sent| - 1], sent[|sent| - 1];
      assert last in sent && forall x <- init :: x in sent;
      EventsAreDecoded(s, init);
    }
  }

  /** ... and what does not decode makes no difference to the other events. */
  lemma {:induction false} UndecodableIsSkipped<E>(s: Settings<E>, sent: seq<Sent>, i: nat)
    requires i < |sent| && s.decode(sent[i].payload) == None
    ensures Events(s, sent) == Events(s, sent[..i] + sent[i + 1..])
  {
    var init := sent[..|sent| - 1];
    if i == |init| {
      assert sent[..i] + sent[i + 1..] == init;
    } else {
      UndecodableIsSkipped(s, init, i);
      var rest := sent[..i] + sent[i + 1..];
      assert rest[..|rest| - 1] == init[..i] + init[i + 1..];
    }
  }

  function AsSent(messages: seq<Bytes>): seq<Sent> {
    seq(|messages|, i requires 0 <= i < |messages| => Sent(0, messages[i]))
  }

  /** Events that are independent of replication never wait. */
  lemma {:induction false} IndependentNeverWait<E>(s: Settings<E>, events: seq<E>, messages: seq<Bytes>, updateTick: U32)
    requires s.independent
    ensures AfterFrame(s, Reception([], events), messages, updateTick) == Reception([], events + Events(s, AsSent(messages)))
  {
    if messages == [] {
      assert events + [] == events;
    } else {
      var n := |messages| - 1;
      IndependentNeverWait(s, events, messages[..n], updateTick);
      assert AsSent(messages)[..n] == AsSent(messages[..n]);
    }
  }

  /** A message that is too short for a tick makes no difference to the others. */
  lemma {:induction false} UnreadableIsSkipped<E>(s: Settings<E>, r: Reception<E>, messages: seq<Bytes>, i: nat, updateTick: U32)
    requires !s.independent && i < |messages| && |messages[i]| < 4
    ensures ReceivedAll(s, r, messages, updateTick) == ReceivedAll(s, r, messages[..i] + messages[i + 1..], updateTick)
  {
    hide Inserted, Decoded;
    var init := messages[..|messages| - 1];
    if i == |init| {
      assert messages[..i] + messages[i + 1..] == init;
    } else {
      UnreadableIsSkipped(s, r, init, i, updateTick);
      var rest := messages[..i] + messages[i + 1..];
      assert rest[..|rest| - 1] == init[..i] + init[i + 1..];
    }
  }

  function QueueOf(sent: seq<Sent>): seq<Queued> {
    seq(|sent|, i requires 0 <= i < |sent| => Queued(WireTick(sent[i].tick), sent[i].payload))
  }

  /** Of the first `m` events, the first `k` were given to the application and the others wait. */
  function Split<E>(s: Settings<E>, sent: seq<Sent>, k: nat, m: nat): Reception<E>
    requires k <= m <= |sent|
  {
    Reception(QueueOf(sent[k..m]), Events(s, sent[..k]))
  }

  /** How many of the first `m` events the update tick reaches. */
  function ReachedOf(sent: seq<Sent>, u: int, m: nat): nat {
    if Reached(sent, u) < m then Reached(sent, u) else m
  }

  lemma {:induction false} DrainedIs<E>(s: Settings<E>, sent: seq<Sent>, k: nat, m: nat, u: int)
    requires Sorted(sent) && k <= ReachedOf(sent, u, m) && m <= |sent|
    requires forall i :: k <= i < m ==> Near(sent[i].tick, u)
    ensures Drained(s, Split(s, sent, k, m), WireTick(u)) == Split(s, sent, ReachedOf(sent, u, m), m)
    decreases m - k
  {
    hide Compare, WireTick;
    var r := Split(s, sent, k, m);
    if k < m {
      CompareIff(sent[k].tick, u);
      if sent[k].tick <= u {
        assert r.queue[1..] == QueueOf(sent[k + 1..m]);
        NextEvent(s, sent, k);
        assert Reached(sent, u) != k;
        DrainedIs(s, sent, k + 1, m, u);
      } else {
        assert Reached(sent, u) <= k;
      }
    }
  }

  lemma NextEvent<E>(s: Settings<E>, sent: seq<Sent>, k: nat)
    requires k < |sent|
    ensures Events(s, sent[..k + 1]) == Events(s, sent[..k]) + Decoded(s, sent[k].payload)
  {
    assert sent[..k + 1][..k] == sent[..k];
  }

  lemma ReceivedIs<E>(s: Settings<E>, sent: seq<Sent>, m: nat, u: int)
    requires !s.independent && Sorted(sent) && m < |sent| && Near(sent[m].tick, u)
    requires Appends(s) || WaitsAlone(sent, m, u)
    ensures Received(s, Split(s, sent, ReachedOf(sent, u, m), m), Encode(sent[m]), WireTick(u)) ==
            Split(s, sent, ReachedOf(sent, u, m + 1), m + 1)
  {
    hide TickBytes, ReadTick, Compare, WireTick, Inserted;
    CompareIff(sent[m].tick, u);
    TickRoundTrip(WireTick(sent[m].tick), sent[m].payload);
    if sent[m].tick <= u {
      assert Reached(sent, u) > m;
      NextEvent(s, sent, m);
    } else {
      assert Reached(sent, u) <= m;
      InsertedIs(s, sent, m, u);
    }
  }

  lemma InsertedIs<E>(s: Settings<E>, sent: seq<Sent>, m: nat, u: int)
    requires Sorted(sent) && m < |sent| && Near(sent[m].tick, u) && sent[m].tick > u && Reached(sent, u) <= m
    requires Appends(s) || WaitsAlone(sent, m, u)
    ensures Inserted(s, QueueOf(sent[Reached(sent, u)..m]), Queued(WireTick(sent[m].tick), sent[m].payload)) ==
      QueueOf(sent[Reached(sent, u)..m + 1])
  {
    hide WireTick, Near, Sorted, WaitsAlone, Reached;
    var k := Reached(sent, u);
    var queue, queued := QueueOf(sent[k..m]), Queued(WireTick(sent[m].tick), sent[m].payload);
    assert queue + [queued] == QueueOf(sent[k..m + 1]);
    if i :| 0 <= i < |queue| && queue[i].tick == queued.tick {
      assert queue[i].tick == WireTick(sent[k + i].tick);
      if WaitsAlone(sent, m, u) {
        DifferentTicks(sent, k + i, m, u);
        assert false;
      }
    }
  }

  lemma DifferentTicks(sent: seq<Sent>, i: nat, m: nat, u: int)
    requires Sorted(sent) && Reached(sent, u) <= i < m < |sent| && Near(sent[m].tick, u) && sent[m].tick > u
    requires WaitsAlone(sent, m, u)
    ensures WireTick(sent[i].tick) != WireTick(sent[m].tick)
  {
    hide WireTick;
    LaterTick(sent, u, i);
    assert sent[i].tick <= sent[m - 1].tick < sent[m].tick;
    if WireTick(sent[i].tick) == WireTick(sent[m].tick) {
      SameTick(sent[i].tick, sent[m].tick);
    }
  }

  lemma SameTick(x: int, y: int)
    requires WireTick(x) == WireTick(y) && x <= y < x + 0x1_0000_0000
    ensures x == y
  {
    assert (y - x) % 0x1_0000_0000 == 0;
  }

  lemma EncodedPrefix(sent: seq<Sent>, n: nat, m: nat)
    requires n <= m <= |sent|
    ensures |Encoded(sent[n..m])| == m - n
    ensures n < m ==> Encoded(sent[n..m])[..m - n - 1] == Encoded(sent[n..m - 1])
    ensures n < m ==> Encoded(sent[n..m])[m - n - 1] == Encode(sent[m - 1])
  {
  }

  lemma {:induction false} ReceivedAllIs<E>(s: Settings<E>, sent: seq<Sent>, n: nat, m: nat, u: int)
    requires !s.independent && Sorted(sent) && n <= m <= |sent|
    requires forall i :: n <= i < m ==> Near(sent[i].tick, u)
    requires Appends(s) || forall i: nat :: n <= i < m ==> WaitsAlone(sent, i, u)
    ensures ReceivedAll(s, Split(s, sent, ReachedOf(sent, u, n), n), Encoded(sent[n..m]), WireTick(u)) ==
            Split(s, sent, ReachedOf(sent, u, m), m)
    decreases m - n
  {
    hide Split, Received, Encode, ReachedOf, WaitsAlone, Sorted, WireTick, Near, Appends, Encoded;
    EncodedPrefix(sent, n, m);
    if n < m {
      ReceivedAllIs(s, sent, n, m - 1, u);
      ReceivedIs(s, sent, m - 1, u);
    }
  }

  lemma PrefixSplit<E>(s: Settings<E>, sent: seq<Sent>, n: nat, u: int)
    requires Sorted(sent) && n <= |sent|
    ensures Reached(sent[..n], u) == ReachedOf(sent, u, n)
    ensures Split(s, sent[..n], Reached(sent[..n], u), n) == Split(s, sent, ReachedOf(sent, u, n), n)
  {
    var k := ReachedOf(sent, u, n);
    ReachedIs(sent[..n], u, k);
    assert sent[..n][k..n] == sent[k..n] && sent[..n][..k] == sent[..k];
  }

  lemma {:induction false} ReachedIs(sent: seq<Sent>, u: int, k: nat)
    requires k <= |sent| && forall i :: 0 <= i < k ==> sent[i].tick <= u
    requires k < |sent| ==> sent[k].tick > u
    ensures k == Reached(sent, u)
  {
    if k > 0 {
      ReachedIs(sent[1..], u, k - 1);
    }
  }

  lemma {:induction false} InWindow(frames: seq<Frame>)
    requires Timely(frames)
    ensures forall i :: 0 <= i < |Arrived(frames)| ==> Arrived(frames)[i].tick < UpdateTick(frames) + 0x8000_0000
  {
    if frames != [] {
      InWindow(frames[..|frames| - 1]);
    }
  }

  lemma FrameIs<E>(s: Settings<E>, sent: seq<Sent>, n: nat, before: int, u: int)
    requires !s.independent && Sorted(sent) && n <= |sent| && before <= u < before + 0x8000_0000
    requires forall i :: 0 <= i < n ==> sent[i].tick < before + 0x8000_0000
    requires forall i :: n <= i < |sent| ==> Near(sent[i].tick, u)
    requires Appends(s) || forall i: nat :: n <= i < |sent| ==> WaitsAlone(sent, i, u)
    ensures AfterFrame(s, Split(s, sent, ReachedOf(sent, before, n), n), Encoded(sent[n..]), WireTick(u)) ==
      Split(s, sent, Reached(sent, u), |sent|)
  {
    hide Split, Reached, ReceivedAll, Drained, WireTick, Encoded, WaitsAlone, Sorted;
    ReachedGrows(sent, before, u);
    var k := ReachedOf(sent, before, n);
    forall i | k <= i < n ensures Near(sent[i].tick, u) {
      LaterTick(sent, before, i);
    }
    DrainedIs(s, sent, k, n, u);
    ReceivedAllIs(s, sent, n, |sent|, u);
    assert sent[n..|sent|] == sent[n..];
  }

  /**
   After every frame, the application has got exactly the events that the update tick of the frame reaches, in the
   order they were sent, and the others wait in that order. So no event comes before the update that it may refer to.
   */
  lemma {:induction false} EventsAreCausal<E>(s: Settings<E>, frames: seq<Frame>)
    requires !s.independent && Orderly(s, frames) && Sorted(Arrived(frames))
    ensures
      var sent := Arrived(frames);
      Run(s, frames) == Split(s, sent, Reached(sent, UpdateTick(frames)), |sent|)
  {
    if frames != [] {
      hide Split, Reached, AfterFrame, WireTick, Encoded, WaitsAlone;
      var init, last := frames[..|frames| - 1], frames[|frames| - 1];
      var sent, n := Arrived(frames), |Arrived(init)|;
      assert Arrived(init) == sent[..n] && last.messages == sent[n..];
      SortedPrefix(sent, n);
      LastFrame(s, frames);
      hide Orderly, Timely, AllAlone, Sorted, Appends;
      EventsAreCausal(s, init);
      PrefixSplit(s, sent, n, UpdateTick(init));
      FrameIs(s, sent, n, UpdateTick(init), last.updateTick);
    }
  }

  lemma LastTimely(frames: seq<Frame>)
    requires Timely(frames) && frames != []
    ensures
      var init, last := frames[..|frames| - 1], frames[|frames| - 1];
      var sent, n, before := Arrived(frames), |Arrived(init)|, UpdateTick(init);
      && Timely(init) && before <= last.updateTick < before + 0x8000_0000
      && (forall i :: 0 <= i < n ==> sent[i].tick < before + 0x8000_0000)
      && (forall i :: n <= i < |sent| ==> Near(sent[i].tick, last.updateTick))
  {
    var init, last := frames[..|frames| - 1], frames[|frames| - 1];
    InWindow(init);
    forall i | |Arrived(init)| <= i < |Arrived(frames)| ensures Near(Arrived(frames)[i].tick, last.updateTick) {
      assert Arrived(frames)[i] in last.messages;
    }
  }

  lemma LastFrame<E>(s: Settings<E>, frames: seq<Frame>)
    requires Orderly(s, frames) && frames != []
    ensures
      var init, last := frames[..|frames| - 1], frames[|frames| - 1];
      var sent, n, before := Arrived(frames), |Arrived(init)|, UpdateTick(init);
      && Orderly(s, init) && before <= last.updateTick < before + 0x8000_0000
      && (forall i :: 0 <= i < n ==> sent[i].tick < before + 0x8000_0000)
      && (forall i :: n <= i < |sent| ==> Near(sent[i].tick, last.updateTick))
      && (Appends(s) || forall i: nat :: n <= i < |sent| ==> WaitsAlone(sent, i, last.updateTick))
  {
    hide WaitsAlone, Timely;
    LastTimely(frames);
  }

  lemma SortedPrefix(sent: seq<Sent>, n: nat)
    requires Sorted(sent) && n <= |sent|
    ensures Sorted(sent[..n])
  {
  }

  lemma LaterTick(sent: seq<Sent>, u: int, i: nat)
    requires Sorted(sent) && Reached(sent, u) <= i < |sent|
    ensures sent[i].tick > u
  {
    var k := Reached(sent, u);
    assert k < i ==> sent[k].tick <= sent[i].tick;
  }

  lemma ReachedGrows(sent: seq<Sent>, u: int, v: int)
    requires u <= v
    ensures Reached(sent, u) <= Reached(sent, v) <= |sent|
  {
    assert Reached(sent, v) < Reached(sent, u) ==> sent[Reached(sent, v)].tick <= u;
  }

  // ---------------------------------------------------------------------------------------------
  // A multimap that replaces.

  ghost predicate HasKey(queue: seq<Queued>, tick: U32) {
    exists i :: 0 <= i < |queue| && queue[i].tick == tick
  }

  /** Insertion under a key that is present puts the new value in the place of the earlier ones. */
  ghost predicate Replaces<E>(s: Settings<E>) {
    forall queue, x: Queued {:trigger s.duplicate(queue, x)} :: HasKey(queue, x.tick) ==>
      |s.duplicate(queue, x)| <= |queue| && HasKey(s.duplicate(queue, x), x.tick)
  }

  ghost function QueueAfter<E>(s: Settings<E>, sent: seq<Sent>, n: nat, m: nat, u: int): seq<Queued>
    requires n <= m <= |sent|
  {
    ReceivedAll(s, Split(s, sent, ReachedOf(sent, u, n), n), Encoded(sent[n..m]), WireTick(u)).queue
  }

  /** Some event had to wait beside one of the same tick. */
  ghost predicate Crowded(sent: seq<Sent>, n: nat, m: nat, u: int)
    requires m <= |sent|
  {
    exists i: nat :: n <= i < m && !WaitsAlone(sent, i, u)
  }

  /** How long the queue is at most, and that the last event that had to wait is in it. */
  ghost predicate Bounded(q: seq<Queued>, sent: seq<Sent>, n: nat, m: nat, u: int)
    requires m <= |sent|
  {
    && |q| <= m - ReachedOf(sent, u, m)
    && (m > 0 && sent[m - 1].tick > u ==> HasKey(q, WireTick(sent[m - 1].tick)))
    && (Crowded(sent, n, m, u) ==> |q| < m - ReachedOf(sent, u, m))
  }

  /** What the last message can do to the queue. */
  ghost predicate StepsTo(before: seq<Queued>, after: seq<Queued>, sent: seq<Sent>, m: nat, u: int)
    requires 0 < m <= |sent|
  {
    var key := WireTick(sent[m - 1].tick);
    if sent[m - 1].tick <= u then after == before && ReachedOf(sent, u, m) == m
    else
      && ReachedOf(sent, u, m) == ReachedOf(sent, u, m - 1) < m && HasKey(after, key)
      && |after| <= |before| + (if HasKey(before, key) then 0 else 1)
  }

  lemma BoundedNext(before: seq<Queued>, after: seq<Queued>, sent: seq<Sent>, n: nat, m: nat, u: int)
    requires Sorted(sent) && n < m <= |sent| && Bounded(before, sent, n, m - 1, u) && StepsTo(before, after, sent, m, u)
    ensures Bounded(after, sent, n, m, u)
  {
    hide WireTick, HasKey, Sorted, Reached;
    if Crowded(sent, n, m, u) {
      var i: nat :| n <= i < m && !WaitsAlone(sent, i, u);
      InOrder(sent, i, m - 1);
      if i == m - 1 {
        InOrder(sent, m - 2, m - 1);
        assert sent[m - 2].tick == sent[m - 1].tick;
      } else {
        assert Crowded(sent, n, m - 1, u);
      }
    }
  }

  lemma {:induction false} QueueBound<E>(s: Settings<E>, sent: seq<Sent>, n: nat, m: nat, u: int)
    requires !s.independent && Sorted(sent) && Replaces(s) && n <= m <= |sent|
    requires forall i :: n <= i < m ==> Near(sent[i].tick, u)
    ensures Bounded(QueueAfter(s, sent, n, m, u), sent, n, m, u)
    decreases m - n
  {
    hide Sorted, Near, Replaces, Bounded, StepsTo, QueueAfter;
    if n < m {
      QueueBound(s, sent, n, m - 1, u);
      ReceivedOne(s, sent, n, m, u);
      BoundedNext(QueueAfter(s, sent, n, m - 1, u), QueueAfter(s, sent, n, m, u), sent, n, m, u);
    } else {
      FirstBound(s, sent, n, u);
    }
  }

  lemma FirstBound<E>(s: Settings<E>, sent: seq<Sent>, n: nat, u: int)
    requires n <= |sent|
    ensures Bounded(QueueAfter(s, sent, n, n, u), sent, n, n, u)
  {
    hide WireTick;
    EncodedPrefix(sent, n, n);
    var k := ReachedOf(sent, u, n);
    assert QueueAfter(s, sent, n, n, u) == QueueOf(sent[k..n]);
    if n > 0 && sent[n - 1].tick > u {
      assert QueueOf(sent[k..n])[n - 1 - k].tick == WireTick(sent[n - 1].tick);
    }
  }

  lemma InOrder(sent: seq<Sent>, i: nat, j: nat)
    requires Sorted(sent) && i <= j < |sent|
    ensures sent[i].tick <= sent[j].tick
  {
  }

  /** What the last message does to the queue. */
  lemma ReceivedOne<E>(s: Settings<E>, sent: seq<Sent>, n: nat, m: nat, u: int)
    requires !s.independent && Sorted(sent) && Replaces(s) && n < m <= |sent| && Near(sent[m - 1].tick, u)
    ensures StepsTo(QueueAfter(s, sent, n, m - 1, u), QueueAfter(s, sent, n, m, u), sent, m, u)
  {
    var x, before := sent[m - 1], QueueAfter(s, sent, n, m - 1, u);
    LastIs(s, sent, n, m, u);
    ReceivedQueue(s, ReceivedAll(s, Split(s, sent, ReachedOf(sent, u, n), n), Encoded(sent[n..m - 1]), WireTick(u)), x, u);
    hide WireTick, QueueAfter, Replaces, Inserted, Received, Split, Encoded, ReceivedAll, HasKey;
    if x.tick <= u {
      assert Reached(sent, u) >= m;
    } else {
      assert Reached(sent, u) <= m - 1;
      InsertedHas(s, before, Queued(WireTick(x.tick), x.payload));
    }
  }

  lemma ReceivedQueue<E>(s: Settings<E>, r: Reception<E>, x: Sent, u: int)
    requires !s.independent && Near(x.tick, u)
    ensures Received(s, r, Encode(x), WireTick(u)).queue ==
      if x.tick <= u then r.queue else Inserted(s, r.queue, Queued(WireTick(x.tick), x.payload))
  {
    hide TickBytes, ReadTick, Compare, WireTick, Inserted;
    CompareIff(x.tick, u);
    TickRoundTrip(WireTick(x.tick), x.payload);
  }

  lemma InsertedHas<E>(s: Settings<E>, queue: seq<Queued>, x: Queued)
    requires Replaces(s)
    ensures HasKey(Inserted(s, queue, x), x.tick)
    ensures |Inserted(s, queue, x)| <= |queue| + if HasKey(queue, x.tick) then 0 else 1
  {
    if HasKey(queue, x.tick) {
      ReplacedHas(s, queue, x);
    } else {
      assert (queue + [x])[|queue|] == x;
    }
  }

  lemma ReplacedHas<E>(s: Settings<E>, queue: seq<Queued>, x: Queued)
    requires Replaces(s) && HasKey(queue, x.tick)
    ensures Inserted(s, queue, x) == s.duplicate(queue, x)
    ensures |s.duplicate(queue, x)| <= |queue| && HasKey(s.duplicate(queue, x), x.tick)
  {
  }

  lemma LastIs<E>(s: Settings<E>, sent: seq<Sent>, n: nat, m: nat, u: int)
    requires n < m <= |sent|
    ensures
      var r := ReceivedAll(s, Split(s, sent, ReachedOf(sent, u, n), n), Encoded(sent[n..m - 1]), WireTick(u));
      && QueueAfter(s, sent, n, m - 1, u) == r.queue
      && QueueAfter(s, sent, n, m, u) == Received(s, r, Encode(sent[m - 1]), WireTick(u)).queue
  {
    hide Split, Received, Encode, Encoded;
    EncodedPrefix(sent, n, m);
  }

  /** A frame is right, in what is given to the application and in what waits, exactly if no event waits beside another. */
  lemma FrameIff<E>(s: Settings<E>, sent: seq<Sent>, n: nat, before: int, u: int)
    requires !s.independent && Replaces(s) && Sorted(sent) && n <= |sent| && before <= u < before + 0x8000_0000
    requires forall i :: 0 <= i < n ==> sent[i].tick < before + 0x8000_0000
    requires forall i :: n <= i < |sent| ==> Near(sent[i].tick, u)
    ensures AfterFrame(s, Split(s, sent, ReachedOf(sent, before, n), n), Encoded(sent[n..]), WireTick(u)) ==
        Split(s, sent, Reached(sent, u), |sent|)
      <==> forall i: nat :: n <= i < |sent| ==> WaitsAlone(sent, i, u)
  {
    hide Reached, ReceivedAll, Drained, WireTick, Encoded, WaitsAlone, Sorted, Replaces, HasKey;
    ReachedGrows(sent, before, u);
    ReachedGrows(sent, u, u);
    var k := ReachedOf(sent, before, n);
    forall i | k <= i < n ensures Near(sent[i].tick, u) {
      LaterTick(sent, before, i);
    }
    DrainedIs(s, sent, k, n, u);
    assert sent[n..|sent|] == sent[n..];
    QueueBound(s, sent, n, |sent|, u);
    if forall i: nat :: n <= i < |sent| ==> WaitsAlone(sent, i, u) {
      FrameIs(s, sent, n, before, u);
    }
  }

  /** What the application got and what waits is right. */
  ghost predicate Right<E>(s: Settings<E>, frames: seq<Frame>) {
    var sent := Arrived(frames);
    Run(s, frames) == Split(s, sent, Reached(sent, UpdateTick(frames)), |sent|)
  }

  ghost predicate AlwaysRight<E>(s: Settings<E>, frames: seq<Frame>) {
    Right(s, frames) && (frames != [] ==> AlwaysRight(s, frames[..|frames| - 1]))
  }

  /**
   With a multimap that replaces, events are given to the application in order, each as soon as its update tick is
   reached and none is lost, after every frame of a run if and only if no event ever has to wait beside one of the same
   tick.
   */
  lemma {:induction false} ReplacingIff<E>(s: Settings<E>, frames: seq<Frame>)
    requires !s.independent && Replaces(s) && Timely(frames) && Sorted(Arrived(frames))
    ensures AlwaysRight(s, frames) <==> AllAlone(frames)
  {
    if frames != [] {
      hide Split, Reached, AfterFrame, WireTick, Encoded, WaitsAlone, Replaces;
      var init, last := frames[..|frames| - 1], frames[|frames| - 1];
      var sent, n := Arrived(frames), |Arrived(init)|;
      assert Arrived(init) == sent[..n] && last.messages == sent[n..];
      SortedPrefix(sent, n);
      LastTimely(frames);
      hide Timely, Sorted;
      ReplacingIff(s, init);
      if AlwaysRight(s, init) {
        PrefixSplit(s, sent, n, UpdateTick(init));
        FrameIff(s, sent, n, UpdateTick(init), last.updateTick);
      }
    } else {
      assert Run(s, frames) == Split(s, [], 0, 0);
    }
  }

  /**
   A multimap whose insertion replaces the values of the key would lose events: of two events that wait for the same
   update, the first one never reaches the application.
   */
  lemma ReplacingLosesEvents<E>(s: Settings<E>, first: Bytes, second: Bytes)
    requires !s.independent
    requires forall queue, x :: |queue| == 1 ==> s.duplicate(queue, x) == [x]
    ensures Run(s, [Frame([Sent(1, first), Sent(1, second)], 0), Frame([], 1)]).events == Decoded(s, second)
  {
    hide TickBytes, ReadTick;
    var a, b := Sent(1, first), Sent(1, second);
    var frame, next := Frame([a, b], 0), Frame([], 1);
    var empty: Reception<E> := Reception([], []);
    TickRoundTrip(1, first);
    TickRoundTrip(1, second);
    var one := ReceivedAll(s, empty, [Encode(a)], 0);
    assert one == Reception([Queued(1, first)], []) by {
      assert [Encode(a)][..0] == [] && ReceivedAll(s, empty, [], 0) == empty;
      assert Inserted(s, [], Queued(1, first)) == [Queued(1, first)];
    }
    var two := ReceivedAll(s, empty, Encoded([a, b]), 0);
    assert two == Received(s, one, Encode(b), 0) by {
      assert Encoded([a, b]) == [Encode(a), Encode(b)] && Encoded([a, b])[..1] == [Encode(a)];
    }
    assert two == Reception([Queued(1, second)], []) by {
      assert one.queue[0].tick == 1 && |one.queue| == 1;
    }
    assert Run(s, [frame]) == two by { assert [frame][..0] == []; }
    DrainedOne(s, second);
    assert Run(s, [frame, next]) == Drained(s, two, 1) by { assert [frame, next][..1] == [frame]; }
  }

  lemma DrainedOne<E>(s: Settings<E>, message: Bytes)
    ensures Drained(s, Reception([Queued(1, message)], []), 1) == Reception([], Decoded(s, message))
  {
    assert [Queued(1, message)][1..] == [];
  }

  // ---------------------------------------------------------------------------------------------
  // From the server to the client.

  /** One sending of the buffered events: `client` is one of the clients of that moment. */
  datatype Round = Round(buffer: seq<EventSending.EventSet>, clients: seq<EventSending.Client>, client: EventSending.Client)

  function At(events: seq<EventSending.Event>, tick: int): seq<Sent> {
    seq(|events|, i requires 0 <= i < |events| => Sent(tick, events[i].payload))
  }

  /** The events of a client on a channel, in the order they are sent. */
  function Stream(rounds: seq<Round>, channel: Byte): seq<Sent> {
    if rounds == [] then []
    else
      var last := rounds[|rounds| - 1];
      Stream(rounds[..|rounds| - 1], channel)
      + At(EventSending.Inbox(last.buffer, last.client.id, channel), last.client.updateTick)
  }

  /** What the transport is given for the client on the channel. */
  function Transported(rounds: seq<Round>, channel: Byte): seq<EventSending.Sending> {
    if rounds == [] then []
    else
      var last := rounds[|rounds| - 1];
      Transported(rounds[..|rounds| - 1], channel)
      + EventSending.SentTo(EventSending.Sendings(last.buffer, last.clients), last.client.id, channel)
  }

  /** The rounds of one client: its update tick only grows. */
  ghost predicate RoundsOf(rounds: seq<Round>, id: EventSending.ClientId) {
    && (forall round <- rounds ::
          round.client.id == id && round.client in round.clients && EventSending.DistinctIds(round.clients))
    && forall i, j :: 0 <= i < j < |rounds| ==> rounds[i].client.updateTick <= rounds[j].client.updateTick
  }

  ghost predicate Carried(sendings: seq<EventSending.Sending>, sent: seq<Sent>) {
    |sendings| == |sent| && forall i :: 0 <= i < |sent| ==> sendings[i].bytes == Encode(sent[i])
  }

  lemma RoundIsSent(round: Round, channel: Byte)
    requires round.client in round.clients && EventSending.DistinctIds(round.clients)
    ensures Carried(
      EventSending.SentTo(EventSending.Sendings(round.buffer, round.clients), round.client.id, channel),
      At(EventSending.Inbox(round.buffer, round.client.id, channel), round.client.updateTick))
  {
    hide TickBytes, WireTick, EventSending.SentTo, EventSending.Inbox, EventSending.Sendings;
    EventSending.InboxIsSent(round.buffer, round.clients, round.client, channel);
  }

  /** The bytes that the transport is given for the client are those of its events. */
  lemma {:induction false} StreamIsSent(rounds: seq<Round>, id: EventSending.ClientId, channel: Byte)
    requires RoundsOf(rounds, id)
    ensures Carried(Transported(rounds, channel), Stream(rounds, channel))
  {
    if rounds != [] {
      hide Encode, At, EventSending.SentTo, EventSending.Inbox, EventSending.Sendings, EventSending.DistinctIds;
      StreamIsSent(rounds[..|rounds| - 1], id, channel);
      RoundIsSent(rounds[|rounds| - 1], channel);
    }
  }

  ghost predicate UpToTick(sent: seq<Sent>, tick: int) {
    forall i :: 0 <= i < |sent| ==> sent[i].tick <= tick
  }

  lemma SortedAppend(a: seq<Sent>, events: seq<EventSending.Event>, before: int, tick: int)
    requires Sorted(a) && UpToTick(a, before) && before <= tick
    ensures Sorted(a + At(events, tick)) && UpToTick(a + At(events, tick), tick)
  {
  }

  function LastTick(rounds: seq<Round>): int
    requires rounds != []
  {
    rounds[|rounds| - 1].client.updateTick
  }

  lemma {:induction false} StreamIsSorted(rounds: seq<Round>, id: EventSending.ClientId, channel: Byte)
    requires RoundsOf(rounds, id)
    ensures Sorted(Stream(rounds, channel))
    ensures if rounds == [] then Stream(rounds, channel) == [] else UpToTick(Stream(rounds, channel), LastTick(rounds))
  {
    if rounds != [] {
      hide EventSending.Inbox, EventSending.DistinctIds, At, Sorted, UpToTick;
      var init, last := rounds[..|rounds| - 1], rounds[|rounds| - 1];
      StreamIsSorted(init, id, channel);
      var events := EventSending.Inbox(last.buffer, last.client.id, channel);
      if init == [] {
        NothingSorted(last.client.updateTick);
      }
      SortedAppend(Stream(init, channel), events, if init == [] then last.client.updateTick else LastTick(init), last.client.updateTick);
    } else {
      NothingSorted(0);
    }
  }

  lemma NothingSorted(tick: int)
    ensures Sorted([]) && UpToTick([], tick)
  {
  }

  /**
   Whatever an ordered channel delivered so far, the application has got the events of the server in order, up to the
   first one that the update tick does not reach.
   */
  lemma EventsArriveInOrder<E>(s: Settings<E>, rounds: seq<Round>, id: EventSending.ClientId, channel: Byte, frames: seq<Frame>)
    requires RoundsOf(rounds, id) && !s.independent && Orderly(s, frames)
    requires Arrived(frames) <= Stream(rounds, channel)
    ensures
      var stream, k := Stream(rounds, channel), Reached(Arrived(frames), UpdateTick(frames));
      && k <= |stream|
      && Run(s, frames).events == Events(s, stream[..k])
      && (forall i :: 0 <= i < k ==> stream[i].tick <= UpdateTick(frames))
      && (k < |Arrived(frames)| ==> stream[k].tick > UpdateTick(frames))
  {
    hide Run, Events, Orderly, Stream, Arrived;
    StreamIsSorted(rounds, id, channel);
    var stream, arrived := Stream(rounds, channel), Arrived(frames);
    assert forall i :: 0 <= i < |arrived| ==> arrived[i] == stream[i];
    EventsAreCausal(s, frames);
    var k := Reached(arrived, UpdateTick(frames));
    assert arrived[..k] == stream[..k];
  }

  // ---------------------------------------------------------------------------------------------
  // The object.

  class ServerEventReceiver<!E> {
    const settings: Settings<E>
    var queue: seq<Queued>
    var events: seq<E>

    constructor (settings: Settings<E>)
      ensures this.settings == settings && State() == Reception([], [])
    {
      this.settings, queue, events := settings, [], [];
    }

    function State(): Reception<E>
      reads this
    {
      Reception(queue, events)
    }

    method PopIfLe(updateTick: U32) returns (popped: Option<Queued>)
      modifies this`queue
      ensures
        if old(queue) == [] || After(old(queue)[0].tick, updateTick) then popped == None && queue == old(queue)
        else popped == Some(old(queue)[0]) && queue == old(queue)[1..]
    {
      if queue == [] || After(queue[0].tick, updateTick) {
        return None;
      }
      popped := Some(queue[0]);
      queue := queue[1..];
    }

    method Emit(message: Bytes)
      modifies this`events
      ensures events == old(events) + Decoded(settings, message)
    {
      var event := settings.decode(message);
      if event.Some? {
        events := events + [event.value];
      }
    }

    method InsertQueued(x: Queued)
      modifies this`queue
      ensures queue == Inserted(settings, old(queue), x)
    {
      if exists i :: 0 <= i < |queue| && queue[i].tick == x.tick {
        queue := settings.duplicate(queue, x);
      } else {
        queue := queue + [x];
      }
    }

    method Drain(updateTick: U32)
      modifies this
      ensures State() == Drained(settings, old(State()), updateTick)
    {
      var popped := PopIfLe(updateTick);
      while popped.Some?
        invariant Drained(settings, old(State()), updateTick) ==
          match popped
          case None => State()
          case Some(x) => Drained(settings, Reception(queue, events + Decoded(settings, x.message)), updateTick)
        invariant popped.None? ==> queue == [] || After(queue[0].tick, updateTick)
        decreases |queue|, popped.Some?
      {
        Emit(popped.value.message);
        popped := PopIfLe(updateTick);
      }
    }

    /** What arrived is taken in order. A message whose tick was not applied yet waits. */
    method Receive(messages: seq<Bytes>, updateTick: U32)
      modifies this
      ensures State() == AfterFrame(settings, old(State()), messages, updateTick)
    {
      Drain(updateTick);
      ghost var drained := State();
      var i := 0;
      while i < |messages|
        invariant 0 <= i <= |messages|
        invariant State() == ReceivedAll(settings, drained, messages[..i], updateTick)
      {
        assert messages[..i + 1][..i] == messages[..i];
        var message := messages[i];
        i := i + 1;
        if !settings.independent {
          var tick := ReadTick(message);
          if tick.Failure? {
            continue;
          }
          message := tick.rest;
          if After(tick.value, updateTick) {
            InsertQueued(Queued(tick.value, message));
            continue;
          }
        }
        Emit(message);
      }
      assert messages[..i] == messages;
    }

    /** On a disconnect, the events that wait are dropped. */
    method Reset()
      modifies this`queue
      ensures State() == old(State()).(queue := [])
    {
      queue := [];
    }
  }
}
