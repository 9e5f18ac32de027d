/** Server events that wait for replication, and their delivery to clients (server_event.rs). */
module EventSending {
  import opened Domain
  import opened Wire

  type ClientId = nat

  const SERVER: ClientId := 0

  datatype SendMode = Broadcast | BroadcastExcept(except: ClientId) | Direct(target: ClientId)

  /** A client that is replicated to, with the tick of the last update message sent to it. */
  datatype Client = Client(id: ClientId, updateTick: int)

  datatype Sending = Sending(to: ClientId, channel: Byte, bytes: Bytes)

  // ---------------------------------------------------------------------------------------------
  // A message that is sent to several clients.

  datatype Form = Raw(bytes: Bytes) | Resolved(tick: U32, bytes: Bytes) {
    /** The message carries `payload`: after the padding, or after the tick it was resolved for. */
    ghost predicate Carries(payload: Bytes) {
      match this
      case Raw(bytes) => |bytes| >= 4 && bytes[4..] == payload
      case Resolved(tick, bytes) => bytes == TickBytes(tick) + payload
    }
  }

  class SerializedMessage {
    var form: Form

    constructor (form: Form)
      ensures this.form == form
    {
      this.form := form;
    }

    /** The cached tick never shows: the result is that of writing the tick in front of the payload. */
    method GetBytes(updateTick: U32, ghost payload: Bytes) returns (message: Bytes)
      requires form.Carries(payload)
      modifies this
      ensures form.Carries(payload)
      ensures message == TickBytes(updateTick) + payload
      ensures form == if old(form).Raw? then Resolved(updateTick, message) else old(form)
    {
      match form
      case Raw(raw) =>
        message := TickBytes(updateTick) + raw[4..];
        form := Resolved(updateTick, message);
      case Resolved(tick, bytes) =>
        if tick == updateTick {
          return bytes;
        }
        message := TickBytes(updateTick);
        message := message + bytes[4..];
    }
  }

  // ---------------------------------------------------------------------------------------------
  // What has to be sent.

  /** An event as it was buffered: its payload is known to the specification only. */
  datatype Event = Event(mode: SendMode, channel: Byte, payload: Bytes)

  datatype EventSet = EventSet(events: seq<Event>, excluded: set<ClientId>)

  predicate Addressed(mode: SendMode, excluded: set<ClientId>, id: ClientId) {
    && id !in excluded
    && match mode
       case Broadcast => true
       case BroadcastExcept(except) => id != except
       case Direct(target) => target != SERVER && id == target
  }

  function SendingTo(event: Event, client: Client): Sending {
    Sending(client.id, event.channel, TickBytes(WireTick(client.updateTick)) + event.payload)
  }

  predicate Concerns(event: Event, excluded: set<ClientId>, id: ClientId, channel: Byte) {
    event.channel == channel && Addressed(event.mode, excluded, id)
  }

  function EventSendings(event: Event, excluded: set<ClientId>, clients: seq<Client>): seq<Sending> {
    if clients == [] then []
    else
      EventSendings(event, excluded, clients[..|clients| - 1])
      + if Addressed(event.mode, excluded, clients[|clients| - 1].id) then [SendingTo(event, clients[|clients| - 1])] else []
  }

  function SetSendings(events: seq<Event>, excluded: set<ClientId>, clients: seq<Client>): seq<Sending> {
    if events == [] then []
    else
      SetSendings(events[..|events| - 1], excluded, clients)
      + EventSendings(events[|events| - 1], excluded, clients)
  }

  function Sendings(buffer: seq<EventSet>, clients: seq<Client>): seq<Sending> {
    if buffer == [] then []
    else
      var last := buffer[|buffer| - 1];
      Sendings(buffer[..|buffer| - 1], clients) + SetSendings(last.events, last.excluded, clients)
  }

  lemma SendingsNext(buffer: seq<EventSet>, clients: seq<Client>, i: nat, sent: seq<Sending>)
    requires i < |buffer|
    ensures sent + Sendings(buffer[..i + 1], clients) ==
      sent + Sendings(buffer[..i], clients) + SetSendings(buffer[i].events, buffer[i].excluded, clients)
  {
    hide SetSendings;
    assert buffer[..i + 1][..i] == buffer[..i];
  }

  // ---------------------------------------------------------------------------------------------
  // Whom an event reaches.

  function Targets(sendings: seq<Sending>): seq<ClientId> {
    seq(|sendings|, i requires 0 <= i < |sendings| => sendings[i].to)
  }

  /** How often something is sent to `id`. */
  function Copies(sendings: seq<Sending>, id: ClientId): nat {
    multiset(Targets(sendings))[id]
  }

  ghost predicate IsConnected(clients: seq<Client>, id: ClientId) {
    exists c <- clients :: c.id == id
  }

  /**
   A broadcast reaches every connected client that is not excluded, once; one with an exception all of them but that one;
   a direct event its target only, and nobody if that is the server, excluded or absent. Each gets the payload behind
   its own tick.
   */
  ghost predicate Delivered(event: Event, excluded: set<ClientId>, clients: seq<Client>, sendings: seq<Sending>) {
    && (forall sending <- sendings :: exists c <- clients ::
          sending == Sending(c.id, event.channel, TickBytes(WireTick(c.updateTick)) + event.payload))
    && forall id :: Copies(sendings, id) ==
         match event.mode
         case Broadcast => if IsConnected(clients, id) && id !in excluded then 1 else 0
         case BroadcastExcept(except) => if IsConnected(clients, id) && id !in excluded && id != except then 1 else 0
         case Direct(target) => if IsConnected(clients, id) && id !in excluded && id == target != SERVER then 1 else 0
  }

  lemma CopiesNext(sendings: seq<Sending>, sending: Sending, id: ClientId)
    ensures Copies(sendings + [sending], id) == Copies(sendings, id) + if sending.to == id then 1 else 0
    ensures Copies([], id) == 0
  {
    assert Targets(sendings + [sending]) == Targets(sendings) + [sending.to];
  }

  lemma {:induction false} EventIsDelivered(event: Event, excluded: set<ClientId>, clients: seq<Client>)
    requires DistinctIds(clients)
    ensures Delivered(event, excluded, clients, EventSendings(event, excluded, clients))
  {
    hide TickBytes, WireTick, Copies;
    var all := EventSendings(event, excluded, clients);
    if clients == [] {
      forall id ensures Copies(all, id) == 0 {
        CopiesNext([], Sending(0, 0, []), id);
      }
    } else {
      var init, last := clients[..|clients| - 1], clients[|clients| - 1];
      assert clients == init + [last];
      EventIsDelivered(event, excluded, init);
      assert forall c <- init :: c.id != last.id;
      assert forall id :: IsConnected(clients, id) <==> IsConnected(init, id) || id == last.id;
      forall id ensures Copies(all, id) ==
        Copies(EventSendings(event, excluded, init), id)
        + if id == last.id && all != EventSendings(event, excluded, init) then 1 else 0
      {
        CopiesNext(EventSendings(event, excluded, init), SendingTo(event, last), id);
        assert EventSendings(event, excluded, init) + [] == EventSendings(event, excluded, init);
      }
    }
  }

  /** A buffer with one event. */
  function Alone(event: Event, excluded: set<ClientId>): seq<EventSet> {
    [EventSet([event], excluded)]
  }

  lemma OneEventIsDelivered(event: Event, excluded: set<ClientId>, clients: seq<Client>)
    requires DistinctIds(clients)
    ensures Delivered(event, excluded, clients, Sendings(Alone(event, excluded), clients))
  {
    EventIsDelivered(event, excluded, clients);
    SetIsAlone([event], excluded, clients);
    assert [event][..0] == [];
    assert SetSendings([event], excluded, clients) == EventSendings(event, excluded, clients);
  }

  /** Every event is sent as if it were buffered alone, set by set and one behind the other. */
  lemma {:induction false} SendingsOfParts(buffer: seq<EventSet>, more: seq<EventSet>, clients: seq<Client>)
    ensures Sendings(buffer + more, clients) == Sendings(buffer, clients) + Sendings(more, clients)
  {
    if more == [] {
      assert buffer + more == buffer;
    } else {
      var init := more[..|more| - 1];
      assert (buffer + more)[..|buffer + more| - 1] == buffer + init;
      SendingsOfParts(buffer, init, clients);
    }
  }

  lemma {:induction false} SendingsOfEvents(events: seq<Event>, more: seq<Event>, excluded: set<ClientId>, clients: seq<Client>)
    ensures Sendings([EventSet(events + more, excluded)], clients) ==
      Sendings([EventSet(events, excluded)], clients) + Sendings([EventSet(more, excluded)], clients)
    ensures Sendings([EventSet([], excluded)], clients) == []
  {
    SetIsAlone(events + more, excluded, clients);
    SetIsAlone(events, excluded, clients);
    SetIsAlone(more, excluded, clients);
    SetIsAlone([], excluded, clients);
    SetSendingsConcat(events, more, excluded, clients);
  }

  lemma SetIsAlone(events: seq<Event>, excluded: set<ClientId>, clients: seq<Client>)
    ensures Sendings([EventSet(events, excluded)], clients) == SetSendings(events, excluded, clients)
  {
    assert [EventSet(events, excluded)][..0] == [];
  }

  lemma {:induction false} SetSendingsConcat(events: seq<Event>, more: seq<Event>, excluded: set<ClientId>, clients: seq<Client>)
    ensures SetSendings(events + more, excluded, clients) ==
      SetSendings(events, excluded, clients) + SetSendings(more, excluded, clients)
  {
    hide EventSendings;
    if more == [] {
      assert events + more == events;
    } else {
      var init := more[..|more| - 1];
      assert (events + more)[..|events + more| - 1] == events + init;
      SetSendingsConcat(events, init, excluded, clients);
    }
  }

  /** The events of one client on one channel, in the order they were buffered. */
  function SetInbox(events: seq<Event>, excluded: set<ClientId>, id: ClientId, channel: Byte): seq<Event> {
    if events == [] then []
    else
      SetInbox(events[..|events| - 1], excluded, id, channel)
      + if Concerns(events[|events| - 1], excluded, id, channel) then [events[|events| - 1]] else []
  }

  function Inbox(buffer: seq<EventSet>, id: ClientId, channel: Byte): seq<Event> {
    if buffer == [] then []
    else
      var last := buffer[|buffer| - 1];
      Inbox(buffer[..|buffer| - 1], id, channel) + SetInbox(last.events, last.excluded, id, channel)
  }

  predicate Goes(sending: Sending, id: ClientId, channel: Byte) {
    sending.to == id && sending.channel == channel
  }

  function SentTo(sendings: seq<Sending>, id: ClientId, channel: Byte): seq<Sending> {
    if sendings == [] then []
    else
      SentTo(sendings[..|sendings| - 1], id, channel)
      + if Goes(sendings[|sendings| - 1], id, channel) then [sendings[|sendings| - 1]] else []
  }

  function AllTo(events: seq<Event>, client: Client): seq<Sending> {
    seq(|events|, i requires 0 <= i < |events| => SendingTo(events[i], client))
  }

  lemma {:induction false} SentToConcat(a: seq<Sending>, b: seq<Sending>, id: ClientId, channel: Byte)
    ensures SentTo(a + b, id, channel) == SentTo(a, id, channel) + SentTo(b, id, channel)
  {
    if b == [] {
      assert a + b == a;
    } else {
      var init := b[..|b| - 1];
      assert (a + b)[..|a + b| - 1] == a + init;
      SentToConcat(a, init, id, channel);
    }
  }

  predicate DistinctIds(clients: seq<Client>) {
    forall i, j :: 0 <= i < j < |clients| ==> clients[i].id != clients[j].id
  }

  lemma SentToOne(sendings: seq<Sending>, id: ClientId, channel: Byte)
    requires |sendings| <= 1
    ensures SentTo(sendings, id, channel) == if sendings != [] && Goes(sendings[0], id, channel) then sendings else []
  {
  }

  lemma AllToConcat(a: seq<Event>, b: seq<Event>, client: Client)
    ensures AllTo(a + b, client) == AllTo(a, client) + AllTo(b, client)
  {
  }

  lemma {:induction false} EventSentTo(event: Event, excluded: set<ClientId>, clients: seq<Client>, client: Client, channel: Byte)
    requires DistinctIds(clients)
    requires forall c <- clients :: c.id == client.id ==> c == client
    ensures SentTo(EventSendings(event, excluded, clients), client.id, channel) ==
      if client in clients && Concerns(event, excluded, client.id, channel) then [SendingTo(event, client)] else []
  {
    if clients != [] {
      hide TickBytes, WireTick, SentTo;
      var init, last := clients[..|clients| - 1], clients[|clients| - 1];
      assert clients == init + [last];
      EventSentTo(event, excluded, init, client, channel);
      var tail := if Addressed(event.mode, excluded, last.id) then [SendingTo(event, last)] else [];
      SentToConcat(EventSendings(event, excluded, init), tail, client.id, channel);
      SentToOne(tail, client.id, channel);
      if last.id == client.id {
        assert forall i :: 0 <= i < |init| ==> clients[i].id != last.id;
        assert client !in init;
      }
    }
  }

  lemma {:induction false} SetSentTo(events: seq<Event>, excluded: set<ClientId>, clients: seq<Client>, client: Client, channel: Byte)
    requires DistinctIds(clients) && client in clients
    ensures SentTo(SetSendings(events, excluded, clients), client.id, channel) == AllTo(SetInbox(events, excluded, client.id, channel), client)
  {
    if events != [] {
      hide SendingTo, SentTo, EventSendings;
      var init, last := events[..|events| - 1], events[|events| - 1];
      SetSentTo(init, excluded, clients, client, channel);
      SentToConcat(SetSendings(init, excluded, clients), EventSendings(last, excluded, clients), client.id, channel);
      EventSentTo(last, excluded, clients, client, channel);
      var tail := if Concerns(last, excluded, client.id, channel) then [last] else [];
      AllToConcat(SetInbox(init, excluded, client.id, channel), tail, client);
    }
  }

  /**
   What a client is sent does not depend on the other clients or on their ticks: it is its own events, in order,
   each with its own update tick.
   */
  lemma {:induction false} InboxIsSent(buffer: seq<EventSet>, clients: seq<Client>, client: Client, channel: Byte)
    requires DistinctIds(clients) && client in clients
    ensures SentTo(Sendings(buffer, clients), client.id, channel) == AllTo(Inbox(buffer, client.id, channel), client)
  {
    if buffer != [] {
      hide SendingTo, SentTo, SetSendings, SetInbox, AllTo;
      var init, last := buffer[..|buffer| - 1], buffer[|buffer| - 1];
      InboxIsSent(init, clients, client, channel);
      SentToConcat(Sendings(init, clients), SetSendings(last.events, last.excluded, clients), client.id, channel);
      SetSentTo(last.events, last.excluded, clients, client, channel);
      AllToConcat(Inbox(init, client.id, channel), SetInbox(last.events, last.excluded, client.id, channel), client);
    }
  }

  function Excluding(buffer: seq<EventSet>, id: ClientId): seq<EventSet> {
    seq(|buffer|, i requires 0 <= i < |buffer| => buffer[i].(excluded := buffer[i].excluded + {id}))
  }

  /** A client that connects later gets none of the events buffered before; the others still get theirs. */
  lemma {:induction false} ExclusionIs(buffer: seq<EventSet>, excluded: ClientId, id: ClientId, channel: Byte)
    ensures Inbox(Excluding(buffer, excluded), id, channel) == if id == excluded then [] else Inbox(buffer, id, channel)
  {
    if buffer != [] {
      var init, last := buffer[..|buffer| - 1], buffer[|buffer| - 1];
      var after := Excluding(buffer, excluded);
      assert after[..|after| - 1] == Excluding(init, excluded);
      ExclusionIs(init, excluded, id, channel);
      SetExclusionIs(last.events, last.excluded, excluded, id, channel);
    }
  }

  lemma {:induction false} SetExclusionIs(events: seq<Event>, before: set<ClientId>, excluded: ClientId, id: ClientId, channel: Byte)
    ensures SetInbox(events, before + {excluded}, id, channel) == if id == excluded then [] else SetInbox(events, before, id, channel)
  {
    if events != [] {
      SetExclusionIs(events[..|events| - 1], before, excluded, id, channel);
    }
  }

  // ---------------------------------------------------------------------------------------------
  // The object.

  datatype BufferedServerEvent = BufferedServerEvent(mode: SendMode, channel: Byte, message: Form)

  datatype BufferedServerEventSet = BufferedServerEventSet(events: seq<BufferedServerEvent>, excluded: set<ClientId>)

  /** A buffered event is still raw: nothing was sent yet. */
  function Standing(event: BufferedServerEvent): Event
    requires event.message.Raw? && |event.message.bytes| >= 4
  {
    Event(event.mode, event.channel, event.message.bytes[4..])
  }

  ghost predicate IsSet(buffered: BufferedServerEventSet, standing: EventSet) {
    && buffered.excluded == standing.excluded
    && |buffered.events| == |standing.events|
    && forall i :: 0 <= i < |buffered.events| ==>
      && buffered.events[i].message.Raw? && |buffered.events[i].message.bytes| >= 4
      && Standing(buffered.events[i]) == standing.events[i]
  }

  ghost predicate IsBuffer(buffered: seq<BufferedServerEventSet>, standing: seq<EventSet>) {
    |buffered| == |standing| && forall i :: 0 <= i < |buffered| ==> IsSet(buffered[i], standing[i])
  }

  function NewSet(): BufferedServerEventSet {
    BufferedServerEventSet([], {})
  }

  ghost predicate AllNew(cache: seq<BufferedServerEventSet>) {
    forall unused <- cache :: unused == NewSet()
  }

  lemma OneMoreNew(cache: seq<BufferedServerEventSet>)
    requires AllNew(cache)
    ensures AllNew(cache + [NewSet()])
  {
  }

  class BufferedServerEvents {
    var buffer: seq<BufferedServerEventSet>
    /** Unused sets, kept to reuse their memory. */
    var cache: seq<BufferedServerEventSet>
    /** What was handed to the transport. */
    var sent: seq<Sending>
    ghost var standing: seq<EventSet>

    constructor ()
      ensures Valid() && standing == [] && sent == []
    {
      buffer, cache, sent, standing := [], [], [], [];
    }

    ghost predicate Valid()
      reads this
    {
      && IsBuffer(buffer, standing)
      && AllNew(cache)
    }

    method StartTick()
      requires Valid()
      modifies this
      ensures Valid() && standing == old(standing) + [EventSet([], {})] && sent == old(sent)
    {
      var active := NewSet();
      if cache != [] {
        active := cache[|cache| - 1];
        assert active in cache;
        cache := cache[..|cache| - 1];
        assert forall unused <- cache :: unused in old(cache);
      }
      buffer := buffer + [active];
      standing := standing + [EventSet([], {})];
    }

    /** `message` comes from `serialize_with_padding`. `start_tick` has to be called before. */
    method Insert(mode: SendMode, channel: Byte, payload: Bytes)
      requires Valid() && standing != []
      modifies this
      ensures Valid() && sent == old(sent)
      ensures
        var last := |old(standing)| - 1;
        standing == old(standing)[last := old(standing)[last].(events :=
          old(standing)[last].events + [Event(mode, channel, payload)])]
    {
      var last := |buffer| - 1;
      var event := BufferedServerEvent(mode, channel, Raw([0, 0, 0, 0] + payload));
      assert Standing(event) == Event(mode, channel, payload);
      buffer := buffer[last := buffer[last].(events := buffer[last].events + [event])];
      standing := standing[last := standing[last].(events := standing[last].events + [Event(mode, channel, payload)])];
    }

    method ExcludeClient(client: ClientId)
      requires Valid()
      modifies this
      ensures Valid() && standing == Excluding(old(standing), client) && sent == old(sent)
    {
      var i := 0;
      while i < |buffer|
        invariant 0 <= i <= |buffer| == |old(buffer)|
        invariant forall j :: i <= j < |buffer| ==> buffer[j] == old(buffer)[j]
        invariant forall j :: 0 <= j < i ==> IsSet(buffer[j], Excluding(standing, client)[j])
        modifies this`buffer
      {
        buffer := buffer[i := buffer[i].(excluded := buffer[i].excluded + {client})];
        i := i + 1;
      }
      standing := Excluding(standing, client);
    }

    method Clear()
      requires Valid()
      modifies this
      ensures Valid() && standing == [] && sent == old(sent)
    {
      while buffer != []
        invariant forall unused <- cache :: unused == NewSet()
        decreases |buffer|
        modifies this`buffer, this`cache
      {
        buffer := buffer[1..];
        cache := cache + [NewSet()];
      }
      standing := [];
    }

    /** Gives every client its events, in order, and leaves nothing buffered. */
    method SendAll(clients: seq<Client>)
      requires Valid() && DistinctIds(clients)
      modifies this
      ensures Valid() && standing == [] && buffer == []
      ensures sent == old(sent) + Sendings(old(standing), clients)
      ensures forall event, excluded :: old(standing) == Alone(event, excluded) ==>
        Delivered(event, excluded, clients, sent[|old(sent)|..])
    {
      forall event, excluded ensures Delivered(event, excluded, clients, Sendings(Alone(event, excluded), clients)) {
        OneEventIsDelivered(event, excluded, clients);
      }
      hide Delivered, Alone;
      assert sent + Sendings(standing[..0], clients) == sent;
      hide IsSet, AllNew, Sendings;
      var i := 0;
      while i < |buffer|
        invariant 0 <= i <= |buffer| && buffer == old(buffer) && standing == old(standing)
        invariant AllNew(cache)
        invariant sent == old(sent) + Sendings(standing[..i], clients)
        modifies this`cache, this`sent
      {
        SendingsNext(standing, clients, i, old(sent));
        hide SetSendings;
        SendSet(buffer[i], clients, standing[i]);
        OneMoreNew(cache);
        cache := cache + [NewSet()];
        i := i + 1;
      }
      assert standing[..i] == standing;
      buffer, standing := [], [];
    }

    method SendSet(buffered: BufferedServerEventSet, clients: seq<Client>, ghost as_: EventSet)
      requires IsSet(buffered, as_) && DistinctIds(clients)
      modifies this`sent
      ensures sent == old(sent) + SetSendings(as_.events, as_.excluded, clients)
    {
      var i := 0;
      while i < |buffered.events|
        invariant 0 <= i <= |buffered.events|
        invariant sent == old(sent) + SetSendings(as_.events[..i], as_.excluded, clients)
        modifies this`sent
      {
        assert as_.events[..i + 1][..i] == as_.events[..i];
        SendEvent(buffered.events[i], buffered.excluded, clients, as_.events[i]);
        i := i + 1;
      }
      assert as_.events[..i] == as_.events;
    }

    method SendEvent(buffered: BufferedServerEvent, excluded: set<ClientId>, clients: seq<Client>, ghost event: Event)
      requires buffered.message.Raw? && |buffered.message.bytes| >= 4 && Standing(buffered) == event
      requires DistinctIds(clients)
      modifies this`sent
      ensures sent == old(sent) + EventSendings(event, excluded, clients)
    {
      var message := new SerializedMessage(buffered.message);
      if buffered.mode.Direct? {
        var target := buffered.mode.target;
        if target != SERVER && target !in excluded {
          var found := FindClient(clients, target);
          DirectIs(event, excluded, clients, found);
          if found.Some? {
            Send(message, buffered.channel, found.value, event);
          }
        } else {
          DirectIs(event, excluded, clients, None);
        }
        return;
      }
      var i := 0;
      while i < |clients|
        invariant 0 <= i <= |clients|
        invariant message.form.Carries(event.payload)
        invariant sent == old(sent) + EventSendings(event, excluded, clients[..i])
        modifies this`sent, message
      {
        assert clients[..i + 1][..i] == clients[..i];
        if clients[i].id in excluded || buffered.mode == BroadcastExcept(clients[i].id) {
          i := i + 1;
          continue;
        }
        Send(message, buffered.channel, clients[i], event);
        i := i + 1;
      }
      assert clients[..i] == clients;
    }

    method Send(message: SerializedMessage, channel: Byte, client: Client, ghost event: Event)
      requires message.form.Carries(event.payload) && channel == event.channel
      modifies this`sent, message
      ensures message.form.Carries(event.payload)
      ensures sent == old(sent) + [SendingTo(event, client)]
    {
      var bytes := message.GetBytes(WireTick(client.updateTick), event.payload);
      sent := sent + [Sending(client.id, channel, bytes)];
    }
  }

  method FindClient(clients: seq<Client>, id: ClientId) returns (found: Option<Client>)
    ensures found.Some? ==> found.value in clients && found.value.id == id
    ensures found.None? ==> forall c <- clients :: c.id != id
  {
    var i := 0;
    while i < |clients|
      invariant 0 <= i <= |clients|
      invariant forall j :: 0 <= j < i ==> clients[j].id != id
    {
      if clients[i].id == id {
        return Some(clients[i]);
      }
      i := i + 1;
    }
    return None;
  }

  /** A direct event reaches its one target only. */
  lemma {:induction false} DirectIs(event: Event, excluded: set<ClientId>, clients: seq<Client>, found: Option<Client>)
    requires event.mode.Direct? && DistinctIds(clients)
    requires found.Some? ==> found.value in clients && found.value.id == event.mode.target
    requires found.None? ==> forall c <- clients :: !Addressed(event.mode, excluded, c.id)
    ensures EventSendings(event, excluded, clients) ==
      if found.Some? && Addressed(event.mode, excluded, found.value.id) then [SendingTo(event, found.value)] else []
  {
    if clients != [] {
      var init, last := clients[..|clients| - 1], clients[|clients| - 1];
      hide TickBytes, WireTick;
      assert clients == init + [last];
      if found.Some? && last == found.value {
        assert forall c <- init :: c.id != last.id;
        DirectIs(event, excluded, init, None);
      } else {
        DirectIs(event, excluded, init, found);
      }
    }
  }
}
