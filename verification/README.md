# A verified model of bevy_replicon's replication protocol

The server owns a world of entities. On every replication run it compares the world with what each client is known to
have, entity by entity: structural changes go into one *update message* (reliable, ordered), changes of values go into
*mutate messages* (unreliable, unordered, split by packet size). The client applies updates as they come, keeps a mutate
message until the update tick it was built upon has been applied, skips what is outdated per entity, and sends
acknowledgements, which raise the tick the server compares an entity with (its *baseline*).

The project models this on three levels and connects them.

1. **The protocol.** `Protocol` is a transition system: the world, what the server remembers of a client, the client and
   the network (a queue of updates, a set of mutate messages that are lost, duplicated and reordered at will, and
   acknowledgements in any order), plus the history of the world. `Invariant` holds in every reachable state
   (`ServerSteps`, `ClientSteps`, `SendSteps`), and `Theorems` draws the conclusions: every client entity is a snapshot
   of the server entity at its confirmed tick; a client that has caught up is consistent; baselines are sound and never
   move back; the order of arrival does not matter. `Frames` and `Acknowledgements` say what a frame does to the network
   and the buffer, and what becomes of a message from its run to its acknowledgement. `Necessity` shows which environment assumptions are needed, by runs
   that break the conclusions and by exact conditions.
2. **The code that runs on bytes.** `Collection`, `ServerRun`, `UpdateMessages`, `MutateMessages` and `SerializedBuffer`
   are the server's loops over clients that share one buffer of ranges; `ClientApply` is the client's cursor and its
   buffer of messages; `Wire`, `EntitySerde`, `UpdateWire` and `MutateWire` are the formats. Methods change objects in
   place and are proved against functions.
3. **The connection.** `Selection` and `Refinement` show that what a client is sent in a run with any number of clients
   is what the protocol says for that client alone, and that it parses to the protocol's messages; `ClientRefinement`
   shows that applying the bytes of a frame is the protocol's frame, with ticks sent and compared modulo 2^32. The server
   has two clocks, server ticks in messages and change ticks for everything it compares: `Clocks` shows that a run does
   not depend on which of them stamps and baselines are told by. `ByteProtocol` puts it together: a transition system in
   which the server serializes, the network carries byte strings and the client parses, every run of which is a run of
   the protocol, so that its clients are snapshots, too.

Beside that stand the smaller machines: visibility, the windows of received ticks, event queues, rules and removals, and
the entity map.

**What the environment is assumed to do** (`Protocol.Allowed`, and `ByteProtocol.Assumed` for bytes). An acknowledgement
is processed after its message was applied. An index of a mutate message is not reused while a message with it is
unresolved. A component does not start to be replicated without being added (groups are inserted together). Removals are
buffered once per run. No blacklisted entity is hidden and despawned between two runs, and no whitelisted entity that was
visible is hidden and then shown between two runs. Ticks grow, and the ticks that a frame compares span less than 2^31.
New mappings come with something else to say in the same run. The client does not despawn replicated entities itself.

**Where the code does less than its documentation says.** Each point has a lemma.

- The client acknowledges a mutate message when it is buffered, not when it is applied. The server then takes the data for
  known and leaves it out of later messages, and an update message that overtakes the buffered one makes that one
  outdated: the data never reaches the client, which is no snapshot any more (`AckOnBufferingBreaksSnapshots`). An
  acknowledgement is sound exactly under the condition of `AckSoundIff`; a client that acknowledged only messages whose
  update tick it has reached would meet it (`StillBufferedIff`).
- A run with new mappings and nothing else to say raises the client's update tick but sends nothing, so mutate messages
  wait on the client until the next update (`UpdateTickIff`).
- A whitelisted entity that was visible, is hidden and then shown within a tick is reported as gained, and if it is hidden
  once more nobody tells the client (`WhitelistExactIff`, `WhitelistLosesDespawn`). A blacklisted entity that is hidden
  and despawned between two runs is not reported either (`DespawnReportedIff`).
- `ConfirmHistory` shifts its mask by the distance modulo 64, so a jump of 64 ticks or more keeps old bits
  (`AdvancedIff`), and the query for the whole window of 64 ticks answers `false` in builds that wrap shifts
  (`ContainsAnyIff`).
- With tracking of mutate messages, packing goes by a header size that reserves more than is written. An entity that fits
  a packet behind the written header but not behind the reserved one is always put together with a neighbour, into a
  message of two packets. So, of entities that each fit a packet alone, the messages are one packet each if and only if all
  of them fit behind the reserved header, or there is but one (`TrackedFitsIff`).
- A second pass of removals before a run replaces the first, unless it has nothing to tell or tells all of it again
  (`BothPassesIff`, `SecondPassLosesFirst`), and indices are reused after 2^16 messages
  (`OverwrittenIff`).
- The order of ticks follows section 3.2 of RFC 1982 with SERIAL_BITS = 32, but two ticks at distance 2^31 are each less
  than the other (`AntisymmetricIff`).

## Model

| member | source | states |
|---|---|---|
| Theorems.EveryEntityIsASnapshot | src/client.rs:561-655 | In every reachable state, every client entity has exactly the components and values that the server entity had at the entity's confirmed tick, whatever was lost, duplicated, delayed or reordered |
| Theorems.CaughtUpClientIsConsistent | src/lib.rs:578-592 | Once no update is in flight and the mutate messages of the last run were applied, the client's entities are the visible ones with the current components and values; only a visible entity without components may be missing |
| Announcements.MissingIsOldAndEmpty | src/server.rs:596-612 | A client that received all updates lacks a visible entity only if its marker was there before the client started and it has had no component in any run since |
| Announcements.MissingHappens | src/server.rs:596-612 | There is a run, for any entity, after which a client that has caught up lacks a visible one |
| Theorems.BaselineSound | src/core/replication/replicated_clients.rs:287-371 | In every reachable state the server tracks exactly the entities that the client will have once the updates in flight have arrived, and no baseline is ahead of what the client will have confirmed then |
| Theorems.BaselineNeverMovesBack | src/core/replication/replicated_clients.rs:301-334 | No step of any run lowers the baseline of an entity that stays tracked, late acknowledgements, timeouts and regained visibility included |
| Theorems.ConfirmedTicksOnlyGrow | src/client.rs:315-355 | The ordering gate: an update in flight is newer than every confirmed tick and than every mutate message that the gate lets through, so the assertion on the last tick never fires |
| Theorems.ArrivalOrderDoesNotMatter | src/client.rs:583-597 | Two clients that received the same updates and applied the same mutate messages, in any order and grouping, have the same entities with the same confirmed ticks |
| Theorems.ConfirmedDetermined | src/client.rs:583-597 | Per entity: existence, confirmed tick and components depend only on the updates and the set of applied messages |
| Theorems.StepOk | src/server.rs:247-326 | Every step of server, client and network keeps the invariant of the protocol |
| SendSteps.SendKept | src/server.rs:342-392 | A replication run keeps the invariant: new messages turn whatever the client will have into the current world |
| SendSteps.RunUpdateOk | src/server.rs:461-618 | The new update message turns any state that the client may have confirmed until then into the state of the world at the run |
| SendSteps.TouchedIffStructural | src/server.rs:588-605 | An entity is in the update message exactly if it is structural for the client, and then with all the data and removals of it, and with the baseline set to the run |
| SendSteps.SendBaseline | src/server.rs:602-605 | A run keeps the baseline of a tracked entity or sets it to its own tick |
| SendSteps.RunIsTick | src/server.rs:413-437 | A run is a tick of the client's visibility: despawned entities are forgotten, lost ones drained, marks cleared; after it an entity is visible as before, or by default if it was despawned |
| ClientSteps.FrameKept | src/client.rs:174-201 | A client frame, with any number of updates and any batch of mutate messages, keeps the invariant |
| ClientSteps.PopClientOk | src/client.rs:539-556 | An update only meets entities confirmed for an earlier tick, and leaves them as snapshots at its own tick |
| ClientSteps.ApplyGate | src/client.rs:322-325 | A mutate message whose update tick was applied is older than every update message still in flight |
| Frames.FrameDoes | src/client.rs:174-201 | Whatever is buffered, a frame acknowledges exactly the messages it delivers, once each and in order, applies exactly the waiting messages whose update tick is reached, keeps the others as often as they were there, and changes nothing of server and network |
| Acknowledgements.TimelyAckIff | src/server.rs:208-244 | From a run over a frame and a cleanup to the acknowledgement: the message is resolved, and the baselines of exactly its entities, which were behind, are raised to its tick if and only if the time of the run is not before the cleanup's |
| Acknowledgements.SentIsRegistered | src/core/replication/replicated_clients.rs:258-281 | Every message of a run is registered under its index with its tick, its entities and the time of the run |
| ServerSteps.ReceiveAckKept | src/server.rs:221-244 | Processing an acknowledgement of an applied message keeps the invariant |
| ServerSteps.CleanupKept | src/core/replication/replicated_clients.rs:356-371 | Forgetting registered messages that timed out keeps the invariant |
| ServerSteps.WorldStepsKept | src/core/replication/replicated_clients/client_visibility.rs:137-218 | Spawns, despawns, insertions, mutations, removals and visibility toggles between runs keep the invariant |
| Necessity.AckOnBufferingBreaksSnapshots | src/client.rs:190-198 | With acknowledgement on buffering there is a run, for any two entities, after which everything was received and applied, nothing is buffered or under way, the client's entity is not the snapshot at its confirmed tick, and the server takes the missing value for known |
| Necessity.MissedIsNotSent | src/server.rs:542-548 | A value that is missed in this way is left out of every run until the component changes again |
| Necessity.AckSoundIff | src/core/replication/replicated_clients.rs:301-334 | Processing an acknowledgement keeps baselines sound if and only if the message is no longer buffered, or each of its tracked entities is confirmed at its tick or later, or an update on its way with that tick or a later one touches the entity |
| Necessity.StillBufferedIff | src/client.rs:189-200 | After a frame exactly those messages are still buffered, and were acknowledged too early, whose update tick was not reached in it |
| Necessity.NewerThenOlder | src/client.rs:583-597 | Of two ready messages about an entity the newer is applied and the older is then dropped whole |
| Necessity.DespawnReportedIff | src/server.rs:413-437 | A despawned entity that the client has is reported to it if and only if it was not blacklisted since the last run |
| Necessity.ReportedIff | src/server.rs:413-437 | Of every entity, exactly when a run reports it as despawned: it was despawned while visible, or again while visible by default, or the client lost sight of it and no despawn made a blacklist forget that |
| Changes.ClassificationAtomic | src/server.rs:515-613 | An entity never has data in both kinds of message, a hidden one has none, and what is sent for a visible one is exactly its relevant components with their current values |
| Changes.WhichMessageIff | src/server.rs:542-613 | Which message an entity goes into, told from stamps, visibility and baseline: the mutate messages if and only if nothing but values changed, the update message if and only if something else did and there is data to send or the entity is new |
| Changes.UnknownSentInFull | src/server.rs:509-513 | An entity that is new to the client is sent in full and in the update message |
| Changes.SentCatchesUp | src/server.rs:596-605 | Removing what is reported as removed and writing what is sent brings any state since the baseline up to date |
| Receiver.InsertKeepsDescending | src/client.rs:753-758 | The buffer stays sorted by tick in descending order and no message is lost |
| Tracker.OverwrittenIff | src/core/replication/replicated_clients.rs:258-281 | Registering messages keeps an unresolved one if and only if there are not more of them than indices before its own |
| Tracker.IndicesAreConsecutive | src/core/replication/replicated_clients.rs:264-265 | Registered messages take consecutive indices modulo 2^16, and nothing else of the client changes |
| ReplicatedClients.ReplicatedClient.AckMutateMessage | src/core/replication/replicated_clients.rs:301-334 | The object's ack loop is the protocol's: baselines of tracked entities are raised to the message's tick, never lowered, and the message is resolved |
| ReplicatedClients.ReplicatedClient.RegisterMutateMessage | src/core/replication/replicated_clients.rs:258-281 | Takes the next index, wrapping, and registers an empty message under it |
| ReplicatedClients.ReplicatedClient.DrainLostVisibility | src/core/replication/replicated_clients.rs:347-351 | Returns exactly the lost entities, which are no longer tracked |
| ReplicatedClients.ReplicatedClient.CleanupOlderMutations | src/core/replication/replicated_clients.rs:356-371 | A message stays registered, unchanged, if and only if its timestamp is not before the given one, and nothing else of the client changes |
| ReplicatedClients.AckedOneMore | src/core/replication/replicated_clients.rs:317-328 | Acknowledging entity by entity is acknowledging all of them at once |
| Visibility.RunsAreExactIff | src/core/replication/replicated_clients/client_visibility.rs:67-94 | Over every run of toggles, despawns and ticks, the filter remembers what is visible at each boundary and reports changes exactly: always for the blacklist, and for the whitelist if and only if no visible entity is hidden and then shown within the tick; a despawned entity is as visible as one that was never toggled |
| Visibility.DespawnForgets | src/core/replication/replicated_clients/client_visibility.rs:98-121 | A despawned entity has the state of a new filter of the policy, a blacklist does not report it as lost any more, and no other entity is affected |
| Visibility.HiddenReturns | src/core/replication/replicated_clients/client_visibility.rs:105-108 | An entity that was hidden from a client with a blacklist, is despawned and returns is visible |
| Visibility.DrainedIs | src/core/replication/replicated_clients/client_visibility.rs:124-132 | After draining there is nothing to drain, and visibility is unchanged |
| Visibility.BlacklistExact | src/core/replication/replicated_clients/client_visibility.rs:137-218 | After any toggles within a tick the blacklist reports Gained, Visible and Hidden and the lost set as they follow from before and now |
| Visibility.WhitelistExactIff | src/core/replication/replicated_clients/client_visibility.rs:137-218 | The whitelist does the same if and only if the entity, if it was visible, is not hidden and then shown within the tick |
| Visibility.WhitelistLosesDespawn | src/core/replication/replicated_clients/client_visibility.rs:185-216 | A visible entity that is hidden, shown and hidden again is not visible and not reported as lost |
| Visibility.ConsistencyKept | src/core/replication/replicated_clients/client_visibility.rs:67-132 | Every operation keeps the list and its two sets consistent |
| Visibility.UpdateReachesBoundary | src/core/replication/replicated_clients/client_visibility.rs:67-94 | After the update nothing is marked as just added or removed, and visibility is unchanged |
| Visibility.ClientVisibility.SetVisibility | src/core/replication/replicated_clients/client_visibility.rs:137-218 | The object's branches do the toggle that the lemmas are about |
| Visibility.ClientVisibility.Update | src/core/replication/replicated_clients/client_visibility.rs:67-94 | The object's loops over the two sets do the update that the lemmas are about |
| Visibility.ClientVisibility.DrainLost | src/core/replication/replicated_clients/client_visibility.rs:124-132 | Returns the lost entities and forgets them |
| Wire.VarintRoundTrip | src/core/entity_serde.rs:9-42 | A varint is read back, whatever follows it, and the reader stops behind it |
| Wire.VarintIsLeb128 | src/core/entity_serde.rs:31-42 | The bytes of a varint are the base-128 groups of the number, least significant first, the high bit set on all but the last, and no group in vain |
| Wire.RequiredSpaceIff | src/server/replication_messages/mutate_message.rs:143-149 | An integer takes at most k bytes if and only if it is less than 128^k |
| Wire.TickRoundTrip | src/server/replication_messages/serialized_data.rs:91-103 | A tick is read back from its four bytes, whatever follows them |
| Wire.TickIsLittleEndian | src/server/replication_messages/serialized_data.rs:91-103 | The four bytes of a tick stand for it, least significant first |
| Wire.PrefixFree | src/client.rs:503-528 | No value's bytes start another value's |
| Wire.AllRoundTrip | src/client.rs:517-526 | An array without a length is read back to the end of the message, and ends because every element takes a byte |
| Wire.ManyRoundTrip | src/client.rs:509-516 | An array with its length in front is read back, whatever follows it |
| Wire.Cursor.Read | src/client.rs:211-221 | The cursor ends up where the decoder stopped |
| EntitySerde.EntityRoundTrip | src/core/entity_serde.rs:9-42 | Every entity is read back, and the reader stops exactly where the writer did |
| EntitySerde.EntityLayout | src/core/entity_serde.rs:23-42 | The first varint is the index with a flag, and a generation follows exactly if it is not the first one |
| EntitySerde.EntitiesToldApart | src/server/replication_messages/update_message.rs:273-280 | No entity's bytes start another's, so despawns written one after the other can be told apart |
| EntitySerde.SerializeEntity | src/core/entity_serde.rs:31-42 | What the writer appends is what the decoder undoes |
| EntitySerde.DeserializeEntity | src/core/entity_serde.rs:9-21 | The reader advances by the decoded bytes and fails exactly when they do not decode; index bits beyond 32 end up in the generation |
| UpdateWire.LastFlag | src/core/replication/update_message_flags.rs:18-22 | The last flag is that of the last present section, for the sender and the receiver alike |
| UpdateWire.UpdateRoundTrip | src/server/replication_messages/update_message.rs:202-310 | Every message that says more than mappings parses to its mappings, despawns, removals and changes in order and is consumed whole, the last present section having no length |
| UpdateWire.SectionRoundTrip | src/client.rs:225-270 | One section is read back in its place, sized or to the end |
| UpdateWire.ContentIsEmptyIff | src/server/replication_messages/update_message.rs:195-200 | The message counts as empty exactly if there are no mappings, despawns, removals or changes |
| MutateWire.HeaderRoundTrip | src/client.rs:292-309 | Ticks, number of messages and index are read back, the number only with tracking |
| MutateWire.MutationRoundTrip | src/client.rs:567-646 | Whether an entity's components are jumped over or decoded, the cursor ends up behind its last byte |
| MutateWire.BodyRoundTrip | src/client.rs:561-655 | For every choice of entities to skip, all the others decode to what was written |
| MutateWire.MutateRoundTrip | src/server/replication_messages/mutate_message.rs:184-208 | A whole message is read back, whatever is skipped |
| SerializedBuffer.MergedStandsForBoth | src/server/replication_messages/component_changes.rs:22-34 | Merging adjacent ranges does not change the bytes they stand for |
| SerializedBuffer.MergedKeepsApart | src/server/replication_messages/component_changes.rs:22-34 | Ranges written one behind the other are one range, so no two neighbours are adjacent |
| SerializedBuffer.TotalLenIsSize | src/server/replication_messages/component_changes.rs:15-20 | The sum of the range lengths is the number of bytes they stand for |
| SerializedBuffer.ChunksKept | src/server/replication_messages/serialized_data.rs:24-103 | Whatever is appended to the buffer later, ranges handed out before keep their bytes |
| SerializedBuffer.AddComponentAdds | src/server/replication_messages/component_changes.rs:22-34 | Adding a component appends its bytes to the entity's and counts it |
| SerializedBuffer.ExtendAdds | src/server/replication_messages/component_changes.rs:36-39 | Extending by another entity's components appends all their bytes |
| SerializedBuffer.SerializedData.WriteEntity | src/server/replication_messages/serialized_data.rs:81-89 | Appends the entity and returns the range that stands for it |
| SerializedBuffer.SerializedData.WriteComponent | src/server/replication_messages/serialized_data.rs:56-73 | Appends the function id and the component and returns the range that stands for them |
| SerializedBuffer.SerializedData.WriteFnIds | src/server/replication_messages/serialized_data.rs:41-54 | Appends the ids in order and returns the range that stands for them |
| SerializedBuffer.SerializedData.WriteTick | src/server/replication_messages/serialized_data.rs:91-103 | Appends the tick and returns the range that stands for it |
| UpdateMessages.UpdateMessage.AddDespawn | src/server/replication_messages/update_message.rs:103-113 | The despawns' bytes and number grow by the entity, whether or not its range is merged |
| UpdateMessages.UpdateMessage.TakeMutations | src/server/replication_messages/update_message.rs:170-193 | The last mutated entity moves behind the insertions of the same entity, or becomes a new element, and leaves the mutate message |
| UpdateMessages.UpdateMessage.Flags | src/server/replication_messages/update_message.rs:312-329 | The flags are those of the sections that have elements |
| UpdateMessages.UpdateMessage.MessageSize | src/server/replication_messages/update_message.rs:212-252 | The precomputed size is exactly the size of the message |
| UpdateMessages.UpdateMessage.Send | src/server/replication_messages/update_message.rs:202-310 | The bytes written from ranges are the encoding of the content they stand for |
| MutateMessages.CanPackIff | src/server/replication_messages/mutate_message.rs:226-231 | Packing is allowed exactly if the last packet is partly filled and no further packet is needed |
| MutateMessages.PackedCost | src/server/replication_messages/mutate_message.rs:151-155 | Packing back or forward costs no more packets than the more expensive of the two parts |
| MutateMessages.PlanIsOk | src/server/replication_messages/mutate_message.rs:141-181 | Splitting is an ordered partition with consecutive indices, and no message costs more packets than its most expensive entity with the same header |
| MutateMessages.PlanIffGreedy | src/server/replication_messages/mutate_message.rs:146-181 | The plan is the only one that numbers messages consecutively, covers the entities in order and is greedy: an entity joins the message before it if and only if either of the two fits what is left of the other's last packet, told by numbers of packets |
| MutateMessages.OneMessageIfOnePacket | src/server/replication_messages/mutate_message.rs:151-155 | Entities that together fit one packet behind the header are sent in one message |
| MutateMessages.OnePacketIff | src/server/replication_messages/mutate_message.rs:145-172 | Every planned size is one packet if and only if every entity fits behind the header that was planned for its message |
| MutateMessages.GroupsPartition | src/server/replication_messages/mutate_message.rs:169-181 | The registered groups, one after the other, are the mutated entities once each and in order |
| MutateMessages.PlannedSizeIsExact | src/server/replication_messages/mutate_message.rs:184-205 | The size after the correction for the number of messages is exactly the number of bytes written |
| MutateMessages.CountFitsIff | src/server/replication_messages/mutate_message.rs:133-139 | What is reserved for the number of messages is enough exactly for numbers below 2^63 |
| MutateMessages.TrackedFitsIff | src/server/replication_messages/mutate_message.rs:133-208 | With tracking, told from the sizes alone: if each entity fits one packet on its own, everything that is sent fits one packet if and only if there is one entity, or all fit behind the reserved header. Indices are of one width and entities not smaller than what is reserved in vain |
| MutateMessages.SentFitsIff | src/server/replication_messages/mutate_message.rs:133-208 | For all sizes and indices, tracked or not, message by message: what is sent fits one packet if and only if every entity fits behind the reserved header, or exceeds it by no more than its message leaves of the gap |
| MutateMessages.PairFitsIff | src/server/replication_messages/mutate_message.rs:137-155 | For two entities of one size also where the width of the index changes: one packet each if and only if the size fits behind the reserved header |
| MutateMessages.ReservedHeaderIsNotTheWrittenOne | src/server/replication_messages/mutate_message.rs:137-155 | An instance: two entities of 1190 bytes are put into one message of two packets |
| MutateMessages.MutateMessage.Split | src/server/replication_messages/mutate_message.rs:141-181 | The loop plans the greedy messages and registers exactly their groups |
| MutateMessages.MutateMessage.Send | src/server/replication_messages/mutate_message.rs:120-211 | One message per planned range goes out, registered under its index, with the header and the entities of the range and the number of messages |
| Collector.Take | src/server.rs:596-605 | Mutations of an entity move behind its own insertions, never into another entity's element |
| Collector.CollectComponent | src/server.rs:538-585 | One component for one client goes to the update, to the mutations or nowhere, as its route says, with cached ranges |
| Collector.Finish | src/server.rs:588-613 | The end of an entity leaves exactly what the classification says in either message and in the baseline |
| Collection.CollectRow | src/server.rs:489-614 | One entity for all clients: each is served as if it were alone |
| Collection.CollectChanges | src/server.rs:461-618 | All entities for all clients: the shared buffer and its cached ranges make no difference to any client, and every entity and component is written at most once, however many clients there are |
| ServerRun.DespawnForAll | src/server.rs:419-427 | One despawned entity for all clients: reported to those that see it, forgotten by all |
| ServerRun.CollectMappings | src/server.rs:395-410 | Each client gets its own new mappings |
| ServerRun.CollectDespawns | src/server.rs:413-437 | The despawn phase gives each client its visible despawns in order and then its lost entities, in some order and once each |
| ServerRun.CollectRemovals | src/server.rs:440-458 | Each client gets the removals of the entities it sees |
| ServerRun.SendMessages | src/server.rs:342-392 | Each client gets its messages, its update tick only if there is an update, and its visibility update; the tick is written once |
| ServerRun.SilentRunIsSentIff | src/server.rs:367-386 | A run without mutations sends no mutate message without tracking, and exactly one with tracking, which is a header with the next index |
| ServerRun.SendReplication | src/server.rs:247-326 | Every client is sent exactly the bytes, and left in exactly the state, of a run that serves it alone: its mappings, despawns, removals and changes |
| Selection.RowIsEntry | src/server.rs:515-613 | What is collected component by component in archetype order is what the classification of the entity says |
| Selection.RowsAreLists | src/server.rs:472-614 | Collecting entity by entity while baselines change gives the classification against the old baselines |
| Refinement.ServedIsReplicated | src/server.rs:247-305 | What one client is served is the protocol's run: the pieces of its update, its mutations, and its baselines in terms of change ticks |
| Refinement.SentUpdateIsParsed | src/server.rs:357-365 | No update is sent exactly if the protocol's is empty, and otherwise the bytes parse to it and to the mappings and are consumed whole |
| Refinement.UpdateTickIff | src/server.rs:357-359 | The update tick after a run is that of the last message sent if and only if the run does not have new mappings alone |
| Refinement.SentStateIsRun | src/server.rs:367-388 | What the server remembers of the client after sending is what the protocol says, with change ticks for server ticks |
| Refinement.PlanPartitions | src/server/replication_messages/mutate_message.rs:145-181 | The groups of a run, one after the other, are its mutated entities |
| Refinement.GroupsCover | src/server/replication_messages/mutate_message.rs:146-181 | The groups have exactly the entities that the protocol mutates |
| Refinement.SentMutationIs | src/server/replication_messages/mutate_message.rs:184-208 | The k-th message encodes the protocol's k-th mutate message |
| Refinement.SentMutationIsParsed | src/client.rs:280-309 | The k-th message parses to the protocol's, whatever the client skips |
| ClientApply.ApplyParsedIsApplyUpdate | src/client.rs:206-273 | Despawns, removals and changes one after the other are the protocol's update at once |
| ClientApply.ApplyBodyIs | src/client.rs:561-655 | Parsing while applying a written body applies exactly its mutations in order |
| ClientApply.MutateAllIsApplyMutations | src/client.rs:583-610 | Entity by entity with the skip of outdated ones is the protocol's mutation, comparing wrapped ticks that are near each other |
| ClientApply.AllAreAcknowledged | src/client.rs:189-198 | Whatever is buffered, the acknowledgements of a frame are the indices in the headers of the messages received, one each and in order; it fails if and only if a header does not parse |
| ClientApply.AllAreBuffered | src/client.rs:280-309 | Exactly the messages received join the buffer |
| ClientApply.ReplicationClient.ApplyUpdateMessage | src/client.rs:206-273 | Succeeds exactly if the message parses; then the entities and the update tick are those of the parsed message |
| ClientApply.ReplicationClient.BufferMutateMessage | src/client.rs:280-309 | Buffers the message at its place and returns its index, or fails without buffering |
| ClientApply.ReplicationClient.Insert | src/client.rs:753-758 | Inserts behind the newer messages |
| ClientApply.ReplicationClient.ApplyEntityMutations | src/client.rs:561-655 | One entity of the body, applied or jumped over, as the specification of the body says |
| ClientApply.ReplicationClient.ApplyMutateMessages | src/client.rs:315-355 | The ready messages are applied in order and leave the buffer, even if one of them fails; the others stay in order |
| ClientApply.ReplicationClient.ApplyReplication | src/client.rs:174-201 | A whole frame: updates, buffering, then what is ready; every message received is acknowledged by the index in its header, in order |
| ClientRefinement.FrameRefines | src/client.rs:174-201 | Parsing and applying the bytes of a frame is the protocol's frame, ticks being sent and compared modulo 2^32 |
| ClientRefinement.SentUpdateStandsForRun | src/server.rs:357-365 | What the server sends stands for the update of the protocol's run |
| ClientRefinement.SentMutationStandsForRun | src/server.rs:367-380 | ... and so does every mutate message |
| Clocks.SameItems | src/server.rs:542-613 | An entity is classified alike whether stamps, baselines and the last run are told by change ticks or by server ticks |
| Clocks.SameCollected | src/server.rs:461-618 | A run collects the same updates and mutations on both clocks |
| Clocks.BaselinesLabelled | src/server.rs:602-605 | The baselines after a run are the same runs on both clocks |
| Clocks.AckLabelled | src/core/replication/replicated_clients.rs:317-328 | An acknowledgement raises the same baselines to the same run on both clocks |
| Clocks.EntryIsSame | src/server.rs:509-513 | Every stamp has a server tick that every run sees as before or after its own in the same way |
| ByteProtocol.EveryEntityIsASnapshot | src/client.rs:174-201 | In every reachable state of the system on bytes, every entity of the client that parses has exactly the components and values that the server's entity had in some run, whose tick, modulo 2^32, is the confirmed one |
| ByteProtocol.ReachableSimulates | src/server.rs:247-326 | Every state that a run on bytes can reach stands for a reachable state of the protocol |
| ByteProtocol.StepSimulated | src/client.rs:174-201 | Every step on bytes, of the world, the server, the network or the client, is a step of the protocol or none |
| ByteProtocol.SimulatedSend | src/server.rs:342-392 | Serializing and sending is the protocol's run, on both clocks |
| ByteProtocol.SimulatedFrame | src/client.rs:174-201 | Delivering byte strings to the client is the protocol's frame |
| ByteProtocol.FramesSucceed | src/client.rs:174-201 | Within the assumptions every message parses: no frame fails |
| ByteProtocol.StartsTogether | src/server.rs:200-206 | A client that has just started simulates the initial state of the protocol, whatever happened to the server before |
| Ticks.CompareIff | src/core/replicon_tick.rs:31-42 | The order of wrapped ticks is that of the ticks exactly on a half-open window of 2^32 |
| Ticks.NearIsEnough | src/core/replicon_tick.rs:31-42 | Comparisons of ticks as they are sent say what unbounded ticks say if those are near each other |
| Ticks.AntisymmetricIff | src/core/replicon_tick.rs:32-41 | Two ticks are each less than the other exactly at distance 2^31 |
| Ticks.ArithmeticWraps | src/core/replicon_tick.rs:44-72 | Addition and subtraction commute with wrapping |
| Ticks.RepliconTick.AddAssign | src/core/replicon_tick.rs:52-56 | In place, the tick stays that of the unbounded sum |
| Ticks.RepliconTick.SubAssign | src/core/replicon_tick.rs:74-78 | In place, the tick stays that of the unbounded difference |
| ConfirmHistories.AdvancedIff | src/client/confirm_history.rs:120-126 | A later tick is recorded correctly if and only if the jump is shorter than 64, or is a multiple of 64 from a history of one tick |
| ConfirmHistories.RunRefines | src/client/confirm_history.rs:92-101 | Over any run without long jumps, across the wrap, bit i is set exactly if tick last-i was confirmed |
| ConfirmHistories.StaleBit | src/client/confirm_history.rs:120-126 | After a jump of 65 ticks a tick that was never received counts as received |
| ConfirmHistories.ContainsAnyIff | src/client/confirm_history.rs:65-87 | The answer for a range is that of its ticks if and only if the clamped range is not the whole window |
| ConfirmHistories.ConfirmHistory.Contains | src/client/confirm_history.rs:47-54 | Answers whether the tick was confirmed or is older than the window |
| ConfirmHistories.ConfirmHistory.ContainsAny | src/client/confirm_history.rs:65-87 | Answers whether some tick of the range is contained, except that the whole window of 64 ticks never is |
| ConfirmHistories.ConfirmHistory.Confirm | src/client/confirm_history.rs:92-101 | The object records the tick, and ignores one that is older than the window |
| MutateTicks.ShiftedRefines | src/client/server_mutate_ticks.rs:104-129 | Any jump, however long, keeps slot i at the counters of tick last-i |
| MutateTicks.ConfirmRefines | src/client/server_mutate_ticks.rs:104-129 | Counting a message in the window is counting it in the unbounded map, and one that is too old is ignored |
| MutateTicks.AllCounted | src/client/server_mutate_ticks.rs:104-129 | Over any run, the counters of a tick in the window have all of its messages |
| MutateTicks.ContainedIff | src/client/server_mutate_ticks.rs:48-59 | Over any run, a tick is contained if and only if it is not ahead of the latest, and is 64 or more behind it or all of its messages arrived |
| MutateTicks.CompletedExactlyOnce | src/client/server_mutate_ticks.rs:153-169 | A tick is reported exactly when the last of its messages arrives in time |
| MutateTicks.ServerMutateTicks.Confirm | src/client/server_mutate_ticks.rs:104-129 | The push and pop loop keeps the window at 64 slots in step with the counters, and the answer is theirs |
| MutateTicks.ServerMutateTicks.Contains | src/client/server_mutate_ticks.rs:48-59 | Answers whether the tick is complete or older than the window |
| MutateTicks.ServerMutateTicks.ContainsAny | src/client/server_mutate_ticks.rs:70-93 | Answers whether some tick of the range is contained, for every range |
| MutateTicks.ServerMutateTicks.Mask | src/client/server_mutate_ticks.rs:33-43 | Bit i tells whether tick last-i is complete |
| EventSending.SerializedMessage.GetBytes | src/core/event/server_event.rs:697-728 | For any sequence of ticks the result is the tick's bytes and the unchanged payload: the cache never shows |
| EventSending.InboxIsSent | src/core/event/server_event.rs:806-846 | What a client is sent on a channel is its own events in order with its own tick, whatever the other clients and their ticks are |
| EventSending.OneEventIsDelivered | src/core/event/server_event.rs:813-840 | A broadcast reaches every connected client that is not excluded, exactly once; one with an exception all of these but that one; a direct event its target only, and nobody if that is the server, excluded or absent; each with its own tick in front |
| EventSending.SendingsOfParts | src/core/event/server_event.rs:811-844 | Sets are sent one behind the other, each as if it were buffered alone |
| EventSending.SendingsOfEvents | src/core/event/server_event.rs:812-841 | ... and so are the events of a set |
| EventSending.ExclusionIs | src/core/event/server_event.rs:800-804 | A client that connects later gets none of the events buffered before, and the others all of theirs |
| EventSending.BufferedServerEvents.SendAll | src/core/event/server_event.rs:806-846 | Everything that is buffered is sent, each event to exactly the clients that its mode and the exclusions name, and nothing stays buffered |
| EventSending.BufferedServerEvents.StartTick | src/core/event/server_event.rs:779-781 | A new set of the tick is empty, reused or not |
| EventSending.BufferedServerEvents.Insert | src/core/event/server_event.rs:787-797 | The event joins the last set, behind its other events |
| EventSending.BufferedServerEvents.ExcludeClient | src/core/event/server_event.rs:800-804 | The client is excluded from every set that is buffered |
| EventReceiving.EventsAreCausal | src/core/event/server_event.rs:465-531 | After every frame the application has got exactly the events that the update tick reaches, in order, and the others wait in order |
| EventReceiving.EventsArriveInOrder | src/core/event/server_event.rs:465-531 | From the server to the application: whatever an ordered channel has delivered, the events got are those sent up to the first that the update tick does not reach |
| EventReceiving.EventsAreDecoded | src/core/event/server_event.rs:478-530 | The events got are, one for one and in order, what the bytes decode to |
| EventReceiving.UndecodableIsSkipped | src/core/event/server_event.rs:480-529 | A message that does not decode makes no difference to the other events |
| EventReceiving.UnreadableIsSkipped | src/core/event/server_event.rs:497-506 | A message that is too short for a tick makes no difference to the others |
| EventReceiving.IndependentNeverWait | src/core/event/server_event.rs:495-530 | Events that are independent of replication are given to the application at once, in order |
| EventReceiving.StreamIsSent | src/core/event/server_event.rs:737-746 | The bytes handed to the transport for a client are those of its events with their ticks |
| EventReceiving.ReplacingIff | src/core/event/server_event.rs:871-892 | With a multimap that replaces the values of a key, events are given in order, in time and without loss after every frame of a run if and only if no event ever waits beside one of the same tick |
| EventReceiving.ReplacingLosesEvents | src/core/event/server_event.rs:871-892 | What is lost then: of two events that wait for the same update, the first never reaches the application |
| EventReceiving.ServerEventReceiver.Receive | src/core/event/server_event.rs:465-531 | The loops drain what the tick reaches, skip what does not decode and queue what is early |
| EventReceiving.ServerEventReceiver.PopIfLe | src/core/event/server_event.rs:884-892 | Pops the front exactly if the tick reaches it |
| Rules.ReplicationRules.Insert | src/core/replication/replication_rules.rs:202-208 | The list stays sorted by priority, the other rules keep their order and none is lost |
| Rules.MatchesRemovals | src/core/replication/replication_rules.rs:245-260 | True exactly if all components are present or removed and at least one is removed |
| Rules.SelectionIs | src/server/replicated_archetypes.rs:48-89 | Every component is selected once, with the functions of the first rule that matches and has it |
| Rules.FirstRuleDecides | src/server/replicated_archetypes.rs:48-57 | A component is replicated if and only if it is in a rule all of whose components the archetype has, with the functions of the first such rule |
| Rules.ViewListsMarked | src/server/replicated_archetypes.rs:40-91 | The view lists every archetype with the marker, once and in order, with its selection, and no other archetype |
| Rules.RemovalsAreSelected | src/server/removal_buffer.rs:164-180 | The removals are exactly what was selected with the removed components and is gone: same components, order and functions |
| Rules.RemovalsIff | src/server/removal_buffer.rs:164-180 | Of the removed components exactly those that are gone and selected are listed, once each |
| Rules.ReplicatedArchetypes.Update | src/server/replicated_archetypes.rs:40-91 | Looking at the new archetypes only gives the view of the whole world: every archetype with the marker, once and in order |
| RemovalBuffers.RemovalBuffer.Update | src/server/removal_buffer.rs:157-187 | The list of the entity is replaced by its removals, if there are any |
| RemovalBuffers.RemovalBuffer.BufferRemovals | src/server/removal_buffer.rs:38-53 | After a pass each replicated entity has the removals of its own removed components, and no other list changes |
| RemovalBuffers.Read | src/server/removal_buffer.rs:87-111 | Groups exactly the removals of components of rules from replicated entities |
| RemovalBuffers.BothPassesIff | src/server/removal_buffer.rs:182-186 | What two passes have to tell both stays if and only if the later pass tells of no component, or of all those of the earlier one again with the same functions, told from the removed sets and the archetypes |
| RemovalBuffers.SecondPassLosesFirst | src/server/removal_buffer.rs:182-186 | Of two components removed in two passes only the second removal is sent |
| RemovalBuffers.RemovalsTell | src/server/removal_buffer.rs:164-180 | A removal is listed exactly if the component is removed, gone and selected before, with the functions selected then |
| EntityMaps.PairIff | src/core/server_entity_map.rs:22-31 | A pair keeps the maps inverse to each other exactly if neither entity has another partner |
| EntityMaps.WriteIsLocal | src/core/server_entity_map.rs:10-13 | With inverse maps, a write to the client entity changes one replica only |
| EntityMaps.SpawnAndDespawnAreLocal | src/core/server_entity_map.rs:47-73 | With inverse maps, spawning and despawning change one replica only |
| EntityMaps.ServerEntityMap.Insert | src/core/server_entity_map.rs:22-31 | Panics exactly if the server entity has another client entity; otherwise the maps stay inverse exactly if the client entity has no other server entity |
| EntityMaps.ServerEntityMap.GetByServerOrInsert | src/core/server_entity_map.rs:47-61 | Keeps the maps inverse and spawns only if there is no client entity |
| EntityMaps.ServerEntityMap.RemoveByServer | src/core/server_entity_map.rs:67-73 | Keeps the maps inverse and removes the pair from both |
| EntityMaps.ServerEntityMap.RemoveByClient | src/core/server_entity_map.rs:78-84 | Keeps the maps inverse and removes the pair from both |

## Left out

- Bevy itself: the world is a map from entities to components with the change ticks at which they were added and changed,
  and change detection is a strict comparison of unbounded change ticks.
- The protocol is seen from one client; `ServerRun.SendReplication` says that clients do not influence each other.
- Messaging backends and channel settings: their guarantees are assumptions of the protocol.
- Payloads of components and events: an abstract codec whose decoder consumes what the encoder wrote.
- Entity references inside components, need_history markers, hierarchies and recursive despawns.
- Pre-spawned client entities: mappings are sent and parsed, but what they map to is not applied, and how the server comes
  by them is not modelled.
- Client entity ids: the replica is keyed by the server entity; `EntityMaps` says why that is enough.
- The confirm history of an entity is its last tick in the protocol; its mask is modelled in `ConfirmHistories`, and the
  counting of mutate messages in `MutateTicks`, neither being called from `ClientApply`.
- ClientApply.ReplicationClient.ApplyUpdateMessage: mappings are parsed but not applied, and which sections of a message
  were applied before it failed to parse is not stated: the client panics then (src/client.rs:70).
- ClientApply.ReplicationClient.ApplyMutateMessages: what a message that fails to parse did to the entities before it
  failed is not stated, for the same reason.
- Integers that do not fit their type fail to decode in the source; the model checks that for entities only. Whether the
  bits of an entity are valid is for Bevy to say.
- Reuse of buffers of disconnected clients: clients are fresh. A recycled client keeps its old update tick
  (src/core/replication/replicated_clients.rs:246-252), so nothing is claimed for it.
- The masks of 64 bits are sequences of 64 booleans. Rust's wrapping of shift amounts is written out as in builds without
  overflow checks; the panics of builds with debug assertions are not modelled.
- The order in which hash maps and sets are iterated is arbitrary: `orders` in `ServerRun`, the choice of elements in loops.
- The multimap of the event queue is from another crate: entries come back in the order of insertion, and what it does
  with a key it already holds is a parameter.
- The client buffer is searched from the front, where the source searches by halving; on a sorted buffer both find the
  same place.
- Client-to-server events, independent events on the sending side, local resending, statistics, diagnostics, logging and
  scene export.
- Theorems.CaughtUpClientIsConsistent: a visible entity without any replicated component may be missing on the client,
  because nothing is sent for it if its marker was there before the client started (src/server.rs:596-612);
  `Announcements.MissingIsOldAndEmpty` says which ones. A component that it had in between, or a loss and regain of
  visibility, announces it.
- The bytes of acknowledgements: the indices travel as numbers.
