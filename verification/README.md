# BUS/RT in Dafny

BUS/RT is an IPC broker: clients, inside the broker's process or behind sockets, send each other
messages, broadcast to groups, and publish to topics they subscribe to. This project models the parts
of it that carry state or bytes and proves what they promise.

* **The client registry** (`RegistrySpec`, `BrokerDb`, `BrokerClient`, `Names`). The broker's shared state
  is a class whose methods follow `insert_client`, `register_client` with forced takeover, `drop_client`
  with its cascade, and `trigger_disconnect`. Each method is tied to a function on a snapshot of the
  registry, and the invariants are proved of those functions over every sequence of operations: map keys
  are client names, a flag is set exactly for the object stored under its name, the subscription and
  broadcast maps hold the same clients, and each primary knows exactly its registered secondaries.
* **The same registry at lock granularity** (`LockOrder`). Any number of threads insert, evict, drop, list
  and look up clients, one lock operation at a time. `clients` and a client's `secondaries` are taken in
  both orders; no deadlock is reachable, and some operation can always take a step. `StaleDrop` is about
  removal by name at this granularity: a run in which it takes the wrong instance, and when it cannot. `SoloRuns`
  says what whole operations come to there when nobody interferes.
* **The wire** (`Bytes`, `Protocol`, `Wire`, `IpcClient`). Client encoders, the broker's reader loop, the
  broker's writer loop and the client's reader loop, composed: what arrives is what was sent.
* **Delivery** (`DeliverySpec`, `Routing`, `TrafficSpec`, `BrokerDb`). Queues that fill up and are emptied
  by their consumers, sends that are given up, broadcasts and publications to exactly their audience,
  exclusion lists with their cached flag, exactly who loses the registration over a delivery, and the
  traffic counters.
* **The reader loop over a whole connection** (`ReaderSpec`, `BrokerReader`, `Others`, `Connection`,
  `Letters`). Before every frame everybody else acts: any number of clients come, go, send, subscribe and
  have their own frames handled, in any order. Then the frame takes the broker from one stage of its directory
  and queues to the next as its operation says, or ends the connection for a stated reason. It follows that
  every frame served is acknowledged exactly as due, that every other client gets exactly the messages whose
  audience it was in, in order, among those of the others, and that a message confirmed to its sender has
  been taken.
* **Acknowledgements at the client** (`Acks`, `Answers`). In every interleaving each waiter is told the first
  acknowledgement for its own frame; and end to end, through the broker's reader and writer, that is the
  first code due for it, however sending and hearing alternate.
* **RPC** (`RpcEvents`, `RpcCalls`, `Ids`). The two layouts of an RPC message mean the same; the table of
  calls over every interleaving; the wrapping identifiers.
* **The delayed-flush writer** (`FlushWriter`), as a concurrent protocol with a one-place token channel.
* **The topic broker** (`PubSub`), its ordered prefixes and its dispatch.

Where the code does not do what one would expect, a lemma says exactly when it does:

* `Protocol.ErrorThroughAck`: a timeout and an end of file are sent as codes the client reads as `Other`
  (src/lib.rs:106-119 has no case for them).
* `Acks.AckCount`: a no-operation frame with quality-of-service bits is read and never acknowledged.
* `Wire.FieldRoundTrip`, `Wire.InterpretCall`, `Wire.ListenWritten`: names holding a NUL do not survive;
  `Wire.TakeEncoded`, `Wire.ListenWritten`: nor do bodies of 2^32 bytes or more, whose length is truncated, on
  either hop; on the second the sender's name counts too.
* `RpcEvents.MergedHeader`: a method name holding a NUL is cut on sockets, not between threads.
* `Names.SecondaryNameOwner`: the generated secondary name of a primary ending in `%` belongs to another
  primary.
* `IpcClient.BulkListSurvives`: leading empty topics of a list are lost.
* `FlushWriter.PromiseFailsExactly`, `FlushWriter.TimeoutLosesFlush`, `FlushWriter.DropLosesFlush`: a
  scheduled flush is lost exactly if the flusher gives up on the lock, or its flush fails or times out, while
  covered bytes remain and no further token is queued, until something makes up for it; or if the last flush
  after the drop fails or times out before it has brought everything covered to the socket (src/comm.rs:45-56
  ignores all these results).
* `StaleDrop.NewcomerLost`: `drop_client` checks the flag of an object and later removes its name, without a
  lock in between, so the drop of an old instance can take a newly registered one out of the map.
  `StaleDrop.RemovesItsOwn`, `StaleDrop.FlagsAgree`: not as long as nobody is put under the name while another
  object of that name is between the check of its flag and its removal.
* `TrafficSpec.CutShortConserves`: the broker's outgoing counters run ahead of the clients' when a delivery
  loop is cut short, by exactly what was not sent.

## Model

| member | source | states |
|---|---|---|
| RegistrySpec.RunKeepsAligned | src/broker.rs:727-841 | every state reached by any sequence of registrations (plain or forced), drops, disconnect requests and (un)subscriptions satisfies the registry invariant |
| RegistrySpec.EvictedStaysOut | src/broker.rs:806-841 | an object that lost its registration is never in a map again, and dropping it again changes nothing, whatever else happens in between |
| RegistrySpec.TakeoverReplaces | src/broker.rs:727-755 | a forced takeover puts the new instance under the name, removes exactly the previous one and its secondaries, and fires exactly their disconnect triggers, internal secondaries excepted |
| RegistrySpec.TakeoverSurvivesCleanup | src/broker.rs:735-746 | any number of later drops of the evicted instance or its secondaries leave the registry as the takeover left it, although removal is by name |
| RegistrySpec.DropRemovesExactly | src/broker.rs:817-841 | dropping removes the client and, for a primary, its secondaries from the three maps, and nothing else; the rest keep their flags |
| RegistrySpec.DropKeepsAligned | src/broker.rs:817-841 | dropping any object, registered or not, keeps the invariant |
| RegistrySpec.CascadeStep | src/broker.rs:826-836 | a nested drop does not find the primary, so never asks for the lock of the set being iterated, and has the effect of one more name dropped |
| RegistrySpec.InsertKeepsAligned | src/broker.rs:757-791 | inserting keeps the invariant |
| RegistrySpec.RegisterKeepsAligned | src/broker.rs:727-791 | registration keeps the invariant, fails exactly for a missing primary or a name taken for good, and then changes nothing; a takeover never fails |
| RegistrySpec.EvictionMakesRoom | src/broker.rs:738-745 | eviction leaves a sound registry with the name free, as a plain drop would |
| RegistrySpec.JoiningFacts | src/broker.rs:727-791 | a newly created client ends up registered exactly if no error is returned, and which error it is |
| RegistrySpec.RegistrationExact | src/broker.rs:727-791 | what becomes of everybody: the client is in all three maps with its flag and its one subscription; the instance it takes over from and that one's secondaries are gone from everywhere and told to disconnect, internal secondaries excepted; everybody else keeps entries, subscriptions, flag and secondaries, but that the client's primary knows it; refused for a missing primary or a name that may not be taken over, and then nothing has changed |
| RegistrySpec.EmptyRegistryAligned | src/broker.rs:672-695 | the empty registry satisfies the invariant |
| BrokerDb.BrokerDb.constructor | src/broker.rs:672-695 | a new broker is valid and empty |
| BrokerDb.BrokerDb.DropClient | src/broker.rs:817-841 | terminates with the closed-form effect, under the weak condition that holds within takeovers and cascades |
| BrokerDb.BrokerDb.InsertClient | src/broker.rs:757-791 | the client is entered everywhere, or refused and nothing changes |
| BrokerDb.BrokerDb.RegisterClient | src/broker.rs:727-755 | effect and error of a registration, the invariant kept; what becomes of everybody else's entries, subscriptions, flags and secondaries |
| BrokerDb.BrokerDb.Register | src/broker.rs:1394-1414 | creating and registering a client: whole effect on the registry, counters, queues and exclusions of others untouched; what becomes of everybody else's entries, subscriptions, flags and secondaries |
| BrokerDb.BrokerDb.RegisterSecondaryFor | src/broker.rs:1419-1429 | only a primary gets a secondary, under the generated name, and when it is refused |
| BrokerDb.BrokerDb.Unregister | src/broker.rs:806-816 | the client is out, everything else as a drop leaves it, full invariant |
| BrokerDb.BrokerDb.TriggerDisconnect | src/broker.rs:792-804 | fires exactly the trigger of the client of that name; refused for an unknown name and for an internal client, and then nothing has changed |
| Names.PrimaryOfIsPrimary | src/broker.rs:1394-1397 | the owner of a secondary is never a secondary |
| Names.SecondaryNameOwner | src/broker.rs:1394-1428 | a generated secondary name belongs to its primary exactly if that name does not end in `%` |
| Names.SecondaryNamesDiffer | src/broker.rs:1421-1429 | two running numbers give two names, both beginning with the primary's |
| LockOrder.NeverDeadlocked | src/broker.rs:757-841 | over every lock-level interleaving of any number of operations no set of threads waits for locks held among them |
| LockOrder.SomebodyCanMove | src/broker.rs:757-841 | as long as an operation is under way, some operation can take its next step |
| LockOrder.RunKeepsInv | src/broker.rs:757-841 | locks exclude, each object is inserted once, and a cascade locks the `secondaries` only of an object gone from `clients` for good |
| LockOrder.SoundHasNoDeadlock | src/broker.rs:1103-1147 | the invariant excludes every deadlock, the listing of clients with their secondaries included |
| LockOrder.RemovedIsGone | src/broker.rs:823-826 | after the removal by name the dropped object is out of the map and will not come back |
| StaleDrop.RemovesItsOwn | src/broker.rs:817-825 | in every interleaving in which nobody is put under a name while another object of that name has its flag checked but is not removed yet, removal by name finds the object it is meant for, or nothing |
| StaleDrop.FlagsAgree | src/broker.rs:757-825 | and then, whenever no operation is under way, the flags set are those of the objects in the map |
| StaleDrop.NewcomerLost | src/broker.rs:735-746 | a run that ends with nothing under way and a newly registered instance that has its flag but is not in the map, removed by the drop of the instance it took over from |
| SoloRuns.DropsAlone | src/broker.rs:817-841 | at lock granularity, undisturbed: a drop without the flag does nothing; else the object is gone with its flag, a primary with everybody it knows, and a secondary is forgotten by its primary |
| SoloRuns.InsertsSecondary | src/broker.rs:757-791 | at lock granularity, undisturbed: a secondary is in the map with its flag and its primary knows it |
| SoloRuns.Inserts | src/broker.rs:757-791 | likewise a primary |
| SoloRuns.TakesOver | src/broker.rs:735-746 | at lock granularity, undisturbed: a forced registration takes the old instance out, drops it and goes on to insert |
| Wire.EndToEnd | src/broker.rs:1903-2263 | whichever frames of a stream of requests are routed to a receiver, it reads exactly those messages, in order, with sender, topic, content and realtime mark, after both hops |
| Wire.TakeEncoded | src/ipc.rs:160-262 | a request is taken whole from the stream exactly if its body is shorter than 2^32 bytes |
| Wire.TakeCutShort | src/broker.rs:1905-1945 | a payload limit refuses a frame exactly if its length exceeds it; a stream that ends in a header ends regularly, in a body with an error |
| Wire.RequestBytes | src/ipc.rs:160-262 | the layout of a request: id, operation and quality of service in one byte, length, body |
| Wire.BodyBytes | src/ipc.rs:189-262 | the body: names in front of NULs, then what is sent |
| Wire.TakeAllEncoded | src/broker.rs:1903-1945 | any number of requests, pings in between, is taken one by one and in order |
| Wire.InterpretCall | src/broker.rs:2081-2090 | the names in a request are understood as meant exactly if they hold no NUL |
| Wire.ListUnderstood | src/broker.rs:1974-2079 | exactly the four list operations are taken as lists of topics, and refused if a topic is not valid text |
| Wire.RouteUnderstood | src/broker.rs:2081-2118 | the other operations: what stands in front of the first NUL is the target; without a NUL or with invalid text the frame is refused |
| Wire.PairUnderstood | src/broker.rs:2150-2185 | a publication for one receiver: topic and receiver each in front of a NUL |
| Wire.SplitExactly | src/broker.rs:1982-1984 | a list of topics is cut at every NUL and nowhere else |
| Wire.FieldRoundTrip | src/broker.rs:2082-2087 | a field is read back exactly if it holds no NUL, otherwise something shorter is |
| Wire.ReadRequests | src/broker.rs:1903-1945 | the loop takes exactly the frames of the stream, and ends as the stream does |
| Wire.WriteParts | src/broker.rs:2231-2260 | the buffers built by pushing are the frame's bytes, with the length announced for it |
| Wire.FrameBytes | src/broker.rs:2231-2260 | the layout of a frame: kind, length, realtime mark, content |
| Wire.AnnouncedBytes | src/broker.rs:2243-2260 | the content: sender and topic in front of NULs, header, payload |
| Wire.WriteQueue | src/broker.rs:2213-2263 | the writer loop puts the frames of the queue on the stream one after the other |
| Wire.ListenWritten | src/broker.rs:2214-2263 | a queued frame is read back from exactly the bytes written for it if and only if its names hold no NUL and its announced length, names included, is below 2^32 |
| Wire.ListenAllWritten | src/ipc.rs:585-646 | the stream written for any queue of messages, broadcasts, publications, pings and acknowledgements is read back as exactly that queue |
| Wire.ListenCutShort | src/ipc.rs:585-646 | a stream that ends in the middle of a frame is at its end, and no part of that frame is heard |
| Wire.CarriedSame | src/broker.rs:2231-2260 | header and payload arrive merged, and nothing else about a frame changes |
| Wire.OneRequest | src/broker.rs:2081-2207 | what one request puts in a queue is readable at the far end as what was sent |
| Bytes.Le32RoundTrip | src/broker.rs:1924 | a 32-bit little-endian length is read back modulo 2^32 |
| Bytes.CutField | src/broker.rs:2082-2087 | splitting at the first NUL returns the field exactly if it holds none |
| Bytes.Le32Bytes | src/ipc.rs:160-173 | numbers go out with the lowest byte first |
| Bytes.TextsAreUtf8 | src/broker.rs:1982-1985 | every sequence of Unicode scalar values is accepted as text |
| Bytes.Utf8IsText | src/broker.rs:1982-1985 | and what is accepted as text encodes one |
| Protocol.FlagsRoundTrip | src/broker.rs:1921-1923 | operation and quality of service share a byte, which is zero for a plain ping only |
| Protocol.OnlyTheseCodes | src/lib.rs:334-404 | operation, quality of service and kind are read from their own codes only, anything else is bad data |
| Protocol.ErrorThroughAck | src/lib.rs:93-119 | an error code is never read as success, and comes back as itself except for a timeout or an end of file |
| IpcClient.Client.IncrementFrameId | src/ipc.rs:430-436 | the counter follows the sequence of ids |
| IpcClient.Client.SendFrame | src/ipc.rs:229-243 | writes the encoding of the call under the next id, and enters a waiter exactly if an acknowledgement is asked for; a waiter is entered exactly with `Processed` and `RealtimeProcessed` |
| IpcClient.Client.SendZcFrame | src/ipc.rs:212-228 | the same for a header and a payload sent without merging them |
| IpcClient.Client.SendFrameFor | src/ipc.rs:244-262 | the same for a publication with a receiver |
| IpcClient.Client.SendListFrame | src/ipc.rs:508-513 | the same for a list of topics |
| IpcClient.Client.SendTopics | src/ipc.rs:514-559 | the loop sends the topics joined by NULs |
| IpcClient.Client.Handle | src/ipc.rs:601-640 | an acknowledgement completes and removes the waiter of its id, other frames go to the inbox |
| IpcClient.Client.HandleRead | src/ipc.rs:585-646 | the reader loop handles exactly the frames of the stream, in order |
| IpcClient.SplitJoined | src/broker.rs:1982-1996 | what the broker understands of any NUL-free list: leading empty topics are lost, one empty topic is left if no other is |
| IpcClient.BulkListSurvives | src/ipc.rs:514-559 | a list survives exactly if its first topic is not empty or the empty topic is all it holds |
| Ids.IdAfterClosed | src/ipc.rs:430-436 | the k-th id is ((k-1) mod (2^32-1)) + 1 |
| Ids.IdsRepeat | src/rpc/async_client.rs:377-387 | ids are never 0, and two are equal exactly if their ordinals differ by a multiple of 2^32-1 |
| Acks.AckCount | src/broker.rs:1946-2207 | exactly one acknowledgement per frame sent as `Processed` or `RealtimeProcessed`, none for the others and for no-operation frames; what it says: access denied, why a message was not delivered, or success |
| Acks.DenialsCount | src/broker.rs:1986-1996 | one denial per topic that is not allowed |
| Acks.SubscribeFirstAck | src/broker.rs:1974-2007 | the first acknowledgement of a subscription is a success exactly if every topic was allowed; one acknowledgement per denied topic, then a last one of success |
| Acks.SessionSound | src/ipc.rs:189-210 | in every interleaving of requests and acknowledgements each waiter stands under its own id |
| Acks.WaiterGetsFirstCode | src/ipc.rs:601-609 | a request is told the first code sent for it, nobody else's, as soon as it arrives |
| Acks.SubscribeResolves | src/ipc.rs:508-522 | a subscription sent in any session resolves to success exactly if every topic was allowed |
| BrokerDb.BrokerDb.Deliver | src/broker.rs:83-109 | one delivery: an open client with fewer frames waiting than its queue has room for takes the frame; one that is not internal and has no room is refused, closed and unregistered; an internal one without room is waited for, or that is given up; a closed one refuses; nothing is queued but what is taken |
| BrokerDb.BrokerDb.Consume | src/broker.rs:2222-2222 | the clients' tasks take any number of frames from the queues, which changes nothing else |
| BrokerDb.BrokerDb.SendMessage | src/broker.rs:111-143 | a message reaches the client of that name or is refused for the reason given; what is counted, and what becomes of the registry; with room in the target's queue it is taken and nobody loses a registration |
| BrokerDb.BrokerDb.FindAudience | src/broker.rs:178-193 | finds exactly the registered clients some mask of which matches the topic, no excluded mask of which does, and with the receiver's primary name if one is given |
| Routing.AudienceExactly | src/broker.rs:185-190 | the audience of a publication, written out over masks, exclusions and names |
| BrokerDb.BrokerDb.FindNamed | src/broker.rs:153-154 | the broadcast map yields exactly the registered clients whose name the mask matches |
| BrokerDb.BrokerDb.Fanout | src/broker.rs:163-174 | everybody chosen gets the frame, the consumers being at work meanwhile; the loop is cut short only where the full queue of an internal client is waited for in vain; who is closed, what is counted, and exactly who loses its registration: those closed and what goes with them |
| BrokerDb.BrokerDb.SendBroadcast | src/broker.rs:145-176 | a broadcast reaches exactly the clients named; it is cut short only at the full queue of an internal one; exactly those closed by it, and their secondaries, lose their registration |
| Routing.CostOneMore | src/broker.rs:83-109 | turn by turn, the cost of a delivery stays exact: a client whose queue overruns is closed and leaves the registry with its secondaries, also if it has left with its primary before, and nobody else does; whoever leaves without being closed is told to disconnect, internal clients excepted |
| BrokerDb.BrokerDb.LeaveAtLast | src/broker.rs:1828-1860 | at the end of a connection its client is dropped, its channel is closed, and the full invariant holds again: only an internal client can be registered with its channel closed |
| BrokerDb.BrokerDb.Publish | src/broker.rs:178-248 | a publication reaches exactly its audience; it is cut short only at the full queue of an internal member of it; exactly those closed by it, and their secondaries, lose their registration |
| Routing.SameAddressees | src/broker.rs:185-190 | who is to get a frame depends on the directory and the exclusions alone, not on how full the queues are |
| BrokerDb.BrokerDb.Receive | src/broker.rs:114-117 | one frame and its bytes are counted for the broker and for the sender |
| BrokerDb.BrokerDb.Subscribe | src/broker.rs:263-269 | takes effect exactly while the subscription map has the client |
| BrokerDb.BrokerDb.Unsubscribe | src/broker.rs:285-291 | likewise |
| BrokerDb.BrokerDb.ExcludeList | src/broker.rs:2016-2029 | succeeds exactly if all topics are valid, and then the list is extended and the flag set |
| BrokerDb.BrokerDb.UnexcludeList | src/broker.rs:2042-2055 | succeeds exactly if all topics are valid, and then the list is reduced and the flag stays right |
| BrokerDb.BrokerDb.SendAck | src/broker.rs:1946-1972 | six bytes are counted and the acknowledgement is queued, unless the channel is closed or waiting for room in the full queue is given up; then nothing is sent |
| BrokerClient.BusRtClient.Exclude | src/broker.rs:304-310 | the topic is excluded and the flag says so |
| BrokerClient.BusRtClient.Unexclude | src/broker.rs:312-321 | the topic is removed and the flag stays right |
| BrokerClient.BusRtClient.ExcludeBulk | src/broker.rs:323-334 | all topics are excluded and the flag stays right, the empty list included |
| BrokerClient.BusRtClient.UnexcludeBulk | src/broker.rs:336-347 | all topics are removed and the flag stays right |
| TrafficSpec.ReceivedConserves | src/broker.rs:114-117 | counting a received frame keeps the broker's counters equal to the sums over all clients ever created |
| TrafficSpec.ReceivedExactly | src/broker.rs:114-117 | one frame and its bytes on both sides, nothing else |
| TrafficSpec.SentConserves | src/broker.rs:163-172 | counting a frame to every chosen client keeps them equal |
| TrafficSpec.SentExactly | src/broker.rs:163-172 | as many frames as clients chosen and their bytes for the broker, one frame and its bytes for every client reached, nothing else |
| TrafficSpec.CutShortConserves | src/broker.rs:163-172 | a loop cut short leaves the outgoing counters ahead by exactly what was not sent |
| TrafficSpec.CreatedConserves | src/broker.rs:546-585 | a new client changes no sum |
| BrokerReader.CheckTopics | src/broker.rs:1982-1996 | reports exactly the refused topics and keeps the others; ends early only at an invalid topic or a refusal that cannot be reported, having reported those before it |
| BrokerReader.HandleSubscribe | src/broker.rs:1974-2007 | refusals, then one success, and exactly the allowed topics are entered; or why not, and how far it got |
| BrokerReader.HandleUnsubscribe | src/broker.rs:2060-2079 | exactly the listed topics are removed, one success; or why not |
| BrokerReader.HandleExclusions | src/broker.rs:2008-2059 | exactly the listed topics are excluded, or no longer excluded, one success, the flag right; or why not |
| BrokerReader.HandleList | src/broker.rs:1974-2079 | a list of topics is a step of the broker: only its sender's subscriptions, exclusions and queue change, exactly as the list says; or it ends the connection for a stated reason |
| BrokerReader.HandleRoute | src/broker.rs:2081-2207 | the addressees, told from the directory, and nobody else get the frame, and the sender gets its own copy before the one acknowledgement; exactly the addressees closed by it, and their secondaries, leave the registry; or the connection ends because an acknowledgement cannot be sent or an addressee's full queue was waited for in vain |
| BrokerReader.HandleFrame | src/broker.rs:1973-2207 | every frame takes the broker one step on as its operation says, or ends the connection because it is malformed, cannot be acknowledged, or was waited with in vain |
| Others.LetOthersAct | src/broker.rs:1888-2211 | whatever the other clients do, in any number of operations, it keeps the broker's invariant, only adds to the queues, acknowledges nothing to this client, and sends under the names of others only |
| Others.StepSpreadsOnly | src/broker.rs:1973-2207 | all that a frame puts in any queue is messages under its sender's name, and acknowledgements in the sender's own |
| Others.BrokenSpreadsOnly | src/broker.rs:1973-2207 | so does a frame that ends its connection half-way |
| Connection.HandleReader | src/broker.rs:1888-2211 | the frames of the stream are served one after the other, the others acting before each, up to the regular end or to the one frame that ends the connection for a stated reason; then the client is dropped, its channel is closed, and the broker's full invariant holds |
| Connection.ServedAreConfirmed | src/broker.rs:1946-2207 | the frames served have been acknowledged exactly as due, in order, whatever the others have done in between |
| Connection.AnsweredAsAsked | src/broker.rs:1946-1972 | a frame sent as `No` or `Realtime` is not acknowledged; one sent as `Processed` or `RealtimeProcessed` is, once unless it is a subscription; every acknowledgement carries the frame's id, and the realtime mark exactly with the latter |
| Connection.MessageConfirmedTruly | src/broker.rs:2089-2118 | the sender of a direct message is told of success exactly if it may send it and the client registered under the name has taken it |
| Connection.StepSpreads | src/broker.rs:2081-2207 | one frame puts its message in the queue of another client exactly if that is an addressee and not closed, and closes only an addressee with a full queue |
| Connection.ServedAreSpread | src/broker.rs:2081-2207 | every other client that is not closed has been sent exactly the messages meant for it, told from the directory at the moment each was handled, in order, each after what the others sent before it, and nothing else |
| Connection.ClosedByOverrun | src/broker.rs:100-105 | a client is closed either by what the others do or by a message of this connection meant for it that finds its queue full, and the latter never happens to an internal one |
| Letters.OwnLettersInOrder | src/broker.rs:2081-2207 | while nobody else bears the sender's name, the frames under it among all that another client has been sent are exactly the messages meant for that client, in order |
| Letters.LettersArrive | src/broker.rs:1888-2263 | composed with both encoders: the requests a client has written, served in one connection while the others go on, queued for another client among the frames of the others, written to its socket and read there: the letters under the sender's name are exactly those whose audience it was in, told from the directory at the moment each was handled |
| Answers.ClientWrites | src/ipc.rs:189-262 | every sending call of a client, at any point of its life, adds one numbered request to what it has written, and a waiter if an acknowledgement is asked for |
| Answers.LifeIsSession | src/ipc.rs:585-646 | however sending and hearing alternate at the client, its life over the stream of a connection is a session of the acknowledgement protocol |
| Answers.WaitersAreTold | src/ipc.rs:601-609 | end to end over a new connection, the others going on in between: at any point of the client's life each request that asked for an acknowledgement has been told the first code due for it as soon as that was heard, and no other request anything |
| RpcEvents.ParsedInBounds | src/rpc/mod.rs:80-207 | whatever bytes a frame holds, an accepted event can be taken apart without leaving its bounds |
| RpcEvents.ParsedExactly | src/rpc/mod.rs:139-207 | exactly which frames are accepted, and as what |
| RpcEvents.SeparateHeader | src/rpc/mod.rs:139-207 | with a header of its own a message means what was sent |
| RpcEvents.MergedHeader | src/rpc/mod.rs:139-207 | merged with the payload it means what was sent exactly if its method name holds no NUL |
| RpcEvents.TransportIndependent | src/rpc/mod.rs:80-207 | both layouts agree on kind, id, method, error code and payload exactly if the method name holds no NUL |
| RpcEvents.MessageOverSockets | src/ipc.rs:212-228 | an RPC message sent with `zc_send` through both hops means at the far end what was sent |
| RpcEvents.PrepareCallPayload | src/rpc/mod.rs:355-363 | a frame carrying the result as its header is understood as a request with that id, method and parameters |
| RpcEvents.PrepareReply | src/rpc/async_client.rs:196-231 | the header of a reply or an error reply |
| RpcEvents.SignedRoundTrip | src/rpc/mod.rs:122-136 | error codes, negative ones included, survive |
| RpcCalls.RunKeepsTable | src/rpc/async_client.rs:370-420 | in every run the table holds exactly the open calls without a reply, each under its own id |
| RpcCalls.TableAtAllTimes | src/rpc/async_client.rs:370-420 | an id is in the table only for an unreturned call that was issued it, a returned call leaves no entry, and id 0 is never in it |
| RpcCalls.ReplyReachesOne | src/rpc/async_client.rs:235-248 | a reply reaches at most one call, the one issued its id, and changes nothing for the others |
| RpcCalls.DeliveredStays | src/rpc/async_client.rs:235-248 | what a call has been given is never replaced |
| RpcCalls.FirstReplyCompletes | src/rpc/async_client.rs:235-248 | the first reply with the id of a call in progress is what the call returns with |
| RpcCalls.CallCompletes | src/rpc/async_client.rs:370-420 | from any point of any run a call can go through, waiting for a confirmation exactly if it asks for one, and then returns with the reply sent to its id, leaves no entry and changes nothing for the others |
| FlushWriter.RunKeepsSound | src/comm.rs:37-75 | in every interleaving nothing is lost or reordered and the lock excludes; if neither the flusher nor the last flush times out or fails, covered bytes in the buffer imply a flush to come |
| FlushWriter.WriteReturns | src/comm.rs:66-75 | in every run, when a write returns, all its bytes are with the writer unless it met an error; after an instant one whose flush did not fail the buffer is empty and everything is on the socket; after a scheduled one everything is covered |
| FlushWriter.EveryTokenOnce | src/comm.rs:42-49 | every token is queued or received once, and every one received leads to one attempt to flush |
| FlushWriter.NothingLostNothingBlocked | src/comm.rs:66-75 | socket and buffer together hold all bytes in order, and the token send never waits |
| FlushWriter.FlusherDelivers | src/comm.rs:42-57 | the flusher alone brings everything covered to the socket in at most four steps, the last flush alone after a drop |
| FlushWriter.PromiseFailsExactly | src/comm.rs:42-75 | in any run, at any point, the promise of a flush to come fails exactly if an earlier timeout or failure of the flusher left covered bytes with no token queued, and since then no token was sent, the writer was not dropped, and not all these bytes got through; or if the last flush after the drop failed or timed out with covered bytes left |
| FlushWriter.TimeoutLosesFlush | src/comm.rs:42-49 | a run in which a scheduled byte stays in the buffer for good |
| FlushWriter.DropLosesFlush | src/comm.rs:53-57 | a run without any failure of the flusher in which the last flush fails, a scheduled byte stays in the buffer, and nobody can take another step |
| PubSub.TopicBroker.Process | src/tools/pubsub.rs:179-203 | a frame goes to the one handler responsible for its topic, with topic = prefix ++ subtopic, and comes back exactly if there is none |
| PubSub.OneResponsible | src/tools/pubsub.rs:179-203 | no two handlers are responsible for one topic |
| PubSub.FirstIsShortest | src/tools/pubsub.rs:188-200 | the first matching prefix in the order of the map is the shortest one |
| PubSub.PrefixesOrderedByLength | src/tools/pubsub.rs:65-69 | among prefixes of one topic the order of the map is the order of length |
| PubSub.BelowExactly | src/tools/pubsub.rs:65-69 | the order of the map: the first differing byte decides, or else which key ends first |
| PubSub.TopicBroker.RegisterTopic | src/tools/pubsub.rs:102-127 | a topic gets one handler, a second registration is refused and changes nothing |
| PubSub.TopicBroker.RegisterPrefix | src/tools/pubsub.rs:154-178 | likewise for a prefix, and the order of the map is kept |

## Left out

- Announcements of registrations (src/broker.rs:709-724): they publish through an RPC client under its mutex and can re-enter the registry; `unregister_client` is modelled as the drop it performs.
- `Client::unregister` (src/broker.rs:486-489) clears the flag before it asks for the drop, which then does nothing; it is not an operation of the model.
- The registry invariant at lock granularity: it is stated for operations that run one at a time; of what one operation can do to another half-way, `LockOrder` and `StaleDrop` follow deadlocks, the map of clients and the flags, not the subscription and broadcast maps.
- StaleDrop.RemovesItsOwn: says when no drop takes another instance; that such a meeting does lead to a loss is shown for one run, not for every one.
- Mask matching (`submap` is not part of this model): subscriptions and exclusions are sets of masks, and matching is an arbitrary function of mask and subject.
- BrokerDb.BrokerDb.Subscribe: goes by the client's name, as client equality does; which object a subscription map would keep for a stale handle with the name of a newer client is not modelled.
- BrokerDb.BrokerDb.RegisterSecondaryFor: the running number in the generated name is a parameter.
- BrokerDb.BrokerDb.Deliver: timeouts and cancelled callers are one event, giving up the wait for room; the check for a full queue and the send are one step. Consumers take frames whenever the others act, before each turn of a delivery loop, and when a sender waits for room.
- TrafficSpec.ReceivedConserves: counters are unbounded, so the wrap-around of 64-bit counters is not modelled.
- Connection.HandleReader: the others act between the frames of the connection, not in the middle of one, where only consumers do. The stream is given up to its end; reader timeouts, payload allocators, and the end of the connection followed through its writer, its pinger or the disconnect trigger are not modelled beyond the unregistration they share.
- Letters.LettersArrive: the frames of the others in the queue are taken to be readable (`Wire.ListenWritten` says when they are), and nobody else to bear the sender's name; with a namesake `Connection.ServedAreSpread` still says which frames come from this connection.
- The connection handshake, access rules by address, and the reply sent after registration, whose failure leaves the client registered (src/broker.rs:1812).
- The access lists themselves: whether an operation on a topic or a target is allowed is an arbitrary function.
- IpcClient.Client.SendFrame: failing writes, which mark the client as disconnected, are not modelled.
- RpcCalls.TableAtAllTimes: call futures that are dropped half-way are not modelled; fewer than 2^32 - 1 ids are issued during the lifetime of a call.
- FlushWriter.FlusherDelivers: the time the flusher sleeps is a single step.
- PubSub.TopicBroker.Process: waiting for room in a handler's channel is not modelled.
- Message texts of errors; only their kinds are kept.
- Sockets, TLS, WebSocket, FIFO commands, cursors, the command line tools, the synchronous clients and the language bindings.
