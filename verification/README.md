# Verified model of the disaggregated inference control plane

A cluster serves one language-model request on two machines: a *prefill* node computes the key/value cache, writes it
layer by layer into a slot of a *decode* node's buffer over RDMA, and the decode node generates once the last layer has
arrived. An *orchestrator* registers nodes, routes requests, hands out slots and counts load. This project models the
code that makes this safe, and proves what it is for:

- **Byte stream.** The message codec, the length-prefixed framer with its two phases, the output buffer drained by
  partial sends, and the whole link: what one side enqueues is what the other decodes, in order, however the bytes are
  cut. `WireFormat` is the independent reference: one grammar of layouts with one encoder and one parser, for which
  round trip, truncation and canonical decoding are proved once. `MessageWriter` and `MessageReader` are the
  byte-by-byte code, proved against it.
- **Slots, load and layers.** The free queue and slot maps at the granularity of the router's lock regions with any
  number of workers; slots and load over whole runs of the orchestrator's handlers; the decode node's tracker, its
  exactly-once trigger and its state machine; and the byte ranges that slots and layers become, in `size_t` arithmetic.
- **Cluster start.** Registration, the one broadcast, the filling of queue-pair tables, INIT to RTR to RTS, the ready
  count, RUNNING; and the receive credits that keep the queue pair fed.

Code that updates state in place is modelled by classes, methods and loops, each method proved against a function of the
old state; runs are sequences of those functions. Kernel, verbs, CUDA and HTTP results, random draws, the iteration
order of hash maps and the interleaving of workers are inputs: a theorem about runs holds for all of them.

Main results, each for all inputs or all runs: `Messages.RoundTrip`, `Messages.DecodingIsCanonical`,
`Framing.ChunkingDoesNotMatter`, `Stream.DecodedIsPrefixOfSent`, `Stream.AllDeliveredIffAllFit`,
`SlotRuns.PartitionOnEveryRun`, `SlotRuns.EverySlotAccountedFor`, `SlotRuns.EveryGrantIs`,
`RequestRouting.RequestRouter.SelectNodesAndAllocateSlot`, `Orchestrator.ConservedOnEveryRun`,
`Orchestrator.NeverToldTheSameSlot`, `LayerTracker.FiresWhenLastArrives`, `LayerTracker.LiveRequestsApart`,
`DecodeRuns.InvariantOnEveryRun`, `DecodeRuns.DecodeStartsIffTriggered`, `DecodeRuns.SlotRefusedUntilCleanup`,
`Memory.CheckedLayoutInBoundsIffNoWrap`, `QpPairing.EnginesAgree`,
`BootstrapRuns.RunningOnlyWhenAllReady`, `BootstrapRuns.RunningReachableIff` and
`RecvCredits.FatalIffFiveInARow`.

`dafny verify dfyconfig.toml` checks everything.

| file | what it holds |
|---|---|
| Basics.dfy | machine integers and casts |
| WireFormat.dfy, Messages.dfy | the grammar of layouts; the messages as layouts |
| MessageWriter.dfy, MessageReader.dfy, ByteLayout.dfy | the codec byte by byte; which field stands where |
| Framing.dfy, Connection.dfy, Stream.dfy | the framer; buffers and event queue; the link over whole runs |
| Slots.dfy, SlotTable.dfy, SlotRuns.dfy | one allocator; all of them; workers interleaving |
| NodeRegistry.dfy, RequestRouter.dfy | the registry; selection, slots and load in place |
| Orchestrator.dfy, WorkerOrchestrator.dfy | conservation over runs; the handlers |
| Memory.dfy | offsets, bounds and the startup check |
| LayerTracker.dfy, RequestTrackerLayer.dfy | the tracker as a value; the tracker in place |
| DecodeNode.dfy, Node.dfy | decode runs; poll loop and handlers |
| QpPairing.dfy, RecvCredits.dfy | queue pairs; receive credits |
| Bootstrap.dfy, BootstrapRuns.dfy | the start-up protocol and its handlers; whole starts |

Where the code and its own comments disagree the code is followed: the comment that `select_nodes_and_allocate_slot` is
atomic (`cpp/nodes/worker_orchestrator.cpp:110-111`) does not hold between its lock regions, and the free slot that the
filter saw may be gone (`SlotRuns.FreeSlotCanBeGone`, `SlotRuns.GrabGrantedIff`); and the startup check does not imply
that the buffer is large enough when the required size wraps (`Memory.CheckPassesByWrapping`). Two more results show
where the code can lose something: a trigger that meets a failed fence or a full queue (`DecodeRuns.LostTriggerIsFinal`),
and the slot of a decode that fails (`DecodeRuns.SlotRefusedUntilCleanup`).

## Model

| member | source | states |
|---|---|---|
| WireFormat.RoundTripIffSized | cpp/common/messages.cpp:13-99 | For every record, list, string, flag and word layout: decoding an encoding followed by any bytes gives back the value and exactly those bytes, if and only if every string and list in it is shorter than 2^32 |
| WireFormat.ParseExtends | cpp/common/messages.cpp:49-99 | A read that succeeds is unchanged by bytes appended to its input, which all stay unread |
| WireFormat.StrictPrefixRejected | cpp/common/messages.cpp:49-99 | Of a value whose strings and lists are shorter than 2^32, every strict prefix of the encoding is rejected |
| WireFormat.EncodeIsInjective | cpp/common/messages.cpp:13-45 | Of values whose strings and lists are shorter than 2^32, equal encodings come from equal values |
| WireFormat.BigEndianKeepsLow | cpp/common/messages.cpp:13-39 | A word of n bytes carries the value modulo 256^n |
| WireFormat.ParseIsCanonical | cpp/common/messages.cpp:49-241 | Whatever bytes a read consumed are the encoding of its result, except that each flag byte is normalised to 0 or 1 |
| WireFormat.ParsesIffNormalised | cpp/common/messages.cpp:49-241 | Exactly which bytes a read accepts and what it yields: those that begin with the encoding of a value of fitting lengths, flag bytes apart |
| WireFormat.ShortIsSized | cpp/common/messages.cpp:41-45 | An encoding shorter than 2^32 bytes has no string or list whose length prefix is cut |
| Messages.RoundTrip | cpp/common/messages.cpp:429-554 | Decoding a serialised message followed by any bytes returns the message (negative ints and slot -1 included) and exactly those bytes, if and only if all its strings and lists are shorter than 2^32 |
| Messages.SerializedIsInjective | cpp/common/messages.cpp:429-453 | Two messages whose strings and lists are shorter than 2^32 and that serialise to the same bytes agree on every transmitted field |
| Messages.TruncatedMessageRejected | cpp/common/messages.cpp:455-554 | Of a message whose strings and lists are shorter than 2^32, every strict prefix of the serialised form is rejected |
| MessageWriter.HugeResponseTruncates | cpp/common/messages.cpp:41-45 | Why the length matters: cut off before a response text of 2^32 bytes, the message decodes as one without it |
| Messages.DecodingIsCanonical | cpp/common/messages.cpp:455-554 | Any bytes that decode begin with the serialised form of the result, is_healthy bytes apart, which come out as 0 or 1; the rest is left over |
| Messages.DeserializesIff | cpp/common/messages.cpp:455-554 | Bytes deserialise to a message if and only if they begin with its serialised form, is_healthy bytes apart, and its lengths fit; what follows is ignored |
| Messages.ShortMessageFits | cpp/common/messages.cpp:429-453 | A serialised message below 2^32 bytes is not empty and round-trips |
| Messages.NodeOf | cpp/common/messages.cpp:178-241 | The inverse of the node layout: no field is lost or mixed up |
| Messages.MessageOf | cpp/common/messages.cpp:455-554 | The inverse of the message layout |
| MessageWriter.EightBytes | cpp/common/messages.cpp:31-39 | A 64-bit word sent as two network-order halves is its eight bytes, most significant first |
| MessageWriter.LowFourBytes | cpp/nodes/epoll_worker_base.cpp:518-526 | A length goes on the wire as its low 32 bits, most significant byte first |
| ByteLayout.MostSignificantFirst | cpp/common/messages.cpp:13-39 | Byte i of a word of n bytes is the digit of 256^(n-1-i) |
| ByteLayout.PeerLayout | cpp/common/messages.cpp:103-116 | The bytes of a QP entry, field by field in the order sent |
| ByteLayout.NodeLayout | cpp/common/messages.cpp:153-176 | The bytes of a node, field by field in the order sent; negative ints as their residue modulo 2^32 |
| ByteLayout.RequestLayout | cpp/common/messages.cpp:245-262 | The bytes of a request, field by field in the order sent |
| ByteLayout.MessageLayout | cpp/common/messages.cpp:429-453 | The bytes of a message: header fields, request, node, counted members, trailer fields |
| MessageWriter.ByteBuffer.WritePeerInfo | cpp/common/messages.cpp:103-116 | Appends exactly the layout of a QP entry |
| MessageWriter.ByteBuffer.WriteNodeInfo | cpp/common/messages.cpp:153-176 | Appends exactly the layout of a node, its QP list included |
| MessageWriter.ByteBuffer.WriteRequestInfo | cpp/common/messages.cpp:245-262 | Appends exactly the layout of a request |
| MessageWriter.ByteBuffer.WriteMembers | cpp/common/messages.cpp:443-445 | Appends the count and the members in order |
| MessageWriter.SerializeMessage | cpp/common/messages.cpp:429-453 | The byte-by-byte writer produces the layout for which round trip and injectivity are proved |
| MessageReader.Cursor.ReadString | cpp/common/messages.cpp:89-99 | Fails exactly when the length or the bytes are missing; otherwise yields the string and leaves the cursor after it |
| MessageReader.Cursor.ReadPeerInfo | cpp/common/messages.cpp:118-147 | Accepts exactly what the layout of a QP entry parses, and stops where it does |
| MessageReader.Cursor.ReadNodeInfo | cpp/common/messages.cpp:178-241 | Accepts exactly what the node layout parses, and stops where it does |
| MessageReader.Cursor.ReadRequestInfo | cpp/common/messages.cpp:264-298 | Accepts exactly what the request layout parses, and stops where it does |
| MessageReader.Cursor.ReadMembers | cpp/common/messages.cpp:510-526 | Reads exactly the counted members, or fails with the first that does not parse |
| MessageReader.DeserializeMessage | cpp/common/messages.cpp:455-554 | The cursor-based reader accepts and yields exactly what the message layout does; bytes after the message are tolerated |
| Framing.FeedInTwo | cpp/nodes/epoll_worker_base.cpp:320-409 | For arbitrary bytes: reading a and then b gives the payloads, the residual state and the open/closed outcome of reading a followed by b at once |
| Framing.ChunkingDoesNotMatter | cpp/nodes/epoll_worker_base.cpp:156-219 | Any cutting of a stream into reads, well formed or not, gives the same result as one read |
| Framing.FramesDrain | cpp/nodes/epoll_worker_base.cpp:320-409 | Whole frames come out one for one up to the first empty or over-long payload, whose header closes the connection, provided the low 32 bits of that payload's length are not a length from 1 to 16 MiB |
| Framing.ShortCutShows | cpp/nodes/epoll_worker_base.cpp:518-526 | Payloads below 2^32 bytes meet that condition |
| Framing.DrainedIsAcceptable | cpp/nodes/epoll_worker_base.cpp:345-361 | Every payload handed on is 1 byte to 16 MiB long, whatever came in |
| Framing.DrainSettles | cpp/nodes/epoll_worker_base.cpp:320-409 | After parsing nothing more can be extracted |
| Framing.SerializedDecode | cpp/nodes/epoll_worker_base.cpp:389-405 | Payloads that are serialised messages decode to those messages in order |
| Connection.PushAllKeepsOldest | cpp/nodes/event_queue.cpp:10-29 | A burst into the bounded queue keeps the oldest events in order and loses the newest beyond capacity |
| Connection.EventQueue.Push | cpp/nodes/event_queue.cpp:10-29 | Succeeds exactly when there is room, and then appends |
| Connection.EventQueue.WaitAndPop | cpp/nodes/event_queue.cpp:48-63 | Takes the oldest event; none only when the queue is empty |
| Connection.DeliveredIsOneBurst | cpp/nodes/epoll_worker_base.cpp:389-405 | Delivering payloads one at a time is pushing all the messages they yield |
| Connection.ConnectionState.Deliver | cpp/nodes/epoll_worker_base.cpp:389-405 | A payload that decodes puts its message at the end of the queue if there is room; in every other case the queue is as it was |
| Connection.ConnectionState.ParseMessages | cpp/nodes/epoll_worker_base.cpp:320-409 | The two-phase loop over the input buffer extracts what the framing model extracts, and every round shortens the buffer |
| Connection.ConnectionState.HandleRead | cpp/nodes/epoll_worker_base.cpp:156-219 | Chunks read before would-block are framed as one stream; with the peer gone everything buffered goes too |
| Connection.ConnectionState.EnqueueResponse | cpp/nodes/epoll_worker_base.cpp:513-559 | Appends one frame of the serialised message; nothing for a connection already removed |
| Connection.ConnectionState.HandleWrite | cpp/nodes/epoll_worker_base.cpp:221-310 | Through any partial sends: if the sends that accept take the whole buffer, all of it is on the wire; otherwise exactly what they accept is, in order, and the rest is put back, or the connection is removed if the next send fails |
| Stream.RunIsConsistent | cpp/nodes/epoll_worker_base.cpp:156-409 | On every interleaving of enqueues, partial sends and reads: bytes are conserved in order, and the receiver is where one big read would be |
| Stream.DecodedIsPrefixOfSent | cpp/nodes/epoll_worker_base.cpp:156-559 | On every run, broken connections included, the messages decoded are a prefix of the messages enqueued, provided the first over-long one shows as such in the low 32 bits of its length |
| Stream.SettledIsDelivered | cpp/nodes/epoll_worker_base.cpp:156-559 | Under the same condition: once both buffers drain, exactly the messages before the first over-long one have been decoded |
| Stream.ShortMessagesShow | cpp/nodes/epoll_worker_base.cpp:518-519 | Messages that serialise to less than 2^32 bytes meet that condition |
| Stream.HugeResponseIsMisread | cpp/nodes/epoll_worker_base.cpp:518-526 | Why it is needed: a message with a response text of 2^32 bytes is decoded as the message without it, which nobody enqueued |
| Stream.AllDeliveredIffAllFit | cpp/nodes/epoll_worker_base.cpp:156-559 | Once drained, what was decoded is what was enqueued, if and only if every message serialises to at most 16 MiB |
| Stream.CanAlwaysSettle | cpp/nodes/epoll_worker_base.cpp:156-310 | Progress: from any point of a run whose link has not broken, one send and one read settle it |
| Stream.AllCanArrive | cpp/nodes/epoll_worker_base.cpp:156-559 | So messages that fit a frame can all still be decoded, in order |
| Slots.NewAllocator | cpp/apps/orchestrator/request_router.h:192-197 | The queue holds 0, 1, and so on up to max-1, in that order; nothing is held |
| Slots.AllocateKeepsPartition | cpp/apps/orchestrator/request_router.cpp:120-156 | Whatever the request id, free slots stay distinct and partition 0..max-1 with the held ones |
| Slots.ReleaseKeepsPartition | cpp/apps/orchestrator/request_router.cpp:158-191 | So does freeing |
| Slots.InverseIffNotHolding | cpp/apps/orchestrator/request_router.cpp:145-147 | An allocation keeps the two maps inverse if and only if the request held no slot there |
| Slots.UsedIsHeld | cpp/apps/orchestrator/request_router.h:203-209 | Used slots are counted by the slot map, and by the request map when the maps are inverse |
| Slots.SecondSlotLeaksFirst | cpp/apps/orchestrator/request_router.cpp:145-147 | A second slot for the same id leaves the first held and recorded for nobody |
| Slots.LeakIsPermanent | cpp/apps/orchestrator/request_router.cpp:120-191 | Such a slot is never handed out or free again, whatever operations follow |
| Slots.QueueIsFifo | cpp/apps/orchestrator/request_router.cpp:141-181 | Slots leave the queue in the order they stood in it or came back to it |
| Slots.FreedSlotWaitsItsTurn | cpp/apps/orchestrator/request_router.cpp:181 | A freed slot goes out again only after every slot that was free before it |
| SlotTable.AllocateOnEffect | cpp/apps/orchestrator/request_router.cpp:120-156 | An allocation on a node succeeds if and only if a slot is free there (all of them before first use), and makes the request the one new holder, on that node only |
| SlotTable.FreeEffect | cpp/apps/orchestrator/request_router.cpp:76-96 | Freeing removes the request from the node it was sent to and from no other, and moves nobody |
| SlotTable.InitialisedChangesNothing | cpp/apps/orchestrator/request_router.cpp:102-118 | Creating allocators on first use changes neither who holds what nor what is free |
| SlotRuns.PartitionOnEveryRun | cpp/apps/orchestrator/request_router.cpp:24-191 | With any number of workers interleaving at every lock release, and any ids: the queue of each node has no duplicates and partitions 0..max-1 with the held slots |
| SlotRuns.ConsistentOnEveryRun | cpp/apps/orchestrator/request_router.cpp:24-191 | On every run that starts no request under an id in use: maps are inverse, and the holders on a node are the recorded requests plus those between allocate and record |
| SlotRuns.EverySlotAccountedFor | cpp/apps/orchestrator/request_router.cpp:24-191 | On those runs free slots, recorded requests and workers between allocate and record add up to max, on every node |
| SlotRuns.SlotsAreExclusive | cpp/apps/orchestrator/request_router.cpp:120-156 | On every run, whatever the ids, two requests on a node never share a slot, and a held slot is in range and not free |
| SlotRuns.NodeFollowsItsOps | cpp/apps/orchestrator/request_router.cpp:120-191 | Whatever else happens, an allocator evolves by its own allocations and frees, and what workers get is what it handed out |
| SlotRuns.EveryGrantIs | cpp/apps/orchestrator/request_router.cpp:120-191 | On every run, from the start: the slots handed out on a node are 0, 1, and so on up to max-1, and from then on the slots given back, in the order they were given back |
| SlotRuns.FifoOnEveryRun | cpp/apps/orchestrator/request_router.cpp:142-181 | On every run a freed slot is not handed out again before every slot then free has been |
| SlotRuns.GrabGrantedIff | cpp/apps/orchestrator/request_router.cpp:120-139 | On every run: a worker still choosing is granted a slot of a node if and only if the slots free at any earlier point, with those returned since, outnumber those handed out since |
| SlotRuns.FreeSlotCanBeGone | cpp/apps/orchestrator/request_router.cpp:44-49 | Two workers see the one free slot of a node; the second to allocate is turned away |
| SlotRuns.UndisturbedServes | cpp/apps/orchestrator/request_router.cpp:24-74 | The steps of one worker with nothing in between: a node of the list with a free slot serves the request, and with none free no node does |
| SlotRuns.ReusedIdLosesASlot | cpp/apps/orchestrator/request_router.cpp:24-96 | Why ids must be fresh: serving a request again where it holds a slot, then freeing it, loses a slot for good |
| Registry.NodeRegistry.GetHealthyNodes | cpp/apps/orchestrator/node_registry.cpp:96-111 | Exactly the nodes that are healthy and of the role, each once, in some order |
| Registry.NodeRegistry.GetAllNodes | cpp/apps/orchestrator/node_registry.cpp:64-77 | Every node exactly once |
| Registry.NodeRegistry.AddNode | cpp/apps/orchestrator/node_registry.cpp:10-19 | Stores the node under its own id and touches no other |
| RequestRouting.RequestRouter.SelectLeastLoaded | cpp/apps/orchestrator/request_router.cpp:456-494 | None exactly when every load is at least INT_MAX; otherwise the first of the nodes with minimum load |
| RequestRouting.RoundRobinReachesAll | cpp/apps/orchestrator/request_router.cpp:450-453 | n successive choices from an unchanged list of n reach every position, short of the index wrapping |
| RequestRouting.RequestRouter.SelectBy | cpp/apps/orchestrator/request_router.cpp:236-246 | Under each policy: a node if and only if one is eligible, always one of the list |
| RequestRouting.RequestRouter.SelectPrefillNode | cpp/apps/orchestrator/request_router.cpp:287-318 | A choice among the healthy prefill nodes only |
| RequestRouting.RequestRouter.FilterBySlots | cpp/apps/orchestrator/request_router.cpp:206-226 | Creates the missing allocators and keeps exactly the nodes with a free slot |
| RequestRouting.RequestRouter.SelectDecodeNodeWithSlot | cpp/apps/orchestrator/request_router.cpp:197-253 | A choice among the healthy decode nodes with a free slot; under LEAST_LOADED one of minimum load among them |
| RequestRouting.RequestRouter.AllocateSlotForNode | cpp/apps/orchestrator/request_router.cpp:120-156 | Takes the front of the node's queue, as the run model assumes |
| RequestRouting.RequestRouter.FreeSlotForNode | cpp/apps/orchestrator/request_router.cpp:158-191 | Puts the request's slot at the back of the node's queue, as the run model assumes |
| RequestRouting.RequestRouter.FreeSlot | cpp/apps/orchestrator/request_router.cpp:76-96 | Forgets where the request was sent and frees its slot there; unknown requests change nothing |
| RequestRouting.RequestRouter.SelectNodesAndAllocateSlot | cpp/apps/orchestrator/request_router.cpp:24-74 | Without interference a request is routed if and only if some healthy prefill node and some healthy decode node with a free slot are eligible (under LEAST_LOADED: load below INT_MAX); both have minimum load, the slot is the front of the decode node's queue and is recorded there for the request, and the offset is the router's |
| RequestRouting.RequestRouter.IncrementNodeLoad | cpp/apps/orchestrator/request_router.cpp:375-383 | Adds one to one node's count, starting from zero |
| RequestRouting.RequestRouter.DecrementNodeLoad | cpp/apps/orchestrator/request_router.cpp:385-403 | Takes one off, stopping at zero; an unknown node changes nothing |
| Orchestrator.ConservedOnEveryRun | cpp/nodes/worker_orchestrator.cpp:101-368 | On every run with ids not in use and each accepted request finished once: slots are held exactly by accepted unfinished requests, and each node's load is the number of them assigned to it |
| Orchestrator.ClampNeverFires | cpp/apps/orchestrator/request_router.cpp:396-399 | On those runs a finishing request always finds both of its nodes counted above zero |
| Orchestrator.BounceRestores | cpp/nodes/worker_orchestrator.cpp:145-162 | The early-failure paths give back what was taken: same holders, owners and loads |
| Orchestrator.ToldOnEveryRun | cpp/nodes/worker_orchestrator.cpp:127-166 | On those runs, from acceptance to finish, the tables keep each request in the slot that its two nodes were told |
| Orchestrator.NeverToldTheSameSlot | cpp/nodes/worker_orchestrator.cpp:127-166 | Two accepted and unfinished requests on one decode node were never told the same slot |
| Orchestrator.StrayFinishHarmlessIffIdle | cpp/nodes/worker_orchestrator.cpp:309-368 | A finish for a request that is not active leaves the loads right if and only if both counters were at zero |
| OrchestratorWorker.WorkerOrchestrator.HandleClientRequest | cpp/nodes/worker_orchestrator.cpp:101-175 | Takes exactly one of the run model's steps. With both sockets, PREPARE_DECODE_SLOT goes to the decode node and then ASSIGN_REQUEST to the prefill node, both with the slot that the table records for the request and the router's offset of it, and both nodes count one more; with one missing, no load is counted and the slot is freed, although the decode node may have been told of it; a bounced client gets no answer, one turned away does |
| OrchestratorWorker.WorkerOrchestrator.Dispatch | cpp/nodes/worker_orchestrator.cpp:145-166 | Loads are counted only when both sockets exist; otherwise the slot goes back |
| OrchestratorWorker.WorkerOrchestrator.HandlePrefillCompleteOrchestrator | cpp/nodes/worker_orchestrator.cpp:181-225 | With the decode node reachable nothing is freed; otherwise the request is finished as failed and its client told |
| OrchestratorWorker.WorkerOrchestrator.HandleDecodeComplete | cpp/nodes/worker_orchestrator.cpp:309-337 | Takes the finishing step; a tracked client gets exactly one answer and its status, an untracked one nothing |
| OrchestratorWorker.WorkerOrchestrator.HandleRequestFailed | cpp/nodes/worker_orchestrator.cpp:340-368 | Takes the finishing step; a tracked client is told of the failure, an untracked one is not |
| LayerTracker.MarkedIsCounted | cpp/nodes/request_tracker_layer.cpp:170-227 | Whatever layer arrives: the count equals the number of flags, a set flag stays, and the answer is true exactly when the last missing flag is set |
| LayerTracker.FlagsAreArrivals | cpp/nodes/request_tracker_layer.cpp:170-227 | Over any arrivals, repeated, reordered or out of range, the flags set are the valid layers that arrived |
| LayerTracker.FiresWhenLastArrives | cpp/nodes/request_tracker_layer.cpp:212-226 | The answer is true exactly at the arrival that completes the set of layers |
| LayerTracker.FiresAtMostOnce | cpp/nodes/request_tracker_layer.cpp:212-226 | It is true at most once |
| LayerTracker.FiresIffCovered | cpp/nodes/request_tracker_layer.cpp:212-226 | It is true for some arrival if and only if the arrivals cover all layers and there is a layer |
| LayerTracker.AddKeepsBijectionIff | cpp/nodes/request_tracker_layer.cpp:35-102 | Adding keeps requests, sequence numbers and slots in bijection if and only if the id is new and the slot fits in 16 bits |
| LayerTracker.SlotsThatCollide | cpp/nodes/request_tracker_layer.cpp:56-58 | With slots that agree modulo 65536, two live requests share a sequence number and the first cannot be resolved |
| LayerTracker.BijectiveOnEveryRun | cpp/nodes/request_tracker_layer.cpp:35-164 | On every run with fresh ids and at most 65536 slots the three maps stay mutually inverse with sequence number equal to slot, and counts equal flags |
| LayerTracker.ImmediateResolves | cpp/nodes/request_tracker_layer.cpp:281-332 | The immediate that the connector builds for a slot and layer decodes and resolves to the request in that slot and that layer |
| LayerTracker.DecodeInvertsEncode | cpp/nodes/request_tracker_layer.cpp:321-332 | An immediate is determined by its two halves |
| LayerTracker.ShiftOrIsSum | python/rdma_connector.py:578-580 | Shift-and-or on 32-bit words is the sum used here, and the halves come back by shift and mask |
| LayerTracker.PlacedOnEveryRun | cpp/nodes/request_tracker_layer.cpp:60-72 | On every run a live request's recorded offsets are those of its slot in the layout |
| LayerTracker.SlotsDifferOnEveryRun | cpp/nodes/request_tracker_layer.cpp:48-54 | On every run no two live requests are in one slot |
| LayerTracker.LiveRequestsApart | cpp/nodes/request_tracker_layer.h:34-48 | On every run, whatever the ids and however many the slots, with a layout that fits: two live requests share no byte, and their layers lie in the buffer |
| LayerTracker.CheckedNodeKeepsRequestsApart | cpp/nodes/node.cpp:49-54 | So a node that passed its startup check isolates its live requests, if the required size did not wrap |
| TrackerClass.RequestTrackerLayer.AddRequest | cpp/nodes/request_tracker_layer.cpp:35-102 | Which of the three refusals applies, in the code's order; nothing is stored then; otherwise exactly the new request is, with as many layers as asked, entry i for layer i where the layout puts it, none received |
| TrackerClass.RequestTrackerLayer.MarkLayerReceived | cpp/nodes/request_tracker_layer.cpp:170-227 | A valid layer not yet received sets its flag, the count and the state, and nothing else of any request; any other arrival changes nothing and answers false |
| TrackerClass.RequestTrackerLayer.ResolveSeqNum | cpp/nodes/request_tracker_layer.cpp:281-291 | The request with that sequence number, or the empty id |
| DecodeRuns.InvariantOnEveryRun | cpp/nodes/node.cpp:369-418 | On every run with fresh ids, for any number of slots: states match the flags, queued triggers are for ready requests, decodes under way are exactly the DECODING requests |
| DecodeRuns.StatesMoveForward | cpp/nodes/request_tracker_layer.cpp:104-227 | Between any two points of a run a tracked request never moves back along WAITING_FOR_KV, RECEIVING_KV, READY_FOR_DECODE, DECODING, COMPLETED/FAILED, and a removed one does not return |
| DecodeRuns.LaidOutOnEveryRun | cpp/nodes/request_tracker_layer.cpp:60-72 | On every run, whatever the ids, a tracked request has exactly the configured number of layers, each with its id, size and offset |
| DecodeRuns.DecodingOnlyWhenComplete | cpp/nodes/worker_node.cpp:376-431 | DECODING and later states are reached only with every one of the configured layers flagged, and at least one layer |
| DecodeRuns.OneTriggerEach | cpp/nodes/node.cpp:387-417 | At most one KV_TRANSFER_COMPLETE is pushed for a request |
| DecodeRuns.StuckIffTriggerLost | cpp/nodes/node.cpp:387-417 | The arrival that completes a request leaves it ready with no trigger queued if and only if the fence failed or the queue was full |
| DecodeRuns.DecodeStartsIffTriggered | cpp/nodes/node.cpp:387-417 | Once the last layer has arrived, some continuation starts the decode if and only if the fence succeeded and the queue had room |
| DecodeRuns.LostTriggerIsFinal | cpp/nodes/node.cpp:390-416 | If the fence fails or the queue is full when the last layer of a request arrives, the request stays ready on every continuation |
| DecodeRuns.TriggersAreLost | cpp/nodes/node.cpp:390-416 | Runs on which each of the two happens |
| DecodeRuns.SlotComesBackIffDecoded | cpp/nodes/worker_node.cpp:406-430 | When a decode has ended and been cleaned up, its slot can be prepared again if and only if the decode succeeded |
| DecodeRuns.SlotRefusedUntilCleanup | cpp/nodes/worker_node.cpp:406-430 | On every continuation the slot of a decode that has ended is refused until its clean-up, which comes after the orchestrator was told of the completion; a failed decode has none, so its slot is lost |
| NodeClass.DecodeNode.ProcessCompletions | cpp/nodes/node.cpp:369-418 | The loop over completions takes the run model's arrival steps in order |
| NodeClass.DecodeNode.HandlePrepareDecodeSlot | cpp/nodes/worker_node.cpp:433-450 | Accepted exactly for a free slot of the layout (and a layer count that is not negative): the request then waits for KV with all its layers missing, and no other changes; otherwise everything is as it was |
| NodeClass.DecodeNode.BeginNext | cpp/nodes/worker_node.cpp:376-389 | Takes the oldest event; a trigger for a tracked request sets it to DECODING, and anything else changes no request |
| NodeClass.DecodeNode.FinishDecode | cpp/nodes/worker_node.cpp:406-430 | A completed request is removed and its slot is no longer in use; a failed one stays tracked as FAILED; no other request changes |
| Memory.RouterAgreesWithNode | cpp/apps/orchestrator/request_router.cpp:52-53 | Router and decode node compute the same slot base for every configuration with equal layers, even where size_t arithmetic wraps |
| Memory.LayerOffsetIsExact | cpp/nodes/request_tracker_layer.h:34-44 | The node's offset is (slot * layers + layer) * size modulo 2^64, whatever wrapped on the way |
| Memory.OffsetsDoNotWrap | cpp/nodes/request_tracker_layer.h:42-48 | In a layout that fits, offsets are exact and every range ends inside the buffer |
| Memory.ConnectorAgreesWithNode | python/rdma_connector.py:630-668 | From the base it was sent, the connector computes the node's own offset |
| Memory.ConnectorRefusesIff | python/rdma_connector.py:643-660 | It raises exactly for layers beyond the count and starts beyond the buffer |
| Memory.InBoundsIffFits | cpp/nodes/request_tracker_layer.h:34-48 | For every layout: all its ranges are in the buffer if and only if it has none or slots * layers * size is at most the buffer size |
| Memory.RangesAreDisjoint | cpp/nodes/request_tracker_layer.h:42-44 | Distinct (slot, layer) pairs own disjoint ranges |
| Memory.SlotsAreDisjoint | cpp/nodes/request_tracker_layer.h:38-40 | The regions of two slots are disjoint |
| Memory.FitsInMegabytes | cpp/common/config.cpp:113-115 | For sizes that are sizes in bytes, the layout fits exactly when the megabytes do |
| Memory.CheckedLayoutInBoundsIffNoWrap | cpp/nodes/node.cpp:49-54 | For every node that passed the startup check: all ranges are in bounds if and only if there are none or the layout fits; while buffer and layer sizes are below 2^64 bytes, if and only if there are none or the required size did not wrap modulo 2^64 |
| Memory.CheckPassesByWrapping | cpp/common/config.cpp:113-115 | A configuration that needs 2^64 MB passes the check with an empty buffer |
| Memory.WriteAcceptedIff | cpp/rdma/rdma_engine.cpp:922-945 | A write is accepted if and only if its end is within the buffer or within it beyond 2^64; it is posted if and only if it is accepted and not empty |
| Memory.PostedInsideIffNoWrap | cpp/rdma/rdma_engine.cpp:922-939 | A write below 4 GiB that the bound check lets through is posted inside the remote buffer, by its posted address and length, if and only if offset plus length did not wrap |
| Memory.LongWriteInsideIff | cpp/rdma/rdma_engine.cpp:922-967 | For every length, cut to 32 bits when posted: the posted write is inside if and only if its address did not wrap and offset plus the cut length is at most the buffer size |
| Memory.WrappedWriteLandsOutside | cpp/rdma/rdma_engine.cpp:922-939 | A write that wraps past the check and is posted outside the remote buffer |
| Memory.LayerWriteLands | cpp/rdma/rdma_engine.cpp:954-967 | Every layer write of a layout that fits is accepted and addressed to its own place; the posted length is cut to 32 bits |
| QpPairing.QpTable.FillFromPeer | cpp/nodes/worker_node.cpp:191-243 | Fills exactly the entries for one peer from the peer's first entry for us; stops at a peer without one or with QP number 0; local sides untouched |
| QpPairing.QpTable.HandleBroadcastMemberInfo | cpp/nodes/worker_node.cpp:105-244 | Succeeds if and only if every peer that an entry is for made a first entry for us, with a QP number; then every entry is filled as the pairing lemmas say; local sides survive in any case |
| QpPairing.FilledByItsPeer | cpp/nodes/worker_node.cpp:117-243 | Only the peer's own message fills an entry, wherever it stands in the broadcast |
| QpPairing.PairIsSymmetric | cpp/nodes/worker_node.cpp:117-244 | Nodes that process the same broadcast with one entry for each other: each one's remote QP number, LID, GID, PSN, rkey and address are the other's local ones; local fields unchanged |
| QpPairing.PairedIffBothFirst | cpp/nodes/worker_node.cpp:191-215 | With several entries for a peer, two entries point at each other if and only if each is its table's first |
| QpPairing.ConnectedEndsAgree | cpp/rdma/rdma_engine.cpp:811-846 | Two filled entries connect to ends that agree: each side's rq_psn is the other's sq_psn, and each addresses the other's QP, LID and GID |
| QpPairing.EnginesAgree | cpp/rdma/rdma_engine.cpp:122-135 | After both nodes have handled the broadcast and connected all their queue pairs, the queue pair each holds for the other agrees with the other's |
| QpPairing.RdmaEngine.FindPeerInfo | cpp/rdma/rdma_engine.cpp:877-887 | The first entry for the peer, if any |
| QpPairing.RdmaEngine.ConnectQpToPeer | cpp/rdma/rdma_engine.cpp:740-875 | RTS with the attributes of the table entry if and only if the entry is filled and both transitions are accepted; RTR if only the second is refused, else unchanged; no other queue pair changes |
| QpPairing.RdmaEngine.ConnectAllQps | cpp/rdma/rdma_engine.cpp:122-135 | Success if and only if all connect; then all are in RTS |
| Bootstrap.RdmaExchangeTracker.RegisterNode | cpp/apps/orchestrator/rdma_exchange_tracker.cpp:18-58 | A first registration adds the node to the registered set and its role's set |
| Bootstrap.RdmaExchangeTracker.MarkNodeReady | cpp/apps/orchestrator/rdma_exchange_tracker.cpp:97-132 | A registered node becomes ready; true exactly when as many are ready as registered |
| Bootstrap.OrchestratorBootstrap.HandleProcessRdmaRegistration | cpp/nodes/worker_orchestrator.cpp:228-287 | Takes the protocol's registration step, and broadcasts the whole membership exactly when the total reaches the expected number |
| Bootstrap.EveryMemberIsReached | cpp/nodes/worker_orchestrator.cpp:262-278 | That broadcast goes to every registered node |
| Bootstrap.OrchestratorBootstrap.HandleReady | cpp/nodes/worker_orchestrator.cpp:290-306 | Takes the protocol's report step: RUNNING is set when the report completes the registered set |
| BootstrapRuns.OrderlyOnEveryRun | cpp/nodes/worker_orchestrator.cpp:228-306 | On every run: ready nodes have handled the broadcast, and it reached at most the expected number |
| BootstrapRuns.RunningOnlyWhenAllReady | cpp/nodes/worker_orchestrator.cpp:290-306 | The step that sets RUNNING is exactly a report that completes the registered set; then exactly the expected number are registered and each has handled the broadcast |
| BootstrapRuns.RunningReachableIff | cpp/nodes/worker_orchestrator.cpp:228-306 | From a state that is not running some continuation reaches RUNNING if and only if the expected number is positive and nodes are missing, or exactly the expected ones are registered and none has lost its broadcast |
| BootstrapRuns.ChanceLostIff | cpp/nodes/worker_orchestrator.cpp:251-305 | Exactly two kinds of step take that chance away: a registration beyond the expected number, and an exchange that fails |
| BootstrapRuns.ExtraNodeBlocksRunning | cpp/nodes/worker_orchestrator.cpp:251-305 | A node too many, registered before RUNNING, keeps the cluster from ever running |
| BootstrapRuns.FailedExchangeBlocksRunning | cpp/nodes/worker_node.cpp:218-237 | So does one node whose exchange fails |
| BootstrapRuns.ReportsAreFirst | cpp/apps/orchestrator/rdma_exchange_tracker.cpp:108-113 | On those runs a report is always the node's first, so the second lock is never taken |
| BootstrapRuns.RunningLinkedIff | cpp/nodes/worker_node.cpp:248-268 | When RUNNING is set every node has connected all its queue pairs if and only if none reported after failing to |
| RecvCredits.CreditsBounded | cpp/rdma/rdma_engine.cpp:145-409 | Posted receives plus unpolled completions never exceed qp_max_recv_wr, and equal it if and only if no poll has failed |
| RecvCredits.FatalIffFiveInARow | cpp/rdma/rdma_engine.cpp:378-406 | On every run the failure counter is the number of failed replenishments since the last success, and the fatal flag is up if and only if five failed in a row |
| RecvCredits.FlagRisesOnce | cpp/rdma/rdma_engine.cpp:390-397 | The flag rises exactly at the failure that makes five, and never falls |
| RecvCredits.TakenIsReturnedUnlessLost | cpp/rdma/rdma_engine.cpp:343-408 | A poll hands over what it took, except on a bad status or the failure that raises the flag |
| RecvCredits.ReceiveSide.PostRecvWrs | cpp/rdma/rdma_engine.cpp:295-311 | Posts one by one; a refusal leaves what was posted so far |
| RecvCredits.ReceiveSide.PrePost | cpp/rdma/rdma_engine.cpp:145-158 | From a new engine a successful pre-post makes the state every run starts from |
| RecvCredits.ReceiveSide.PollRecvCq | cpp/rdma/rdma_engine.cpp:328-409 | State and result of one poll, as the run lemmas assume; an error takes nothing, and a bad status posts nothing back |

## Left out

- Messages.RoundTrip: is about transmitted fields; the two socket fields of a node that are never sent are not part of the record.
- Stream.DecodedIsPrefixOfSent: says nothing of a stream whose first over-long message has a length field that passes for a length; what is decoded then depends on the bytes inside that message (HugeResponseIsMisread is one case), and AllDeliveredIffAllFit covers full delivery in every case.
- Messages.TruncatedMessageRejected: is about messages whose lengths fit their prefixes; of others some accept a strict prefix (HugeResponseTruncates) and some do not parse at all.
- Stream.SettledIsDelivered: is about links that never broke; at end of stream the reader discards what it buffered in that same read, so nothing is promised for it.
- Connection.ConnectionState.HandleWrite: does not model that EPOLLOUT is armed while output is pending; the lock is released before re-arming, and only byte order and conservation are claimed.
- MessageReader.Cursor.ReadMembers: does not model exhaustion of memory when a hostile count resizes the vector before its elements are read.
- SlotRuns.ConsistentOnEveryRun: assumes that no request starts under an id in use; ReusedIdLosesASlot shows what happens otherwise, and the partition holds regardless.
- RequestRouting.RequestRouter.IncrementNodeLoad: counts in unbounded integers; overflow of a counter at INT_MAX is undefined in the source.
- RequestRouting.RequestRouter.SelectBy: the random policy takes its draw as an input; no distribution is claimed.
- Orchestrator.ConservedOnEveryRun: takes each handler as one step and assumes that finishing messages echo the nodes the request was assigned; finer interleavings of increment and decrement are not claimed.
- OrchestratorWorker.WorkerOrchestrator.HandleDecodeComplete: is a step of its own although the dispatch has no case for DECODE_COMPLETE.
- LayerTracker.FiresIffCovered: a flag means at least one completion for the layer; keys and values share an immediate, so it does not say that both have arrived, nor for which holder of a reused slot.
- LayerTracker.ImmediateResolves: is about host-order immediates; the sender applies htonl and the poll loop no ntohl.
- DecodeRuns.DecodingOnlyWhenComplete: assumes that KV_TRANSFER_COMPLETE events come from the poll loop; one received from the network would be dispatched too.
- DecodeRuns.InvariantOnEveryRun: assumes that no id is ever accepted twice, and takes handlers as single steps; between add_request and the state update that follows it a layer could otherwise arrive.
- TrackerClass.RequestTrackerLayer.AddRequest: a negative layer count is the vector's exception; failure to allocate a huge vector is not modelled.
- Memory.RouterAgreesWithNode: assumes equal layer count and size; the orchestrator builds its router with default values, so agreement is up to the deployment.
- QpPairing.RdmaEngine.ConnectQpToPeer: MTU, timers and access flags are not modelled.
- QpPairing.QpTable.HandleBroadcastMemberInfo: the failure of a broadcast leaves by an exception; what becomes of the worker thread then is not modelled.
- Bootstrap.RdmaExchangeTracker.RegisterNode: requires a first registration, as MarkNodeReady requires a first report: a repeated call takes a shared lock on a mutex it already holds.
- BootstrapRuns.RunningOnlyWhenAllReady: a failed QP connection is only logged before the report is sent, so RUNNING means that every node handled the broadcast; RunningLinkedIff says when it also means that every QP is connected.
- RecvCredits.CreditsBounded: is about one queue pair after a successful pre-post; receives are posted to the first peer's queue pair only, and several peers are not modelled.
- Enumerators are plain bytes on the wire and here; a decoded byte is not range-checked by the source.
- Sockets, epoll, threads, HTTP and vLLM calls, CUDA, ibverbs, YAML, logging, shell scripts and tensors: foreign code, abstracted to its results.
- The benchmark client and the connection class with its own 10 MB limit: separate code paths with their own framing.
- Timestamps, latency averages, generated ids, age-based cleanup, NUMA and port choice, statistics: easy or not part of the protocols.
- Reads of the staging buffer in Python, and matching of requests by tensors of token ids.
- Removal of nodes and health updates in the registry, and resetting of load counters.
