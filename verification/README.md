# Traffic inspector: a verified model

The inspector takes buffers from a fixed pool, receives a frame into each, classifies the frame with a
tree of dispatchers and hands it to the queue of a worker thread.  RADIUS workers pair requests with
replies by the packet identifier, give every pair to a notifier and drop packets that stay unanswered;
UDP and TCP workers let go of what they get.

The project models this in three layers.

- *Values*: `Bytes` (machine integers), `Frames` (header fields, predicates, sizes and hashes) and
  `Sessions` (what a worker has done after a history of messages: its `Ledger`, with two independent
  readings of the same history, one that looks back from each arrival and one per identifier).
- *Code that changes state*: `Attributes` (the parsing loop at machine width), `RadiusWorkers` (the
  worker's session map, counters, sweep and loop), `ObjectPools` (queue and pool) and `Dispatch` (tree
  and flat router with the processors' queues) are methods and classes proved against functions.
- *Threads*: `LockedQueue` (the queue under both lock policies, one atomic access at a time),
  `ShutdownProtocol` (how the workers of a processor end) and `Pipeline` (receive loop, workers,
  synchroniser and pool, one queue access at a time) are state machines.  A run is any sequence of step
  attempts, so every theorem about runs holds for every interleaving.  `Ownership`, `Delivery`,
  `WorkerLedgers`, `QueueOrder`, `Progress`, `Recovery` and `EndToEnd` are the theorems about `Pipeline`.

`dafny verify dfyconfig.toml` checks everything.

## Main results

- `EndToEnd.PairNotifiedOnce` and `EndToEnd.CarriedPairNotified`: in every run with any number of workers, a
  request and its direction-swapped reply meet at one worker and yield one notification, the only one
  that mentions either packet; it holds the attributes that the two frames carried when they were
  received.  This rests on hash symmetry, on single ownership of buffers (nobody overwrites a packet in
  flight), on order of delivery, on the worker's books and on the parser's round trip.
- `Progress.StarvesExactly`: some interleaving gets the pipeline stuck with an empty pool and idle
  workers if and only if the pool has at most 256 * min(R, 3061) buffers, for R RADIUS workers.  256 is the
  number of identifiers and 3061 the number of values of the worker hash on frames that a processor
  accepts.  `Progress.BufferComesBack` bounds the wait when the pool is larger, and
  `Recovery.RoundFreesAll` says how a stuck pipeline of any pool size gets every buffer back.
- `Sessions.LedgerTracks`, `Sessions.CountersAreTracks`, `Sessions.AfterLooksBack`,
  `Sessions.ExactlyOneFate` and `RadiusWorkers.RadiusWorker.ProcessPackets`: the worker's loop does to each identifier what that
  identifier's own packets and the SYNC messages determine, and every packet has exactly one fate.
- `Attributes.ParserExact`, `Attributes.ScanExact`, `Attributes.ParseEncoded`, `Attributes.EncodeParsed`: the parser accepts exactly
  the encoded attribute lists and inverts the encoder.
- `Dispatch.TreeDeliversLikeFlat`, `Dispatch.TreeEqualsFlat`, `Dispatch.MainTreeIsMainRouter`: when and why the tree is the flat router.
- `LockedQueue.Linearizable`, `LockedQueue.NoLostWakeup`, `ShutdownProtocol.ShutdownEnds`: the queue and
  the end of the threads.

## Properties that hold only under a condition

- The sweep's age test subtracts in a `size_t`.  "Age at least the timeout" is what it tests if and only if
  the clock has not stepped back behind the receive time, or has by so much that the wrapped difference
  is below the timeout (`Sessions.ExpiredMeansAge`).  With stamp 1, clock 0 and timeout 1000 a packet that
  has just arrived is dropped (`Sessions.StepBackDropsFreshPacket`).
- The parser reads behind the packet if and only if, behind whole attributes, one starts in the packet with
  a length octet of 0 or 1, so that `length -= 2` wraps to 254 or 255, and these octets do not fit
  (`Attributes.OverreadExactly`).  The attribute octets 1, 0 and any third one do that, in a frame with a
  correct length field (`Attributes.OverreadHappens`).
- The stop flag does not end every worker.  Once it is set, a worker leaves within three turns of its own,
  in every interleaving, if and only if it does not wait on an empty queue (`ShutdownProtocol.FlagEndsExactly`);
  a run of two workers leaves one there (`ShutdownProtocol.FlagStrands`), and any message put there ends the
  wait and the worker (`ShutdownProtocol.AnyPutEnds`).
- A tree and the flat router over its leaves deliver a frame alike if and only if no leaf accepts below a
  node that rejects, up to the first leaf of the flat scan (`Dispatch.TreeDeliversLikeFlat`).  They accept at
  all the same leaves if and only if that holds in the whole tree (`Dispatch.TreeEqualsFlat`), which is
  strictly more (`Dispatch.AgreementIsWeaker`).
- The constructor of `PacketProcessor` takes `responseTimeoutMsec` (2000 by default) and never stores it
  (include/PacketProcessor.hpp:14); the timeout in effect is the field's value of 1000
  (include/PacketProcessor.h:50) or what the setter stores.  The model treats it as the field's value.

## Model

| member | source | states |
|---|---|---|
| Frames.ComputeEthHash | src/Packets/RawPacket.cpp:71-83 | The accumulating loop computes, without wrap-around, the sum of both MAC addresses and the raw ether type. |
| Frames.ClassesOnOctets | include/Packets/RADIUSPacket.h:117-135 | The UDP, TCP and RADIUS predicates as conditions on the octets at 12, 13, 23 and 34 to 37. |
| Frames.RadiusOnOctets | include/Packets/RADIUSPacket.h:92-95 | Identifier at octet 43, length field at 44 and 45 in network order, and the packet size through the layers: frame size less 42, wrapped below that. |
| Frames.HashesOnOctets | src/Packets/UDPPacket.cpp:74-82 | The four hashes as sums of octets: only the sum of the IP addresses wraps, the sums in `size_t` never do. |
| Frames.SwappedHashesAgree | include/PacketProcessor.hpp:53-54 | Worker affinity: a frame with MAC addresses, IP addresses and ports exchanged and the same identifier octet has the same Ethernet hash, the same hashes along the RADIUS/UDP/IP chain, and the same classification. |
| Frames.RadiusFrameExists | src/Packets/RawPacket.cpp:71-83 | Every value from 8 to 3068 with every identifier is the hash of some RADIUS frame with a correct length field; so the bound of `Progress.StarvesExactly` is reached. |
| Attributes.ScanFrom | src/Packets/RADIUSPacket.cpp:114-161 | For every content of memory: the scan ends, its offset exceeds the packet by at most 254, and when it fails the offset stays inside. |
| Attributes.Iteration | src/Packets/RADIUSPacket.cpp:114-161 | One turn of the loop breaks exactly when fewer than three octets are left or the length octet exceeds the packet, and otherwise advances by at least 2 and appends the attribute. |
| Attributes.ReadAttribute | src/Packets/RADIUSPacket.cpp:116-149 | The three guards, the flags and the `uint8_t`/`uint16_t`/`size_t` arithmetic of one turn do just that, and `payload` stays in step with `dataOffset`. |
| Attributes.ParseAttributes | src/Packets/RADIUSPacket.cpp:109-161 | The whole loop terminates at machine width for every packet size that leaves room for an overshoot of 254, as those of received frames do, and its map, failure and final offset are those of the scan. |
| Attributes.ConstructRadius | src/Packets/RADIUSPacket.cpp:102-162 | The constructor returns the attribute map and failure of the scan over the shorter of computed size and length field, whatever lies behind the buffer; for a frame that ends before the RADIUS header, whose computed size wraps, up to a length field of 65281. |
| Attributes.ScanTiles | src/Packets/RADIUSPacket.cpp:114-161 | What the loop returns without its failing break is laid out in memory as encoded attributes up to the end of the packet. |
| Attributes.TilesScan | src/Packets/RADIUSPacket.cpp:114-161 | A packet laid out so is read without the failing break, and yields just these attributes and that end. |
| Attributes.ScanExact | src/Packets/RADIUSPacket.cpp:114-161 | Parser exactness for all length octets: no failing break if and only if the packet can be laid out as attributes, in which case it can in one way only. |
| Attributes.ParserExact | src/Packets/RADIUSPacket.cpp:114-161 | Parser exactness: no length octet below 2 is met and no failing break taken if and only if the body is empty or a concatenation of whole attributes with length octets of at least 2 that ends at the packet end and whose last value is not empty; these are then returned and nothing behind the packet is read. |
| Attributes.LongLengthsStayInside | src/Packets/RADIUSPacket.cpp:114-161 | A parse that meets no length octet below 2 reads nothing behind the packet, also when it fails. |
| Attributes.TilesConcatenation | src/Packets/RADIUSPacket.cpp:114-161 | With length octets of at least 2, laid out means: the body is the concatenation of whole attributes ending at the packet end, the last with a non-empty value, or is empty. |
| Attributes.ParseEncoded | src/Packets/RADIUSPacket.cpp:114-161 | Round trip: parsing any encoded list of attributes with 1 to 253 value octets recovers the list, ends at the packet end and reads nothing behind it. |
| Attributes.EncodeParsed | src/Packets/RADIUSPacket.cpp:114-161 | Converse round trip, for every length octet: encoding what was read without failing restores the octets that were read. |
| Attributes.EncodeLayout | src/Packets/RADIUSPacket.cpp:118-149 | The encoder writes the format of section 5 of RFC 2865: type, length of the whole attribute, value. |
| Attributes.MemoryOnOctets | src/Packets/RADIUSPacket.cpp:111 | The parser's memory is the buffer from octet 42 on, and behind octet 4095 whatever lies there. |
| Attributes.EncodedFrameParses | src/Packets/RADIUSPacket.cpp:102-162 | The round trip from a frame whose attribute octets encode a list, for every packet size inside the frame. |
| Attributes.CarriedIsParsed | src/Packets/RADIUSPacket.cpp:102-162 | A frame whose octets from 62 to the end of its packet encode a list gives the list's first-wins storage; the packet ends where the two length octets say, padding ignored, or with the frame if that is earlier. |
| Attributes.OverreadExactly | src/Packets/RADIUSPacket.cpp:138-149 | Reads pass the packet exactly when, behind some whole attributes in memory, an attribute of at least three octets in the packet has a length octet below 2 and its wrapped length does not fit. |
| Attributes.OverreadIsLast | src/Packets/RADIUSPacket.cpp:138-161 | The loop then ends without its failing break, behind the packet, and its last value has 254 or 255 octets. |
| Attributes.OverreadHappens | src/Packets/RADIUSPacket.cpp:138-149 | A RADIUS frame of 65 octets with a correct length field and attribute octets 1, 0 and any third, whose parse reads 253 octets behind the packet. |
| Attributes.FirstWins | src/Packets/RADIUSPacket.cpp:151-155 | The stored map has exactly the types that occur, each with the value of its first occurrence. |
| Sessions.ExpiredMeansAge | include/PacketProcessor.hpp:153-154 | When the wrapped subtraction means "age at least the timeout", and only then. |
| Sessions.StepBackDropsFreshPacket | include/PacketProcessor.hpp:153-158 | An input on which the worker times out a packet younger than the timeout: the clock steps back by one. |
| Sessions.AfterLooksBack | include/PacketProcessor.hpp:128-199 | Pending entries, notifications and total of the ledger are the waiting packets, the answered pairs and the number of timed out packets that looking back through the history finds. |
| Sessions.Balance | include/PacketProcessor.hpp:129-198 | Packets handled = 2 * notifications + timeouts + pending entries, after every message. |
| Sessions.ReportsAddUp | include/PacketProcessor.hpp:165-170 | The interval values of a ledger add up to its total; `RadiusWorkers.RadiusWorker.Counters` carries this to the worker's own counters. |
| Sessions.ExactlyOneFate | include/PacketProcessor.hpp:151-198 | Every packet is a reply, a request, timed out or pending, and exactly one of these. |
| Sessions.NotesDisjoint | include/PacketProcessor.hpp:176-198 | Every notification joins two consecutive arrivals of one identifier, the stored one earlier and not expired between; no packet is in two. |
| Sessions.PairNoted | include/PacketProcessor.hpp:176-198 | A request that finds its identifier free and the next packet of the identifier, without expiry between, are notified once and in no other notification. |
| Sessions.PendingParity | include/PacketProcessor.hpp:176-198 | While nothing has timed out, an identifier is pending exactly when it has arrived an odd number of times. |
| Sessions.TrackOnly | include/PacketProcessor.hpp:131-199 | The track of an identifier is the same on its own packets and the SYNC messages alone. |
| Sessions.LedgerTracks | include/PacketProcessor.hpp:131-199 | For each identifier, the ledger's waiting packet and answered pairs, and the number of its packets that the history shows timed out, are those of the identifier's own track. |
| Sessions.CountersAreTracks | include/PacketProcessor.hpp:150-170 | The ledger's total is the sum over all 256 identifiers of what their tracks have lost, and each value reported at a SYNC is the sum of what they lost at that SYNC. |
| Sessions.Independence | include/PacketProcessor.hpp:131-199 | Histories that agree on an identifier's packets and the SYNC messages leave it the same, whatever the other identifiers do. |
| RadiusWorkers.ResultNotifier.ProvideData | include/ResultNotifier.h:37-41 | Appends a record with the clock's reading, the source identification and both attribute maps, the reply's first. |
| RadiusWorkers.UntilShutdown | include/PacketProcessor.hpp:131-142 | How many messages a worker takes: all, or up to and including the first SHUTDOWN. |
| RadiusWorkers.AfterMatch | include/PacketProcessor.hpp:176-194 | Erasing and notifying the stored packet keeps map, total and notifications those of the ledger. |
| RadiusWorkers.AfterInsert | include/PacketProcessor.hpp:195-198 | Storing a packet does. |
| RadiusWorkers.AfterSweep | include/PacketProcessor.hpp:148-170 | Any sweep that erases exactly the expired entries and counts them does. |
| RadiusWorkers.RadiusWorker.constructor | include/PacketProcessor.hpp:128-131 | A new worker represents the empty history. |
| RadiusWorkers.RadiusWorker.SetTimeoutForWaitingResponse | include/PacketProcessor.h:45 | Changes the timeout and nothing that has been recorded. |
| RadiusWorkers.RadiusWorker.HandlePacket | include/PacketProcessor.hpp:175-198 | Match and insert as a step from ledger to ledger; for a match the notifier gets one record with the clock reading, its source identification, the packet's and the stored packet's attributes, otherwise none. |
| RadiusWorkers.RadiusWorker.Sweep | include/PacketProcessor.hpp:151-164 | Sweep exactness: the erase-while-iterating loop terminates, erases exactly the entries whose age test succeeds, leaves the others unchanged and raises both counters by the number erased, with the total's wrap-around. |
| RadiusWorkers.RadiusWorker.HandleSync | include/PacketProcessor.hpp:144-172 | A SYNC_TIMEOUT sweeps, reports the number erased since the last SYNC and resets the interval counter, as a step from ledger to ledger. |
| RadiusWorkers.RadiusWorker.Counters | include/PacketProcessor.hpp:129-170 | In every valid state the total is the sum of the values reported at all SYNCs, up to the wrap-around of a `size_t`, and these are what the tracks of all identifiers lost at each SYNC. |
| RadiusWorkers.RadiusWorker.Turn | include/PacketProcessor.hpp:131-199 | One message: recorded in the history, records passed on to the notifier, a SYNC's interval value reported, stop flag set by a SHUTDOWN only. |
| RadiusWorkers.RadiusWorker.ProcessPackets | include/PacketProcessor.hpp:123-201 | Worker refinement: on every stream the loop takes the messages up to the first SHUTDOWN; its map, total, notifications and reported values are those of the ledger of what it took; the total is the sum of the reported values. |
| LockedQueue.EveryRunSound | include/Utils/ObjectQueue.h:19-37 | The invariants of every run under either policy: exclusion, order, each call's effect between its call and its return, and an awake getter or a notification to come for every object while a consumer sleeps. |
| LockedQueue.Linearizable | include/Utils/ObjectQueue.h:19-37 | At most one thread in a critical section, no `front` of an empty container, no getter that goes on to spin beside an object, and what was taken is in lock order a prefix of the initial contents followed by what was put, the rest being in the container; per thread, effects and calls agree. |
| LockedQueue.CheckTakes | include/Utils/LockPolicies.h:58-67 | A getter that holds the lock and sees an object leaves the wait, takes the front, returns it and frees the lock, under either policy. |
| LockedQueue.CheckWaits | include/Utils/LockPolicies.h:16-20 | A getter that sees no object gives up the lock: it sleeps under the wait policy and asks for the lock again under the spin policy. |
| LockedQueue.GetSucceeds | include/Utils/ObjectQueue.h:19-28 | In every run, a getter that finds the lock free and an object there gets the front in four steps of its own. |
| LockedQueue.PutSucceeds | include/Utils/ObjectQueue.h:30-37 | In every run, a producer that finds the lock free appends its object in four steps of its own and wakes a sleeping consumer if there is one. |
| LockedQueue.CallsAsk | include/Utils/LockPolicies.h:35-67 | Calls, wakeups and the spin wait lead back to asking for the lock. |
| LockedQueue.NoLostWakeup | include/Utils/LockPolicies.h:16-24 | While a consumer sleeps and an object waits, some thread holds the lock or an awake getter can take it, spurious wakeups included. |
| LockedQueue.AwakeGettersCover | include/Utils/LockPolicies.h:16-24 | While a consumer sleeps, there are no more objects than consumers awake inside `getObject`, but for the one whose producer holds the lock and is about to notify. |
| LockedQueue.HolderProceeds | include/Utils/LockPolicies.h:58-67 | Whoever holds the lock can always make its next step. |
| ObjectPools.ObjectQueue.GetObject | include/Utils/ObjectQueue.h:19-28 | Takes the front. |
| ObjectPools.ObjectQueue.PutObject | include/Utils/ObjectQueue.h:30-37 | Appends at the back. |
| ObjectPools.ObjectPool.constructor | include/Utils/CommonObjectPool.h:52-58 | Fills the container with as many distinct objects as the pool's size. |
| ObjectPools.ObjectPool.GetObject | include/Utils/ObjectQueue.h:19-28 | Lends the front object and keeps queue plus lent objects the whole pool. |
| ObjectPools.ObjectPool.ReleaseObject | include/Utils/CommonObjectPool.h:68-72 | The deleter returns a lent object to the back of the queue and keeps queue plus lent objects the whole pool. |
| ObjectPools.ObjectPool.OwnedOnce | include/Utils/CommonObjectPool.h:52-72 | A lent object is lent once, is not in the queue and is one of the pool's. |
| Dispatch.PacketProcessor.OnDispatch | include/PacketProcessor.hpp:47-56 | The queue of the worker that is the frame's hash modulo the number of queues grows by this frame at its end, and no other queue changes. |
| Dispatch.PacketProcessor.OnDispatchBroadcast | include/PacketProcessor.hpp:58-71 | The loop appends the given control message to every worker's queue, once. |
| Dispatch.BroadcastGrows | include/PacketProcessor.hpp:64-67 | A broadcast leaves every queue as it was, followed by the message that was given. |
| Dispatch.ReplyFollowsRequest | include/PacketProcessor.hpp:53-54 | A reply goes directly behind its request into the queue of the worker that both hashes select, and into no other. |
| Dispatch.SearchMeaning | include/Dispatcher/IDispatcher.hpp:19-51 | The search gives an index exactly when some leaf accepts together with all its ancestors, and the child at the index holds the leftmost such leaf, also when an earlier child accepts at its root only. |
| Dispatch.DispatchFrame | include/Dispatcher/IDispatcher.hpp:55-64 | A node delivers to the leftmost such leaf, once, a leaf to itself unasked; no other processor changes, and the answer is whether the frame was delivered. |
| Dispatch.DispatchByIndex | include/Dispatcher/IDispatcher.hpp:86-100 | The child at the index searches again and delivers to its own leftmost accepting leaf. |
| Dispatch.InspectFrame | src/main.cpp:93-103 | Search and second search together deliver the frame exactly once, to the leftmost leaf that accepts with all its ancestors, or leave every queue alone when there is none. |
| Dispatch.DispatchBroadcast | include/Dispatcher/IDispatcher.hpp:68-82 | A broadcast over any tree appends exactly the given control message to every worker queue of every leaf. |
| Dispatch.Route | include/PacketRouter.hpp:117-142 | The flat router delivers to the first leaf that accepts, and to no other. |
| Dispatch.RouteControl | include/PacketRouter.hpp:146-154 | The flat router's control message reaches every queue once, at its end. |
| Dispatch.LeavesHoldProcessors | include/PacketRouter.hpp:146-154 | Tree and flat router broadcast to the same processors in the same order. |
| Dispatch.TreeDeliversLikeFlat | include/PacketRouter.hpp:117-142 | With different processors at the leaves, the queues that the receive loop leaves (`InspectFrame`) and those that the flat router leaves (`Route`) are the same for every processor if and only if no leaf accepts below a rejecting node up to the first leaf of the flat scan. |
| Dispatch.TreeEqualsFlat | include/Dispatcher/IDispatcher.hpp:19-51 | On a frame, tree and flat scan accept at all the same leaves if and only if no leaf accepts below a node that rejects; otherwise the tree accepts at no more leaves. |
| Dispatch.AgreementIsWeaker | include/Dispatcher/IDispatcher.hpp:19-51 | A tree that delivers like the flat router without accepting at all the same leaves. |
| Dispatch.MainTreeIsMainRouter | src/main.cpp:62-84 | On every frame the tree in `main` finds the same leaves as the older flat router over RADIUS, UDP and TCP. |
| ShutdownProtocol.ShutdownEnds | include/PacketProcessor.hpp:98-142 | From the moment a SHUTDOWN is in its queue a worker never blocks, leaves its loop within a bound on its own turns, handles a prefix of what lies before the SHUTDOWN and nothing behind it, and all of it when it leaves by the SHUTDOWN. |
| ShutdownProtocol.TakenIsHandled | include/PacketProcessor.hpp:131-199 | The flag is read at the head of the loop only: a worker that waits beside a message handles it before it can leave, whoever sets the flag meanwhile. |
| ShutdownProtocol.BroadcastAlone | include/PacketProcessor.hpp:60-71 | The puts of the broadcast loop, with nothing in between, append the given control message to the queues they have reached, and leave those that `OnDispatchBroadcast` leaves. |
| ShutdownProtocol.PutCondemns | include/PacketProcessor.hpp:60-71 | Once a run has put a SHUTDOWN into its queue, a worker has it before it or has left, however far the loop over the queues has got. |
| ShutdownProtocol.BroadcastEnds | include/PacketProcessor.hpp:60-71 | A SHUTDOWN broadcast ends every worker: the loop's puts may be interleaved with anything, and after them every worker is out once it has had the turns left to it. |
| ShutdownProtocol.FlagMeansBroke | include/PacketProcessor.hpp:131-142 | The stop flag is only set by a worker that has broken off at a SHUTDOWN, and nobody leaves early without it. |
| ShutdownProtocol.FlagEndsExactly | include/PacketProcessor.hpp:131-142 | With the flag set, a worker is out after three turns of its own in every interleaving if and only if it does not wait on an empty queue. |
| ShutdownProtocol.FlagStrands | include/PacketProcessor.hpp:131-142 | A run of two new workers in which one takes a SHUTDOWN and sets the flag and the other is left waiting. |
| ShutdownProtocol.AnyPutEnds | include/PacketProcessor.hpp:131-142 | With the flag set, any message put into its queue ends a worker. |
| ShutdownProtocol.FlagDoesNotWake | include/PacketProcessor.hpp:131-133 | A worker that waits on its empty queue stays there whatever the flag, until something is put. |
| Pipeline.Route | include/PacketProcessor.hpp:53-54 | The selected worker exists, and is a RADIUS worker exactly for RADIUS frames. |
| Pipeline.RouteIsMainTree | src/main.cpp:76-84 | The pipeline's routing is that of the tree in `main`. |
| Pipeline.RouteIsDelivery | include/PacketProcessor.hpp:53-54 | Within its processor the selected worker is the hash modulo the number of workers, the one whose queue `onDispatch` serves; the three processors' workers do not overlap. |
| Ownership.TurnConserves | include/PacketProcessor.hpp:98-199 | No step of any worker loses or duplicates a buffer: matched, timed out, stored and discarded packets alike. |
| Ownership.SingleOwnership | include/Utils/CommonObjectPool.h:52-72 | In every reachable state every buffer is in exactly one of free list, receive loop, worker queue, worker hand or session map, and no other buffer is anywhere. |
| Delivery.FillIntact | src/main.cpp:93-98 | Receiving into a buffer changes no packet in flight, because nobody else owns the buffer. |
| Delivery.RunIntact | src/main.cpp:90-104 | In every reachable state every packet in flight still has the contents it was received with. |
| Delivery.EveryPacketInOrder | include/PacketProcessor.hpp:47-56 | What a worker has handled, holds, has queued and may be about to get are exactly the frames received for it, in order of arrival, for every worker and every interleaving. |
| Delivery.LogsTrue | include/PacketProcessor.hpp:175-176 | A worker handles every packet with the identifier octet and the time that it was received with. |
| QueueOrder.HandledAsPut | include/Utils/ObjectQueue.h:30-37 | In every reachable state, what a worker has handled, holds and has queued, packets and SYNC messages alike, is what was put for it, in the order of the puts. |
| QueueOrder.BuffersInTurn | include/Utils/CommonObjectPool.h:52-72 | The pool is a queue: in every run the buffers taken are a prefix of all buffers followed by those given back, in that order, and the free list is the rest. |
| QueueOrder.SyncsAsRead | include/PacketProcessor.hpp:148-154 | The SYNC messages in a worker's log carry the clock readings that the run made for it, with the timeout in effect. |
| QueueOrder.ArrivalsAsReceived | src/main.cpp:93 | The recorded arrivals are the frames, times and surroundings of the run's receptions, in order. |
| QueueOrder.RoundRobin | include/PacketProcessor.hpp:64-67 | The synchroniser serves the worker queues in turn. |
| WorkerLedgers.EveryWorkerTracks | include/PacketProcessor.hpp:128-199 | In every reachable state, also in the middle of a sweep or a match, a RADIUS worker's session map and its notifications are those of the ledger of its log; UDP and TCP workers keep and notify nothing. |
| Progress.StarvedMeansStuck | include/Utils/ObjectQueue.h:19-28 | Empty pool, waiting receive loop and idle workers are exactly the states in which only the synchroniser can make a step. |
| Progress.NeverStarved | include/PacketProcessor.hpp:98-199 | Pipeline progress: with more than 256 * min(R, 3061) buffers no reachable state is stuck. |
| Progress.StarvesExactly | include/PacketProcessor.hpp:128-199 | Some run gets stuck if and only if the pool is no larger than that, for every number of workers. |
| Progress.WorkersSettle | include/PacketProcessor.hpp:98-199 | While the receive loop waits, in any interleaving with the synchroniser: the steps made and the effort left are at most the effort at the start and 260 for each put of the synchroniser. |
| Progress.BufferComesBack | include/Utils/CommonObjectPool.h:68-72 | With a larger pool, a waiting receive loop finds a free buffer at the latest when the workers have made the steps that this leaves them, the synchroniser's puts included. |
| EndToEnd.SameWorkerInOrder | include/PacketProcessor.hpp:53-54 | A request and its reply are routed to one RADIUS worker, which handles them in arrival order, each as received. |
| EndToEnd.RecordsTrue | include/ResultNotifier.h:37-41 | Every notification of every run holds the attribute maps parsed from its two frames as they were received. |
| EndToEnd.PairNotifiedOnce | include/PacketProcessor.hpp:176-198 | End-to-end pairing: with the identifier free before, no packet of it between and no expiry between, the notifier gets exactly one notification that mentions request or reply, and it holds the attributes of the two frames as received. |
| EndToEnd.CarriedPairNotified | include/PacketProcessor.hpp:176-198 | When the two frames carry encoded attribute lists, the record holds for each type the first value of these lists, whatever lies behind the buffers. |
| Recovery.RoundFreesAll | include/PacketProcessor.hpp:144-172 | From any quiet state and for every pool size: after a SYNC round whose clock readings are past all that is pending, every buffer is free as soon as the workers have nothing left to do. |
| Recovery.StarvedRecovers | include/PacketProcessor.hpp:144-172 | A stuck pipeline has such a run at any clock reading past all that is pending: the workers get there with what the round gives them. |
| Recovery.DueIsExpired | include/PacketProcessor.hpp:153-154 | A clock that has reached every pending receive time plus the timeout is such a reading. |
| Recovery.StarvedCanRecover | include/PacketProcessor.hpp:144-172 | There is one, and such a run, when every pending receive time plus the timeout is below 2^64. |

## Left out

- Sockets, promiscuous mode and failed receives (src/NIC.cpp): frames and receive times are arbitrary inputs.
- The timer and its polling (include/PacketDispatcher.hpp): a SYNC broadcast may start, and go on, at any time.
- The clock: its reading is an input of each SYNC message.
- Logging and all text output.
- The notifier thread (src/ResultNotifier.cpp), which only logs; notifications are an append-only sequence.
- The `RADIUSPacket(UDPPacket &&)` constructor (src/Packets/RADIUSPacket.cpp:44-100), which the dispatch path does not use.
- The `ObjectPool` destructor; the pool outlives the run.
- C++ object lifetime: the worker hash is read before its frame is moved away, and `m_stop` is atomic.
- The `next_level_header` out-pointers; fields are at the fixed offsets of 14, 20 and 8 header octets.
- The test of the tree's root: `ETHPacket` has no override of `isDispatchableType`, so every frame is taken to pass.
- `equal_range` and the scan over its range: keys are unique, so `HandlePacket` looks the one entry up in a map.
- The order in which a hash map is iterated: a sweep visits its entries in any order.
- The tuple of dispatchers is a sequence; the fold expansions over it are recursive methods.
- SHUTDOWN in `Pipeline`: nobody broadcasts it there, as in `main`; `ShutdownProtocol` and `ProcessPackets` cover it.
- The time and source of a record in `Pipeline`: a notification there holds its two attribute maps; `RadiusWorkers` covers the rest.
- The swap that takes the attribute maps out of the two packets of a notification: both are released right behind it.
- Integer width of the pool's size and of the queues' lengths, and memory that runs out.
- RadiusWorkers.RadiusWorker.ProcessPackets: the timeout does not change during one call; between two calls it may.
- Attributes.ConstructRadius: states nothing for frames that end before the RADIUS header and have a length field above 65281; their computed size wraps, the constructor asserts not to get them, and `dataOffset` could wrap.  In `Pipeline` such a packet has the attributes of a scan without 16-bit wrap-around.
- Recovery.RoundFreesAll: takes a clock reading past all that is pending as given; `StarvedCanRecover` says when there is one, and with a timeout near 2^64 there may be none.
- Dispatch.DispatchBroadcast: asks for different processors at different leaves, which the tuple's members are by construction.
- Progress.BufferComesBack: counts steps, not time; it does not say that the scheduler runs the workers.
