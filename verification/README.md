# A verified model of a BitTorrent client's core

This project models the parts of the client where a mistake shows only over a whole run, over every byte string or
over every interleaving, and proves what those parts are for. It has six cores.

**Peer connection manager** (`ManagerModel` to `ManagerWitnesses`, `PeerConnectionManager`, `SlotPool`,
`OverwritableCache`, `Transport`). The manager is a single-threaded machine driven by an event loop. Each callback is
one step. What the kernel answers to `connect`, `accept`, `send`, `recv` and `getsockopt` is an argument, so a theorem
about all runs is a theorem about every behaviour of the network. `ManagerModel` gives each callback as a function on
the manager's state; `PeerConnectionManager` writes the callbacks as methods that update the fields of a class, loops
and branches included, and proves each equal to its function. A failed assertion sets `crashed`. Some fields only
remember: `log` the releases, attempts, queued and popped retries, and in a peer's record `atOnce` whether its last
`connect` succeeded at once, `taken` and `heard` the bytes its socket took and brought since it was opened. Counters
wrap around as `std::size_t` does, so "never underflows" is a theorem and not an assumption. What an event leaves
behind is stated apart from the callbacks, in `ManagerOutcomes`, and how far each loop goes in `ManagerLoops`,
`ManagerServing` and `ManagerWakeUps`.

Two kinds of run are used. In a *covered* run, an accepted connection whose endpoint is already registered only ever
meets a peer whose attempt is in flight, that is, whose socket watcher is started. In a *safe* run it only ever avoids
a peer that is connected. Neither sees a disconnect update, because nothing in the client sends one.
`ManagerAccepting.AcceptExactly` shows that the two conditions are the exact ones: the accept crashes if and only if it
meets a connected peer, and it leaves the counters right if and only if the endpoint is new or in flight.

**Single-producer queue** (`SpscQueue`). Every shared load, slot access and shared store is its own step, and the
theorem ranges over all interleavings of the two threads' steps, with their stale cached indices.

**Ring buffer and handshake** (`IoRingBuffer`, `Handshake`, `HandshakeTransfer`). The ring is proved to be a bounded
byte queue for every capacity. The decoder is proved independent of where the ring wraps. The transfer of one handshake
from a resumable encoder over partial sends and receives to the decoder is a transition system with a progress theorem.

**Bencode** (`Decimal`, `Bencode`, `BencodeGrammar`, `BencodeSpans`, `KeyOrder`, `BencodeRoundTrip`,
`BencodeDecoder`). The grammar of BEP 3, section "bencoding", is a set of trees with their bytes, defined apart from
the decoder. The decoder is proved to accept exactly that grammar, with exact source spans, and to be the inverse of
the encoder up to the order of dictionary keys.

**Pieces and files** (`PieceLayout`, `PieceMapper`). The download is laid out byte by byte; the search on demand and
the eager table are both proved against that layout.

**Bitset and SHA-1** (`BitWords`, `WordBits`, `Bitset`, `BitsetPayload`, `DynamicBitset`, `SecureHash`, `Sha1`). The
packed words are proved against a sequence of flags, the iterator against the list of set indices, the payload codec
against the bitfield message of BEP 3, section "peer messages". The hash is proved against FIPS 180-4, sections 5.1.1
and 6.1.2.

Where the code and what one might expect of it differ, the code is kept and the exact condition is proved; where a
run is needed to get there, the run is given:

- Accepting a connection from an endpoint that is already registered: `ManagerAccepting.AcceptExactly` and
  `ManagerBounds.AcceptIdleBound`, with the runs `ManagerWitnesses.ReconnectCrashes`, `ConnectsWhileDelayed` and
  `ConnectsWhileQueued`.
- The round robin's `empties` flags outlive a wake-up, so a later wake-up can end with retries waiting. Which ones do:
  `ManagerWakeUps.WakeUpServesRetries`; a run after which a retry waits with nothing left to wake the scheduler for it:
  `ManagerWitnesses.RetryLeftWaiting`.
- A `connect` that succeeds at once skips the encoding of the handshake. Which connected peers were sent one:
  `ManagerTheorems.HandshakesAreSent`; a run that dispatches one that was not: `ManagerWitnesses.DispatchedUngreeted`.
- Encoding a decoded value gives the same bytes if and only if every dictionary's keys came in order:
  `BencodeRoundTrip.EncodeUndoesDecode`.
- The single-file branch of `create_piece_map` does not trim the last piece. It is right if and only if there is nothing
  to trim: `PieceMapper.CreateSinglePieceMap`.
- SHA-1 appends a 32-bit length. Its padding is the standard's if and only if the message is shorter than 2 to the 32
  bits: `Sha1.TailIsPadding`.

## Model

| member | source | states |
|---|---|---|
| `ManagerTheorems.CountersAreExact` | src/Client/PeerConnectionManager.hpp:52-82 | after every covered run each of the six counters is the cardinality it is named after (in-flight tracker slots, in-flight server slots, CONNECTED slots, FAILED slots, retry queue, cache), with inbound at most 35, outbound at most 15, connected at most 50, cache at most 200 |
| `ManagerTheorems.RegistryIsBijection` | src/Client/PeerConnectionManager.cpp:397-461 | after every safe run `peers` is a bijection between registered contacts and occupied slots, each slot's contact is its key, the free list holds every other slot once, and free slots are blank |
| `ManagerTheorems.NoAssertionFails` | src/Client/PeerConnectionManager.cpp:493-729 | after every safe run no enabled safe callback can fail an assertion, a CONNECTED peer has no watcher or timer that could call back, and every other occupied slot has a running timer or a live place in the retry queue |
| `ManagerTheorems.RetriesAreSafe` | src/Client/PeerConnectionManager.cpp:253-270 | a popped retry passed the generation check if and only if its occupancy had not ended; every ticket's queuing is on record; a ticket of the present occupancy is the only one, and finds the one contact it was queued for, from the tracker, with a closed socket; at most three connects per occupancy |
| `ManagerTheorems.NoTicketIsStale` | src/Client/PeerConnectionManager.cpp:464-512 | in covered runs every queued retry still belongs to the occupancy that queued it |
| `ManagerTheorems.DispatchesAreDelivered` | src/Client/PeerConnectionManager.cpp:698-716 | in covered runs the dispatch queue holds exactly one update per connected peer, with its socket and generation, and never more than the 50 it has room for |
| `ManagerTheorems.NoDescriptorLeaks` | src/Client/PeerManagerTypes.cpp:12-113 | in covered runs the open descriptors are exactly the sockets of in-flight and connected slots, each held by one slot |
| `ManagerTheorems.HandshakesAreSent` | src/Client/PeerConnectionManager.cpp:551-646 | after every safe run what a connected peer's socket took from us, recorded send by send, is the whole handshake if and only if it is not a tracker's contact whose last connect succeeded at once, and is nothing if and only if it is |
| `ManagerTheorems.HandshakesAreHeard` | src/Client/PeerConnectionManager.cpp:569-614 | after every safe run what a connected peer's socket brought, recorded arrival by arrival, is 68 bytes that begin with 19 and carry our info hash, and the peer is known by the id in the last 20 |
| `ManagerTheorems.NothingHeardIsLost` | src/Client/PeerManagerTypes.hpp:69-88 | after every safe run the ring of a peer that is being read holds all that its socket has brought so far, fewer than 68 bytes |
| `ManagerHandshakes.RunTalks` | src/Client/PeerConnectionManager.cpp:551-646 | the run invariant behind these: in flight or connected, what was taken and what waits to be sent are together the encoded part of the handshake, and an answered or connected peer has introduced itself |
| `ManagerWitnesses.DispatchedUngreeted` | src/Client/PeerConnectionManager.cpp:162-165 | a covered run dispatches such a peer with nothing sent |
| `ManagerWakeUps.WakeUpServesRetries` | src/Client/PeerConnectionManager.cpp:272-294 | below the limit and with retries waiting, a wake-up shortens the retry queue if and only if the flags, the spot, the cache and the limit let it get there; otherwise the queue stays as it was |
| `ManagerWitnesses.RetryLeftWaiting` | src/Client/PeerConnectionManager.cpp:272-294 | a covered run with one contact ends with its retry queued, no timer or watcher running and no wake-up pending |
| `ManagerWakeUps.RoundRobinShrinks` | src/Client/PeerConnectionManager.cpp:272-294 | no wake-up ever lengthens the retry queue |
| `ManagerWakeUps.WakeUpExhausts` | src/Client/PeerConnectionManager.cpp:272-294 | a wake-up that starts with no source wrongly marked empty and more free slots than attempts left under the limit ends at the limit of 35, or with the cache and the retry queue both empty |
| `ManagerLoops.ContactOutcome` | src/Client/PeerConnectionManager.cpp:199-225 | one discovered contact: already registered or refused by the kernel it is dropped and its slot is free again under a new generation; otherwise it is registered and its attempt has begun with every field of its peer as given |
| `ManagerLoops.DiscoveredSchedulerExactly` | src/Client/PeerConnectionManager.cpp:190-225 | the discovery loop goes from the freshest contact to the first one that is not registered and that the kernel lets be tried, begins that attempt and leaves the older contacts cached; it finds nothing only with no free slot or the whole cache used up; one answer of the kernel goes to each contact not registered |
| `ManagerLoops.RetryOutcome` | src/Client/PeerConnectionManager.cpp:253-270 | one queued retry: a stale ticket changes nothing else, a refused contact is given up with its slot blank under a new generation, an accepted attempt begins in the slot the contact has |
| `ManagerLoops.FailedExactly` | src/Client/PeerConnectionManager.cpp:253-270 | the retry loop stops at the first ticket that is not stale and whose attempt begins, with the later ones still queued, and otherwise empties the queue; every contact refused on the way is given up and no other is touched |
| `ManagerTheorems.CountIsCardinality` | src/Client/PeerConnectionManager.hpp:66-80 | the count the counters are compared with is the number of slots in that state |
| `ManagerRuns.StepKeeps` | src/Client/PeerConnectionManager.cpp:120-729 | every callback keeps the state invariant (shapes of slots, registry, free list, tickets, dispatches, log) in safe conditions |
| `ManagerRuns.StepExact` | src/Client/PeerConnectionManager.cpp:120-729 | every callback of a covered run keeps counters, limits and descriptors exact |
| `ManagerRuns.SafeRunKeeps` | src/Client/PeerConnectionManager.cpp:95-107 | so does every safe run, by induction on the events |
| `ManagerRuns.CoveredRunKeeps` | src/Client/PeerConnectionManager.cpp:95-107 | and every covered run keeps the exact part too |
| `ManagerAccepting.AcceptExactly` | src/Client/PeerConnectionManager.cpp:355-462 | an accept crashes if and only if it meets a connected peer, and keeps the counters right if and only if the endpoint is new or its attempt in flight |
| `ManagerAccepting.AcceptNewKeeps` | src/Client/PeerConnectionManager.cpp:397-415 | accepting a new endpoint keeps the invariant |
| `ManagerAccepting.AcceptOldKeeps` | src/Client/PeerConnectionManager.cpp:417-461 | accepting the endpoint of a registered, not connected peer replaces it and keeps the invariant |
| `ManagerAccepting.AcceptConnectedCrashes` | src/Client/PeerConnectionManager.cpp:434-446 | replacing a connected peer fails teardown's assertion |
| `ManagerAccepting.AcceptInFlightCounts` | src/Client/PeerConnectionManager.cpp:434-446 | replacing an in-flight peer moves the right counters |
| `ManagerAccepting.AcceptIdleMiscounts` | src/Client/PeerConnectionManager.cpp:434-446 | replacing a FAILED or queued peer always leaves a counter wrong |
| `ManagerWitnesses.ReconnectCrashes` | src/Client/PeerConnectionManager.cpp:434-446 | after a covered run in which an endpoint connects and finishes its handshake, its next connection fails teardown's assertion |
| `ManagerWitnesses.ConnectsWhileDelayed` | src/Client/PeerConnectionManager.cpp:434-446 | a covered run after which a FAILED contact's own connection takes the inbound counter below zero |
| `ManagerWitnesses.ConnectsWhileQueued` | src/Client/PeerConnectionManager.cpp:434-446 | the same for a contact whose retry is queued |
| `ManagerBounds.SocketWinds` | src/Client/PeerConnectionManager.cpp:648-673 | a socket event only lowers the in-flight counters, and dispatches at most one peer below the quota |
| `ManagerBounds.RoundRobinBound` | src/Client/PeerConnectionManager.cpp:272-294 | a whole scheduling loop keeps every limit |
| `ManagerBounds.AcceptBound` | src/Client/PeerConnectionManager.cpp:718-729 | below the outbound limit, an accept that meets a new endpoint or an attempt in flight keeps every limit |
| `ManagerBounds.AcceptIdleBound` | src/Client/PeerConnectionManager.cpp:434-446 | one that replaces a FAILED or queued peer lowers the inbound counter, and so keeps the limits if and only if that counter was not zero |
| `ManagerServing.AcceptOutcomes` | src/Client/PeerConnectionManager.cpp:355-462 | the whole state after every answer of accept: nothing for an error, a closed descriptor with no free slot, a registered guest for a new endpoint, the old peer retired and resolved and the guest in its place for a registered one, a crash if that was connected |
| `ManagerServing.EndsExactly` | src/Client/PeerConnectionManager.cpp:718-729 | the accept loop takes answers up to the first reason to end and none after it: 50 connected, 15 in flight, would-block, another error, an accept with no free slot, or no more answers |
| `ManagerServing.InterruptionsChangeNothing` | src/Client/PeerCErrnoHandler.cpp:7-14 | interrupted and aborted accepts, anywhere among the answers, make no difference |
| `ManagerServing.AllAreAcceptedAnyway` | src/Client/PeerConnectionManager.cpp:355-462 | new endpoints, no more than quota, limit and free slots allow, are all registered in one wake-up, each in its own free slot with its own descriptor and waiting for a handshake; the outbound counter grows by their number and no other peer is touched |
| `ManagerServing.DrainOutcome` | src/Client/PeerConnectionManager.cpp:120-129 | a drain pushes every contact into the cache of 200, counts up to 200, and wakes the scheduler if and only if the quota is not met and a slot is free |
| `ManagerModel.TurnProgress` | src/Client/PeerConnectionManager.cpp:272-294 | each turn of the round robin lowers a measure, so the scheduler ends whatever the kernel answers |
| `ManagerCallbacks.HandleFailureKeeps` | src/Client/PeerConnectionManager.cpp:464-491 | deleting a peer out of retries or putting it in FAILED keeps the invariant and the counters |
| `ManagerCallbacks.TimerKeeps` | src/Client/PeerConnectionManager.cpp:493-512 | an expired timer, on a connecting or a waiting peer, keeps the invariant and the counters |
| `ManagerCallbacks.DispatchKeeps` | src/Client/PeerConnectionManager.cpp:698-716 | dispatching a peer keeps the invariant and the counters |
| `ManagerCallbacks.HardDeleteKeeps` | src/Client/PeerConnectionManager.cpp:521-530 | closing and deleting an in-flight peer frees its slot and resolves its counter |
| `ManagerCallbacks.TransportInitiationKeeps` | src/Client/PeerConnectionManager.cpp:616-646 | a transport event greets, fails or deletes the peer and keeps the invariant |
| `ManagerCallbacks.ReceiveHandshakeKeeps` | src/Client/PeerConnectionManager.cpp:569-614 | so does a received handshake, whatever arrives |
| `ManagerCallbacks.SocketKeeps` | src/Client/PeerConnectionManager.cpp:648-673 | and every socket callback |
| `ManagerOutcomes.SocketOutcome` | src/Client/PeerConnectionManager.cpp:648-673 | what every socket event leaves, case by case, for whatever the kernel answers: the peer retired, delayed, dispatched or going on, with every field, counter, descriptor and notification |
| `ManagerOutcomes.TimerOutcome` | src/Client/PeerConnectionManager.cpp:493-512 | an expired timer of a waiting peer queues its retry and wakes the scheduler; any other is a failure |
| `ManagerOutcomes.FailureEnds` | src/Client/PeerConnectionManager.cpp:464-491 | a failed peer is delayed by 15 times its failures if it is a tracker's contact with fewer than three, and retired otherwise |
| `ManagerOutcomes.SendKeepsTheRest` | src/Client/PeerManagerTypes.hpp:52-68 | what a send took and what it left are together what was queued, and it takes nothing if it fails |
| `ManagerOutcomes.InitiationOutcome` | src/Client/PeerConnectionManager.cpp:616-646 | a connected tracker peer has its whole handshake queued less what the socket took, then writes on or reads; a socket error is a failure |
| `ManagerOutcomes.FinishOutcome` | src/Client/PeerConnectionManager.cpp:551-567 | further sends go on until the ring is empty; then a tracker's contact reads and an accepted peer is dispatched |
| `ManagerOutcomes.ReceiveOutcome` | src/Client/PeerConnectionManager.cpp:569-614 | a read that leaves the handshake short waits for more, a wrong handshake retires the peer, a right one dispatches a tracker's contact and answers an accepted peer; an error or shutdown is a failure |
| `ManagerOutcomes.TakenIsThePrefix` | src/Client/PeerManagerTypes.hpp:69-88 | ring and arrival together are the first 68 bytes of all that came |
| `ManagerOutcomes.AnySplit` | src/Client/PeerConnectionManager.cpp:569-583 | however a handshake is cut into non-empty arrivals, the events leave the manager in the very state one event with all the bytes would |
| `ManagerScheduling.DrainKeeps` | src/Client/PeerConnectionManager.cpp:120-129 | draining discoveries into the cache keeps the invariant and the cache counter |
| `ManagerScheduling.TryDiscoveredKeeps` | src/Client/PeerConnectionManager.cpp:195-225 | starting a discovered contact keeps the invariant, a duplicate contact included |
| `ManagerScheduling.TryDiscoveredCounts` | src/Client/PeerConnectionManager.cpp:195-225 | and the counters |
| `ManagerScheduling.TryDiscoveredAvailable` | src/Client/PeerConnectionManager.cpp:203-206 | an iteration of the discovery loop that starts no attempt leaves a slot free, so the next acquisition succeeds |
| `ManagerScheduling.TryFailedKeeps` | src/Client/PeerConnectionManager.cpp:253-270 | retrying the front of the queue keeps the invariant, for stale tickets too |
| `ManagerScheduling.TryFailedCounts` | src/Client/PeerConnectionManager.cpp:253-270 | and the counters |
| `ManagerScheduling.ScheduleKeeps` | src/Client/PeerConnectionManager.cpp:272-294 | a whole wake-up, with any answers of the kernel, keeps the invariant and the counters |
| `ManagerDescriptors.SocketCloses` | src/Client/PeerConnectionManager.cpp:648-673 | a socket callback closes at most its own peer's descriptor and opens none |
| `ManagerDescriptors.ScheduleOwned` | src/Client/PeerConnectionManager.cpp:143-173 | a whole wake-up keeps the one-to-one ownership of open descriptors, whatever attempts it starts and whichever fail at once |
| `ManagerDescriptors.AcceptOwned` | src/Client/PeerConnectionManager.cpp:355-462 | an accepted descriptor is kept by its slot or closed, and a replaced peer's is closed |
| `ManagerInvariant.UnqueueKeeps` | src/Client/PeerConnectionManager.cpp:253-270 | popping a retry keeps the tie between tickets, occupancies and the log |
| `ManagerInvariant.VacateKeeps` | src/Client/PeerConnectionManager.cpp:514-519 | deleting an occupancy frees exactly its slot and its contact |
| `PeerConnectionManager.ConnectionManager.TeardownConnection` | src/Client/PeerConnectionManager.cpp:59-79 | the method in place is the modelled step |
| `PeerConnectionManager.ConnectionManager.DeletePeerConnection` | src/Client/PeerConnectionManager.cpp:514-519 | the same for deletion without closing |
| `PeerConnectionManager.ConnectionManager.HardDeletePeerConnection` | src/Client/PeerConnectionManager.cpp:521-530 | the same for deletion with closing |
| `PeerConnectionManager.ConnectionManager.HandlePeerFailure` | src/Client/PeerConnectionManager.cpp:464-491 | the same for a failure |
| `PeerConnectionManager.ConnectionManager.PeerTimerCallback` | src/Client/PeerConnectionManager.cpp:493-512 | the same for the timer |
| `PeerConnectionManager.ConnectionManager.DispatchConnection` | src/Client/PeerConnectionManager.cpp:698-716 | the same for dispatch |
| `PeerConnectionManager.ConnectionManager.HandleTransportInitiation` | src/Client/PeerConnectionManager.cpp:616-646 | the same for transport events |
| `PeerConnectionManager.ConnectionManager.FinishHandshakeSend` | src/Client/PeerConnectionManager.cpp:551-567 | the same for the write half of the handshake |
| `PeerConnectionManager.ConnectionManager.ReceivePeerHandshake` | src/Client/PeerConnectionManager.cpp:569-614 | the same for the read half |
| `PeerConnectionManager.ConnectionManager.PeerSocketCallback` | src/Client/PeerConnectionManager.cpp:648-673 | the same for the socket callback |
| `PeerConnectionManager.ConnectionManager.DrainDiscovered` | src/Client/PeerConnectionManager.cpp:120-129 | the same for draining, as a loop |
| `PeerConnectionManager.ConnectionManager.ConnectPeer` | src/Client/PeerConnectionManager.cpp:143-173 | the same for connecting |
| `PeerConnectionManager.ConnectionManager.DiscoveredPeerScheduler` | src/Client/PeerConnectionManager.cpp:195-225 | the same for the discovery loop |
| `PeerConnectionManager.ConnectionManager.FailedPeerScheduler` | src/Client/PeerConnectionManager.cpp:253-270 | the same for the retry loop |
| `PeerConnectionManager.ConnectionManager.RoundRobinScheduler` | src/Client/PeerConnectionManager.cpp:272-294 | the same for the scheduler loop |
| `PeerConnectionManager.ConnectionManager.AcceptPeerConnection` | src/Client/PeerConnectionManager.cpp:355-462 | the same for one accept |
| `PeerConnectionManager.ConnectionManager.ServerSocketCallback` | src/Client/PeerConnectionManager.cpp:718-729 | the same for the accept loop |
| `SlotPool.AcquireKeepsValid` | src/Client/slot_pool.hpp:71-79 | acquiring keeps free list and occupied set complementary and free of repeats |
| `SlotPool.ReleaseKeepsValid` | src/Client/slot_pool.hpp:81-91 | releasing an occupied slot keeps them so |
| `SlotPool.ActiveIsOccupied` | src/Client/slot_pool.hpp:93-99 | `active()` is the number of occupied slots |
| `SlotPool.SlotRecyclingPool.Acquire` | src/Client/slot_pool.hpp:71-79 | takes the last free slot, or nothing and changes nothing |
| `SlotPool.SlotRecyclingPool.Release` | src/Client/slot_pool.hpp:81-91 | frees the slot and starts its next generation |
| `OverwritableCache.PushedAllKeepsFreshest` | src/Client/overwritable_cache.hpp:29-36 | any pushes leave exactly the freshest entries, up to the capacity, in order |
| `OverwritableCache.Cache.Push` | src/Client/overwritable_cache.hpp:29-36 | appends, dropping the stalest entry when full |
| `OverwritableCache.Cache.StalePop` | src/Client/overwritable_cache.hpp:38-46 | takes the oldest entry |
| `OverwritableCache.Cache.FreshPop` | src/Client/overwritable_cache.hpp:47-54 | takes the newest entry |
| `Transport.NonblockTcp.OpenSocket` | src/Client/PeerManagerTypes.cpp:12-34 | opens only without a socket and for the two address families; a failure leaves the socket as it was and sets exactly the failing step's error number |
| `Transport.NonblockTcp.Connect` | src/Client/PeerManagerTypes.cpp:45-71 | exactly when the result is connected, in progress or failed, and the error number in each case |
| `Transport.NonblockTcp.CloseSocket` | src/Client/PeerManagerTypes.cpp:105-113 | leaves no socket and no error |
| `Transport.NonblockTcp.Send` | src/Client/PeerManagerTypes.hpp:52-68 | removes from the ring exactly the bytes the kernel took, through interrupted calls |
| `Transport.NonblockTcp.Recv` | src/Client/PeerManagerTypes.hpp:69-88 | appends to the ring exactly the bytes that arrived, and tells shutdown from error |
| `Transport.Repeat` | src/Client/PeerManagerTypes.hpp:52-88 | the retry loop returns the first answer that is not an interruption |
| `SpscQueue.EveryInterleaving` | src/Client/spsc_queue.hpp:26-54 | under every interleaving: popped values are a prefix of pushed ones, at most `Size` pending, never both threads at one slot, and a push or pop fails if and only if the queue was full or empty at its index load |
| `SpscQueue.StepKeeps` | src/Client/spsc_queue.hpp:26-54 | each single shared access keeps the inductive invariant with stale caches |
| `SpscQueue.PushAloneEffect` | src/Client/spsc_queue.hpp:26-39 | a whole undisturbed push appends, unless `Size` values are pending |
| `SpscQueue.PopAloneEffect` | src/Client/spsc_queue.hpp:41-54 | a whole undisturbed pop takes the next value in order |
| `SpscQueue.Queue.Push` | src/Client/spsc_queue.hpp:26-39 | the method in place is that push |
| `SpscQueue.Queue.Pop` | src/Client/spsc_queue.hpp:41-54 | the method in place is that pop |
| `IoRingBuffer.ReadVectorsAreContents` | src/Client/io_ring_buffer.hpp:59-70 | the read iovecs joined are the queue's contents, for every capacity |
| `IoRingBuffer.WriteVectorsAreFreeCells` | src/Client/io_ring_buffer.hpp:72-83 | the write iovecs are the free cells in order: with the occupied ones they are every cell once |
| `IoRingBuffer.MaskWraps` | src/Client/io_ring_buffer.hpp:43-49 | the mask wraps the index whether or not the capacity is a power of two |
| `IoRingBuffer.ReadCommittedTakes` | src/Client/io_ring_buffer.hpp:85-91 | a partial read commit drops that many bytes from the front |
| `IoRingBuffer.WriteCommittedKeeps` | src/Client/io_ring_buffer.hpp:93-99 | a partial write commit adds cells at the back |
| `IoRingBuffer.TransfersAreFifo` | src/Client/io_ring_buffer.hpp:59-99 | over any sequence of partial commits what went in is what came out plus what is held |
| `IoRingBuffer.Buffer.CommitRead` | src/Client/io_ring_buffer.hpp:85-91 | the method in place is the commit |
| `IoRingBuffer.Buffer.CommitWrite` | src/Client/io_ring_buffer.hpp:93-99 | the method in place is the commit |
| `Handshake.ComputedIsValid` | src/Client/PeerConnectionManager.cpp:109-118 | the message built from an info hash and a peer id is valid for that hash and carries that id |
| `Handshake.ComputedFields` | src/Client/PeerConnectionManager.cpp:109-118 | the message is 68 bytes: 19, the protocol string in bytes 1 to 19, eight zeros, the info hash in bytes 28 to 47, the client id in bytes 48 to 67 |
| `Handshake.Encode` | src/Client/bittorrent_messages.hpp:80-112 | one resumed call appends exactly the next bytes that fit, and completes exactly at the end |
| `Handshake.Decode` | src/Client/bittorrent_messages.hpp:114-224 | for every wrap position: complete, valid and peer id depend only on the queued bytes (valid exactly when byte 0 is 19 and bytes 28 to 47 are the info hash, the id then bytes 48 to 67 and otherwise untouched); the ring is emptied if and only if complete |
| `Handshake.WraparoundSteal` | src/Client/bittorrent_messages.hpp:64-71 | the stolen bytes are the first of the second vector, which keeps the rest |
| `HandshakeTransfer.StepConserves` | src/Client/PeerManagerTypes.hpp:52-88 | every encoder, send or receive step of any size conserves the message in transit |
| `HandshakeTransfer.SomeStepMoves` | src/Client/PeerManagerTypes.hpp:52-88 | until all has arrived some step can move bytes |
| `HandshakeTransfer.HandshakeArrives` | src/Client/bittorrent_messages.hpp:80-224 | over any run of such steps: the receiver holds the whole message if and only if all the work is done, and then decodes complete, valid and the sender's peer id |
| `Decimal.NumberIsCanonical` | src/Bencode/Bendecoders.cpp:16-37 | a numeral is read as n if and only if it is what `std::to_string` writes for a 64-bit n: no leading zero, no minus zero, no overflow |
| `BencodeGrammar.DecodesExactlyTheGrammar` | src/Bencode/Bendecoders.cpp:41-255 | the decoder returns a value, spans included, if and only if the grammar derives it: unique keys, any key order, nothing left over |
| `BencodeGrammar.StopsAtTheEnd` | src/Bencode/Bendecoders.cpp:119-130 | an encoding followed by any bytes is read to its own end |
| `BencodeGrammar.PrefixFree` | src/Bencode/Bendecoders.cpp:119-130 | no encoding is a proper prefix of another |
| `BencodeGrammar.TreeIsRead` | src/Bencode/Bendecoders.cpp:119-243 | every well-formed tree's bytes are read as that tree, at any position |
| `BencodeGrammar.ReadIsTree` | src/Bencode/Bendecoders.cpp:119-243 | everything that is read is the bytes of some well-formed tree |
| `BencodeSpans.SpansAreExact` | src/Client/TorrentFile.cpp:35-40 | every nested value's span alone decodes to that value with positions shifted, at any depth |
| `BencodeSpans.ChildrenAreDisjoint` | src/Bencode/Bendecoders.cpp:132-243 | children lie strictly inside their parent and never overlap, at any depth |
| `BencodeSpans.ItemsAreAdjacent` | src/Bencode/Bendecoders.cpp:132-180 | the items of a list are laid end to end in order |
| `BencodeRoundTrip.DecodeUndoesEncode` | src/Bencode/Benencoder.cpp:8-36 | decoding the encoding of any value gives the value back |
| `BencodeRoundTrip.EncodeUndoesDecode` | src/Bencode/Benencoder.cpp:22-36 | encoding a decoded value gives the same bytes if and only if every dictionary's keys came in order |
| `BencodeRoundTrip.EncodeWritesCanonical` | src/Bencode/Benencoder.cpp:8-36 | the encoder writes the grammar's bytes of the key-sorted value |
| `BencodeRoundTrip.Unambiguous` | src/Bencode/Bendecoders.cpp:41-255 | two values with the same bytes, whatever follows, are the same |
| `KeyOrder.SortIsSorted` | src/Bencode/Benencoder.cpp:24-25 | sorting by different keys permutes the pairs into strictly increasing key order |
| `KeyOrder.LessIsLexicographic` | src/Bencode/Benencoder.cpp:24-25 | the order of keys is by the first byte that differs, a proper prefix before what it is a prefix of |
| `KeyOrder.AnySortAgrees` | src/Bencode/Benencoder.cpp:24-25 | with different keys every sort gives that same sequence, so the library's algorithm does not matter |
| `BencodeDecoder.Source.DecodeString` | src/Bencode/Bendecoders.cpp:41-83 | the cursor method returns what the parse says and leaves the cursor there |
| `BencodeDecoder.Source.DecodeInteger` | src/Bencode/Bendecoders.cpp:85-116 | the same for integers |
| `BencodeDecoder.Source.DecodeAny` | src/Bencode/Bendecoders.cpp:119-130 | the same for any value |
| `BencodeDecoder.Source.DecodeList` | src/Bencode/Bendecoders.cpp:132-180 | the same for lists, as a loop |
| `BencodeDecoder.Source.DecodeDictionary` | src/Bencode/Bendecoders.cpp:182-243 | the same for dictionaries, duplicate keys refused |
| `BencodeDecoder.DecodeInput` | src/Bencode/Bendecoders.cpp:245-255 | accepts exactly the derivable inputs, with their derived value |
| `BencodeDecoder.ListEncoder` | src/Bencode/Benencoder.cpp:16-20 | the loop writes the list's encoding |
| `BencodeDecoder.DictionaryEncoder` | src/Bencode/Benencoder.cpp:22-36 | the sort and loop write the dictionary's encoding |
| `PieceLayout.RunsAreTheLayout` | src/Client/FileManager.cpp:169-210 | the runs of bytes lo to hi, laid end to end, are exactly those bytes of the byte-by-byte layout |
| `PieceLayout.RunsAreProper` | src/Client/FileManager.cpp:169-210 | runs are non-empty, inside their files and in strict file order |
| `PieceLayout.EveryByteOnce` | src/Client/TorrentFile.cpp:76-96 | the runs of all the pieces the torrent counts cover every byte of every file exactly once |
| `PieceLayout.CeilDivCovers` | src/Client/utils.hpp:7-9 | the checked piece count is the least that covers the download |
| `PieceMapper.PieceMapper.constructor` | src/Client/FileManager.cpp:112-167 | the range table holds where each file starts and ends |
| `PieceMapper.PieceMapper.LowerBound` | src/Client/FileManager.cpp:169-177 | the search returns the first file that does not end before the mark |
| `PieceMapper.PieceMapper.FilesFor` | src/Client/FileManager.cpp:169-210 | for every piece index, in range or not, the result is the runs of the piece's bytes |
| `PieceMapper.CreatePieceMap` | src/Client/old_file_mapper.cpp:28-90 | with the torrent's piece count no index is out of range and every entry is the runs of its piece |
| `PieceMapper.CreateSinglePieceMap` | src/Client/old_file_mapper.cpp:20-26 | in the single-file branch an entry is the runs of its piece if and only if the piece is a full one, so the whole table is right if and only if the length is a whole number of pieces |
| `PieceMapper.TableAndSearchAgree` | src/Client/old_file_mapper.cpp:28-90 | the table's entry and the search's result are the same for every piece, empty files included |
| `Bitset.TruesAreTheSet` | src/Client/DynamicBitset.cpp:232-277 | the iterated list is strictly increasing, holds exactly the set indices, and has `count` of them |
| `Bitset.TakeFirst` | src/Client/DynamicBitset.cpp:259-268 | dereferencing yields the least pending index and removes just that one |
| `Bitset.MaskAfter` | src/Client/DynamicBitset.cpp:212-224 | the first mask of `find_next` keeps exactly the indices after `from` |
| `Bitset.PopCountOfWord` | src/Client/DynamicBitset.cpp:78-85 | a word's population count is the number of flags it holds |
| `DynamicBitset.DynamicBitset.Set` | src/Client/DynamicBitset.cpp:168-176 | sets that flag and no other, ignores an index past the end, keeps the padding zero |
| `DynamicBitset.DynamicBitset.Reset` | src/Client/DynamicBitset.cpp:178-186 | clears that flag and no other |
| `DynamicBitset.DynamicBitset.Clear` | src/Client/DynamicBitset.cpp:188-192 | clears every flag |
| `DynamicBitset.DynamicBitset.Test` | src/Client/DynamicBitset.cpp:158-166 | tells the flag, and false past the end |
| `DynamicBitset.DynamicBitset.OrAssign` | src/Client/DynamicBitset.cpp:54-58 | union in place, also of a set with itself |
| `DynamicBitset.DynamicBitset.AndAssign` | src/Client/DynamicBitset.cpp:60-64 | intersection in place |
| `DynamicBitset.DynamicBitset.Or` | src/Client/DynamicBitset.cpp:66-70 | union in a new set, both operands unchanged |
| `DynamicBitset.DynamicBitset.And` | src/Client/DynamicBitset.cpp:72-76 | intersection in a new set |
| `DynamicBitset.DynamicBitset.Count` | src/Client/DynamicBitset.cpp:78-85 | the number of set flags |
| `DynamicBitset.DynamicBitset.Any` | src/Client/DynamicBitset.cpp:87-93 | whether some flag is set |
| `DynamicBitset.DynamicBitset.None` | src/Client/DynamicBitset.cpp:115-117 | whether none is |
| `DynamicBitset.DynamicBitset.All` | src/Client/DynamicBitset.cpp:95-113 | true if and only if every flag is set, padding or not |
| `DynamicBitset.DynamicBitset.FindFirst` | src/Client/DynamicBitset.cpp:204-210 | the least set index, or `npos` if there is none |
| `DynamicBitset.DynamicBitset.FindNext` | src/Client/DynamicBitset.cpp:212-227 | the least set index above `from`, or `npos` if there is none |
| `DynamicBitset.DynamicBitset.SetBits` | src/Client/DynamicBitset.cpp:198-305 | the range-based loop ends and yields exactly the set indices in order |
| `DynamicBitset.SetIterator.Increment` | src/Client/DynamicBitset.cpp:232-257 | caches the next word with something left and loses no pending index |
| `DynamicBitset.SetIterator.Dereference` | src/Client/DynamicBitset.cpp:259-277 | takes the least pending index; on a used-up word it returns the index past it |
| `DynamicBitset.SetIterator.IsEnd` | src/Client/DynamicBitset.cpp:279-294 | equals the end if and only if nothing is pending |
| `BitsetPayload.PayloadBits` | src/Client/DynamicBitset.hpp:87-91 | the message carries each flag at its place, highest bit first, spare bits zero |
| `BitsetPayload.DecodeUndoesEncode` | src/Client/DynamicBitset.cpp:21-52 | reading a set's message into a clear set restores it, into another set gives the union |
| `BitsetPayload.EncodeUndoesDecode` | src/Client/DynamicBitset.cpp:120-150 | every accepted message is the message of the set it makes |
| `BitsetPayload.SpareMask` | src/Client/DynamicBitset.cpp:29-33 | the mask over the last byte is non-zero if and only if some spare bit is set |
| `BitsetPayload.NetworkOrder` | src/Client/hwtonw.hpp:6-22 | on either byte order the converted word's bytes in memory run from highest to lowest |
| `BitsetPayload.EncodedByte` | src/Client/DynamicBitset.cpp:131-147 | byte p taken from the words is byte p of the message |
| `DynamicBitset.DynamicBitset.DecodeAsPayload` | src/Client/DynamicBitset.cpp:21-52 | refuses a wrong length or a spare bit and then changes nothing, otherwise the set becomes the union |
| `DynamicBitset.DynamicBitset.EncodeAsPayload` | src/Client/DynamicBitset.cpp:120-150 | one resumed call writes exactly the next message bytes that fit, and nothing after them |
| `DynamicBitset.DynamicBitset.EncodeInChunks` | src/Client/DynamicBitset.cpp:120-150 | any sizes of buffers put the message out once and in order |
| `SecureHash.ZeroBitsFillBytes` | src/Client/sha1.hpp:82-95 | the standard's zero bits, for whole bytes, are seven bits and whole zero bytes |
| `Sha1.LeftRotateIsRotl` | src/Client/sha1.hpp:35-37 | the rotation by exclusive or is the standard's |
| `Sha1.MixIsF` | src/Client/sha1.hpp:157-174 | the round functions written with or are the standard's |
| `Sha1.RoundIsTurn` | src/Client/sha1.hpp:157-181 | one round of the loop is one turn of section 6.1.2 |
| `Sha1.SHA1.ExpandBlock` | src/Client/sha1.hpp:140-150 | the eighty words are the message schedule |
| `Sha1.SHA1.ProcessBlock` | src/Client/sha1.hpp:140-188 | a full block updates the digest as section 6.1.2 does |
| `Sha1.SHA1.ProcessByte` | src/Client/sha1.hpp:58-66 | digest and buffer always stand for the bytes fed so far |
| `Sha1.SHA1.ProcessBytes` | src/Client/sha1.hpp:67-80 | the same for many bytes |
| `Sha1.SHA1.PadWithZeros` | src/Client/sha1.hpp:84-95 | both branches append the least number of zeros that leaves eight bytes |
| `Sha1.SHA1.GetDigest` | src/Client/sha1.hpp:81-107 | appends the tail and returns the hash of all the blocks |
| `Sha1.SHA1.GetDigestBytes` | src/Client/sha1.hpp:108-137 | the twenty bytes read as big-endian words are that hash |
| `Sha1.TailIsPadding` | src/Client/sha1.hpp:81-104 | below 2 to the 64 bits, the tail is the padding of section 5.1.1 if and only if the message is shorter than 2 to the 32 bits |
| `Sha1.HashInChunks` | src/Client/sha1.hpp:67-107 | any chunks give the hash of their concatenation, which is the standard's for messages shorter than 2 to the 32 bits |

## Left out

- Disconnect updates (src/Client/PeerConnectionManager.cpp:227-250): nothing in the client sends one; the scheduler's turn for them finds its queue empty.
- The transfer manager that receives dispatched peers: a stub in the client. A dispatched peer keeps its descriptor.
- A failing `getsockopt` call: the code asserts that it succeeds, and the model takes its error value as an argument.
- Generation counters and byte positions are unbounded: reaching 2 to the 64 takes longer than any run. The statistics counters do wrap.
- The rings inside a peer record are modelled by their contents, which the ring's own theorems justify; the registry and the free list are values of fields.
- Duplicate keys given to the dictionary encoder: the order in which `std::sort` leaves them is not defined; decoded dictionaries have none.
- `decode_as_payload` with an empty message for a set of length zero: the code reads the last byte of an empty span.
- Negative file lengths, missing or wrongly typed torrent fields: the torrent parser's own checks are not part of this model.
- SHA-1 of messages of 2 to the 61 bytes and more, for which FIPS 180-4 defines no digest.
- The C++ memory model beyond interleaved single accesses: every publication in the queue is a release store read by an acquire load.
- Deep nesting in bencode: the recursion of the model has no stack to exhaust.
- Trackers, HTTP, address parsing, the file system, printing, random identifiers, and the older bencoder: plumbing, or easy members.
