# Connection core of the peer-to-peer network layer, in Dafny

This project models `GenericConnection`, the per-connection state machine of the
node's network layer (`network/src/connection.rs`). A connection owns a non-blocking
socket, a receive buffer from which a pluggable `PacketSizer` carves frames, a priority
send queue, a readiness-interest set and a registration flag. It shares two
process-wide values with every other connection: the `HIGH_PRIORITY_PACKETS` counter
and the throttling service's byte ledger.

The model is functional. A connection is an immutable record:
`Connection(recvBuf, queue, interest, registered, globals)`. Each event handler
(`readable`, `write`/`writable`, `send`, `drop`, `is_sending`, and the registration
operations) is a pure transition from one record to the next. The collaborators become
inputs:

- The socket's reads are a sequence of `ReadEvent`s. `Data([])` is the zero-byte read.
- The socket's writes are a function from the offered slice to `Written(n)` or an error.
  `HonestWriter` requires `n` to be no larger than the slice.
- The `PacketSizer` is a function that never exceeds the buffered length (`ValidSizer`).
- The throttling service's admission decision is a boolean input.
- The outcome of `IoContext::update_registration` is a boolean input.

Modules:

- `Basics`: bytes, `Option`, `Result`, error kinds.
- `PrioritySendQueue`: the two FIFO sub-orders, plus `push_back`, `pop_front` and
  `front_mut` with promotion.
- `Throttling`: the ledger, `on_enqueue` and `on_dequeue`.
- `Framing`: the sizer contract and the unit tests' length-prefix sizer.
- `Socket`: the read loop (`Drain`), and the test socket's read and write sides.
- `GenericConnection`: the connection record and its handlers.
- `ConnectionProperties`: the case-by-case behaviour of each handler.
- `Accounting`: the invariant and the balance lemmas. The invariant has three parts:
  every queued cursor is below its payload length; admitted bytes equal dequeued bytes
  plus pending bytes; and the High counter equals its start value plus the size of the
  High sub-order.
- `Scenarios`: the source's unit tests and a teardown example.

The queue's source is not part of this model, so its behaviour is an assumption. When
`front_mut` finds no High entry, it moves the oldest Low entry into the High sub-order
and reports it as promoted. So `pop_front` later hands that entry out as High, and
`drop` gives back its count. `PrioritySendQueue.PromotedEntryPopsAsHigh` states this
assumption; it enters the model only through `PrioritySendQueue.FrontMut`. The
assumption follows from how `write` uses the counter. Suppose a promoted entry stayed
in the Low sub-order after `incr_high_priority_packets`. Then the next `write` of the
partly sent entry would find the High sub-order empty and the counter positive, and
would yield with `LowPriority` forever.

These members rest on the assumption through the counter:

- the counter clause of `Accounting.Inv`;
- `Accounting.FrontMutPreservesInv`;
- `Accounting.FinishPreservesInv`, including its claim that the decrement never meets a zero counter;
- `Accounting.WritablePreservesInv` and `Accounting.RunPreservesInv`;
- `Accounting.DropRestoresHighCounter`;
- the counter clause of `Accounting.LifetimeBalance`;
- the counter clauses of `ConnectionProperties.WritablePartial`, `ConnectionProperties.WritableCompletes` and `ConnectionProperties.WritableFails`, when a later write of the same entry is considered.

The byte balance does not depend on the assumption. Its members are
`Accounting.DropAccounting`'s byte clauses, `Accounting.DropBalancesLedger` and the
ledger clauses of `Accounting.LifetimeBalance`.

Four behaviours of the code worth noting:

- When a read fails, `readable` returns the error, and the chunks already read stay
  appended to the buffer (`network/src/connection.rs:108-113`).
- The test sizer's length byte counts the prefix itself. So `[3, 0]` followed by `[0]`
  gives a 3-byte frame (`network/src/connection.rs:381-394, 452-457`).
- `deregister_socket` leaves the `registered` flag set (`network/src/connection.rs:291-297`).
  A later `update_socket` therefore re-registers rather than registers.
- A write's `WouldBlock` is propagated by the `?` at `network/src/connection.rs:160`.
  It reaches the caller of `writable` as an error, like any other write failure.

## Model

| member | source | states |
|---|---|---|
| PrioritySendQueue.PushBack | network/src/connection.rs:210 | the queue grows by one entry; a Low entry comes out after everything queued; a High entry comes out after every High entry and before every Low entry |
| PrioritySendQueue.PopFront | network/src/connection.rs:80 | nothing comes out of an empty queue; otherwise the next entry in pop order comes out with the rest left in order; it is High exactly when a High entry was queued |
| PrioritySendQueue.FrontMut | network/src/connection.rs:140-149 | the entry chosen is the next in pop order; it is promoted exactly when no High entry exists; promotion does not reorder the queue and puts the entry at the front of the High sub-order |
| PrioritySendQueue.PromotedEntryPopsAsHigh | network/src/connection.rs:80-85 | an entry promoted by `front_mut` is handed out by `pop_front` as High (the assumed queue behaviour) |
| PrioritySendQueue.UpdateFront | network/src/connection.rs:169-171 | advancing the cursor through `front_mut`'s reference replaces only the front entry and keeps the length |
| PrioritySendQueue.Rest | network/src/connection.rs:184-186 | popping after `Complete` removes exactly the front entry, and does nothing on an empty queue |
| Throttling.OnEnqueue | network/src/connection.rs:208 | the call succeeds exactly when the service admits the bytes; a refusal is `ThrottlingRejected`; an admission adds the bytes to the outstanding total and to the admitted total |
| Throttling.OnDequeue | network/src/connection.rs:167 | the dequeued total grows by the bytes reported and the outstanding total drops by them, never below zero |
| Framing.TestPacketSize | network/src/connection.rs:381-394 | the frame length never exceeds the buffer; there is a frame exactly when the first byte is positive and at most the buffered length, and then its length is that byte |
| Socket.FirstStop | network/src/connection.rs:97-117 | the read loop stops at the first zero-byte read, `WouldBlock` or error, and every read before it delivered bytes |
| Socket.DrainAppendsUntilStop | network/src/connection.rs:97-118 | the read loop appends exactly the bytes of the reads before the stopping one, in order, and reports an error exactly when an error stopped it |
| Socket.TestSocketWriteHonest | network/src/connection.rs:360-370 | the test socket never claims to have written more bytes than it was offered |
| Socket.TestSocketReads | network/src/connection.rs:341-357 | the test socket delivers its unread bytes in chunks and then a zero-byte read, with no earlier stop |
| GenericConnection.New | network/src/connection.rs:231-241 | a fresh connection has an empty buffer and queue, no writable interest, and is not registered |
| GenericConnection.Readable | network/src/connection.rs:95-127 | `readable` changes only the receive buffer: queue, counters, interest and flag are untouched |
| GenericConnection.RegisterSocket | network/src/connection.rs:243-269 | the flag ends set even if the event loop fails; the event loop is called exactly when the connection was not registered |
| GenericConnection.UpdateSocket | network/src/connection.rs:271-289 | the flag ends set; it registers when unregistered, otherwise it re-registers with the current interest |
| ConnectionProperties.ReadableSplitsExactly | network/src/connection.rs:95-127 | an error is returned with no frame; otherwise there is a frame exactly when the sizer reports one; the frame is the first `size` bytes of old buffer plus chunks; the remainder stays buffered |
| ConnectionProperties.WritableYields | network/src/connection.rs:129-138 | with no local High entry and High traffic in flight, `writable` returns `LowPriority`, also on an empty queue; the socket is not consulted; the queue, counter and ledger stay as they are |
| ConnectionProperties.WritableEmptyQueue | network/src/connection.rs:140-149 | on an empty queue with no High traffic, `writable` completes without consulting the socket and clears writable interest |
| ConnectionProperties.WritablePartial | network/src/connection.rs:160-171 | a partial write reports exactly `size` bytes dequeued and advances the front cursor by `size`; the queue length is kept and `Ongoing` is returned; promotion adds one to the counter |
| ConnectionProperties.WritableCompletes | network/src/connection.rs:160-190 | a completing write sends exactly the remainder and reports it dequeued; the entry is popped, its High count given back, and writable interest cleared once the queue is empty |
| ConnectionProperties.WritableDiscardsCorruptEntry | network/src/connection.rs:150-158 | an entry whose cursor is at or past its end is popped as `Complete`; the socket is not consulted and no bytes are reported to the ledger |
| ConnectionProperties.WritableInterest | network/src/connection.rs:179-195 | `writable` keeps the buffer, flag and interest, except that it drops writability exactly when the queue ends up empty |
| ConnectionProperties.SendEmpty | network/src/connection.rs:202-222 | sending no bytes changes nothing and returns the queue length |
| ConnectionProperties.SendRejected | network/src/connection.rs:208 | a refused send returns `ThrottlingRejected` and changes nothing |
| ConnectionProperties.SendAccepted | network/src/connection.rs:202-225 | an admitted send queues `(data, 0)` in its class's place and adds `|data|` to the enqueued total; the counter rises iff High; `is_sending` becomes true; the new length is returned |
| ConnectionProperties.WritableFails | network/src/connection.rs:160-194 | a socket error on write is returned as is; nothing is reported to the ledger; the entry stays queued in place; a promotion made before the write stays counted |
| ConnectionProperties.DeregisterKeepsRegistration | network/src/connection.rs:279-297 | after `deregister_socket` the flag stays set, so `update_socket` re-registers and `register_socket` makes no call |
| ConnectionProperties.RegisterIdempotent | network/src/connection.rs:246-248 | registering again after `register_socket` or `update_socket` makes no event-loop call and changes nothing |
| Accounting.DropAccounting | network/src/connection.rs:78-89 | teardown reports the unsent remainder of every entry as dequeued, and gives back one count per High entry with bytes left |
| Accounting.NewInv | network/src/connection.rs:231-241 | a fresh connection satisfies the invariant |
| Accounting.SendPreservesInv | network/src/connection.rs:202-218 | `send` keeps cursors in range, enqueued equal to dequeued plus pending, and the counter equal to start plus High entries |
| Accounting.FrontMutPreservesInv | network/src/connection.rs:140-147 | choosing the front entry keeps the invariant, and a promotion is counted exactly once |
| Accounting.AdvancePreservesInv | network/src/connection.rs:167-171 | a partial write's dequeue report matches the cursor advance, so the invariant holds |
| Accounting.FinishPreservesInv | network/src/connection.rs:167-176 | a completing write's dequeue report, the pop and the counter decrement keep the invariant; the decrement never meets a zero counter |
| Accounting.WritablePreservesInv | network/src/connection.rs:129-195 | every outcome of `writable` keeps the invariant, so no queued cursor ever reaches its payload's end |
| Accounting.ReadablePreservesInv | network/src/connection.rs:95-127 | `readable` keeps the invariant |
| Accounting.RunPreservesInv | network/src/connection.rs:95-225 | any sequence of `send`, `writable`, `readable` and registration calls keeps the invariant, given sockets and sizers that keep their contracts |
| Accounting.DropBalancesLedger | network/src/connection.rs:78-89 | after teardown, bytes dequeued equal bytes admitted, and the outstanding total is back to its value at creation |
| Accounting.DropRestoresHighCounter | network/src/connection.rs:78-89 | after teardown the High counter is back to its value at creation |
| Accounting.LifetimeBalance | network/src/connection.rs:78-225 | from `New` through any sequence of handled events to `drop`, the bytes admitted by `on_enqueue` equal those passed to `on_dequeue`; both process-wide values end where they started |
| Scenarios.WriteEmptyCompletes | network/src/connection.rs:417-423 | `writable` on a fresh connection returns `Complete` |
| Scenarios.WriteIsBuffered | network/src/connection.rs:425-439 | with a 1024-byte socket, one `writable` of a 10240-byte High entry returns `Ongoing` and leaves it queued with its cursor at 1024 |
| Scenarios.ReadFramesByLengthPrefix | network/src/connection.rs:441-463 | `[3, 0]` yields no frame; one more byte yields the 3-byte frame and an empty buffer; a further call yields nothing |
| Scenarios.DropReconcilesQueue | network/src/connection.rs:78-89 | tearing down an unsent 500-byte Low entry and a High entry 200 bytes into 800 reports 1100 bytes dequeued and one counter decrement |

## Left out

- Socket I/O, `TcpStream` and the read buffer: the socket is replaced by read and write oracles. The 1024-byte read buffer (line 96) only bounds chunk sizes, and chunks of any size are allowed. A read sequence that runs out is treated like `WouldBlock`.
- The mio event loop and `IoContext::update_registration`: these are foreign I/O. The registration operations are modelled only by their effect on the `registered` flag and by which call they make. The event loop's answer is discarded by the source, so it is not an input. The answer of `update_registration` is a boolean input to `writable`. `send` ignores that answer, so `send` has no such input.
- Atomics and memory ordering: the counter and the registration flag are plain sequential state. Cross-thread interleavings are not modelled.
- The `usize::MAX` assertion in `incr_high_priority_packets`: counters are unbounded. The zero assertion in `decr_high_priority_packets` is modelled as a floor at zero, which `Accounting` proves is never reached.
- Accounting.DropRestoresHighCounter: the counter returns to its start only under the assumed queue behaviour stated in `PrioritySendQueue.PromotedEntryPopsAsHigh`. The queue's implementation decides whether a promoted entry is popped as High.
- Accounting.LifetimeBalance: its counter clause rests on the same assumed queue behaviour. Its ledger clauses do not.
- Accounting.FinishPreservesInv: the claim that the decrement never meets a zero counter rests on the same assumption, as does the counter clause of `Accounting.Inv` that `Accounting.FrontMutPreservesInv`, `Accounting.WritablePreservesInv` and `Accounting.RunPreservesInv` carry.
- The priority send queue's and the throttling service's implementations are not part of this model. Their assumed behaviour is stated in their modules. The admission rule of `on_enqueue` (its budget) is an input, so no claim is made about the outstanding total staying under a budget.
- The stream token, logging and the unused `MAX_PAYLOAD_SIZE`.
- `core/src/storage/tests/state.rs`: randomized storage tests for a trie whose implementation is not part of this model.
