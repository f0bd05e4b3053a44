# A verified model of the bare-metal guest

A Dafny model of four parts of the guest, with proofs of what they promise over every
input, every run and every interleaving.

**The VirtIO console.**
`Rings.dfy` models one virtqueue ring with its 16-bit indices, `Virtqueue.dfy` the descriptor table
with the free list threaded through it, and `MemoryPool.dfy` the circular allocator whose only mark of use
is a nonzero byte; `Arena.dfy` is the same allocator as a cursor and a set of intervals. `Channel.dfy` puts
queue and pool together. `TxProtocol.dfy`, `TxLedger.dfy`, `TxTheorems.dfy`, `TxDelivery.dfy`, `TxReclaim.dfy`,
`TxLoss.dfy`, `TxArena.dfy`, `RxProtocol.dfy` and `RxTheorems.dfy` are the two queues as protocols between the
driver and a device that may take, use and return buffers at any moment. The device returns only ids it holds, once each; it writes
only buffers of the receive queue that it holds. `QueueObject.dfy`, `TxEnd.dfy`, `RxEnd.dfy`,
`ReceiveBuffer.dfy` and `Console.dfy` are the objects that the driver updates in place. Each endpoint keeps a
ghost log of the steps taken since initialisation, and its validity says that the object is where that run
leads, so that the theorems about runs hold of the objects. `MmioHandshake.dfy` is the initialisation of the
transport against a device that may answer anything, `Layout.dfy` the division of the shared memory, and
`Driver.dfy` puts all of it together as `virtio_console_init`. `ShippedSizes.dfy` instantiates the sizes;
everywhere else the queue size is any divisor of 65536 and the transmit pool has any size.

**Boot and locking on many harts (RISC-V).** `LrSc.dfy` and `SpinLock.dfy` are the reservation rules and the
lock, `Boot.dfy` goes from `_start` to `arch_init`, `BringUp.dfy` is the loop that starts the other harts and
`Relay.dfy` the handshake in `main` with the relay of inter-processor interrupts. These are step machines:
each shared access of each hart is one step, and what matters is that steps interleave in any order.
`BootProgress.dfy` and `RelayProgress.dfy` say that no interleaving leads to a state from which a hart cannot
get on.

**Interrupt controllers.** `GicWords.dfy` holds the masks and offsets, `GicV2.dfy` and `GicV3.dfy` the packed
registers and the plain per-interrupt tables they implement. A word is the set of its one bits.

**Translation tables.** `PageTables.dfy` lays the tables out as the assembler's loops do and walks them.

## Findings

Where comments and code disagree the model follows the code.

- `strcpy` in `virtio_console_transmit` writes one zero past the buffer that was allocated. Messages in flight
  stay unaltered exactly when that byte is outside the pool or already zero, each time
  (`TxTheorems.UnalteredIffClear`). In a pool of any even size, any three messages of half that size can make the
  device read what was never sent (`TxTheorems.TerminatorCanCorrupt`), at the size the driver is built with too
  (`ShippedSizes.ShippedCorruption`). No run leaks memory or breaks ownership because of it
  (`TxReclamation.TransmitReclaims`, `TxTheorems.TransmitOwnership`).
- Every `Status |= bit` of the handshake writes back what the device answered. A successful handshake has written
  DRIVER_OK before both queues were ready exactly when a Status read had shown it by then
  (`MmioHandshake.Transport.MmioInit`). `MmioHandshake.HastyIsAccepted` is a device that answers 4 to the read in
  `Status |= ACKNOWLEDGE` and otherwise as the driver expects; its handshake succeeds all the same
  (`MmioHandshake.RunHasty`).
- What the device may still read is always what was sent if and only if each zero written, a terminator or a freed
  region, misses the buffers published and not yet returned (`TxDelivery.TransmitEndToEnd`); clear terminators are
  enough (`TxDelivery.AllClearSpares`).
- A transmission that finds no pool memory has already taken a descriptor and never gives it back
  (`TxProtocol.LostKeeps`). All descriptors come back exactly in the runs with no such transmission
  (`TxLoss.FreeAgainIff`), and the driver is left with nothing it or the device can do exactly after as many as the
  queue has entries (`TxLoss.WedgedIff`): that many texts longer than the pool are enough
  (`TxLoss.TooLongWedges`, `ShippedSizes.ShippedWedge`), although the pool is empty.
- `irq_in_gicd` takes interrupt 32, the first shared one, for a private one. `gic_set_act` then reaches
  interrupt 0 (`GicV3.ActsOnItsOwnIff`).
- The GICv3 priority getter shifts before it masks, so it reads back what was set only for every fourth
  interrupt (`GicV3.PriorityReadsBackIff`).
- Bring-up is complete in every interleaving exactly when hart 0, hart 1 or the last hart boots first
  (`BringUp.CompleteIff`); otherwise hart 0 can overtake the first hart, and both stop.
- The tables map exactly the given region as normal memory only if it is made of whole 2 MiB blocks
  (`PageTables.NormalExactlyIff`).
- `virtio_memory_pool_free` is described as checking that the region is within the pool, but checks only where it
  starts. A region that passes is freed within the pool exactly when it ends there
  (`MemoryPools.FreesInsideIff`); freeing two bytes at the last one also clears the byte after the pool. The
  driver never does so (`TxTheorems.RecyclingAlwaysSucceeds`, `RxProtocol.FreeSucceeds`).
- `virtio_console_rx_append_buffer` is described as appending. At a position it does not refuse, it appends every
  message to every buffer exactly when the position is 0 (`ReceiveBuffers.AppendsIff`).

## Model

| member | source | states |
|---|---|---|
| Rings.SlotIsRemainder | src/core/inc/virtio_queue.h:313 | the slot used throughout the model is C's index modulo `VIRTQ_SIZE` |
| Rings.PushAppends | src/core/inc/virtio_queue.h:311-315 | publishing appends one entry to the queue the ring stands for, across the wrap at 65536, while fewer entries than slots are outstanding |
| Rings.PopRemoves | src/core/inc/virtio_queue.h:336-346 | taking returns the oldest outstanding entry and removes just that one, across the wrap |
| Rings.PushAppendsIff | src/core/inc/virtio_queue.h:311-331 | the occupancy bound, which the code does not check, is needed: on a full ring publishing destroys the oldest entry |
| Rings.RingRefinesFifo | src/core/inc/virtio_queue.h:291-346 | over every admissible run the 16-bit ring hands out exactly what an unbounded queue would, in the same order |
| Virtqueue.OwnedOnce | src/core/inc/virtio_queue.h:191-225 | when each id has an owner, each id below the size is in exactly one of free list, available ring, used ring and elsewhere, and the sizes add up |
| Virtqueue.FreeListIsProper | src/core/inc/virtio_queue.h:191-212 | the first `desc_num_free` links are distinct, stay in the table and share no id with any other owner |
| Virtqueue.GetFreeMoves | src/core/inc/virtio_queue.h:191-198 | taking a free descriptor removes the head of the free list and nothing else |
| Virtqueue.PutFreeMoves | src/core/inc/virtio_queue.h:205-212 | giving one back puts it at the head; the assertion that the list is not full holds |
| Virtqueue.SetDescKeeps | src/core/inc/virtio_queue.h:220-226 | filling in a taken descriptor, which clears its `next`, leaves every owner as it was |
| Virtqueue.AddAvailMoves | src/core/inc/virtio_queue.h:311-315 | publishing an id appends it to the available ring; that there is room follows from ownership |
| Virtqueue.GetAvailMoves | src/core/inc/virtio_queue.h:336-340 | the device takes the oldest available id |
| Virtqueue.AddUsedMoves | src/core/inc/virtio_queue.h:323-329 | a returned id is appended to the used ring; that there is room follows from ownership |
| Virtqueue.GetUsedMoves | src/core/inc/virtio_queue.h:342-346 | the driver takes the oldest returned id |
| Virtqueue.FreshFields | src/core/inc/virtio_queue.h:123-159 | every field of the descriptor table and of both rings after `virtq_init` |
| Virtqueue.FreshIsOwned | src/core/inc/virtio_queue.h:123-159 | after `virtq_init` every id is in the free list, once |
| QueueObject.VirtQueue.constructor | src/core/inc/virtio_queue.h:123-163 | the initialisation loops leave the fresh queue and a zeroed pool, whatever memory held |
| QueueObject.VirtQueue.GetFreeDescId | src/core/inc/virtio_queue.h:191-198 | in place, the operation on the queue value |
| QueueObject.VirtQueue.PutFreeDesc | src/core/inc/virtio_queue.h:205-212 | in place, the operation on the queue value |
| QueueObject.VirtQueue.SetDesc | src/core/inc/virtio_queue.h:220-244 | initialising a descriptor and setting its direction, in place |
| QueueObject.VirtQueue.AddAvailBuf | src/core/inc/virtio_queue.h:311-315 | in place, the operation on the queue value |
| QueueObject.VirtQueue.GetAvailBufId | src/core/inc/virtio_queue.h:336-340 | in place, the operation on the queue value |
| QueueObject.VirtQueue.AddUsedBuf | src/core/inc/virtio_queue.h:323-329 | in place, the operation on the queue value |
| QueueObject.VirtQueue.GetUsedBufId | src/core/inc/virtio_queue.h:342-346 | in place, the operation on the queue value |
| MemoryPools.AllocIsFree | src/core/inc/virtio_memory_pool.h:56-105 | an allocation lies inside the pool, was zero throughout and changes no byte |
| MemoryPools.AllocExactly | src/core/inc/virtio_memory_pool.h:56-105 | the allocator looks at one place, the cursor or else the start: a request succeeds exactly when that place exists and is zero, gets it, and leaves the cursor at its end; a failure changes nothing |
| MemoryPools.FreeExactly | src/core/inc/virtio_memory_pool.h:114-139 | a free succeeds exactly when the region starts in the pool and is no longer than it; then just those bytes become zero |
| Arenas.AllocIffGrants | src/core/inc/virtio_memory_pool.h:67-91 | the scan for nonzero bytes succeeds exactly when the place meets no live region |
| Arenas.PoolRefinesArena | src/core/inc/virtio_memory_pool.h:56-139 | over every run of well-behaved clients the pool grants, places and refuses as an allocator of intervals with a cursor does |
| Arenas.GrantedAreConsecutive | src/core/inc/virtio_memory_pool.h:62-101 | each region granted in a run starts where the one before it ended, or at the base when it did not fit there |
| MemoryPools.ZeroedIsApart | src/core/inc/virtio_memory_pool.h:67-91 | a region that scans as zero meets no live region |
| MemoryPools.FillKeepsAccounts | src/core/inc/virtio_memory_pool.h:56-105 | filling an allocated region with nonzero bytes keeps every byte of the pool accounted for, on either side of the wrap |
| MemoryPools.FreeKeepsAccounts | src/core/inc/virtio_memory_pool.h:114-139 | freeing a live region succeeds, clears its own bytes only and leaves the others accounted for |
| MemoryPools.PoolRunsAreSafe | src/core/inc/virtio_memory_pool.h:38-139 | over every run of well-behaved clients from initialisation live regions stay in the pool, pairwise disjoint and unaltered, and a byte is nonzero exactly when a live region covers it |
| MemoryPools.EmptyPoolServes | src/core/inc/virtio_memory_pool.h:56-105 | with nothing live the pool is zero, and a request succeeds exactly when it fits on one side of the cursor, so always up to half the pool |
| MemoryPools.FreesInsideIff | src/core/inc/virtio_memory_pool.h:114-139 | a free that passes the checks leaves the memory past the pool alone, whatever it holds, if and only if the region ends in the pool |
| MemoryPools.MemoryPool.constructor | src/core/inc/virtio_memory_pool.h:38-48 | the loop zeroes the pool and leaves the memory past it alone |
| MemoryPools.MemoryPool.RangeIsFree | src/core/inc/virtio_memory_pool.h:68-72 | the scan finds a nonzero byte exactly when there is one |
| MemoryPools.MemoryPool.Alloc | src/core/inc/virtio_memory_pool.h:56-105 | the scans and the cursor in place: result and new state of the allocator, on every branch |
| MemoryPools.MemoryPool.Free | src/core/inc/virtio_memory_pool.h:114-139 | result and new state for every argument: exactly the named bytes are zeroed, also past the pool, or nothing |
| MemoryPools.MemoryPool.StrCpy | src/core/virtio_console.c:274 | the text and then one zero, at the given address |
| ShippedSizes.ShippedLayout | src/core/inc/virtio_queue.h:103-115 | at 1024 entries the areas of a queue start at 0, 16, 20 and 32 KiB of its 96 |
| TxProtocol.StartIsSound | src/core/virtio_console.c:12-23 | the state after initialisation satisfies the transmit invariant |
| TxProtocol.LostKeeps | src/core/virtio_console.c:260-271 | a transmission that finds no memory takes the head of the free list, which is lost: one descriptor fewer is free and nothing else changes |
| TxProtocol.RecycleSucceeds | src/core/virtio_console.c:324-353 | the relinked descriptor still has the address and length that alloc returned, and freeing them succeeds inside the pool |
| TxProtocol.StepKeepsSafe | src/core/virtio_console.c:254-288 | transmit, device and recycle steps keep ownership and the routing of descriptors to buffers |
| TxProtocol.StepKeepsInv | src/core/virtio_console.c:254-288 | with a clear terminator they also keep every text in flight and the order of delivery |
| TxDelivery.TransmitEndToEnd | src/core/virtio_console.c:254-288 | over every run: if each zero written misses the outstanding buffers the device reads exactly the texts transmitted successfully, in order and unaltered, and what is pending will read the same way; and that is the exact condition for no outstanding text ever to be altered |
| TxDelivery.UndamagedIffSparing | src/core/virtio_console.c:266-277 | the same equivalence from any state of a run that delivers so far |
| TxDelivery.AllClearSpares | src/core/virtio_console.c:273-274 | a run whose terminators are clear meets that condition |
| TxTheorems.UnalteredIffClear | src/core/virtio_console.c:266-277 | over every run, messages in flight are never altered if and only if every terminator was clear when written |
| TxTheorems.TerminatorCanCorrupt | src/core/virtio_console.c:273-274 | for any three messages of half the pool, of any even size: a run of seven steps after which the device has read what was never sent, because a terminator destroyed a message in flight |
| ShippedSizes.ShippedCorruption | src/core/inc/virtio_queue.h:109 | such a run exists at the size the driver is built with, 1024 entries and a pool of 65536 bytes |
| TxTheorems.TransmitOwnership | src/core/virtio_console.c:260-270 | over every run each id has exactly one owner, one id is lost for each transmission of the run whose allocation failed, and the free list has no repetition |
| TxTheorems.RecyclingAlwaysSucceeds | src/core/virtio_console.c:324-353 | over every run neither assertion fires when a buffer is recycled, and its memory is freed |
| TxReclamation.TransmitReclaims | src/core/inc/virtio_memory_pool.h:56-139 | over every run each nonzero pool byte lies in a live buffer; with nothing in flight the pool is zero and serves any text that fits on one side of the cursor |
| TxLoss.FreeAgainIff | src/core/virtio_console.c:260-271 | over every run all descriptors are free exactly when nothing is in flight and no transmission failed; an idle driver has a free one exactly when fewer than the queue size failed |
| TxLoss.WedgedIff | src/core/inc/virtio_queue.h:191-198 | over every run nothing is possible any more, for driver or device, exactly when as many transmissions failed as the queue has entries |
| TxLoss.TooLongWedges | src/core/virtio_console.c:260-271 | as many texts longer than the pool as the queue has entries, of any contents, wedge the driver with an empty pool |
| ShippedSizes.ShippedWedge | src/core/inc/virtio_queue.h:37 | 1024 transmissions of any text longer than 65536 bytes do so at the size the driver is built with |
| TxArena.TransmitPlaces | src/core/virtio_console.c:266-277 | over every run with clear terminators messages lie where the allocator of intervals puts them, and the next one is refused exactly when that allocator refuses it |
| TxEndpoint.TxEnd.Publish | src/core/virtio_console.c:256-288 | the driver's transmit steps in place are one transmit step of the protocol; memory was found exactly when the result is true |
| TxEndpoint.TxEnd.RecycleOne | src/core/virtio_console.c:321-354 | one turn of the receive loop on the transmit queue is one recycle step, and always succeeds |
| TxEndpoint.DeliveredSoFar | src/core/virtio_console.c:254-288 | after any calls and device steps on the object, the device has read what was published, in order and unaltered, if each zero written missed the outstanding buffers |
| RxProtocol.PostingAdvances | src/core/virtio_console.c:25-48 | each turn of the posting loop allocates the next 64 bytes, never NULL, and publishes the next id |
| RxProtocol.DrainMoves | src/core/virtio_console.c:321-331 | draining moves the oldest returned id to the head of the free list; the assertion holds |
| RxProtocol.FreeSucceeds | src/core/virtio_console.c:349-353 | the drained descriptor still describes its own 64 bytes, and freeing them succeeds inside the pool |
| RxProtocol.ReceiveOwnership | src/core/virtio_console.c:321-354 | over every run the free count is the number of buffers received, at most the queue size, each id has exactly one owner, and the memory of every received buffer is zero again unless the console's buffer was full |
| RxTheorems.ReceiveEndToEnd | src/core/virtio_console.c:321-341 | over every run the driver takes the ids in the order the device returned them, and finds in each buffer the 64 bytes it held when it was returned; those not yet taken still read the same |
| RxEndpoint.ReceivedSoFar | src/core/virtio_console.c:321-341 | the same of the object after any calls and device steps, with as many messages taken as descriptors are free |
| RxProtocol.DeviceKeepsReturned | src/core/virtio_console.c:321-341 | nothing the device does moves or alters a message it has returned |
| RxProtocol.OldestIsPosted | src/core/virtio_console.c:324-341 | the message taken is the oldest returned one, in the 64 bytes posted for its id |
| ShippedSizes.PostingPostsAll | src/core/virtio_console.c:25-48 | after the loop descriptor i is at base + 64 i with length 64 and the write flag, `avail.ring[i]` is i, `avail.idx` is the queue size, nothing is free |
| ShippedSizes.ShippedPosting | src/core/inc/virtio_queue.h:37 | the same at 1024 entries: the size divides 65536 and the cursor ends at 65536 |
| RxEndpoint.RxEnd.constructor | src/core/virtio_console.c:25-48 | the posting loop in place, its NULL branch never taken, runs once per descriptor |
| RxEndpoint.RxEnd.TakeBack | src/core/virtio_console.c:324-338 | taking a returned buffer frees one descriptor and finds the oldest message at its address, within the pool |
| RxEndpoint.RxEnd.FreeBuffer | src/core/virtio_console.c:349-353 | freeing the buffer of a drained descriptor succeeds |
| RxEndpoint.RxEnd.DeviceRuns | src/core/virtio_console.c:321 | however long the device runs, returned messages stay put and read the same |
| ReceiveBuffers.ReceiveBuffer.Append | src/core/virtio_console.c:170-189 | in bounds; refused exactly at position 192 or more; copies from the current position to 62 and advances by 63 |
| ReceiveBuffers.CopiedIsTail | src/core/virtio_console.c:179-184 | the copy takes the rest of the first 63 bytes from the position on, and nothing from position 63 |
| ReceiveBuffers.AppendsIff | src/core/virtio_console.c:179-184 | below position 192 the copy loop appends every message to every buffer if and only if the position is 0 |
| ReceiveBuffers.ReceiveBuffer.AppendNull | src/core/virtio_console.c:197-213 | writes a zero and advances, exactly when below 255 |
| ConsoleObject.Console.constructor | src/core/virtio_console.c:7-48 | both queues set up, the receive queue fully posted, the transmit queue fully free, not ready |
| ConsoleObject.Console.Transmit | src/core/virtio_console.c:240-288 | one transmit step exactly when ready and not empty, one notification exactly when memory was found |
| ConsoleObject.Console.DrainRx | src/core/virtio_console.c:311-354 | ends although the device keeps returning buffers; frees one descriptor a turn; on success none is left and all that waited at the start were drained; the console's buffer holds the first message |
| ConsoleObject.Console.DrainTx | src/core/virtio_console.c:311-354 | ends with no returned buffer left, never fails, and transmits nothing |
| ConsoleObject.Console.Receive | src/core/virtio_console.c:291-364 | acknowledges when ready; true exactly when one to four messages were drained; then the buffer holds the first message, which is the oldest that was waiting; unless a fifth overflows, all that were waiting are drained and their memory freed, and neither queue has a buffer left to take; so five or more waiting always give false |
| MmioHandshake.AckedWord | src/core/virtio_console.c:92-99 | the two 32-bit halves the loop acknowledges recompose to offered AND supported over 64 bits |
| MmioHandshake.Transport.NegotiateFeatures | src/core/virtio_console.c:92-106 | the negotiated word is offered AND supported and is what the device was told; success exactly when it is everything supported |
| MmioHandshake.Transport.SetUpQueue | src/core/virtio_console.c:122-149 | on success the queue is ready and the three addresses recompose from their halves; other queues are untouched |
| MmioHandshake.Transport.MmioInit | src/core/virtio_console.c:59-161 | against any device: true exactly when its answers are those expected, and then the accesses are just those of the conversation that section 3.1.1 of the standard prescribes, every Status value included; failure stops that conversation and writes FAILED; success means readbacks 3, 11 and 15 in order, features negotiated, both queues described before they were made ready and ready when DRIVER_OK was last written; and DRIVER_OK was written earlier if and only if the device had shown it to one of three reads |
| MmioHandshake.HastyIsAccepted | src/core/virtio_console.c:82-90 | a device whose answers the driver accepts although it shows DRIVER_OK at once |
| MmioHandshake.RunHasty | src/core/virtio_console.c:59-161 | against it the driver returns true and has written DRIVER_OK before any queue was ready |
| Layout.AreasFit | src/core/inc/virtio_queue.h:99-115 | the four areas of a queue are long enough, do not overlap and fill the room set aside |
| Layout.AreasAligned | src/core/inc/virtio_queue.h:112-115 | from a base aligned to 16 bytes the three structures have the alignment the standard asks for |
| ConsoleDriver.Init | src/core/virtio_console.c:7-57 | the console is set up and ready; true exactly when the device's answers are those expected, and then the conversation has told it where both queues are; the pools are where the layout puts them |
| SpinLock.MutualExclusion | src/arch/riscv/inc/spinlock.h:25-48 | over every interleaving of any number of harts: one holder at most, word 1 exactly when held, a valid reservation that loaded zero implies zero |
| SpinLock.EntersWhenZero | src/arch/riscv/inc/spinlock.h:30-38 | while the word is zero a waiting hart gets the lock in at most three steps of its own |
| SpinLock.CanEnter | src/arch/riscv/inc/spinlock.h:25-48 | from every reachable state a waiting hart can get the lock |
| Boot.BootIsSafe | src/arch/riscv/start.S:20-62 | any harts, any BSS contents, any interleaving: one winner, no C code before the BSS is zero, though C code may store to it from then on, one hart in the lock, `uart_init` once and over before `arch_init` |
| Boot.FirstEntryFindsZero | src/arch/riscv/start.S:35-62 | the first hart to enter C code finds every BSS word zero |
| BootProgress.NoHartIsStranded | src/arch/riscv/start.S:25-62 | from every reachable state program steps alone bring every hart that is on to `arch_init`, losers of the election included |
| Boot.CKeepsOnce | src/core/retarget.c:96-109 | each step of `_init` keeps the account of one-time initialisation |
| BringUp.OrderlyBringUp | src/arch/riscv/init.c:13-19 | hart 0 or 1 first: at rest every hart is up, the first hart started each other one once and in order, and every hart made one refused call |
| BringUp.SequenceLists | src/arch/riscv/init.c:13-19 | that log names each other hart exactly once, in id order |
| BringUp.RunsAreBounded | src/arch/riscv/init.c:13-19 | every interleaving comes to rest |
| BringUp.OvertakingDooms | src/arch/riscv/init.c:13-19 | for any other first hart but the last, a run of six steps after which the first hart is out of its loop, the hart above it stopped, and nobody left to start it |
| BringUp.CompleteIff | src/arch/riscv/init.c:13-19 | every interleaving brings every hart up if and only if the first hart is 0, 1 or the last |
| Relay.HandshakeAndRelay | src/main.c:48-78 | over every interleaving: past the wait all three handlers are registered; only the primary ticks; only harts above it take IPIs |
| Relay.RelayAccount | src/main.c:37-46 | over every interleaving each tick and each IPI taken is passed on once, but for one yet to be sent; of those the next hart takes all but one that is pending and those that found one pending |
| RelayProgress.EveryHartCanComeUp | src/main.c:52-72 | from every reachable state all harts can still get past the wait |
| RelayProgress.TickCanReachLast | src/main.c:37-46 | from every reachable state, once all harts are up, a run with one more tick makes the last hart take one more IPI |
| Relay.NeverMoreThanTicks | src/main.c:37-46 | over every run no hart handles more IPIs than the primary's timer has ticked |
| Relay.StepKeepsRelay | src/main.c:37-46 | each step of each handler, including an IPI merged with one already pending, keeps the account exact |
| GicWords.GetByteFinds | src/arch/armv8/inc/gic.h:34-40 | the register and offset macros find the byte of an interrupt: bit b of it is bit 8 * (id % 4) + b of word id / 4 |
| GicWords.PutGet | src/arch/armv8/gicv2.c:117-138 | a byte stored in a word reads back, and the bytes beside it stay |
| GicV2.RegistersRefineTable | src/arch/armv8/gicv2.c:102-179 | under any run of setters the packed registers are the plain table with one row for each interrupt |
| GicV2.TableDecidesWords | src/arch/armv8/inc/gic.h:22-52 | the table determines every bit of the registers it stands for |
| GicV2.InitialisedTable | src/arch/armv8/gicv2.c:62-93 | after `gicd_init` each implemented shared interrupt is disabled, not pending, not active, at priority 0xff, without target; the unimplemented ones are untouched |
| GicV2.Distributor.Init | src/arch/armv8/gicv2.c:62-93 | the loops in place leave exactly those registers |
| GicV2.Distributor.SetTargets | src/arch/armv8/gicv2.c:117-129 | changes the target of the named interrupt and nothing else |
| GicV2.Distributor.GetTargets | src/arch/armv8/gicv2.c:131-138 | reads the target last set |
| GicV2.Distributor.SetPrio | src/arch/armv8/gicv2.c:145-156 | changes the priority of the named interrupt and nothing else |
| GicV2.Distributor.Enable | src/arch/armv8/gicv2.c:102-115 | changes the enable bit of the named interrupt and nothing else |
| GicV2.Distributor.SetPend | src/arch/armv8/gicv2.c:166-179 | changes the pending bit of the named interrupt and nothing else |
| GicV3.SetActReaches | src/arch/armv8/gicv3.c:251-264 | the write changes the active bit of the interrupt it reaches and no other bit on any hart |
| GicV3.SetPendReaches | src/arch/armv8/gicv3.c:225-249 | the same for the pending bit |
| GicV3.ActsOnItsOwnIff | src/arch/armv8/gicv3.c:432-436 | `gic_set_act(id)` changes just the bit of `id`, in every state, if and only if `id` is not 32 |
| GicV3.StateRoundTrip | src/arch/armv8/gicv3.c:500-507 | `gic_get_state` after `gic_set_state` gives the state set, and no other interrupt changes |
| GicV3.RegistersRefineMap | src/arch/armv8/gicv3.c:378-406 | after any run of writes by any harts every bit has the value last written to it |
| GicV3.SetStateUnderInterleaving | src/arch/armv8/gicv3.c:266-270 | a `gic_set_state` cut in two by other harts' calls for other interrupts still takes effect |
| GicV3.PriorityReadsBackIff | src/arch/armv8/gicv3.c:168-181 | the priority getter returns what was set, always, if and only if the id is a multiple of four |
| GicV3.Gic.SetActive | src/arch/armv8/gicv3.c:491-498 | in place, one write to one register |
| GicV3.Gic.SetIntState | src/arch/armv8/gicv3.c:500-507 | in place, both writes; the state then reads as set |
| GicV3.Gic.GetIntState | src/arch/armv8/gicv3.c:473-480 | the state of the interrupt as the registers hold it |
| PageTables.Repeat | src/arch/armv8/aarch64/page_tables.S:27-31 | one counted loop: entry k of the table describes block k |
| PageTables.Assemble | src/arch/armv8/aarch64/page_tables.S:24-57 | the three loops emit 2048 entries, and the upper tables point where they should |
| PageTables.IdentityMap | src/arch/armv8/aarch64/page_tables.S:24-57 | every address below 4 GiB is mapped to itself, normal memory in the blocks of the region and device memory elsewhere, inner shareable and for the kernel to read and write; every other address faults |
| PageTables.NormalExactlyIff | src/arch/armv8/aarch64/page_tables.S:33-37 | normal memory is exactly the region if and only if the region is empty or made of whole 2 MiB blocks |

## Left out

- TxDelivery.TransmitEndToEnd: delivery is claimed of runs in which each zero written misses the outstanding buffers, a check the driver could make on the descriptors before each call; the same lemma says that in every other run an outstanding text is altered.
- ConsoleObject.Console.Transmit: a free descriptor is a precondition, because the source asserts one; the text is given without its terminator and contains no zero.
- ConsoleObject.Console.Receive: `virtio_console_receive` and `virtio_console_transmit` are atomic towards each other; the source takes `tx_lock` in one of them only. The console's two locks are left to `SpinLock`.
- TxEndpoint.TxEnd.RecycleOne: one turn of the loop is one step, between device steps; the device's steps on the other queue happen between the two loops.
- RxEndpoint.RxEnd.DeviceRuns: how many steps the device takes, and which, is left open and not promised; the contracts hold whatever it chooses.
- GicV3.StateRoundTrip: excludes interrupt 32, for which `gicr_set_pend` shifts a 32-bit word by 32, which C does not define.
- GicV3.RegistersRefineMap: the devices' own changes to pending and active bits are not modelled, only the driver's writes.
- GicV2.RegistersRefineTable: the registers are memory words; that the first eight target words are read-only and the first words banked for each hart is not modelled.
- PageTables.Assemble: asks that the region end at 4 GiB or below, since the third count is negative otherwise.
- BringUp.CompleteIff: the firmware is that of section 9.1 of the RISC-V SBI specification v2.0, and a stopped hart always starts.
- Relay.HandshakeAndRelay: a mask bit is a hart id of any size; the source shifts a 64-bit word by the id plus one.
- Boot, bring-up and relay are step machines on values rather than classes, because a method cannot be interrupted between its accesses.
- Weak memory order and missing barriers: memory is sequentially consistent.
- Memory is an array for each pool that goes on past it, far enough for a terminator and for any region a free lets through; what lies there in the shared memory, such as the next queue, is not modelled, and rings and pools are separate objects.
- Wrap-around of pool addresses and lengths beyond 64 and 32 bits, and the narrowing of `strlen` to `int`.
- 32-bit targets, on which the 64-bit feature constants do not fit an `unsigned long`.
- MmioHandshake.Transport.MmioInit: the device is a function from the position of a read in the conversation to its answer, which any device is for one run of a deterministic driver; what it does with what is written is its own affair.
- `QueueNum`, which the driver never writes; the configuration words that it reads; the values of `printf` and `virtq_dump`.
- `ready` is set after a failed handshake too, so `ready` claims nothing about the device.
- Receive buffers are never posted again, so nothing is claimed after the last one.
- The UART, PLIC, timer, SBI and PSCI wrappers, newlib stubs, stacks, and the aarch32 and MPU variants of the start code.
- The rest of both interrupt controllers: enabling, configuration, routing and software interrupts of GICv3, its distributor initialisation, the CPU interfaces, and the GICv2 state getters.
- `gicd_set_pend` on software-generated interrupts, which `gic_set_state` never reaches.
