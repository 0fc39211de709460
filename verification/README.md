# A verified model of OpenMach's default pager, C threads, MIG and boot file reader

This project models the parts of OpenMach where concurrency, shared storage or two independently generated
programs have to agree, and proves what those parts are for. It is written in Dafny 4.11;
`dafny verify dfyconfig.toml` checks all of it.

Four components are modelled.

**The default pager** (`bootstrap/default_pager.c`).
`PartitionBitmap` is the bitmap allocator of one paging partition, on an array of 32-bit words.
`PageMap` is an object's map from pages to blocks, with its one-level and two-level forms on real arrays of arrays,
and `WriterRace` any number of threads that extend and store in one map, with the lock dropped as the code drops it.
`BlockStore` has the operations of the pager on values (partitions, objects, disk) and who owns each block;
`DefaultPager` proves that the code on bitmaps and maps in the heap carries them out, and what each uninterrupted
call promises. `PagingSystem` is the pager at work: any number of threads write, read, release and free while
partitions are added, evacuated and removed. Trying the object's partition, choosing another, taking a block of it,
moving one page of an object and using a block are steps of their own, and other threads come in between.
`RemovedChoice` follows an object's choice of a partition through the removal of that partition, and
`EvacuationRaces` has the runs in which things go wrong.
`SeqnoProtocol` is the sequence-number protocol by which the handlers run in parallel and yet reads follow earlier
writes: any number of threads, one atomic step at a time, condition variables with separate enqueue and sleep.

**C threads** (`libthreads/cprocs.c`, `include/mach/cthreads.h`).
`MutexProtocol` is the mutex with its fast paths and its queue, `Scheduler` the block/ready handshake, the idle
threads with their wakeup tokens, conditions and yield, `SchedulerProgress` its freedom from deadlock, and `PortSlots`
the limit on the threads that receive from a port. Each is a state machine under sequential consistency over any
number of threads.

**MIG message layout** (`mig/`).
`MigLayout` has the types and descriptors, `MessageLayout` the arithmetic of offsets, sizes and moving pointers and
the generated packing and checking code in 32-bit unsigned arithmetic. `MigStubs` joins them for requests, which the
server checks as a whole before it extracts, and `MigReplies` for replies, which the server packs without a test of
its own and the client checks and extracts argument by argument up to its caller's maxima. `MigWide` has the requests
in which MIG counts more than the declared structure holds.

**The boot file reader** (`bootstrap/ffs_file_io.c`, `bootstrap/ext2_file_io.c`, `bootstrap/fs.h`,
`bootstrap/kalloc.c`, `bootstrap/strfcns.c`).
`BlockMap` is the walk through indirect blocks with its per-level cache, parametric in the number of direct blocks,
levels and entries; `FileRead` the block-buffered reader over it, with the shift and mask macros proved in
`BitArithmetic`; `FileDirect` the page transfers the pager writes through; `PathLookup` path resolution in a fixed
buffer over directories searched record by record; `Kalloc` the small-block allocator. `Arithmetic` has shared facts
about division, `Options` the type of optional values, `Words` bytes and the 32-bit word, and `Queues` what the
protocols of C threads share.

## How the model relates to the code

Locks, condition variables and unlocked windows are explicit in the state machines: a step is one access to what
threads share, or what one thread does under one lock. A run is any sequence of enabled steps from an initial state, and the
main theorems speak of every state of every run.

Where a property turned out to hold only under a condition, the condition is proved exact and an input that fails is
given:

- An evacuation keeps the pager in order if and only if no transfer is outstanding on a page when that page is moved
  and no block of the partition is waiting to be given back when it is removed (`PagingSystem.StepExactly`,
  `PagingSystem.RunExactly`). Otherwise a write is lost or a missing partition is used
  (`PagingSystem.WriteLostExactly`, `PagingSystem.RemovalFaultsExactly`, and four runs of `EvacuationRaces`).
- A write that has chosen another partition gets its block if and only if that has not begun to go away in between,
  even if a third has room (`PagingSystem.TakeFinds`, `EvacuationRaces.WriteGivenUp`).
- An object still has the index of a removed partition for its choice if and only if it had it before the removal
  began, was on no list when the last pass began, and has not chosen again (`RemovedChoice.StaleExactly`,
  `EvacuationRaces.StaleChoice`). It is written to like any other (`RemovedChoice.StaleWrites`).
- `pager_extend` overruns its new array if and only if it is asked for less than the map has by then
  (`WriterRace.NeverSmallerExactly`, `WriterRace.EntryLost`).
- Freeing an object is the last use of it if and only if every earlier handler has made its broadcast
  (`SeqnoProtocol.FreeingIsLast`, `SeqnoProtocol.LateBroadcast`).
- A block given back twice breaks the counts (`PartitionBitmap.Partition.DeallocPage`).
- A port minimum or maximum of zero strands waiters (`PortSlots.QueuedForever`, `PortSlots.QueuesAloneExactly`,
  `PortSlots.QueuedWithoutMaximum`, `PortSlots.StrandedWithoutMinimum`, `PortSlots.StrandedWithoutMaximum`), and
  releasing the wrong port's slot leaks it (`PortSlots.BusyMustNameItsPort`).
- The fields of a message that has passed MIG's checks are inside it if and only if no size wraps at 32 bits
  (`MessageLayout.InsideExactly`, `MigStubs.WrappedSizePasses`, `MigStubs.WrappedCount`).
- The bytes a client copies out of a reply are inside it if and only if every length copied is below 2^31 as the code
  computes it, or, for an array cut down to the caller's maximum, that maximum is no more than the rest of the reply
  holds (`MigReplies.AnyReply`, `MigReplies.WrappedWords`, `MigReplies.WrappedBytes`); the count returned is that of
  the bytes copied if and only if it is one of whole elements, the array is not cut down and its length does not wrap
  (`MigReplies.CountExactly`).
- MIG's two halves agree on the size of an array if and only if the items of an element divide its bytes
  (`MigStubs.SizesAgreeExactly`, `MigStubs.HalfBytesDisagree`), and on the minimum size if and only if no short
  descriptor is narrower than its items (`MigStubs.FindSizeExactly`). With such a descriptor a request still arrives
  as it was sent (`MigWide.WideRoundTrip`), and carries memory from beyond the client's structure if and only if more
  is counted too much than its variable arguments leave unused (`MigWide.OverrunExactly`, `MigWide.WideLong`).
- The span of a level of indirect blocks is what its `int` holds if and only if it is below 2^31
  (`BlockMap.IndirectSpans`, `BlockMap.ThirdSpanWraps`), as are all that an offset below 2^32 reaches
  (`BlockMap.OffsetInReach`, `BlockMap.ReachedSpan`).
- Requests for a page stay in one block of a file if and only if a page fits a block or a block is one sector
  (`FileDirect.PagesStayExactly`, `FileDirect.SecondStrays`), and one request by itself if and only if it starts a block
  or the rest of the page fits the rest of the block (`FileDirect.StaysExactly`, `FileDirect.ShortTransferStrays`).

The code differs from its own naming in one place that the model follows: the test on the length of a path component
lets one of 256 characters pass although `MAXNAMLEN` is 255.

## Model

| member | source | states |
|---|---|---|
| `SeqnoProtocol.SeqnoTest` | bootstrap/default_pager.c:1653-1674 | comparing wrapped 32-bit sequence numbers picks out the one next request, for any number of requests behind it |
| `SeqnoProtocol.StepKeepsInv` | bootstrap/default_pager.c:2008-2426 | every step of every handler, of the object lister and of the kernel's arrivals keeps the protocol invariant: lock ownership, counts, order, and no lost wakeup on any of the four conditions |
| `SeqnoProtocol.RunInv` | bootstrap/default_pager.c:1653-1748 | the invariant holds in every state of every run |
| `SeqnoProtocol.QuietMeansComplete` | bootstrap/default_pager.c:1688-1748 | once both counts are zero, everything served is complete |
| `SeqnoProtocol.ReadsFollowEarlierWrites` | bootstrap/default_pager.c:2211-2300 | while a read is in progress every write with a smaller sequence number has finished, and the two counts are exactly the operations in progress |
| `SeqnoProtocol.TerminateWaitsForAll` | bootstrap/default_pager.c:2058-2106 | the step by which terminate clears the ports happens with no reader and no writer and every earlier request complete, although the lock was dropped while waiting |
| `SeqnoProtocol.FreeingIsAlone` | bootstrap/default_pager.c:2135-2206 | no handler ever panics, and when no-senders frees the object no read or write is in progress, every earlier request has had its effect and nothing follows; an earlier handler may still have its broadcast to make |
| `SeqnoProtocol.TouchedAfterFreeing` | bootstrap/default_pager.c:1653-1748 | in every run, something can still happen to the freed object exactly while some request is not done |
| `SeqnoProtocol.FreeingIsLast` | bootstrap/default_pager.c:2135-2206 | freeing is the last step that touches the object if and only if every earlier request is done by then |
| `SeqnoProtocol.LateBroadcast` | bootstrap/default_pager.c:1688-1708 | a run in which a reader broadcasts on the object after no-senders has freed it |
| `SeqnoProtocol.NeverStuck` | bootstrap/default_pager.c:1653-1770 | while any request is unfinished, some thread already at work can take a step: no deadlock and no lost wakeup |
| `MutexProtocol.StepKeepsInv` | libthreads/cprocs.c:642-704 | every step of the fast and solid paths keeps the invariant |
| `MutexProtocol.RunInv` | libthreads/cprocs.c:642-704 | the invariant holds in every state of every run |
| `MutexProtocol.MutualExclusion` | include/mach/cthreads.h:181-197 | two threads never own the mutex at once, and an owner has set `held` |
| `MutexProtocol.NoWaiterStranded` | libthreads/cprocs.c:642-704 | if a thread is queued and the mutex is free, some thread that can run is obliged to look again or to wake somebody |
| `MutexProtocol.NeverStuck` | libthreads/cprocs.c:642-704 | if any thread is inside the mutex code, one of them can run |
| `Scheduler.RunKeepsInv` | libthreads/cprocs.c:278-497 | a step of any kernel thread in cproc_ready, cproc_waiting, cproc_block or the switch keeps the invariant |
| `Scheduler.DoKeepsInv` | libthreads/cprocs.c:534-635 | starting a wait, a signal or a yield keeps it |
| `Scheduler.CreateKeepsInv` | libthreads/cprocs.c:502-531 | cproc_create at the limit of kernel threads, which queues the new cproc as ready, keeps it |
| `Scheduler.SpawnKeepsInv` | libthreads/cprocs.c:502-531 | cproc_create below the limit, which starts a kernel thread on the new cproc, keeps it |
| `Scheduler.StepKeepsInv` | libthreads/cprocs.c:278-635 | every action keeps the invariant |
| `Scheduler.RunInv` | libthreads/cprocs.c:278-635 | the invariant holds in every state of every run |
| `Scheduler.ExactlyOnePlace` | libthreads/cprocs.c:278-334 | every cproc is on at most one stack and in at most one list, hand or queue, and one that is on no stack is in exactly one: a cproc taken off a queue is caught while switching or made ready exactly once |
| `Scheduler.RunnersUnlisted` | libthreads/cprocs.c:422-497 | a cproc that runs user code is RUNNING and in no list |
| `Scheduler.BlockedIsListed` | libthreads/cprocs.c:534-568 | a BLOCKED cproc is listed exactly once, so somebody can wake it |
| `Scheduler.SwitchesToSavedContexts` | libthreads/cprocs.c:422-497 | a kernel thread takes on a cproc only when no stack carries it any more, it alone has it in hand, and no queue holds it: its context has been saved |
| `Scheduler.IdleStacksUnshared` | libthreads/cprocs.c:354-412 | two kernel threads never use the same idle stack |
| `Scheduler.CountersTrue` | libthreads/cprocs.c:294-382 | ready_count is the length of the ready queue less the wakeup tokens outstanding, wait_count the waiting kernel threads less the tokens, and if no pool thread is active and the ready queue is not empty a token is outstanding |
| `SchedulerProgress.StepOrdered` | libthreads/cprocs.c:278-635 | every step keeps an order in which threads that hold one cproc lock and wait for another wait only for lower ones |
| `SchedulerProgress.RunOrdered` | libthreads/cprocs.c:278-635 | so there is such an order in every state of every run, although threads yield to each other in chains |
| `SchedulerProgress.Unhindered` | libthreads/cprocs.c:422-497 | a thread never finds its own cproc's lock taken |
| `SchedulerProgress.IdlerHolderGoes` | libthreads/cprocs.c:354-412 | whoever holds the lock of an idle stack can take its next step |
| `SchedulerProgress.HolderGoes` | libthreads/cprocs.c:422-497 | behind every cproc lock that is held some thread can take its next step |
| `SchedulerProgress.NeverStuck` | libthreads/cprocs.c:278-635 | in every state of every run, while any kernel thread is at work in the scheduler one of them can take its next step: no deadlock on the locks of cprocs and idle stacks |
| `PortSlots.StepKeepsInv` | libthreads/cprocs.c:744-846 | every step of msg_busy, msg_active and mach_msg by a disciplined caller keeps the count of slots true |
| `PortSlots.RunInv` | libthreads/cprocs.c:720-846 | so in every state of every run |
| `PortSlots.StepWithin` | libthreads/cprocs.c:744-791 | a step keeps `held` within the callers' limits |
| `PortSlots.RunWithin` | libthreads/cprocs.c:744-791 | so in every state of every run |
| `PortSlots.SlotsCounted` | libthreads/cprocs.c:744-846 | `held` is the number of threads that own or are being handed a slot, never above the maximum, and at least the minimum while threads are queued |
| `PortSlots.SomeoneHolds` | libthreads/cprocs.c:744-772 | with a minimum of at least one, queued threads have an owner who can hand over |
| `PortSlots.QueuedForever` | libthreads/cprocs.c:744-772 | with a minimum of zero or less a thread that queues is never handed a slot, in any continuation |
| `PortSlots.StrandedWithoutMinimum` | libthreads/cprocs.c:744-846 | a run that ends with a queued thread and no slot held |
| `PortSlots.QueuesAloneExactly` | libthreads/cprocs.c:776-846 | a thread that asks while no slot is held, with or without a message to send first, is granted one if and only if its maximum is at least one, and otherwise queues with nobody to hand it one |
| `PortSlots.NeverOwned` | libthreads/cprocs.c:744-846 | in a run in which every maximum is zero or less nobody ever owns a slot |
| `PortSlots.QueuedWithoutMaximum` | libthreads/cprocs.c:744-846 | so whoever queues there stays queued, in any continuation |
| `PortSlots.StrandedWithoutMaximum` | libthreads/cprocs.c:744-846 | a run with minimum 1 and maximum 0 that ends with a queued thread and no slot held |
| `PortSlots.BusyMustNameItsPort` | libthreads/cprocs.c:744-772 | msg_busy keeps the count true if and only if it names the port whose slot the caller has |
| `PartitionBitmap.FullWord` | bootstrap/default_pager.c:304-308 | a word equals the full mask exactly when all its bits are set |
| `PartitionBitmap.FirstOpenWord` | bootstrap/default_pager.c:304-311 | the scan over words stops at the first that is not full |
| `PartitionBitmap.LowestClearBit` | bootstrap/default_pager.c:316-323 | the scan within a word finds its lowest clear bit |
| `PartitionBitmap.InRange` | bootstrap/default_pager.c:298-332 | the lowest clear bit is below the number of blocks whenever a block is free, despite spare bits in the last word |
| `PartitionBitmap.SomeWordOpen` | bootstrap/default_pager.c:304-311 | with a free block some word is not full, so the scan never panics |
| `PartitionBitmap.LowestClear` | bootstrap/default_pager.c:304-323 | first open word and lowest clear bit in it make the lowest clear bit of the map |
| `PartitionBitmap.FindClear` | bootstrap/default_pager.c:304-323 | the whole search returns the lowest free block, which is in range |
| `PartitionBitmap.Partition.constructor` | bootstrap/default_pager.c:165-222 | a new partition has every block free |
| `PartitionBitmap.Partition.AllocPage` | bootstrap/default_pager.c:276-333 | no block if and only if the partition is going away or full; otherwise the lowest free block, now marked, with the free count true |
| `PartitionBitmap.Partition.DeallocPage` | bootstrap/default_pager.c:338-365 | the block's bit is cleared and the free count raised; the counts stay true if and only if the bit was set |
| `PageMap.PackRoundTrip` | bootstrap/default_pager.c:392-426 | an entry packed into its word with an 8-bit index and a 24-bit offset reads back, and the no-block word is no live block |
| `PageMap.DoubledGood` | bootstrap/default_pager.c:640-646 | repeated doubling gives a size that is a power of two up to 64 or a multiple of 64, large enough and less than twice what is needed |
| `PageMap.NeverShrinks` | bootstrap/default_pager.c:640-646 | pager_extend does not shrink a map if and only if the size asked for is within the doubling limit or rounds up to at least the present size |
| `PageMap.PlayGrows` | bootstrap/default_pager.c:621-767 | what a sequence of extensions and stores by several writers leaves is what its parts leave one after the other, and never smaller unless one overruns |
| `PageMap.PlayCovers` | bootstrap/default_pager.c:1050-1069 | once somebody has extended the map for a page, it covers the page whatever else is done |
| `PageMap.PlayKeeps` | bootstrap/default_pager.c:1050-1069 | pages nobody stores keep their entries, whatever the writers do, unless an extension overruns |
| `WriterRace.ShrinksExactly` | bootstrap/default_pager.c:640-661 | a step of any writer makes the map smaller if and only if it is an extension to less, rounded up, than the map has by then |
| `WriterRace.GuardUnlessCovered` | bootstrap/default_pager.c:1050-1069 | that happens only if the writer's page has come to be covered since it looked, and lies above the doubling limit |
| `WriterRace.NeverSmallerExactly` | bootstrap/default_pager.c:1050-1069 | in every run of any number of writers the map never gets smaller if and only if every extension meets the guard when it is made |
| `WriterRace.EntriesStay` | bootstrap/default_pager.c:1050-1155 | in runs that meet it an entry stays until somebody stores that page |
| `WriterRace.EntryLost` | bootstrap/default_pager.c:1050-1069 | a run of two writers after which the map is smaller and a stored entry is gone |
| `PageMap.GrownTwice` | bootstrap/default_pager.c:621-767 | growing in several steps is growing once |
| `PageMap.CopyGrown` | bootstrap/default_pager.c:743-748 | the copying loop keeps old entries and leaves new ones absent |
| `PageMap.CopyPointers` | bootstrap/default_pager.c:653-661 | the loop over second-level arrays keeps pointers and leaves new ones null |
| `PageMap.PageTable.constructor` | bootstrap/default_pager.c:452-518 | a new object has a good size of at least what was asked for and no block |
| `PageMap.PageTable.ReadOffset` | bootstrap/default_pager.c:775-815 | whichever form the map has, a read gives the entry of that page |
| `PageMap.PageTable.GrowIndirect` | bootstrap/default_pager.c:648-679 | growing a two-level map keeps every entry and adds absent ones |
| `PageMap.PageTable.GoIndirect` | bootstrap/default_pager.c:681-739 | so does the switch from one level to two |
| `PageMap.PageTable.Extend` | bootstrap/default_pager.c:621-767 | pager_extend keeps every entry and adds absent ones, to the size computed; its copying loop overruns the new array if and only if that size is smaller than the old one |
| `PageMap.PageTable.Others` | bootstrap/default_pager.c:1050-1155 | other writers, extending and storing while the lock is free, do to the arrays what the sequence of their operations says |
| `PageMap.PageTable.MakeRoom` | bootstrap/default_pager.c:1050-1112 | with other writers at work before and after pager_extend, whenever the lock is free: unless an extension overruns, the map covers the page, its second-level array exists, and the entries are those that all the writers together leave |
| `PageMap.PageTable.AddSecond` | bootstrap/default_pager.c:1074-1107 | a fresh second-level array changes no page |
| `PageMap.PageTable.Store` | bootstrap/default_pager.c:1114-1155 | storing an entry changes that page and no other |
| `PageMap.PageTable.ReleaseOffset` | bootstrap/default_pager.c:820-844 | the block of a page is taken out and returned, and no other page changes |
| `PageMap.PageTable.CountGroup` | bootstrap/default_pager.c:526-559 | the inner loop adds the pages of one second-level array |
| `PageMap.PageTable.Allocated` | bootstrap/default_pager.c:526-559 | the count is the number of pages that have a block |
| `BlockStore.ChooseFirst` | bootstrap/default_pager.c:232-270 | choose_partition finds the first partition that fits, and none if and only if none does |
| `BlockStore.LowestClearIsLeast` | bootstrap/default_pager.c:304-332 | the block found by the bitmap search is the one the state machine allocates |
| `BlockStore.RoomForOne` | bootstrap/default_pager.c:1118-1151 | the partition chosen for one page can always serve it, and none is found exactly when every other usable one is full |
| `BlockStore.RoomSpec` | bootstrap/default_pager.c:1118-1155 | finding room for a page fails if and only if every partition not going away is full; otherwise it yields a block nobody has |
| `BlockStore.NoBlockExactly` | bootstrap/default_pager.c:1011-1164 | pager_write_offset leaves the page without a block if and only if it had none and every partition not going away is full |
| `BlockStore.WriteKeeps` | bootstrap/default_pager.c:1378-1432 | a write keeps one owner per block, the page reads as the data if it got a block, and every other page of every object reads the same |
| `BlockStore.WriteClear` | bootstrap/default_pager.c:1011-1164 | a write puts nothing on a partition that is going away and never makes an object turn to it |
| `BlockStore.MoveFailsExactly` | bootstrap/default_pager.c:853-910 | moving a page fails if and only if every other partition not going away is full |
| `BlockStore.MoveTakesOne` | bootstrap/default_pager.c:853-910 | a move takes exactly one of the free blocks elsewhere |
| `BlockStore.MoveKeeps` | bootstrap/default_pager.c:853-910 | moving a page keeps one owner per block and every page's contents |
| `BlockStore.ReallocKeeps` | bootstrap/default_pager.c:1226-1273 | however far pager_realloc gets, ownership and every page's contents are kept, and it stops early only if everything else is full |
| `BlockStore.ReallocExactly` | bootstrap/default_pager.c:1226-1273 | it moves the pages on the partition in order as long as there is room elsewhere and no others, and gets to the end if and only if there is room for all |
| `BlockStore.ReallocRoom` | bootstrap/default_pager.c:1226-1273 | at the end it has taken one block elsewhere for each of them |
| `BlockStore.ReallocClears` | bootstrap/default_pager.c:1226-1273 | and no page is left on the partition |
| `BlockStore.TakeOutOwned` | bootstrap/default_pager.c:820-844 | a block taken out of a map belongs to whoever is to give it back |
| `BlockStore.DeallocKeeps` | bootstrap/default_pager.c:1166-1216 | freeing an object gives back exactly its blocks |
| `DefaultPager.ReleaseKeeps` | bootstrap/default_pager.c:820-844 | releasing a page frees its block and changes no other page |
| `DefaultPager.OwnersLeft` | bootstrap/default_pager.c:1166-1216 | a block is marked once an object is gone if and only if it was another object's |
| `DefaultPager.ReallocFacts` | bootstrap/default_pager.c:1226-1273 | pager_realloc succeeds if and only if the pages on the partition are no more than the free blocks elsewhere |
| `DefaultPager.Pager.constructor` | bootstrap/default_pager.c:153-163 | the pager starts without partitions and objects |
| `DefaultPager.Pager.Choose` | bootstrap/default_pager.c:232-270 | the loop over the partitions computes the first that fits |
| `DefaultPager.Pager.AllocPage` | bootstrap/default_pager.c:276-333 | allocation on the bitmaps marks the least free block, of that partition only |
| `DefaultPager.Pager.DeallocPage` | bootstrap/default_pager.c:338-365 | freeing on the bitmaps clears that block and no other |
| `DefaultPager.Pager.MakeRoom` | bootstrap/default_pager.c:1050-1112 | on the arrays of a map: it covers the page and has an array for its entry |
| `DefaultPager.Pager.Store` | bootstrap/default_pager.c:1114-1155 | on the arrays: that page of that object gets the entry |
| `DefaultPager.Pager.FindRoom` | bootstrap/default_pager.c:1118-1151 | the block for a page comes from the object's partition, or from the first other one that has any, to which the object then turns |
| `DefaultPager.Pager.WriteOffset` | bootstrap/default_pager.c:1011-1164 | pager_write_offset on bitmaps and maps does what the value-level operation says |
| `DefaultPager.Pager.EmptyPlace` | bootstrap/default_pager.c:196-197 | the first empty place in the list of partitions |
| `DefaultPager.Pager.Enlist` | bootstrap/default_pager.c:199-216 | the new partition is in that place, the list doubled if it was full |
| `DefaultPager.Pager.CreatePartition` | bootstrap/default_pager.c:165-222 | a new partition has every block free and disturbs nothing |
| `DefaultPager.Pager.NewObject` | bootstrap/default_pager.c:452-518 | a new object has no page, and every other reads as before |
| `DefaultPager.Pager.Write` | bootstrap/default_pager.c:1378-1432 | an uninterrupted write succeeds if and only if the page had a block or some partition has room; the page then reads as the data, every other page as before, and every block has one owner |
| `DefaultPager.Pager.Read` | bootstrap/default_pager.c:1291-1354 | an uninterrupted read gives the page's contents |
| `DefaultPager.Pager.Release` | bootstrap/default_pager.c:820-844 | the block is free, the page has none, and every other page reads as before |
| `DefaultPager.Pager.FreePages` | bootstrap/default_pager.c:1166-1216 | the loop of pager_dealloc leaves the blocks of all other objects with their owners |
| `DefaultPager.Pager.Dealloc` | bootstrap/default_pager.c:1166-1216 | the object goes, exactly its blocks become free, and every other object's pages read the same |
| `DefaultPager.Pager.MoveOne` | bootstrap/default_pager.c:853-910 | moving a page on bitmaps, disk and maps does what the value-level operation says, and no page reads differently |
| `DefaultPager.Pager.ReallocPages` | bootstrap/default_pager.c:1226-1273 | the loop of pager_realloc on bitmaps, disk and maps does what the value-level operation says, with every page reading the same |
| `DefaultPager.Pager.Realloc` | bootstrap/default_pager.c:1226-1273 | all of the object's pages leave the partition if and only if there is room for them elsewhere, and every page reads the same whether they do or not |
| `DefaultPager.PassCount` | bootstrap/default_pager.c:1577-1611 | passing one object takes its pages, and no other's, off the count of those still to be moved |
| `DefaultPager.Pager.EvacuateAll` | bootstrap/default_pager.c:1577-1611 | one pass over all objects succeeds if and only if there is room elsewhere for all the pages on the partition, and then none refers to it |
| `DefaultPager.Pager.Find` | bootstrap/default_pager.c:1558-1566 | the first partition of the name |
| `DefaultPager.Pager.SetGoing` | bootstrap/default_pager.c:1567-1628 | marking a partition as going away, or not, changes nothing else |
| `DefaultPager.Pager.Remove` | bootstrap/default_pager.c:1612-1630 | a partition no object refers to can be taken off the list |
| `DefaultPager.Pager.Destroy` | bootstrap/default_pager.c:1543-1630 | uninterrupted: an unknown name is refused; otherwise the partition is removed if and only if there is room elsewhere for all pages on it; success leaves no reference to it, failure puts it back and means everything else is full; every page reads the same in each case |
| `PagingSystem.NoFault` | bootstrap/default_pager.c:775-1630 | from a state in order no step uses a partition that is gone or an entry that is absent |
| `PagingSystem.ClaimFinds` | bootstrap/default_pager.c:1378-1400 | a write goes on with the page's block if it has one, and gives up at once exactly if the object has no partition and there is none to turn to: every one not going away is full, and none passes for large enough because the size wanted has wrapped |
| `PagingSystem.TryFinds` | bootstrap/default_pager.c:1118-1121 | the object's own partition yields an unused block if and only if it is there, is not going away and has one |
| `PagingSystem.SeekFinds` | bootstrap/default_pager.c:1122-1140 | another is chosen if and only if one that is not going away has a block at that moment, and the write is given up otherwise |
| `PagingSystem.TakeFinds` | bootstrap/default_pager.c:1137-1151 | the chosen one yields an unused block if and only if it has not begun to go away since it was chosen and locked; it cannot have been filled or removed |
| `PagingSystem.OnwardIsStep` | bootstrap/default_pager.c:1118-1151 | a thread that looks for room can always take its next step if no lock is kept from it |
| `PagingSystem.ClaimAlone` | bootstrap/default_pager.c:1011-1164 | uninterrupted, these steps come to pager_write_offset as one operation of `BlockStore` |
| `PagingSystem.ReadSeesPage` | bootstrap/default_pager.c:1291-1354 | a read that has found its block transfers what the page holds |
| `PagingSystem.OthersUnchanged` | bootstrap/default_pager.c:820-1630 | whatever the step, one of an evacuation included, a page it does not address reads the same afterwards |
| `PagingSystem.MoveNextExactly` | bootstrap/default_pager.c:1237-1267 | moving the next page of an object keeps the invariant if and only if no transfer is outstanding on that page when it moves, whatever other threads have done since the page before |
| `PagingSystem.LeaveInv` | bootstrap/default_pager.c:1268-1272 | so does the end of pager_realloc, at which the object is given another partition |
| `PagingSystem.FinishExactly` | bootstrap/default_pager.c:1612-1630 | removing the partition keeps it if and only if no block of it is waiting to be given back |
| `PagingSystem.StepExactly` | bootstrap/default_pager.c:165-1630 | every other step keeps it: a step leads from a state in order to a state in order if and only if it is quiet in this sense |
| `PagingSystem.RunExactly` | bootstrap/default_pager.c:165-1630 | a run stays in order throughout if and only if all its steps are quiet |
| `PagingSystem.RunInv` | bootstrap/default_pager.c:165-1630 | so the invariant holds in every state of every quiet run |
| `PagingSystem.NeverFaults` | bootstrap/default_pager.c:775-1630 | in every state of every quiet run no step that can be taken uses a missing partition or entry |
| `PagingSystem.BlockOwnership` | bootstrap/default_pager.c:1011-1216 | in every quiet run a block in a map or on its way back is inside its partition, marked, and nowhere else |
| `PagingSystem.NoBlockLeaks` | bootstrap/default_pager.c:276-365 | in every quiet run a marked block is on a page of a listed object or waits to be given back, and free plus marked blocks make the partition's size |
| `PagingSystem.ReadsAsBefore` | bootstrap/default_pager.c:1291-1630 | in every quiet run a page that is not addressed reads the same, evacuations that succeed or fail included |
| `PagingSystem.ReadsLastWrite` | bootstrap/default_pager.c:1291-1432 | in every quiet run, once a write has been transferred its page reads as the data until it is addressed again |
| `PagingSystem.RemovedIsUnreferenced` | bootstrap/default_pager.c:1543-1630 | when removal succeeds in a quiet run, no map and no block in hand refers to the removed partition, and no object its last pass has visited turns to it; which others do is said by `RemovedChoice.StaleExactly` |
| `PagingSystem.WriteLostExactly` | bootstrap/default_pager.c:1378-1432 | a write that has its block when the pass comes to its page is kept if and only if the page does not move or already holds the data; otherwise it goes to the old block and the page reads as before |
| `PagingSystem.RemovalFaultsExactly` | bootstrap/default_pager.c:338-352 | giving a block back after a removal uses a missing partition if and only if the block was on it |
| `RemovedChoice.ChoiceKept` | bootstrap/default_pager.c:165-1630 | while a partition goes away, after any step an object has it for its choice if and only if it had before and the step neither renews the choice nor is the end of the object's visit |
| `RemovedChoice.StaleExactly` | bootstrap/default_pager.c:1543-1630 | in every quiet run in which a partition is removed, an object has the removed index for its choice afterwards if and only if it had it before the removal began, was not on the list when the last pass began, and has not been given another since |
| `RemovedChoice.StaleWrites` | bootstrap/default_pager.c:1118-1151 | a page of such an object gets a block if and only if some partition that is not going away has one, on that partition, and the object turns to it |
| `EvacuationRaces.WriteLost` | bootstrap/default_pager.c:1378-1432 | a run in which an evacuation between finding the block and writing it loses the write |
| `EvacuationRaces.WriteFaults` | bootstrap/default_pager.c:1378-1432 | a run in which the write's partition has been removed by the time it is used |
| `EvacuationRaces.FreeFaults` | bootstrap/default_pager.c:1166-1216 | a run in which an object off the list is freed after its partition was removed |
| `EvacuationRaces.ReleaseFaults` | bootstrap/default_pager.c:820-844 | a run in which a released block is given back after its partition was removed |
| `EvacuationRaces.WriteGivenUp` | bootstrap/default_pager.c:1122-1151 | a run in which the partition a write has chosen begins to go away, and the write is given up although a third has room |
| `EvacuationRaces.StaleChoice` | bootstrap/default_pager.c:1543-1630 | a quiet run after which an object has the index of a removed partition for its choice |
| `MessageLayout.PointerLands` | mig/server.c:645-653 | the moved message pointer plus the field's place in the declared structure is the field's true offset, whatever the variable sizes before it |
| `MessageLayout.SizeExact` | mig/user.c:571-619 | the message length is the minimum size plus the variable sizes |
| `MessageLayout.Settle` | mig/user.c:571-619 | the adjustment code keeps size and pointer true |
| `MessageLayout.PackOne` | mig/user.c:646-664 | packing one argument puts it at its offset and disturbs none before it |
| `MessageLayout.Finish` | mig/user.c:602-619 | the finished message carries every piece at its offset and has exactly the right size |
| `MessageLayout.DescriptorInside` | mig/server.c:496-550 | after the size checks passed so far, the next descriptor lies inside the message |
| `MessageLayout.FieldInside` | mig/server.c:496-550 | if the size of a message is right, whoever sent it, every descriptor and its data lie inside |
| `MessageLayout.SizeCheckExact` | mig/server.c:496-550 | a size check fails only if the total size is wrong, and otherwise leaves the remaining size true |
| `MessageLayout.AdvanceExact` | mig/server.c:645-653 | the pointer moves to where the next fields are |
| `MessageLayout.CheckOneExact` | mig/server.c:634-642 | if its size does not wrap, one field's checks keep all this or refuse a message that is not acceptable |
| `MessageLayout.PassesExactly` | mig/server.c:656-686 | if no size wraps, the checks accept exactly the messages whose descriptors and size are right, whatever is in the memory around them |
| `MessageLayout.InsideExactly` | mig/server.c:496-550 | in a message that has passed the checks all fields are inside if and only if no size wrapped |
| `MessageLayout.Check` | mig/server.c:656-686 | the chain of checks, in 32-bit unsigned arithmetic: if no size wraps it accepts if and only if every descriptor is the expected one where the pointers land and the size is the minimum plus the variable sizes; and the fields of an accepted message are inside it if and only if no size wrapped |
| `MessageLayout.TakesExactly` | mig/user.c:1096-1130 | checking and extracting field by field, whoever sent the message, as long as no size wraps: what has been stored was inside it, a failed check leaves exactly the fields before it stored, and fails only in a message that is not acceptable |
| `MessageLayout.CheckOneWrapped` | mig/server.c:496-550 | the checks cannot tell a size from what is left of it modulo 2^32 |
| `MessageLayout.TakesLocated` | mig/user.c:1096-1130 | whatever wraps, values are stored from where their fields are, by the sizes as the code has them, up to the first at which their sum wraps; success and refusal mean what they should up to there |
| `MessageLayout.TakeFields` | mig/user.c:1096-1130 | the interleaved loop computes this |
| `MessageLayout.FindsFields` | mig/server.c:656-686 | the receiver finds each field where the sender put it |
| `MessageLayout.PackedIsAccepted` | mig/server.c:656-686 | a packed message is accepted, and each piece is where the receiver looks |
| `MigLayout.WholeBytes` | mig/type.c:151-183 | for items of whole bytes the size is count times item size |
| `MigLayout.BaseSound` | mig/type.c:486-520 | base types are sound |
| `MigLayout.ArraySound` | mig/type.c:624-640 | so are fixed arrays of sound types |
| `MigLayout.VarArraySound` | mig/type.c:593-618 | so are variable arrays of elements of at most 2048 bytes |
| `MigLayout.PtrSound` | mig/type.c:643-660 | so are out-of-line forms |
| `MigLayout.DescriptorRoundTrip` | include/mach/message.h:196-212 | a short or long descriptor reads back from its bytes, and its length bit says which it is |
| `MigStubs.SizesAgree` | mig/server.c:460-490 | sender and receiver compute the same size for a variable field |
| `MigStubs.SizesAgreeExactly` | mig/server.c:460-490 | sender and receiver, each with the factors it emits, compute the same size for every count if and only if the items of an element divide its bytes, or there is one item of no size |
| `MigStubs.HalfBytesDisagree` | mig/user.c:524-566 | a type of half-byte items for which they do not: 8 bytes sent, 16 expected |
| `MigStubs.FindSizeIsMin` | mig/routine.c:365-388 | for arguments that MIG lays out consistently rtFindSize is the size of the descriptors and fixed fields of the declared structure |
| `MigStubs.FindSizeExactly` | mig/routine.c:365-388 | rtFindSize equals that size if and only if no short descriptor is narrower than its items, and is never less |
| `MigStubs.SentFits` | mig/user.c:424-504 | a value within its maximum fits the field declared for it |
| `MigStubs.PackedTypeOk` | mig/server.c:410-457 | a packed descriptor passes the type check, in its quick form or field by field |
| `MigStubs.TooLargeExactly` | mig/user.c:424-504 | the packing code gives up on an array if and only if it exceeds a declared maximum |
| `MigStubs.Pack` | mig/user.c:667-704 | packing fails if and only if an array is too large; otherwise every argument is in its place and the size is exact |
| `MigStubs.CheckRequest` | mig/server.c:385-407 | unless a size wraps, a request is accepted if and only if its size is rtRequestSize plus the rounded variable sizes and its descriptors are as expected; an accepted request has its fields inside if and only if none wraps |
| `MigStubs.UnsignedRounding` | mig/server.c:480-490 | rounding up in unsigned arithmetic is rounding up and then wrapping |
| `MigStubs.ShortNeverWraps` | mig/server.c:460-550 | with short descriptors no size can wrap |
| `MigStubs.WrappedSizePasses` | mig/server.c:480-550 | whenever the size a long descriptor claims wraps, a message as long as what is left of it passes the checks with the claimed data not inside it |
| `MigStubs.WrappedCount` | mig/server.c:480-550 | a message with four bytes of data that passes with a count of 2^30 + 1 |
| `MigStubs.ExtractInside` | mig/server.c:576-590 | what is extracted from an accepted request, whoever sent it, lies inside it unless a size wrapped |
| `MigStubs.RoundTrip` | mig/server.c:656-705 | for every list of arguments and values without a wide short descriptor, the packed request passes every check without a size wrapping, and the extracted values and counts are those sent; `MigWide.WideRoundTrip` has the others |
| `MigWide.ExtraExactly` | mig/routine.c:365-388 | rtFindSize exceeds the size of the declared fields by exactly what the short descriptors are narrower than their items, items being of whole words |
| `MigWide.PaddedPasses` | mig/server.c:496-550 | a message with any number of bytes too many passes checks that count as many too many |
| `MigWide.WideRoundTrip` | mig/server.c:656-705 | for every list of arguments and values, wide descriptors included, the request passes all checks and the values and counts extracted are those sent |
| `MigWide.OverrunExactly` | mig/user.c:571-619 | the client sends bytes from beyond its structure if and only if more is counted too much than the variable arguments leave unused, and exactly the difference |
| `MigWide.WideLong` | mig/routine.c:365-388 | one argument of 64 bits with a short descriptor makes it send four |
| `MigReplies.FitsExactly` | mig/server.c:878-956 | an in-line array of a reply fits its field if and only if its count is within the maximum the server function was given |
| `MigReplies.PackReply` | mig/server.c:1184-1221 | a reply within those maxima has every argument in its place and the exact size |
| `MigReplies.TakeReply` | mig/user.c:1096-1130 | the client's loop, which checks and extracts one argument after the other, on any reply: every argument stored has the count and the length that the code computes for it, the count is that of the bytes exactly if the descriptor is honest, all bytes stored were inside the reply exactly if every argument is good, and success then means an acceptable message |
| `MigReplies.CopyInside` | mig/user.c:941-1061 | without wrapping, what is copied of an argument, clamped or not, is no more than was checked to be there |
| `MigReplies.AnyReply` | mig/user.c:941-1130 | whatever a reply holds, whatever wraps and whatever the maxima: the bytes stored were inside it if and only if every length copied is below 2^31 as the code computes it, or, where the array is cut down, the maximum is within the rest of the reply; then success means an acceptable message and refusal one that is not |
| `MigReplies.UnwrappedReply` | mig/user.c:941-1130 | as long as no size wraps, everything stored was inside the reply, success means an acceptable message, and a failed check leaves exactly the arguments before it stored |
| `MigReplies.GoodExactly` | mig/user.c:983-1046 | for one argument: what is copied is inside the reply if and only if its descriptor and its maximum are good, and the next field is then where the code looks for it |
| `MigReplies.CountExactly` | mig/user.c:983-1061 | for one argument: the count stored is that of the bytes stored if and only if the count is of whole elements, the array is not cut down and its length does not wrap |
| `MigReplies.AllInsideExactly` | mig/user.c:941-1130 | and so for all arguments stored, although the place of each depends on the sizes before it |
| `MigReplies.TruncatedReply` | mig/user.c:712-790 | a reply shorter than the fixed part stores nothing and is no success |
| `MigReplies.WrappedReply` | mig/user.c:941-1061 | a reply of one array whose size is what is left of the size claimed is taken, with the count claimed and as many bytes as are left of it or as the caller has room for |
| `MigReplies.WrappedWords` | mig/user.c:983-1046 | a reply of 48 bytes that claims 2^30 + 1 words: four bytes are copied and the count claimed is returned, or the caller's room is filled from beyond the reply |
| `MigReplies.WrappedBytes` | mig/user.c:983-1004 | a reply of 44 bytes that claims 2^32 - 1 bytes, all of which are copied from beyond it |
| `MigReplies.ReplyRoundTrip` | mig/user.c:1007-1045 | for every list of arguments, values and caller's maxima: if every array fits, the client gets exactly the values sent; otherwise it stops at the first that does not with MIG_ARRAY_TOO_LARGE, the true count, as many elements as fit and everything before it |
| `MigReplies.ErrorReply` | mig/user.c:712-790 | a reply that ends after the return code gives the caller that code and nothing else |
| `BitArithmetic.MaskIsMod` | bootstrap/fs.h:398-401 | masking with 2^k - 1 is the remainder |
| `BitArithmetic.ShiftIsDiv` | bootstrap/fs.h:402-405 | shifting right is the quotient |
| `BitArithmetic.MaskIsFloor` | bootstrap/fs.h:406-409 | masking with high bits rounds down |
| `BitArithmetic.ClearLow` | bootstrap/fs.h:398-409 | so does masking a 32-bit word with a complement |
| `BlockMap.UniquePath` | bootstrap/ffs_file_io.c:168-192 | a file block has an index path if and only if it is below the span of direct and indirect blocks; the path leads to it and no other does |
| `BlockMap.LevelFound` | bootstrap/ffs_file_io.c:175-192 | the loop over levels finds the level and the number within it that the place among the levels says |
| `BlockMap.DigitsOfNumber` | bootstrap/ffs_file_io.c:202-270 | the quotients taken on the way down give the number back |
| `BlockMap.NumberOfDigits` | bootstrap/ffs_file_io.c:202-270 | and are the only ones that do |
| `BlockMap.StepDown` | bootstrap/ffs_file_io.c:262-269 | one level of the walk |
| `BlockMap.IndirectSpans` | bootstrap/ffs_file_io.c:451-477 | f_nindir holds what an int holds of the powers of the entries per block: the power itself if and only if it is below 2^31 |
| `BlockMap.ThirdSpanWraps` | bootstrap/ffs_file_io.c:451-477 | with blocks of 8192 bytes the third span is 0 |
| `BlockMap.OffsetInReach` | bootstrap/ffs_file_io.c:293-361 | the block of an offset below 2^32, four bytes to an entry, is within the reach for which the spans are shown to be exact |
| `BlockMap.ReachedSpan` | bootstrap/ffs_file_io.c:168-192 | a level that is reached for such a block has a span that its int holds |
| `BlockMap.File.constructor` | bootstrap/ffs_file_io.c:81-120 | a newly opened file caches nothing |
| `BlockMap.File.FindSpan` | bootstrap/ffs_file_io.c:168-192 | so the loop over the levels, on the wrapped spans, finds the level of the true ones |
| `BlockMap.File.IndexBlock` | bootstrap/ffs_file_io.c:207-260 | an index block is right whether it comes from the cache or is read while the lock is dropped |
| `BlockMap.File.OneLevel` | bootstrap/ffs_file_io.c:202-270 | one round of the loop follows the walk |
| `BlockMap.File.Descend` | bootstrap/ffs_file_io.c:202-270 | the loop down the levels computes the uncached walk |
| `BlockMap.File.BlockMap` | bootstrap/ffs_file_io.c:126-286 | for the block of any offset below 2^32, block_map, on the spans as an int holds them, is the uncached radix walk whatever the cache holds and others do to it meanwhile, a hole being block 0 and a block beyond the span not in the file |
| `FileRead.OffsetMacros` | bootstrap/fs.h:398-403 | blkoff and lblkno are remainder and quotient |
| `FileRead.FragMacro` | bootstrap/fs.h:408-409 | fragroundup gives whole fragments within a block |
| `FileRead.BlockHolds` | bootstrap/fs.h:430-433 | the block of a byte of the file is stored with enough bytes to include it, the last one held as fragments too |
| `FileRead.Reader.constructor` | bootstrap/ffs_file_io.c:81-120 | a newly opened file has no buffer |
| `FileRead.Reader.ReadableMapped` | bootstrap/ffs_file_io.c:293-361 | which bytes can be mapped |
| `FileRead.Reader.ByteInBlock` | bootstrap/ffs_file_io.c:293-361 | where a byte of the file is in its block |
| `FileRead.Reader.FillBuffer` | bootstrap/ffs_file_io.c:293-345 | the buffer holds the block asked for, zeros for a hole, or the block is not in the file |
| `FileRead.Reader.FromBuffer` | bootstrap/ffs_file_io.c:346-361 | what is handed out is a non-empty run of the file's bytes within the file |
| `FileRead.Reader.BufRead` | bootstrap/ffs_file_io.c:293-361 | it fails if and only if the offset is past the readable bytes |
| `FileRead.Reader.Read` | bootstrap/ffs_file_io.c:782-815 | ffs_read_file succeeds if and only if all that is asked for is in the file, and then gives exactly that slice, holes as zero |
| `FileDirect.PlacesDiffer` | bootstrap/ext2_file_io.c:1002-1095 | different sectors of the partition are different sectors of the disk |
| `FileDirect.Ext2Laid` | bootstrap/ext2_file_io.c:886-975 | distinct non-zero block addresses make blocks that do not overlap |
| `FileDirect.OffsetMacros` | bootstrap/ext2_file_io.c:988-992 | the offset macros are remainder and quotient |
| `FileDirect.Log2` | bootstrap/ext2_file_io.c:825-836 | the loop finds the exponent of a power of two |
| `FileDirect.StaysExactly` | bootstrap/ext2_file_io.c:1002-1042 | a request stays in one block if and only if it starts one or the rest of the page fits the rest of the block |
| `FileDirect.ShortTransferStrays` | bootstrap/ext2_file_io.c:1002-1042 | a transfer cut short after which the next would not |
| `FileDirect.FitsNext` | bootstrap/default_pager.c:1322-1354 | one transfer stays in a block and leaves the rest of the page in order |
| `FileDirect.PageFits` | bootstrap/ext2_file_io.c:841-875 | power-of-two pages and blocks meet the condition for every page |
| `FileDirect.AllStayWithin` | bootstrap/default_pager.c:1322-1354 | where a page lies in one block every request of every serving device stays in it |
| `FileDirect.SecondStrays` | bootstrap/default_pager.c:1322-1354 | a page of two blocks or more on a device that takes a sector at a time makes a request that does not |
| `FileDirect.PagesStayExactly` | bootstrap/ext2_file_io.c:1002-1042 | for pages of 2^b and blocks of 2^a sectors every request stays in one block, whatever part of each the device serves, if and only if b <= a or a block is one sector |
| `FileDirect.WritePage` | bootstrap/default_pager.c:1408-1432 | the transfers tile the page: it then reads as the data and no sector outside it changes |
| `FileDirect.ReadPage` | bootstrap/default_pager.c:1322-1354 | the page's sectors come back in order |
| `FileDirect.ReadBack` | bootstrap/default_pager.c:1322-1354 | what a page reads as is unique |
| `FileDirect.OtherPagesSame` | bootstrap/default_pager.c:1408-1432 | writing one page leaves what every other page reads as |
| `FileDirect.WriteThenRead` | bootstrap/default_pager.c:1291-1432 | a page written and then read gives the data, however the transfers are cut and whatever is written to another page in between; it fails if and only if sectors are missing |
| `PathLookup.OverlappingCopy` | bootstrap/strfcns.c:79-95 | the destination becomes what the source was, however the two overlap, and nothing else changes |
| `PathLookup.CopyUp` | bootstrap/strfcns.c:83-87 | copying from low addresses up is right when the destination is not inside the source above its start |
| `PathLookup.CopyDown` | bootstrap/strfcns.c:88-94 | copying from high addresses down is right when the destination is above |
| `PathLookup.SearchDirectory` | bootstrap/ffs_file_io.c:377-419 | the search over the directory file returns what the records say, and ends because record lengths are positive |
| `PathLookup.FindIsFirst` | bootstrap/ffs_file_io.c:377-419 | that is the inode of the first record of the name, and none only where no record has it |
| `PathLookup.SpliceLink` | bootstrap/ffs_file_io.c:614-676 | the buffer holds the link's text followed by the rest of the path, with its terminator |
| `PathLookup.NextEntry` | bootstrap/ffs_file_io.c:567-607 | scanning a component and looking it up does what the meaning of the path says |
| `PathLookup.OpenDevice` | bootstrap/ffs_file_io.c:526-556 | so does opening the device that a path names |
| `PathLookup.FollowLink` | bootstrap/ffs_file_io.c:614-722 | so does following a link, which restarts at its directory, at the root or on another device |
| `PathLookup.Walk` | bootstrap/ffs_file_io.c:559-724 | the loop ends, by links left and path left, with what the path means |
| `PathLookup.OpenFile` | bootstrap/ffs_file_io.c:495-742 | the result is that of resolving the path as a string with each directory searched, all within the buffer, however links lead; the buffer is overrun if and only if the path given is longer than MAXPATHLEN |
| `PathLookup.BoundOnlyStopsLoops` | bootstrap/ffs_file_io.c:619-623 | an answer other than too many links is the answer under every larger bound |
| `PathLookup.PathMeansItsNames` | bootstrap/ffs_file_io.c:559-607 | where no link is met a path means its names looked up one after another, however many slashes separate them |
| `PathLookup.LinkStandsForText` | bootstrap/ffs_file_io.c:609-722 | a path through a link means what the link's text followed by the rest means, begun on the device the text names, at the root or at the link's directory, unless the two are too long together |
| `PathLookup.SelfLinkLoops` | bootstrap/ffs_file_io.c:619-623 | a link to itself is given up on under every bound |
| `Kalloc.SizeClass` | bootstrap/kalloc.c:183-193 | the loop finds the smallest class that is large enough |
| `Kalloc.SameClass` | bootstrap/kalloc.c:222-251 | kfree with the size given to kalloc finds the same class |
| `Kalloc.StepCounted` | bootstrap/kalloc.c:109-251 | every step keeps the account of mapped bytes |
| `Kalloc.StepApart` | bootstrap/kalloc.c:109-251 | every step keeps everything that holds memory apart |
| `Kalloc.StepKeepsInv` | bootstrap/kalloc.c:109-251 | every step keeps the invariant, those in the unlocked window at vm_map included |
| `Kalloc.RunInv` | bootstrap/kalloc.c:77-251 | the invariant holds in every state of every run |
| `Kalloc.BlocksNeverOverlap` | bootstrap/kalloc.c:109-251 | a block in use overlaps no other, no free one, no memory in a thread's hands and not the space blocks are cut from |
| `Kalloc.BytesConserved` | bootstrap/kalloc.c:109-170 | mapped bytes are those in use, on lists, wasted, in threads' hands and left in the space |

## Left out

- Page offsets reported by `pager_pages`, checksums, statistics, overcommitment messages and debugging branches of the default pager.
- Lock balance on the failure path of `destroy_paging_partition` and where a chosen partition has begun to go away (`pager_alloc_page` then leaves it locked); of the pager's locks the model has what they exclude.
- Two removals of partitions at once, for which the source says destroy_paging_partition is not made.
- PagingSystem.ClaimFinds: the map is extended in the same step as it is looked into; the window in which `pager_extend` drops the lock is the subject of `WriterRace`.
- Memory exhaustion in the pager, partition indices from 255 on and offsets from 2^24 on, which the packed map entry cannot hold.
- PagingSystem.StepExactly: a read beyond an object's map, which panics in the source, is not a step, and pages are below 2^20 blocks, the range in which the byte sizes of the code do not wrap; the kernel has one request for a page outstanding at a time.
- DefaultPager.Pager.Dealloc: the blocks of an object are freed in ascending order in both forms of the map.
- DefaultPager.Pager.Destroy: the object's lock is never found busy, since nothing interrupts the call; starting over is a step of `PagingSystem`.
- DefaultPager.Pager.Read: a page beyond the map panics in the source.
- Kernel calls (ports, virtual memory, devices, message traps) are parameters, assumed steps or an abstract disk.
- BlockMap.File.BlockMap: device errors are not modelled, and the block is that of an offset below 2^32, since file sizes and offsets are 32-bit words.
- FileRead.Reader.Read: a failed device read, after which the buffer's number is stale, is not modelled; a file's size is one 32-bit word and an index block has four bytes per entry.
- FileDirect.WritePage: sectors are the unit of addresses; the fragment-addressed blocks of the FFS variant are covered through the general layout predicate rather than the `add` routine.
- PathLookup.OpenFile: inodes and links are read without device errors, and a path that overruns the buffer is reported instead of modelled further.
- PathLookup.SearchDirectory: record lengths are positive; the source does not test them.
- Kalloc.RunInv: blocks above the largest class, which go to the kernel directly, and the convention that address 0 means none.
- SeqnoProtocol.StepKeepsInv: fewer than 2^32 requests are outstanding at once, so that the wrapped numbers of requests differ.
- Wired C threads other than as outside wakers, and fork.
- PortSlots.StepKeepsInv: a caller releases only the port whose slot it has; what a message carries is left out.
- MIG parsing and text, strings, polymorphic names, the complex bit, translation functions and destructors, kernel-server circularity and 64-bit alignment.
- MigStubs.RoundTrip: items are of whole bytes, without which the two halves disagree as stated above; port names and the deallocate bit are taken as the kernel delivers them.
- MigWide.ExtraExactly: the sum is stated for items of whole words; the other results of `MigWide` are for all items of whole bytes.
- MigReplies.TakeReply: a reply is received into the structure declared for it, so its size is below 2^31; short descriptors narrower than their items are treated for requests only.
- MigReplies.PackReply: the server function keeps to the maxima it is given, which the generated code does not test.
- MIG routines whose request port or sequence number follows a variable-sized argument, and aliases of variable arrays.
- The minix reader, the two malloc implementations, queues, library stubs, error tables and boot glue are not modelled.
