# RT-Thread kernel models

RT-Thread is a small real-time kernel. This project models its heaps, its blocking inter-thread communication, its
scheduler and its timers in Dafny, and proves what they promise, for all inputs and over all runs. The configuration
is the board's: one processor, 32 priorities, 32-bit words, 4-byte alignment, no signals and no soft timers. The
memory-heap and slab allocators, which the board does not compile in, are modelled as well. `dafny verify
dfyconfig.toml` checks everything.

## How to read it

Each part comes in two layers. A specification on values (functions and predicates) says what an operation does; the
lemmas about it are the results. A class with the fields of the C structure and the C loops, updated in place, is then
proved equal to the specification, method by method. Pointers are indices into arrays, memory is an array of words,
32-bit arithmetic wraps explicitly, and a code region with interrupts disabled is one atomic step. A blocking call is
split at the points where the thread can be suspended or the lock is dropped, so a run is any interleaving of such
steps by any threads.

| file | what it models |
|---|---|
| `KernelTypes`, `Lists`, `Rings`, `RtList` | words and alignment, lists, doubly linked rings, `rt_list_*` |
| `BlockChain`, `BlockWords`, `SmallMem` | the small-memory heap: the chain of blocks, its headers in memory, the allocator |
| `MemCopy` | `rt_memcpy` |
| `MemHeap`, `MemHeapObject` | the memory heap with its two rings |
| `PageList`, `ZoneIndex`, `SlabZone`, `SlabHeap`, `SlabObject` | the slab allocator: pages, chunk sizes, zones, the heap, the object |
| `WaitList`, `ServiceOrder`, `Lanes`, `Semaphore`, `Mailbox`, `MessageQueue`, `MemPool`, `EventFlags`, `Mutex` | blocking communication |
| `SkipList`, `Timers`, `TimerCheck`, `TimerWheel`, `TimerRuns` | timers: the list, start and stop, dispatch, the object, runs of ticks |
| `Ffs`, `Scheduler`, `ThreadOps`, `SchedulerObject`, `RoundRobin` | the scheduler, operations on threads, the object, time slices |

## Where the code falls short of a natural claim

These are properties one would expect and that the code does not have in general. Each is stated with the exact
condition under which it holds, or with a run that breaks it.

- The search loop of the small-memory heap never stops on a heap with less than 12 bytes of payload
  (`SmallMem.SearchNeverStops`); everything else about that heap is proved for larger ones.
- `RT_ALIGN` turns the three largest 32-bit sizes into 0 (`KernelTypes.RtAlignRoundsUp`). An allocation of one of them
  yields a block of the smallest size, and a realloc of the small-memory heap frees the block; for all other sizes a
  success holds the bytes asked for (`SmallMem.Heap32.Alloc`, `SmallMem.Heap32.Realloc`, `MemHeap.AllocGives`).
- The memory heap refuses a request for exactly all that is available (`MemHeap.RefusesExactly`).
- The memory heap's realloc takes its growth branch wrongly when a 32-bit sum wraps; it keeps its promise if and only
  if that does not happen and `RT_ALIGN` does not wrap either (`MemHeap.ReallocExactly`, with an input in
  `MemHeap.OverrunHappens` that `MemHeap.OneBlockReached` reaches from a new pool).
- The slab allocator's comment promises that all power-of-two allocations are power-of-two aligned; they are up to a
  page (`SlabHeap.AllocKeeps`), and for every larger power of two a new heap may answer otherwise
  (`SlabHeap.PowerBound`).
- `rt_memcpy` copies upwards, so it is faithful if and only if the source does not begin below the destination and
  reach into it (`MemCopy.FaithfulExactly`).
- The memory pool wakes its newest waiter first; that is the order of arrival if and only if one thread waits
  (`MemPool.NewestFirst`).
- Priority inheritance is lost when a thread owns two mutexes (`Mutex.NestingBreaksInheritance`); releasing one keeps
  it on the other exactly under the condition of `Mutex.NestedRelease`, and boosting an owner that waits itself keeps
  it, and the order of waiters, exactly under those of `Mutex.NestedTake`.
- A periodic timer with a period of zero ticks keeps the dispatch loop from ending, and with idle callbacks nothing
  else does (`TimerCheck.EndsExactly`).
- A comment in `rt_enter_critical` allows 65535 nested critical sections; the counter is a signed 16-bit one, and the
  sections nest properly if and only if they are at most 32768 deep (`ThreadOps.SectionsNest`).

## Model

| member | source | states |
|---|---|---|
| KernelTypes.RtAlignRoundsUp | rt-thread/src/mem.c:300 | `RT_ALIGN` rounds a size up to the next multiple of four exactly when the 32-bit addition does not wrap; the last three sizes collapse to 0 |
| KernelTypes.WrapsOnce | rt-thread/src/timer.c:415 | 32-bit addition and subtraction are the wrapped ones, and subtraction undoes addition even across the wrap |
| SmallMem.InitLayoutInside | rt-thread/src/mem.c:178-240 | initialisation succeeds exactly if the region can hold the object, two headers and an aligned payload area; then everything lies inside it in that order and the payload area is the largest possible |
| SmallMem.Heap32.constructor | rt-thread/src/mem.c:215-240 | the headers written at start form the chain of one free block and the end marker, nothing is live and `used` is 0 |
| BlockChain.CarveHeap | rt-thread/src/mem.c:319-371 | splitting or taking whole a free block that fits keeps the chain: it tiles the heap and no two neighbours are both free |
| BlockChain.ReleaseHeap | rt-thread/src/mem.c:541-555 | freeing any block and plugging on both sides keeps the tiling and leaves no two free neighbours |
| BlockChain.TrimHeap | rt-thread/src/mem.c:464-492 | shrinking in place, with the tail joined to a free successor, keeps the tiling and leaves no two free neighbours |
| BlockChain.PlugHeap | rt-thread/src/mem.c:125-163 | `plug_holes` on a free block whose only free neighbours are its own restores the chain without free neighbours |
| BlockChain.FreeAfterAlloc | rt-thread/src/mem.c:319-388 | freeing the block just allocated, named by its address, restores the whole block chain, and with it `lfree` and `used`, which every heap state derives from the chain |
| BlockChain.ExtentsTile | rt-thread/src/mem.c:355-371 | header-inclusive extents of used and free blocks always add up to the span of the chain |
| BlockChain.CarveExtent | rt-thread/src/mem.c:355-371 | allocation moves exactly the block taken, header included, from the free to the used extents |
| BlockChain.ReleaseExtent | rt-thread/src/mem.c:552-555 | freeing moves exactly the block's extent back; merging changes no used extent |
| BlockChain.TrimExtent | rt-thread/src/mem.c:467-489 | shrinking takes exactly the tail given back out of the used extents |
| BlockChain.ExtentBounds | rt-thread/src/mem.c:368 | used extents never exceed the heap, so the counter cannot wrap |
| BlockWords.HeaderWrites | rt-thread/src/mem.c:125-163 | writes confined to headers of the new chain, or to free payload, change no word of any live payload |
| BlockWords.Apart | rt-thread/src/mem.c:337-354 | headers of distinct blocks never overlap |
| SmallMem.Heap32.PlugHoles | rt-thread/src/mem.c:125-163 | the two-sided merge done by header writes yields the chain `Plug` describes, leaves `next` and `prev` inverse to one another, moves `lfree` with the merge and touches no live payload |
| SmallMem.Heap32.Search | rt-thread/src/mem.c:313-319 | the search from `lfree` up to the unsigned bound returns the lowest-address free block that fits, and nothing exactly if there is none |
| SmallMem.Heap32.Take | rt-thread/src/mem.c:319-388 | the found block is split or taken whole; the invariant, `used`, its peak and `lfree` follow, and the live payloads gain exactly the new one |
| SmallMem.Heap32.Alloc | rt-thread/src/mem.c:279-404 | null exactly for a zero request or when no free block can hold the aligned request, and then nothing changes; otherwise the lowest-address fit, every byte of every other live payload unchanged, `used` raised by the block with its header and its peak recorded; the payload has the words needed and no tail that could stand alone, and holds the bytes asked for exactly if the request is at most 2^32-4, the three larger ones wrapping in `RT_ALIGN` |
| SmallMem.Heap32.Free | rt-thread/src/mem.c:512-556 | the live payloads lose exactly the one freed, every other byte stays, the chain is the released one and `used` drops |
| SmallMem.Heap32.Realloc | rt-thread/src/mem.c:418-503 | zero frees, and so do the three sizes above 2^32-4, which `RT_ALIGN` turns into zero: for any other request a null result changes nothing; a request for the same size, or small enough to cut off a tail that can stand alone, keeps the address; otherwise null exactly if no free block fits, and then nothing changes; success has room for the bytes asked for, keeps the first min(old, new) words and every other live payload; in place the payload has exactly the words asked for, moved those of an allocation; `used` changes by the difference of the two payloads, and `max` stays the peak of all values `used` has had |
| SmallMem.Heap32.Shrink | rt-thread/src/mem.c:464-492 | the tail of the block becomes free, possibly joined with a free successor, and the payload keeps its front |
| SmallMem.Heap32.Move | rt-thread/src/mem.c:494-502 | null exactly if no free block fits, and then nothing changes; otherwise the payload moves, its contents with it, to an address that was not live |
| SmallMem.SearchNeverStops | rt-thread/src/mem.c:302-319 | on a payload area below 12 bytes the search bound wraps: for every request that passes the size test no step of the search stops it, so such a heap is outside the allocator's promise |
| SmallMem.FitFromLowest | rt-thread/src/mem.c:313 | starting the search at the lowest free block instead of at address 0 skips no fit |
| SmallMem.NoFitPast | rt-thread/src/mem.c:314 | past the loop bound no block can fit, so stopping there misses nothing |
| MemCopy.Copy | rt-thread/src/kservice.c:226-296 | the word-at-a-time loops leave exactly what copying byte by byte upwards leaves, for every alignment, length and overlap |
| MemCopy.FaithfulExactly | rt-thread/src/kservice.c:226-296 | the destination receives the original source whatever the memory holds if and only if the source does not begin below the destination and reach into it |
| MemCopy.UpwardsFrame | rt-thread/src/kservice.c:290-291 | bytes outside the destination are unchanged |
| MemHeap.InitInv | rt-thread/src/memheap.c:74-150 | a new pool satisfies the double-ring invariant and nothing is live |
| MemHeap.TakeKeeps | rt-thread/src/memheap.c:236-310 | handing out a free block, split or whole, keeps the tiling, the free ring, the absence of free neighbours and the accounting; the block is large enough |
| MemHeap.GiveKeeps | rt-thread/src/memheap.c:645-713 | two-sided coalescing keeps the invariant: one ring entry per free block, no two free neighbours, `available_size` the sum of free payloads |
| MemHeap.FreeMeans | rt-thread/src/memheap.c:645-713 | a free takes exactly its block out of the live ones and leaves the peak |
| MemHeap.PeakMeans | rt-thread/src/memheap.c:279-305 | `max_used_size` is raised exactly to the most that was in use |
| MemHeap.GrowKeeps | rt-thread/src/memheap.c:430-485 | growing into the next free block keeps the invariant and the block has exactly the requested payload |
| MemHeap.ShrinkKeeps | rt-thread/src/memheap.c:521-578 | giving back the tail, joined with a free successor, keeps the invariant and the block has exactly the requested payload |
| MemHeap.RefusesExactly | rt-thread/src/memheap.c:200-232 | allocation succeeds if and only if some free block fits and the aligned request is not exactly all that is available: the strict comparison refuses that one servable request |
| MemHeap.AllocGives | rt-thread/src/memheap.c:183-346 | failure changes nothing; success hands out a block that was not live, all other live blocks staying as they were; it has the words needed and no tail that could stand alone, and holds the bytes asked for exactly if the request is at most 2^32-4 |
| MemHeap.GrowTestExact | rt-thread/src/memheap.c:430 | the 32-bit comparison agrees with the true sum exactly outside a stated range of requests next to the largest 32-bit value |
| MemHeap.GrowInside | rt-thread/src/memheap.c:430-474 | when the growth branch is taken, the new free header lies inside the block it is cut from if and only if the request is not within twelve bytes of 2^32 |
| MemHeap.ReallocExactly | rt-thread/src/memheap.c:361-588 | the promise of realloc (invariant kept, failure changes nothing, success has room for the bytes asked for without a tail that could stand alone, after a move the old block is not live and the new one was not, every other live block unchanged) holds if and only if the growth branch is not taken on a wrapped comparison and the request is at most 2^32-4, so that `RT_ALIGN` does not wrap |
| MemHeap.ReallocPlace | rt-thread/src/memheap.c:402-521 | the block keeps its address exactly if the request fits in it, or in it and the free block behind it with something to spare; otherwise it is where an allocation puts it, or the call fails with that allocation |
| MemHeap.OverrunHappens | rt-thread/src/memheap.c:430-474 | a concrete pool and request for which that branch is taken and the pool is left malformed |
| MemHeap.OneBlockReached | rt-thread/src/memheap.c:74-332 | that pool is what a new one of 4096 bytes becomes when twelve bytes are allocated; and the new pool refuses a request for all it has, which its free block could hold |
| MemHeap.LiveApart | rt-thread/src/memheap.c:236-332 | live blocks never overlap and end inside the pool |
| MemHeap.HeadersBeside | rt-thread/src/memheap.c:236-310 | no header the allocator writes, of a live or free block or the tail, lies inside a live payload |
| MemHeap.RunKeeps | rt-thread/src/memheap.c:183-724 | in every state reachable by any sequence of calls the blocks tile the pool without free neighbours, live blocks hold at least twelve bytes, the free ring holds each unused block once and `available_size` is the sum of free payloads |
| Rings.RingInsert | rt-thread/src/memheap.c:261-265 | linking a node in behind another makes the ring with the node inserted there |
| Rings.RingRemove | rt-thread/src/memheap.c:41-49 | linking a node out leaves the ring of the others |
| MemHeapObject.Memheap.constructor | rt-thread/src/memheap.c:74-150 | the links and used marks written at start form both rings of a new pool |
| MemHeapObject.Memheap.FindFree | rt-thread/src/memheap.c:217-228 | the walk of the free ring stops at its first block that is large enough, and at the list header if there is none |
| MemHeapObject.Memheap.TakeBlock | rt-thread/src/memheap.c:236-310 | the link writes of the allocation leave both rings, the marks and the counters as the specification says |
| MemHeapObject.Memheap.AllocMem | rt-thread/src/memheap.c:183-346 | the pointer-level allocation computes exactly the specified result and pool |
| MemHeapObject.Memheap.Relink | rt-thread/src/memheap.c:651-708 | whichever neighbours are free, the relinking turns both rings into the rings without the merged headers |
| MemHeapObject.Memheap.FreeMem | rt-thread/src/memheap.c:597-724 | the pointer-level free leaves exactly the specified pool |
| MemHeapObject.Memheap.GrowBlock | rt-thread/src/memheap.c:430-485 | moving the free neighbour's header up relinks both rings as specified |
| MemHeapObject.Memheap.ShrinkBlock | rt-thread/src/memheap.c:521-578 | cutting the tail, with or without a free successor, relinks both rings as specified |
| MemHeapObject.Memheap.ReallocMem | rt-thread/src/memheap.c:361-588 | every branch of the link-level realloc computes the specified result and pool; the payload keeps its words as far as both blocks reach, also when it is copied to a new block, and no word of any other live payload changes |
| MemHeapObject.GrantBeside | rt-thread/src/memheap.c:217-332 | the block an allocation hands out meets no live payload of the pool before it |
| MemHeapObject.Memheap.CopyPayload | rt-thread/src/memheap.c:493-500 | the copy of a moving realloc puts the old payload into the new block and changes no word of any other live one |
| PageList.CanonicalUnique | rt-thread/src/slab.c:211-294 | the page list is a function of the set of free pages: two canonical lists of the same pages are equal |
| PageList.AllocKeeps | rt-thread/src/slab.c:211-241 | allocation keeps the list canonical and takes exactly the pages it returns, all of which were free |
| PageList.AllocLowest | rt-thread/src/slab.c:211-241 | allocation succeeds if and only if enough free pages lie in a row, and returns the lowest address at which they do |
| PageList.GiveKeeps | rt-thread/src/slab.c:252-294 | freeing pages that are not free keeps the list canonical and adds exactly those pages |
| PageList.GiveUndoesAlloc | rt-thread/src/slab.c:211-294 | freeing undoes the allocation whatever other pages were allocated and freed in between: the result is the list of the pages that would be free had it never happened |
| PageList.GiveRestores | rt-thread/src/slab.c:211-294 | freeing at once restores the list exactly |
| PageList.PageAllocator.constructor | rt-thread/src/slab.c:299-306 | one header describes all pages as a single run |
| PageList.PageAllocator.PageAlloc | rt-thread/src/slab.c:211-241 | the in-place search and relinking leave the specified list in memory and write headers of free pages only |
| PageList.PageAllocator.PageFree | rt-thread/src/slab.c:252-294 | the in-place search, merge and relinking leave the specified list in memory and write only headers of free or freed pages |
| ZoneIndex.ZoneForFits | rt-thread/src/slab.c:408-466 | every request below the limit gets a chunk size that holds it, a multiple of 8, with at most an eighth (or seven bytes) to spare, and the list index of exactly that size |
| ZoneIndex.ChunkSizeInjective | rt-thread/src/slab.c:408-466 | chunk sizes grow strictly with the list index, so list and size determine each other |
| ZoneIndex.ZoneForChunk | rt-thread/src/slab.c:408-466 | rounding is idempotent: a chunk size asks for its own list |
| ZoneIndex.ZoneForSmallest | rt-thread/src/slab.c:408-466 | a request goes to the list of the smallest chunk that holds it |
| ZoneIndex.ZoneForPower | rt-thread/src/slab.c:408-466 | a request for a power of two gets a chunk of exactly that size, from 8 bytes on |
| ZoneIndex.OffsetFits | rt-thread/src/slab.c:621-637 | the first chunk lies behind the zone header, aligned, and not further than one chunk or 64 bytes |
| ZoneIndex.AtLeastThree | rt-thread/src/slab.c:621-637 | a zone holds at least three chunks and the last one ends inside it |
| SlabZone.TakeFresh | rt-thread/src/slab.c:541-570 | the chunk a listed zone hands out is one of its own and was not live: no chunk is handed out twice |
| SlabZone.TakeKeeps | rt-thread/src/slab.c:541-576 | handing out a chunk keeps the zone accounting, taking the zone off its list exactly when it becomes full |
| SlabZone.InstallKeeps | rt-thread/src/slab.c:618-649 | laying out a new or recycled zone keeps the accounting; its first chunk was not live |
| SlabZone.ObtainKeeps | rt-thread/src/slab.c:596-616 | the pages of a new zone belonged to nobody, and are all marked with their offsets |
| SlabZone.PutKeeps | rt-thread/src/slab.c:786-800 | freeing a chunk puts it on its zone's free list, and the zone back on its list exactly if it was full |
| SlabZone.RetireKeeps | rt-thread/src/slab.c:808-828 | retiring a wholly free zone takes it off its list and keeps the accounting |
| SlabZone.EvictKeeps | rt-thread/src/slab.c:831-837 | a retired zone taken off the list has no live chunk and no list names it |
| SlabZone.GiveBackKeeps | rt-thread/src/slab.c:839-848 | returning an evicted zone's pages makes exactly them free again |
| SlabZone.BigTakeKeeps | rt-thread/src/slab.c:503-526 | a large block gets pages nobody owned and enters the accounting with its page count |
| SlabZone.BigGiveKeeps | rt-thread/src/slab.c:761-779 | freeing a large block returns exactly its pages and takes it out of the accounting |
| SlabZone.ChunkInside | rt-thread/src/slab.c:621-641 | every chunk lies between its zone's header and the zone's end |
| SlabZone.ChunkAligned | rt-thread/src/slab.c:624-641 | every chunk is 8-byte aligned |
| SlabZone.ChunkPower | rt-thread/src/slab.c:624-641 | every chunk of a power of two up to a page is aligned to its size |
| SlabZone.WholeFree | rt-thread/src/slab.c:808 | a zone whose free count equals its capacity has no live chunk at all |
| SlabHeap.LiveApart | rt-thread/src/slab.c:487-653 | live blocks never overlap, whether chunks of one zone, of different zones, or large |
| SlabHeap.LinksApart | rt-thread/src/slab.c:786-800 | the links the allocator keeps in free chunks lie outside every live block |
| SlabHeap.HeaderApart | rt-thread/src/slab.c:618-641 | so do the headers of the zones |
| SlabHeap.LiveAligned | rt-thread/src/slab.c:487-653 | every live block is 8-byte aligned, a large one page-aligned |
| SlabHeap.LivePower | rt-thread/src/slab.c:618-629 | a live chunk of a power of two up to a page is aligned to its size, as the zone layout intends |
| SlabHeap.PowerBound | rt-thread/src/slab.c:108-112 | the bound: for every power of two above a page some new heap answers the first request for it at an address that is not a multiple of it |
| SlabHeap.AllocKeeps | rt-thread/src/slab.c:487-653 | for every size: failure changes nothing; success keeps the invariant and adds exactly one live block, not live before, of the chunk or page size the request rounds to, at least as large as asked and 8-byte aligned, a power of two up to a page being aligned to itself; every other live block stays as it was |
| SlabHeap.ServesExactly | rt-thread/src/slab.c:487-653 | a request is served if and only if there is something to serve it from: for a large one enough free pages in a row; for a small one a chunk of its size in a listed zone, a retired zone, or the pages of a new zone in a row |
| SlabHeap.DrawsOn | rt-thread/src/slab.c:530-616 | a small request draws on zones with free chunks first, then on retired zones, then on new pages; `max` is raised exactly to the most ever in use |
| SlabHeap.SettleMeans | rt-thread/src/slab.c:808-852 | a zone that became wholly free stays unless another zone is on its list; then it is retired, or, with two retired already, exactly its pages become free |
| SlabHeap.FreeRecords | rt-thread/src/slab.c:736-853 | freeing leaves `max` |
| SlabHeap.FreeKeeps | rt-thread/src/slab.c:736-853 | freeing a live block keeps the invariant and takes exactly that block out |
| SlabHeap.SettleKeeps | rt-thread/src/slab.c:808-852 | retiring and releasing zones moves no live block and leaves at most two retired zones |
| SlabHeap.Freeable | rt-thread/src/slab.c:759-783 | the usage table leads from every live address to its zone or its page count |
| SlabHeap.RunKeeps | rt-thread/src/slab.c:487-853 | every sequence of allocations and of frees of live blocks can be carried out, each step adding or removing exactly one block, with the invariant holding throughout |
| SlabHeap.ZoneAccounting | rt-thread/src/slab.c:487-653 | each chunk index of a zone is exactly one of live, on the free list, or never handed out, and the zone's free count is the never-used ones plus the length of its free list |
| SlabHeap.HeapAccounting | rt-thread/src/slab.c:487-853 | a zone is on the list of its index if and only if it has free chunks and is not retired; at most two zones stay retired, none with a live chunk; `used` is the sum of live chunk and large sizes and never above `max` |
| SlabHeap.ZoneSizeChosen | rt-thread/src/slab.c:358-361 | the doubling loop ends at one of the three zone sizes the layout relies on |
| SlabHeap.InitKeeps | rt-thread/src/slab.c:321-380 | a new heap satisfies the invariant whatever the uncleared usage table contains, and nothing is live |
| SlabHeap.PageAlignCovers | rt-thread/src/slab.c:505 | page rounding covers the request unless the addition wraps, and then asks for no page |
| SlabObject.SlabMemory.constructor | rt-thread/src/slab.c:321-380 | initialisation in place, zone-size loop included, yields the specified heap |
| SlabObject.SlabMemory.NewZone | rt-thread/src/slab.c:587-650 | a recycled or freshly paged zone is laid out in place as specified |
| SlabObject.SlabMemory.AllocMem | rt-thread/src/slab.c:487-653 | the in-place allocator computes the specified result and heap, and grants a block of at least the size asked |
| SlabObject.SlabMemory.RetireZone | rt-thread/src/slab.c:816-828 | the search loop unlinks exactly the freed zone from its list and makes it the first retired one |
| SlabObject.SlabMemory.ReleaseZone | rt-thread/src/slab.c:831-848 | the first retired zone is unlinked, its marks are cleared and its pages returned |
| SlabObject.SlabMemory.SettleZone | rt-thread/src/slab.c:808-852 | retire and release happen in place exactly as specified |
| SlabObject.SlabMemory.FreeMem | rt-thread/src/slab.c:736-853 | the in-place free computes the specified heap and takes exactly that block out |
| RtList.Nodes.constructor | rt-thread/include/rtservice.h:47-50 | every node starts as a list of its own |
| RtList.Nodes.InsertAfter | rt-thread/include/rtservice.h:58-65 | the node stands behind the given one on the same ring, and no other link changes |
| RtList.Nodes.InsertBefore | rt-thread/include/rtservice.h:73-80 | inserting before the head appends to the list |
| RtList.Nodes.Remove | rt-thread/include/rtservice.h:86-92 | the others stay a ring in the same order, the node becomes one of its own, and removing it again changes nothing |
| RtList.Nodes.IsEmpty | rt-thread/include/rtservice.h:98-101 | true exactly if the head is alone |
| RtList.Nodes.Len | rt-thread/include/rtservice.h:107-120 | the walk counts the nodes besides the head |
| RtList.Nodes.Move | rt-thread/include/rtservice.h:73-92 | removing a node and appending it elsewhere leaves both lists right and every third list untouched |
| WaitList.Suspend | rt-thread/src/ipc.c:121-168 | the insertion loop puts a thread at the end (first in, first out) or before the first strictly less urgent one |
| WaitList.EnqueueSorted | rt-thread/src/ipc.c:134-160 | a priority list stays sorted by priority |
| WaitList.EnqueueStable | rt-thread/src/ipc.c:134-160 | the newcomer stands behind exactly the waiters at least as urgent as itself: first come, first served among equals |
| WaitList.TakeUnit | rt-thread/src/ipc.c:2264-2340 | a woken thread, or one that never waited, taking a unit loses no wake-up |
| WaitList.AddUnit | rt-thread/src/ipc.c:190-203 | one new unit with one resumed waiter loses no wake-up |
| WaitList.LoseWaiters | rt-thread/src/thread.c:127-156 | a waiter timing out, or all being flushed, loses no wake-up |
| Semaphore.StepKeeps | rt-thread/src/ipc.c:479-649 | a non-empty wait list implies value 0, after every take, release, timeout and reset |
| Semaphore.TakeMeans | rt-thread/src/ipc.c:479-564 | success exactly if a unit was there, which is gone; timed out exactly if none was and the time is zero, nothing changing; otherwise the caller waits, the others as before |
| Semaphore.ReleaseMeans | rt-thread/src/ipc.c:601-649 | a release hands its unit to one waiter, who leaves the list, and counts it only if nobody waits; it fails exactly on a full count |
| Semaphore.OthersMean | rt-thread/src/ipc.c:667-695 | a reset leaves nobody waiting and the low 16 bits of its argument; a timeout takes out exactly its thread |
| Semaphore.ServesInTurn | rt-thread/src/ipc.c:601-649 | over every run the waiter served is the most urgent, or under FIFO any, and among equals the one suspended first |
| Semaphore.RunConserves | rt-thread/src/ipc.c:479-649 | over every run that invariant holds, and between resets units are conserved: value plus units consumed equals the initial value plus accepted releases |
| Semaphore.SemaphoreObject.TakePass | rt-thread/src/ipc.c:479-564 | the in-place take equals its specification: decrement, immediate timeout or suspension in list order |
| Semaphore.SemaphoreObject.ReleasePass | rt-thread/src/ipc.c:601-649 | the in-place release equals its specification: hand the unit to the first waiter, or increment up to the limit |
| Semaphore.SemaphoreObject.ResetAll | rt-thread/src/ipc.c:675-696 | all waiters are flushed and the value becomes the given one truncated to 16 bits |
| Mailbox.StepKeeps | rt-thread/src/ipc.c:1986-2413 | one step of any operation keeps the mailbox bounded and loses no wake-up on either side |
| Mailbox.RunKeeps | rt-thread/src/ipc.c:1986-2413 | no interleaving of sends, urgent sends, receives, thefts by third threads, timeouts and resets loses a wake-up |
| Mailbox.NobodyStuck | rt-thread/src/ipc.c:1986-2413 | once every woken thread has run, receivers wait only on an empty mailbox and senders only on a full one |
| Mailbox.SendMeans | rt-thread/src/ipc.c:1986-2115 | the mail is in and one receiver resumed exactly if there was a slot; refused exactly if full and the time is zero; otherwise the caller waits |
| Mailbox.UrgentMeans | rt-thread/src/ipc.c:2159-2211 | the mail is in front and one receiver resumed exactly if there was a slot; otherwise nothing changes |
| Mailbox.RecvMeans | rt-thread/src/ipc.c:2233-2363 | the front mail is delivered and one sender resumed exactly if there is one; refused exactly if none and the time is zero; otherwise the caller waits |
| Mailbox.OthersMean | rt-thread/src/ipc.c:2381-2413 | a reset leaves no mail and nobody waiting; a timeout takes out exactly its thread |
| Mailbox.ServesInTurn | rt-thread/src/ipc.c:190-203 | over every run whoever is resumed, on either side, is the most urgent, or under FIFO any, and among equals the one suspended first |
| Mailbox.FifoRun | rt-thread/src/ipc.c:1986-2363 | over every run without reset, urgent sends included: ordinary mails leave in the order in which they were accepted, urgent ones in front of them, what is received runs through the two, and nothing is lost, duplicated or invented; without urgent sends that is first in, first out |
| Lanes.DequeIsLanes | rt-thread/src/ipc.c:2159-2211 | a deque with front insertion is a stack of urgent entries in front of a queue of ordinary ones, over any moves, and what is taken runs through what the two give, each in its order |
| Lanes.OrdinaryInOrder | rt-thread/src/ipc.c:2159-2211 | ordinary entries leave in the order in which they came, whatever urgent ones do |
| Lanes.UrgentConserved | rt-thread/src/ipc.c:2159-2211 | no urgent entry is lost, invented or duplicated |
| Lanes.NewestUrgentFirst | rt-thread/src/ipc.c:2987-3023 | urgent entries leave newest first: once those urged later have been taken, an urgent entry is at the front again, the older ones behind it |
| Mailbox.FifoStep | rt-thread/src/ipc.c:1986-2363 | one step takes from the front, puts at the end, or puts an urgent mail at the front, exactly as a move of a deque |
| Mailbox.SlotIsModular | rt-thread/src/ipc.c:2083-2085 | the wrap of the ring offsets by comparison is reduction modulo the size |
| Mailbox.MailboxObject.constructor | rt-thread/src/ipc.c:1775-1804 | a new mailbox is empty |
| Mailbox.MailboxObject.SendPass | rt-thread/src/ipc.c:1986-2115 | on the ring buffer a pass of the send loop appends to the deque or suspends; `in_offset` stays `out_offset + entry` modulo the size and the entry overflow branch is unreachable |
| Mailbox.MailboxObject.UrgentPass | rt-thread/src/ipc.c:2159-2211 | an urgent send steps `out_offset` back and prepends |
| Mailbox.MailboxObject.RecvPass | rt-thread/src/ipc.c:2233-2363 | a pass of the receive loop pops the front of the deque or suspends |
| Mailbox.MailboxObject.ResetAll | rt-thread/src/ipc.c:2381-2413 | reset empties the ring and flushes both wait lists |
| MessageQueue.StepKeeps | rt-thread/src/ipc.c:2737-3260 | every critical section keeps the pool partition and the wake-up discipline |
| MessageQueue.RunKeeps | rt-thread/src/ipc.c:2737-3260 | in every interleaving of the critical sections, queued, free and in-flight blocks partition the pool, and no wake-up is lost on either side |
| MessageQueue.NobodyStuck | rt-thread/src/ipc.c:2737-3197 | with nobody woken and pending, receivers wait only on an empty queue and senders only without a free block; both at once only while every block is in flight |
| MessageQueue.GrabMeans | rt-thread/src/ipc.c:2768-2847 | a send takes one free block into flight exactly if there is one; refused exactly if none and the time is zero; otherwise the caller waits |
| MessageQueue.GrabUrgentMeans | rt-thread/src/ipc.c:2966-2982 | an urgent send takes a free block exactly if there is one and never waits |
| MessageQueue.TakeMeans | rt-thread/src/ipc.c:3075-3165 | a receive takes the first queued block into flight exactly if there is one; refused exactly if none and the time is zero; otherwise the caller waits |
| MessageQueue.EndsMean | rt-thread/src/ipc.c:2854-2894 | a send ends with its block queued and one receiver resumed if any waits, a receive with its block free and one sender resumed if any waits |
| MessageQueue.OthersMean | rt-thread/src/ipc.c:3224-3260 | a reset leaves no message and nobody waiting and calls in progress untouched; a timeout takes out exactly its thread |
| MessageQueue.ServesInTurn | rt-thread/src/ipc.c:190-203 | over every run whoever is resumed, on either side, is the most urgent, or under FIFO any, and among equals the one suspended first |
| MessageQueue.LinksGiven | rt-thread/src/ipc.c:2849-2894 | what a send copies into its block is what it links, at the tail or urgently at the head, whatever other threads do in between |
| MessageQueue.HeldIsPrivate | rt-thread/src/ipc.c:2846-2855 | no step of another thread writes or takes the block a call copies with the lock dropped |
| MessageQueue.StaysHeld | rt-thread/src/ipc.c:3086-3174 | over every run of other threads' steps a receiver's unlinked block and its bytes stay as they were |
| MessageQueue.DeliversTaken | rt-thread/src/ipc.c:3086-3174 | what a receive delivers after copying with the lock dropped is the message that was first in the queue when it unlinked it, whatever ran in between |
| MessageQueue.FifoStep | rt-thread/src/ipc.c:2856-2867 | one step takes the front message, appends one, or prepends an urgent one, whole |
| MessageQueue.StepMoves | rt-thread/src/ipc.c:2856-2867 | one critical section is at most one move of a deque |
| MessageQueue.FifoRun | rt-thread/src/ipc.c:2737-3197 | over every run without reset, from callers to receivers: the messages received are the data the senders passed in, whole and exactly once each, ordinary ones in the order in which they were linked, urgent ones in front of them; without urgent sends that is first in, first out |
| MessageQueue.QueueObject.constructor | rt-thread/src/ipc.c:2474-2525 | the free list is threaded through all blocks |
| MessageQueue.QueueObject.SendGrab | rt-thread/src/ipc.c:2768-2847 | first critical section of a send: unlink the first free block, or suspend |
| MessageQueue.QueueObject.UrgentGrab | rt-thread/src/ipc.c:2966-2982 | first critical section of an urgent send: unlink a free block, or report full |
| MessageQueue.QueueObject.FillBlock | rt-thread/src/ipc.c:2849-2852 | the unlocked copy puts the message into the block in flight and writes nothing else |
| MessageQueue.QueueObject.SendLink | rt-thread/src/ipc.c:2854-2894 | second critical section of a send: link at the tail, count and wake; head, tail and `entry` agree with the queue and the overflow branch is unreachable |
| MessageQueue.QueueObject.UrgentLink | rt-thread/src/ipc.c:2987-3023 | second critical section of an urgent send: link at the head, the tail following when the queue was empty; the overflow branch is unreachable |
| MessageQueue.QueueObject.RecvTake | rt-thread/src/ipc.c:3075-3165 | first critical section of a receive: unlink the head, clear the tail when it was the last, or suspend |
| MessageQueue.QueueObject.RecvReturn | rt-thread/src/ipc.c:3167-3192 | second critical section of a receive: the block goes back to the free list and a sender is woken |
| MessageQueue.QueueObject.ResetAll | rt-thread/src/ipc.c:3224-3260 | reset returns every queued block to the free list, leaves blocks in flight alone and flushes both wait lists |
| MemPool.AllocKeeps | rt-thread/src/mempool.c:332-401 | a pass of the allocation loop keeps blocks conserved and loses no wake-up; a block handed out was not live |
| MemPool.AllocMeans | rt-thread/src/mempool.c:332-401 | success exactly if a block is free: the block returned was free and not live, is live now and not free, and nothing else changes hands; refused exactly if none is free and the time is zero; otherwise the caller waits |
| MemPool.OthersMean | rt-thread/src/mempool.c:431-464 | a free makes exactly its block free and resumes one waiter if any; a timeout takes out exactly its thread |
| MemPool.NeverTwice | rt-thread/src/mempool.c:332-464 | over every run a block handed out is returned to nobody else until it is freed |
| MemPool.TwoBlocks | rt-thread/src/mempool.c:332-464 | two allocations with no free of the first block in between get different blocks |
| MemPool.FreeKeeps | rt-thread/src/mempool.c:431-464 | freeing keeps blocks conserved and loses no wake-up |
| MemPool.RunKeeps | rt-thread/src/mempool.c:319-465 | in every interleaving blocks are conserved and no wake-up is lost; with nobody pending, allocators wait only while every block is live |
| MemPool.NewestFirst | rt-thread/src/mempool.c:354 | after any run from a state with nobody waiting, freeing a block wakes the thread suspended last, which is the one that has waited longest if and only if it waits alone |
| MemPool.PoolObject.constructor | rt-thread/src/mempool.c:89-135 | the free list is threaded through all blocks in address order |
| MemPool.PoolObject.AllocPass | rt-thread/src/mempool.c:332-407 | a pass of the in-place loop equals its specification |
| MemPool.PoolObject.FreeBlock | rt-thread/src/mempool.c:415-465 | the in-place free equals its specification |
| EventFlags.SweepSettles | rt-thread/src/ipc.c:1463-1513 | after the send loop nobody left waiting is satisfied by what remains of the set, although woken waiters kept clearing bits |
| EventFlags.SendMeans | rt-thread/src/ipc.c:1435-1513 | every waiter is after the send either still waiting or woken, exactly once and in unchanged order; it is woken if and only if its condition holds of the set at its turn, and reports the bits it asked for that are in that set; sending nothing is refused |
| EventFlags.SatisfiedMeans | rt-thread/src/ipc.c:1470-1490 | AND means every bit asked for is set, OR that one is, and AND wins when both are given |
| EventFlags.RecvMeans | rt-thread/src/ipc.c:1560-1642 | satisfied exactly if the condition holds, with the bits it reports and clears; timed out exactly if not and the time is zero; otherwise suspended, the others waiting as before; asking for nothing is refused |
| EventFlags.OthersMean | rt-thread/src/ipc.c:1698-1731 | a reset leaves no bit and nobody waiting; a timeout takes out exactly its thread |
| EventFlags.NobodyOverlooked | rt-thread/src/ipc.c:1435-1680 | in no reachable state is a suspended thread's AND or OR condition satisfied by the event's set, and every waiter has a valid option |
| EventFlags.PathsAgree | rt-thread/src/ipc.c:1470-1621 | a receiver satisfied at once and one woken by the send report the same bits and clear the same bits |
| EventFlags.InsertWaiterEnqueues | rt-thread/src/ipc.c:1635-1642 | waiters are queued as every other suspended thread is |
| EventFlags.EventObject.SendPass | rt-thread/src/ipc.c:1435-1524 | the cursor walk with removal during iteration equals the sweep, whose outcome for every waiter `SendMeans` states |
| EventFlags.EventObject.RecvPass | rt-thread/src/ipc.c:1560-1655 | the in-place receive equals its specification up to return or suspension |
| Mutex.StepKeeps | rt-thread/src/ipc.c:909-1193 | one take, release or timeout keeps the mutex invariant under the unnested discipline |
| Mutex.RunKeeps | rt-thread/src/ipc.c:909-1193 | over every unnested run: at most one owner, value 1 iff no owner iff hold 0, waiters in priority order, the owner at least as urgent as every waiter, and a thread owning nothing at its own priority |
| Mutex.CreateKeeps | rt-thread/src/ipc.c:736-760 | creating a mutex keeps both invariants |
| Mutex.HeadWaitedLongest | rt-thread/src/ipc.c:909-1193 | over every unnested run from a state with nobody waiting, the waiter a mutex will be handed to is the most urgent, and among equals the one suspended first |
| Mutex.PlainKept | rt-thread/src/ipc.c:909-1193 | without that discipline, after every step still value 1 iff no owner iff hold 0, and a release by a thread that does not own the mutex is an error that changes nothing |
| Mutex.TakeMeans | rt-thread/src/ipc.c:909-1047 | for every state, nested or not: success exactly if the mutex is free or the caller's own below the hold limit, and then the caller owns it with one hold more; full exactly at the limit; timed out exactly if another thread owns it and the time is zero; the failures change nothing |
| Mutex.TakeSuspends | rt-thread/src/ipc.c:985-1004 | suspended exactly if the caller then waits, the others as before, the owner being at least as urgent as the caller and nobody else changing priority |
| Mutex.ReleaseMeans | rt-thread/src/ipc.c:1085-1193 | success exactly for the owner, who gives up one hold; with the last one it gets the saved priority back and the mutex goes to the first waiter, held once, or is free |
| Mutex.ExpireMeans | rt-thread/src/thread.c:127-156 | a timeout takes its thread off the wait list and changes nothing else |
| Mutex.InvPlain | rt-thread/src/ipc.c:909-1193 | the invariant of unnested runs contains the one every run keeps |
| Mutex.HandsToHead | rt-thread/src/ipc.c:1126-1164 | the last release hands the mutex to the head waiter, which no other waiter outranks, and puts the releasing thread back at its own priority |
| Mutex.NestedRelease | rt-thread/src/ipc.c:1128-1134 | outside that discipline: releasing one of two owned mutexes keeps inheritance on the other if and only if the priority saved by the released one is at least as urgent as every waiter of the other |
| Mutex.NestedTake | rt-thread/src/ipc.c:992-1004 | a nested take, whose owner waits for a second mutex: the boost keeps inheritance on that one if and only if its owner is already as urgent as the newcomer, and keeps its waiters in order if and only if nobody in front of the boosted thread is less urgent |
| Mutex.NestingBreaksInheritance | rt-thread/src/ipc.c:909-1193 | five enabled steps with nested ownership after which an owner is less urgent than a waiter |
| Mutex.MutexTable.TakePass | rt-thread/src/ipc.c:909-1047 | the in-place take equals its specification, nested or not: recursive hold, acquire, time out, or suspend with priority inheritance; the overflow return of a free mutex is unreachable |
| Mutex.MutexTable.ReleasePass | rt-thread/src/ipc.c:1085-1193 | the in-place release equals its specification, nested or not, including the refusal of a thread that does not own the mutex; both overflow returns are unreachable |
| SkipList.WrapOrder | rt-thread/src/timer.c:447-451 | two expiries within one half range compare by wrapped subtraction as their true order |
| SkipList.EnqueueThinned | rt-thread/src/timer.c:467-479 | stable insertion into a row and into a thinned copy of it keeps one a thinning of the other |
| SkipList.InsertRows | rt-thread/src/timer.c:467-479 | insertion into any number of rows keeps every row sorted and a subsequence of the row below; the bottom row is the stable linear insertion |
| SkipList.HeightAtLeast | rt-thread/src/timer.c:457-479 | the shifting loop enters k rows or more exactly if the counter is a multiple of 4^(k-1) |
| SkipList.RemoveRows | rt-thread/src/timer.c:180-188 | removal from all rows keeps the skip list and leaves the timer on none |
| Timers.ScanIsPosition | rt-thread/src/timer.c:433-455 | within the half-range window the wrapped scan of a row stops at the stable insertion position |
| Timers.CursorIsPosition | rt-thread/src/timer.c:430-458 | every row's cursor is that position, wherever the search entered the row from the one above |
| Timers.PlacedIsInsert | rt-thread/src/timer.c:467-479 | inserting at the cursors is stable insertion into each of the lowest rows |
| Timers.StartSorted | rt-thread/src/timer.c:390-479 | for any number of rows and any height counter, also across the tick wrap: the rows stay sorted by time remaining, each thinning the one below, and the bottom row is the old one with the timer stably inserted |
| Timers.StartKeeps | rt-thread/src/timer.c:390-481 | exactly the started timer joins the members |
| Timers.StartEnters | rt-thread/src/timer.c:457-479 | a started timer enters the bottom row always and the k-th row above it on every 4^k-th start |
| Timers.StopKeeps | rt-thread/src/timer.c:516-540 | stopping an active timer removes exactly it |
| Timers.UnlinkKeeps | rt-thread/src/timer.c:180-188 | unlinking removes the timer from every row and keeps the order of the others |
| TimerWheel.ScanRow | rt-thread/src/timer.c:433-455 | the inner loop computes the scan |
| TimerWheel.FindHeads | rt-thread/src/timer.c:430-458 | the outer loop computes every cursor |
| TimerWheel.InsertAtHeads | rt-thread/src/timer.c:464-479 | the insertion loop enters the bottom row and each higher one while the counter's next two bits are zero |
| TimerWheel.TimerList.RemoveTimer | rt-thread/src/timer.c:180-188 | in place: the timer is on no list afterwards |
| TimerWheel.TimerList.StartTimer | rt-thread/src/timer.c:390-479 | in place: the whole start equals its specification |
| TimerWheel.TimerList.StopTimer | rt-thread/src/timer.c:516-540 | in place: refused for an inactive timer, otherwise the specified stop |
| TimerWheel.TimerList.FireHead | rt-thread/src/timer.c:634-668 | one round of the dispatch loop, callback included, equals its specification |
| TimerWheel.TimerList.Check | rt-thread/src/timer.c:609-676 | for any callbacks, which may start, stop and change any timers as long as those they restart or make periodic have periods within the half range and not zero, the loop ends within as many rounds as timers were due and leaves no due timer listed |
| TimerCheck.DueIsPrefix | rt-thread/src/timer.c:625-634 | the wrapped test of the loop head agrees with the order of expiries, so the due timers form a prefix of the bottom row |
| TimerCheck.ActKeeps | rt-thread/src/timer.c:390-600 | a start, stop or change of period from inside a callback keeps the list in order and can only take its own timer out of the due ones |
| TimerCheck.FireKeeps | rt-thread/src/timer.c:625-668 | one round leaves at least one due timer fewer, and exactly that one if the callback touches only its own timer |
| TimerCheck.DispatchEnds | rt-thread/src/timer.c:609-676 | when the dispatch has ended, each round having run one callback, no due timer is left anywhere in the list |
| TimerCheck.RoundsBounded | rt-thread/src/timer.c:609-676 | whatever the callbacks do, every round leaves at least one due timer fewer, so no dispatch can take more rounds than timers were due at its start, and as long as one is due the next round can be carried out |
| TimerCheck.FiresDueOnce | rt-thread/src/timer.c:609-676 | callbacks that touch only their own timer: every due timer fires exactly once, in order of expiry with ties in start order; timers that nothing re-arms may have any period, zero included |
| TimerCheck.FireOutcome | rt-thread/src/timer.c:638-667 | the fired timer's fate: if its callback restarted or stopped it, that is final; otherwise a one-shot ends unlisted and inactive and a periodic one is re-armed from the current tick |
| TimerCheck.DispatchFate | rt-thread/src/timer.c:609-676 | the same for the whole dispatch: after it, every fired timer is as its callback left it if that restarted or stopped it, re-armed from the current tick if periodic, and unlisted and inactive if one-shot |
| TimerCheck.QuietFate | rt-thread/src/timer.c:609-676 | with a callback that leaves the timers alone: after the dispatch a one-shot timer is unlisted and inactive and a periodic one listed for one period after the current tick |
| TimerCheck.FireOther | rt-thread/src/timer.c:625-668 | a round changes nothing about a timer that neither fires nor is touched by the callback |
| TimerCheck.OnlyOwnRound | rt-thread/src/timer.c:609-676 | over a whole dispatch a fired timer is changed by its own round alone: it comes to its turn as it was, and is left as its round left it |
| TimerCheck.NotFired | rt-thread/src/timer.c:609-676 | a timer that is not due is left alone by the whole dispatch |
| TimerCheck.EndsExactly | rt-thread/src/timer.c:609-676 | with idle callbacks the loop ends if and only if no due, active periodic timer has a period of zero ticks |
| TimerCheck.ZeroNeverEnds | rt-thread/src/timer.c:609-676 | a due periodic timer of zero ticks keeps every number of rounds from finishing the loop |
| TimerRuns.StepKeeps | rt-thread/src/timer.c:390-676 | creating, starting, stopping or changing a timer, or a tick with its whole dispatch, whatever the callbacks do, leaves the list in order as seen from the current tick, only active timers listed and nothing on the temporary list |
| TimerRuns.RunKeeps | rt-thread/src/clock.c:65-99 | so does every run of ticks with timer calls in between, of any length and across any number of wraps of the tick counter |
| TimerRuns.DueNext | rt-thread/src/timer.c:625-634 | the dispatch of the next tick finds due exactly the listed timers with one tick left |
| TimerRuns.DispatchWaits | rt-thread/src/timer.c:609-676 | a timer that is not due and that no callback touches neither fires nor changes, whatever the callbacks do to the others |
| TimerRuns.DispatchFires | rt-thread/src/timer.c:609-676 | a due timer that no callback touches fires exactly once, whatever the callbacks do to the others; a periodic one ends listed for its period from now, a one-shot one unlisted and inactive |
| TimerRuns.StartLeft | rt-thread/src/timer.c:390-479 | from whatever the tick counter shows, a started timer has its whole period left, and at least one tick |
| TimerRuns.CreateMeans | rt-thread/src/timer.c:128-144 | a new timer is inactive and unlisted, and once started has the period and kind it was created with |
| TimerRuns.SetTimeMeans | rt-thread/src/timer.c:567-569 | a new period counts from the next start and does not touch one already made |
| TimerRuns.SetOneShotMeans | rt-thread/src/timer.c:571-573 | a pending timer made one-shot fires once more, when it would have, and no more |
| TimerRuns.SetPeriodicMeans | rt-thread/src/timer.c:575-577 | a pending timer made periodic keeps exact time from its next firing on |
| TimerRuns.StopMeans | rt-thread/src/timer.c:516-540 | a stopped timer fires no more until started again, and no other timer is touched |
| TimerRuns.PeriodicPunctual | rt-thread/src/clock.c:65-99 | over every run that leaves it alone, a periodic timer keeps exact time: ticks counted plus ticks left equal the ticks it had left at first plus its period times the number of times it fired |
| TimerRuns.OneShotPunctual | rt-thread/src/clock.c:65-99 | over every run that leaves it alone, a one-shot timer has not fired and is still listed before the tick it is due, and from then on has fired exactly once and is unlisted and inactive |
| TimerRuns.DelayIsExact | rt-thread/src/clock.c:65-99 | a one-shot timer started for n ticks, n at least 1, fires at the n-th tick: not earlier, not later, once |
| TimerRuns.InitSteady | rt-thread/src/timer.c:812-820 | the state at system start is one from which such runs may begin |
| TimerRuns.TickHappens | rt-thread/src/timer.c:609-676 | a tick can always happen: with callbacks that leave the timers alone and no due periodic timer of zero ticks, its dispatch runs to an end |
| TimerWheel.TimerList.TickIncrease | rt-thread/src/clock.c:65-99 | in place: counting a tick and dispatching is exactly one tick of those runs, and keeps their invariant |
| Ffs.FindsLowest | rt-thread/src/kservice.c:1757-1771 | `__rt_ffs` is one more than the position of the lowest bit set, for every non-zero word |
| Ffs.TableLowest | rt-thread/src/kservice.c:1727-1745 | every entry of the byte table but the first is the position of the lowest bit of its index |
| Ffs.BitChanged | rt-thread/src/scheduler.c:747 | setting or clearing a mask bit changes that bit and no other |
| Scheduler.InsertLists | rt-thread/src/scheduler.c:718-752 | queueing a thread keeps queues, bits, thread states and wait lists in agreement |
| Scheduler.RemoveLists | rt-thread/src/scheduler.c:815-845 | taking a thread off its list keeps queues, bits, thread states and wait lists in agreement |
| Scheduler.HighestQueue | rt-thread/src/scheduler.c:169-191 | the group is zero exactly if nobody is ready; otherwise the lowest bit names a non-empty queue above which all are empty |
| Scheduler.SwitchKeeps | rt-thread/src/scheduler.c:461-476 | switching threads, with or without queueing the old one, keeps lists, bits and states in agreement |
| Scheduler.ScheduleKeeps | rt-thread/src/scheduler.c:423-545 | `rt_schedule` keeps the scheduler invariant |
| Scheduler.ScheduleSettles | rt-thread/src/scheduler.c:423-545 | after `rt_schedule` with the scheduler unlocked the current thread runs and no ready thread outranks it |
| ThreadOps.ScheduleStays | rt-thread/src/scheduler.c:444-478 | `rt_schedule` changes nothing while locked or with nobody ready, and keeps a running thread that nobody outranks and that has no ready equal or did not yield |
| ThreadOps.ScheduleSwitches | rt-thread/src/scheduler.c:444-478 | otherwise it switches to the most urgent ready thread, among equals the longest queued; the old one, if running, goes to the end of its queue; nothing else about any thread or list changes |
| ThreadOps.BootInv | rt-thread/src/scheduler.c:197-242 | the state at boot satisfies the invariant |
| ThreadOps.StepKeeps | rt-thread/src/thread.c:91-907 | every operation on threads keeps it: each bit is set iff its queue is not empty, queues hold exactly the ready threads of their priority, waiters are suspended and on one list |
| ThreadOps.RunKeeps | rt-thread/src/thread.c:91-907 | in every state reachable from boot by any sequence of operations, each ready bit is set iff its queue is not empty, queues hold exactly the ready threads of their priority once each, waiters are suspended and on one list each, and no thread but the current one is running |
| ThreadOps.OnePlace | rt-thread/src/thread.c:91-907 | every started thread is in exactly one place: executing, on the ready queue of its current priority, on one wait list, asleep, or finished |
| ThreadOps.StaysPut | rt-thread/src/thread.c:91-907 | a thread that an operation does not disturb is in the same place after it |
| ThreadOps.EffectMoves | rt-thread/src/thread.c:91-907 | an operation, before any rescheduling, disturbs no thread but its subject |
| ThreadOps.EffectArrives | rt-thread/src/thread.c:91-907 | and its subject arrives where the operation sends it: the end of the ready queue of its priority, a wait list, asleep, or finished |
| ThreadOps.EffectThreads | rt-thread/src/thread.c:91-907 | what each operation makes of the one thread it is about, field by field; every other thread is unchanged |
| ThreadOps.EffectQueues | rt-thread/src/scheduler.c:718-845 | the order of the ready queues: only that thread leaves its place, and it arrives at the end of the queue of its priority |
| ThreadOps.EffectWaits | rt-thread/src/ipc.c:121-168 | the order of the wait lists: a thread that wakes leaves its own, one that blocks takes its place by priority or at the end |
| ThreadOps.ResultsMean | rt-thread/src/thread.c:826-907 | a resumption is refused unless the thread was suspended, a suspension unless the current thread was running; a tick asks for scheduling exactly when the slice is used up |
| ThreadOps.YieldSwitches | rt-thread/src/thread.c:532-545 | a yield hands over to the longest queued equal if there is one and puts the caller, with a fresh slice, at the end; without one the caller runs on |
| ThreadOps.StaysSettled | rt-thread/src/thread.c:91-907 | every operation but suspension, resumption and priority change keeps the running thread unoutranked; those switch to nobody and leave scheduling to their caller |
| ThreadOps.ScheduleMoves | rt-thread/src/scheduler.c:423-545 | rescheduling disturbs at most the thread that ran and the one that runs next: the latter was queued, and the former goes to the queue of its priority if it could have gone on |
| ThreadOps.StepSettles | rt-thread/src/scheduler.c:423-545 | after any operation that ends in `rt_schedule` with the scheduler unlocked, no ready thread outranks the running one |
| ThreadOps.WakeKeeps | rt-thread/src/thread.c:873-907 | waking a suspended thread keeps the scheduler invariant |
| ThreadOps.PriorityKeeps | rt-thread/src/thread.c:719-762 | changing a priority keeps the scheduler invariant, the bit of the old queue being cleared when it became empty |
| ThreadOps.SectionsNest | rt-thread/src/scheduler.c:891-980 | critical sections nest properly, opening at the last exit and no earlier, if and only if they are at most 32768 deep, for every depth |
| SchedulerObject.Kernel.constructor | rt-thread/src/scheduler.c:197-242 | the initialisation loop yields the boot state |
| SchedulerObject.Kernel.InsertThread | rt-thread/src/scheduler.c:718-752 | in place: the current thread is marked running, any other goes to the end of its queue and its bit is set |
| SchedulerObject.Kernel.RemoveThread | rt-thread/src/scheduler.c:815-845 | in place: the node is unlinked and the bit cleared when the queue became empty |
| SchedulerObject.Kernel.HighestThread | rt-thread/src/scheduler.c:169-191 | in place: the head of the highest queue that is not empty |
| SchedulerObject.Kernel.DoSchedule | rt-thread/src/scheduler.c:423-545 | in place: `rt_schedule` equals its specification and keeps the invariant |
| SchedulerObject.Kernel.StartScheduler | rt-thread/src/scheduler.c:248-272 | in place: the first thread is switched to |
| SchedulerObject.Kernel.StartupThread | rt-thread/src/thread.c:342-371 | in place: the mask is computed, the thread becomes ready and may preempt |
| SchedulerObject.Kernel.ResumeThread | rt-thread/src/thread.c:873-907 | in place: refused unless suspended, otherwise woken |
| SchedulerObject.Kernel.SuspendSelf | rt-thread/src/thread.c:826-862 | in place: the running thread is suspended on no list; refused in any other state |
| SchedulerObject.Kernel.BlockSelf | rt-thread/src/ipc.c:121-168 | in place: the running thread is suspended on one wait list, at its place |
| SchedulerObject.Kernel.TimeoutThread | rt-thread/src/thread.c:127-156 | in place: the waiter is taken off its list, made ready and may preempt |
| SchedulerObject.Kernel.YieldSelf | rt-thread/src/thread.c:532-545 | in place: a fresh slice, and equals go first |
| SchedulerObject.Kernel.TickIncrease | rt-thread/src/clock.c:79-95 | in place: the slice counts down, and at its end is refilled and the thread passed over among equals |
| SchedulerObject.Kernel.SetPriority | rt-thread/src/thread.c:719-762 | in place: the priority change equals its specification |
| SchedulerObject.Kernel.EnterCritical | rt-thread/src/scheduler.c:891-906 | in place: the 16-bit counter goes up |
| SchedulerObject.Kernel.ExitCritical | rt-thread/src/scheduler.c:955-980 | in place: the counter goes down and at 0 the postponed scheduling happens |
| SchedulerObject.Kernel.ExitThread | rt-thread/src/thread.c:91-119 | in place: the running thread is closed and another takes over |
| RoundRobin.PassOn | rt-thread/src/scheduler.c:444-476 | at the end of a slice the next equal thread runs, the old one goes to the end of the queue, and nobody else moves |
| RoundRobin.TickTurns | rt-thread/src/clock.c:79-95 | a tick of the kernel is a turn of the ring of equally urgent threads and keeps the conditions for the next tick |
| RoundRobin.AtSlice | rt-thread/src/clock.c:79-95 | when the m-th slice begins the ring reads from its owner on, refilled ones last |
| RoundRobin.TakeTurns | rt-thread/src/clock.c:79-95 | with no waking, blocking or priority change the equals run in a fixed cyclic order, first for what was left of their slices and then each for exactly a full slice |
| RoundRobin.EveryTick | rt-thread/src/clock.c:79-95 | every tick falls into one of those slices, so the order is determined for all time |

## Left out

- SMP code, spinlocks and per-processor scheduling: not configured.
- Soft timers and the timer thread: not configured; only the hard timer list is modelled.
- Signals, context switches, stacks, hooks, debug output, object names and registry, memory tracing, shell commands.
- Detaching and deleting objects, and what happens to threads blocked on them then.
- `rt_slab_realloc`: keeps the chunk, or allocates, copies and frees with the operations modelled here.
- `rt_timer_control` queries (one falls through to the next case), `rt_tick_from_millisecond`, and other members of
  one branch.
- Drivers, board files and the application.
- SmallMem.Heap32.Alloc: requires at least 12 bytes of payload, since on a smaller heap the search does not stop
  (`SmallMem.SearchNeverStops`). `heap_end->prev` is not maintained by the code, so `prev` is not claimed for the end
  marker; `used` counts headers and can exceed the total, as the code has it.
- SmallMem.Heap32.constructor: takes the heap as an array of words; the object that lies in front of it in the region
  is represented by its address only.
- MemHeapObject.Memheap.ReallocMem: requires that the wrapped growth branch is not taken, because what the code then
  writes lies outside the modelled memory; `MemHeap.ReallocExactly` says when that is. Headers are arrays of their own
  beside the payload words; `MemHeap.HeadersBeside` says that they would not meet. The pool's semaphore, which makes
  each call exclusive, is not modelled.
- SlabObject.SlabMemory.AllocMem: the contents of blocks are not modelled; what the allocator writes into zones,
  headers and links of free chunks, is kept in sequences, and `SlabHeap.LinksApart` and `SlabHeap.HeaderApart` say
  that it meets no live block.
- MemCopy.Copy: the original keeps the count in a signed `int`; the conversion of counts of 2^31 and more, and the
  comparisons with it, are taken modulo 2^32.
- Mailbox.FifoRun: runs without reset, which throws away what is queued.
- MessageQueue.FifoRun: runs without reset, which throws away what is queued.
- Event, mutex and scheduler objects hold their lists as sequences, updated as a whole; links between list nodes are
  modelled by `RtList`.
- MessageQueue.LinksGiven: a message is the whole content of its block; the bytes of a block beyond a shorter message,
  which keep what was there before, and messages longer than the blocks, which are refused, are not modelled.
- MemPool.PoolObject.constructor: a pool holds at least one block.
- EventFlags.NobodyOverlooked: masks are sets of bit numbers, not words.
- MemHeap.InitInv: the region has room for the two headers, which the code does not check.
- MemHeapObject.Memheap.constructor: the region has room for the two headers, which the code does not check.
- Mutex.RunKeeps: covers runs in which a thread that owns a mutex takes no other one and nobody else changes
  priorities; the code stores one original priority per mutex, and `Mutex.NestingBreaksInheritance` shows a nested run
  that fails. After a waiter times out the owner keeps the priority it inherited, as in the code.
- Scheduler.InsertLists: lists of threads are sequences here; `RtList` proves the intrusive list operations behind
  them separately.
- ThreadOps.RunKeeps: priorities given to threads are below 32, which the code does not check. Thread timers appear as
  a timeout that may come at any moment; they are not tied to the timer list. Waiters are not re-sorted when a
  suspended thread's priority changes, as in the code.
- RoundRobin.TakeTurns: a slice of at least one tick, as the code's division into rounds needs.
- TimerWheel.TimerList.Check: callbacks are lists of timer calls; they run with interrupts disabled, so the tick
  stands still during a dispatch.
- TimerCheck.FireOutcome: for callbacks that touch no other timer. A timer whose callback turns it from periodic to
  one-shot ends unlisted with its active flag still set, as in the code.
- TimerRuns.PeriodicPunctual: for timers that no call and no callback touches meanwhile; periods stay below half the
  tick range, which `rt_timer_init` checks and the control call does not.
