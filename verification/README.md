# AethAlloc in Dafny

A model of the AethAlloc memory allocator, a malloc replacement, and proofs about
it. `dafny verify dfyconfig.toml` checks the whole project.

- `Bits`, `BlockLayout`: machine words bit by bit, `round_up_pow2`, `align_up`, size
  classes, block and mapping layout.
- `MagazineMachine`, `MagazineProof`, `MagazineSafety`, `Magazine`: the default build: any
  number of threads exchanging magazines through lock-free full and empty stacks, one
  load, link write, next-read or compare-and-swap per step.
- `MetadataNodes`: `alloc_node`, with its page and offset in two atomics, step by step.
- `DefaultBuild`, `LostBlocks`: the default build with `alloc_node` run inside, and how
  many threads may free.
- `BuddySpec`, `BuddyHeap`, `BuddyLaws`, `BuddyMemory`, `Buddy`: the buddy allocator:
  tilings, the heap as sets and lists, its laws, headers and links in memory, and the
  class with its loops.
- `RingBuffer`: the single-producer single-consumer ring with shadow indices, as a
  two-thread protocol and as a class.
- `ByteMemory`, `Space`, `SpaceSteps`, `CApi`: byte memory with headers, the dispatch on
  them, and the C entry points.
- `MagazineBytes`: the magazine machine over that byte memory, which joins the two.
- `LinkedLists`, `SimpleCache`, `SimpleCacheMachine`, `SimpleCacheRace`,
  `ThreadLocalCache`, `Slab`: the caches over intrusive lists, the simple cache also with
  its threads interleaved step by step.
- `SlabPool`: the lock-free pool of slabs, step by step.

Protocols are transition systems whose theorems quantify over all runs; code that
updates state is a class whose methods are proved against specification functions.

## What the model takes as given

- The page source returns nonzero, page-aligned, unmapped, zeroed pages or nothing;
  its answers are parameters. The buddy allocator needs more: bits 14 to 17 of a region
  base must be clear. `BuddyLaws.BuddiesAgreeIff` says that these are exactly the bases
  whose blocks are paired correctly, `BuddyLaws.RecoversIff` that these are exactly the
  ones that coalesce, and the laws hold for all of them. With one of the bits 14 to 16 set,
  and only then, `coalesce` takes other bytes for the buddy's header
  (`BuddyLaws.StraysIff`, `BuddyLaws.FreeMergesIntoLive`).
- Callers free live pointers once and write only inside their blocks.
- Atomic steps interleave in one order (sequential consistency).
- In the magazine machine `alloc_node` yields a node never seen before. `DefaultBuild`
  runs `alloc_node` itself instead: `DefaultBuild.ApartRunsAreRuns` proves that assumption
  for all runs in which no refill overlaps a bump, as with one freeing thread
  (`DefaultBuild.OneFreerIsApart`); two freeing threads break it
  (`LostBlocks.SafeForOneFreerOnly`).
- `CApi` runs one call at a time and is told which idle block a magazine yields;
  `MagazineBytes` shows that in every interleaving such a block is idle and of the class.

## Where the code differs from what it says

- The header of `magazine.rs` speaks of pointer tagging against ABA; the code has no
  tags. The full stacks are safe without (`MagazineSafety.FullStackIsLifo`).
- `global_pool.rs` calls its pool thread-safe. It is safe with one popping thread and not
  with two (`SlabPool.SafeForOnePopperOnly`); a run is that of a stack exactly if no pop
  succeeds with a stale successor (`SlabPool.RunIsLifo`).
- The global lists of the simple-cache build have the same weakness, under the same
  exact condition (`SimpleCacheMachine.SoundIffNeverStale`,
  `SimpleCacheRace.SafeForOnePopperOnly`).
- `alloc_node` may be called by one thread and not by two
  (`MetadataNodes.SafeForOneThreadOnly`). In the default build that means: with two
  threads freeing, a run loses 64 blocks (`LostBlocks.SafeForOneFreerOnly`).
- A large mapping of 2^32 pages or more is not unmapped in full
  (`SpaceSteps.ReleasedInFullIff`, `SpaceSteps.PageCountWraps`).
- `BuddyAllocator::alloc` is said to allocate `size` bytes; the caller has 16 fewer, for
  every size (`Buddy.RequestOverrunsBlock`), and filling `size` bytes destroys the
  neighbour's header (`Buddy.FullWriteBreaksNeighbour`).
- Freeing into a region other than the current one does not coalesce
  (`BuddyLaws.FreeUndoesAlloc`).

## Model

| member | source | states |
|---|---|---|
| `MagazineProof.StepKeepsInv` | aethalloc-abi/src/global.rs:563-764 | every step of every thread keeps the whole-program invariant that ties threads, magazines, nodes, both stacks and the page map together; that the class it frees for is the one in the header is `MagazineBytes.FreeReadsTheTruth` |
| `MagazineProof.PopReadsTrueSuccessor` | aethalloc-core/src/magazine.rs:151-172 | at a compare-and-swap of `pop_full` that will succeed, the link read earlier is the present link of the popped node and its true successor on the stack, without any tag |
| `MagazineSafety.RunKeepsInv` | aethalloc-abi/src/global.rs:563-764 | the invariant holds in every state of every interleaving of any number of threads |
| `MagazineSafety.EachBlockInOnePlace` | aethalloc-abi/src/global.rs:572-648 | in every reachable state each carved block is in exactly one place (live, one magazine, one node, one hand, passed over, dropped), once |
| `MagazineSafety.LiveAllocationsNeverOverlap` | aethalloc-abi/src/global.rs:620-683 | in every reachable state no two live allocations, small or large, overlap; small ones are 16-aligned and lie in mapped pages |
| `MagazineSafety.AllocHandsOutIdleBlock` | aethalloc-abi/src/global.rs:572-652 | whenever a thread returns from `alloc`, either no page came and no box changed, or exactly one block becomes live: the last of its own alloc magazine, or, that being empty, a new one; no other step of a thread changes the live blocks. When no page may be asked for is `MagazineSafety.MissOnlyWhenEmpty` |
| `MagazineSafety.PopTakesTheTop` | aethalloc-core/src/magazine.rs:151-172 | in every run a thread that looks at a full stack, first or after a failed compare-and-swap, goes on with the node on top, and misses exactly if the stack is empty |
| `MagazineSafety.MissOnlyWhenEmpty` | aethalloc-abi/src/global.rs:572-617 | in every run a thread turns to the page source only at a moment when both its magazines and the full stack of the class are empty |
| `MagazineSafety.NullMeansEmpty` | aethalloc-abi/src/global.rs:572-652 | `alloc` returns null only if no page came, both magazines are empty, and the full stack was empty at its last look, since when the thread has not moved |
| `MagazineSafety.FreeEndsInMagazine` | aethalloc-abi/src/global.rs:726-747 | in every run `free` ends with its block at the end of the free magazine, or dropped exactly when no node came for a full one; a node is filled with exactly what the magazine held |
| `MagazineSafety.EveryStepAdvances` | aethalloc-abi/src/global.rs:563-764 | every step of `alloc` and `free` brings the call nearer to its end, except a compare-and-swap that fails, which happens only spuriously or because another thread changed the head |
| `MagazineSafety.MagazinesAreFullOrEmpty` | aethalloc-abi/src/global.rs:599-614 | every node on a full stack holds exactly 64 blocks of its class, every node on an empty stack none, `clear` discards nothing and a popped magazine always yields a block |
| `MagazineSafety.OverflowIsExact` | aethalloc-core/src/magazine.rs:65-71 | the blocks `bulk_init` has no room for number exactly 63 per carved page of class 0, 20 of class 1 and 0 of every other class |
| `MagazineSafety.OneLeakPerFailedNode` | aethalloc-abi/src/global.rs:726-747 | the blocks dropped on the free path are exactly as many as the times `alloc_node` failed |
| `MagazineSafety.FullStackIsLifo` | aethalloc-core/src/magazine.rs:133-172 | each step is a push, a pop of the top, or nothing on the sequence a full stack stands for |
| `MagazineSafety.NodeEntersFullOnce` | aethalloc-abi/src/global.rs:733-740 | over any run a node is pushed to full stacks at most once |
| `MagazineSafety.NodeLeavesFullOnce` | aethalloc-core/src/magazine.rs:151-172 | over any run a node is popped from full stacks at most once, by one thread |
| `MagazineBytes.ActKeeps` | aethalloc-abi/src/global.rs:563-764 | over byte memory, every call, thread step and store of a program keeps machine, headers and memory consistent, is a step of the magazine machine or leaves it alone, and changes the bytes of no block in use but the one freed or written |
| `MagazineBytes.RunProjects` | aethalloc-abi/src/global.rs:563-764 | every run over bytes is a run of the magazine machine, so its theorems hold there |
| `MagazineBytes.MemoryIsSound` | aethalloc-abi/src/global.rs:563-764 | in every interleaving of any number of threads, live ranges and headers are disjoint and mapped, every header says what its block is, and bytes of a block in use change only by the act that frees or writes it |
| `MagazineBytes.FreeReadsTheTruth` | aethalloc-abi/src/global.rs:695-721 | in every reachable state the bytes before a live pointer pass the tests of `free` for a size class and give the class the block was carved for, or give base and page count of its mapping |
| `MagazineBytes.FreeGivesBack` | aethalloc-abi/src/global.rs:689-764 | in every run the block of a freed pointer is given back: a small one is idle and in hand for its own class, of a large one the pages its header counts are mapped no more |
| `MagazineBytes.AllocationsAreSequential` | aethalloc-abi/src/global.rs:572-652 | whenever a thread is handed a block, the block is idle and of its class as the sequential allocator requires, and memory becomes what that allocator would make it |
| `Magazine.Magazine.Push` | aethalloc-core/src/magazine.rs:38-45 | appends the pointer exactly if fewer than 64 are held, else leaves the contents |
| `Magazine.Magazine.Pop` | aethalloc-core/src/magazine.rs:48-54 | removes and returns the last pointer, None exactly if empty |
| `Magazine.Magazine.Clear` | aethalloc-core/src/magazine.rs:57-59 | empties the magazine |
| `Magazine.Magazine.BulkInit` | aethalloc-core/src/magazine.rs:65-71 | appends the first blocks of the row, in order, as many as there is room for |
| `MetadataNodes.StepKeepsInv` | aethalloc-core/src/magazine.rs:270-315 | every load, store and compare-and-swap of `alloc_node` keeps the invariant while no page refill overlaps a bump; refills may overlap each other |
| `MetadataNodes.RunKeepsInv` | aethalloc-core/src/magazine.rs:270-315 | the same over every run of any number of threads in which no refill overlaps a bump, weak-CAS failures included |
| `MetadataNodes.NodesAreDisjoint` | aethalloc-core/src/magazine.rs:270-315 | the nodes handed out are nonzero, 8-aligned, inside one mapped page each, and pairwise disjoint |
| `MetadataNodes.ReturnedNodesAreNew` | aethalloc-core/src/magazine.rs:287-306 | over every such run, a returned node was never returned before |
| `MetadataNodes.AtMostSevenPerPage` | aethalloc-core/src/magazine.rs:276-306 | at most seven nodes come from one page |
| `MetadataNodes.CallEnds` | aethalloc-core/src/magazine.rs:270-315 | a call ends exactly by returning a node or, with null, when the page source refused; failed compare-and-swaps start it over |
| `MetadataNodes.EveryStepAdvances` | aethalloc-core/src/magazine.rs:270-315 | every step brings the call nearer to its end, except a compare-and-swap that fails |
| `MetadataNodes.SafeForOneThreadOnly` | aethalloc-core/src/magazine.rs:270-315 | each node is returned at most once in every run of `n` calling threads if and only if `n` is at most 1; two threads have a run from the initial state that returns a node twice |
| `DefaultBuild.ActKeeps` | aethalloc-abi/src/global.rs:732-745 | with `alloc_node` run step by step inside `free`, every act of every thread keeps both invariants and is a step of the magazine machine or none, while no refill overlaps a bump |
| `DefaultBuild.ReturnReachesFree` | aethalloc-abi/src/global.rs:732-745 | when `alloc_node` returns, and only then, `free` goes on: with a node to fill it, without one to put the block away |
| `DefaultBuild.ApartRunsAreRuns` | aethalloc-abi/src/global.rs:563-764 | every run of the default build in which no refill overlaps a bump is a run of the magazine machine, so that all its theorems hold |
| `DefaultBuild.OneFreerIsApart` | aethalloc-abi/src/global.rs:732-745 | in every run in which one thread frees, and any number allocate, no refill overlaps a bump |
| `DefaultBuild.NodesApartFromBlocks` | aethalloc-core/src/magazine.rs:270-315 | in such runs the memory of a node never meets a block |
| `DefaultBuild.RepeatLosesBlocks` | aethalloc-abi/src/global.rs:733-742 | in every state of the magazine machine: a thread given a node that is in use overwrites its magazine, and every block in it is in no place any more |
| `LostBlocks.SafeForOneFreerOnly` | aethalloc-abi/src/global.rs:733-742 | in every run of the default build in which `n` threads free every carved block is somewhere, if and only if `n` is at most 1; two threads have a run from the start that loses the 64 blocks of a published node |
| `BuddySpec.XorIsBuddy` | aethalloc-core/src/buddy.rs:219-221 | exclusive or of the address with the block size is the other half of the parent, for every block of a region whose base has bits 14 to 17 clear |
| `BuddySpec.AlignedBase` | aethalloc-core/src/buddy.rs:128-138 | a region base is aligned in the sense of the laws exactly if its bits 14 to 17 are clear |
| `BuddySpec.BuddyIsBlock` | aethalloc-core/src/buddy.rs:218-237 | the address `coalesce` reads as a buddy header is the start of a current block of the same chunk, not larger |
| `BuddySpec.SplitKeepsTiled` | aethalloc-core/src/buddy.rs:171-201 | splitting a block keeps the exact tiling of every region |
| `BuddySpec.MergeKeepsTiled` | aethalloc-core/src/buddy.rs:243-261 | merging two buddies keeps the exact tiling |
| `BuddySpec.MergeUndoesSplit` | aethalloc-core/src/buddy.rs:168-261 | merging the halves of a split block restores the block map |
| `BuddyHeap.Find` | aethalloc-core/src/buddy.rs:86-89 | the search stops at the first nonempty list at or above the order, every list before it being empty |
| `BuddyHeap.TakeKeeps` | aethalloc-core/src/buddy.rs:98-103 | unlinking the first block of a list keeps the invariant and takes exactly that block into use |
| `BuddyHeap.SplitKeeps` | aethalloc-core/src/buddy.rs:171-210 | one turn of `split` keeps the invariant: tiling, list membership, no two free buddies |
| `BuddyHeap.MergeKeeps` | aethalloc-core/src/buddy.rs:218-262 | one turn of `coalesce` keeps the invariant and stays in the chunk |
| `BuddyHeap.PutBackKeeps` | aethalloc-core/src/buddy.rs:264-269 | ending the coalesce loop keeps the invariant, in particular leaves no two free buddies in the current region |
| `BuddyHeap.AddRegionKeeps` | aethalloc-core/src/buddy.rs:49-73 | a new disjoint region, bits 14 to 17 of its base clear, with an empty top list keeps the invariant; at any other base a new region does not recover from every allocation (`BuddyLaws.RecoversIff`), and what `coalesce` reads there is settled by `BuddyLaws.StraysIff` |
| `BuddyLaws.SplitDownKeeps` | aethalloc-core/src/buddy.rs:168-211 | the whole split loop keeps the invariant, and every other block in use |
| `BuddyLaws.CoalesceKeeps` | aethalloc-core/src/buddy.rs:214-270 | the whole coalesce loop keeps the invariant, takes exactly the freed block out of use and leaves every other block in use as it was |
| `BuddyLaws.AllocKeeps` | aethalloc-core/src/buddy.rs:86-113 | allocation from the lists hands out one idle block of exactly the requested order, aligned within its region |
| `BuddyLaws.AllocateKeeps` | aethalloc-core/src/buddy.rs:76-144 | `alloc` with its region fallback: refused exactly if no list serves the order and no page comes; otherwise one idle block of the order, all others kept |
| `BuddyLaws.FindInNewRegion` | aethalloc-core/src/buddy.rs:128-141 | after `init` the repeated search succeeds at the top list: one level of recursion suffices |
| `BuddyLaws.CoalesceUndoesSplit` | aethalloc-core/src/buddy.rs:168-270 | in the current region the coalesce loop undoes the split loop level by level |
| `BuddyLaws.FreeUndoesAlloc` | aethalloc-core/src/buddy.rs:86-165 | freeing at once what was allocated restores the whole heap, every free list element by element, if and only if nothing was split or the block lies in the current region |
| `BuddyLaws.IdleRegionIsWhole` | aethalloc-core/src/buddy.rs:214-270 | whenever nothing in the current region is in use, it is one free block of the top order and has no other block |
| `BuddyLaws.BlocksDisjoint` | aethalloc-core/src/buddy.rs:168-211 | two blocks never overlap |
| `BuddyLaws.EveryByteInOneBlock` | aethalloc-core/src/buddy.rs:168-270 | every byte of every region is in exactly one block |
| `BuddyLaws.BlocksAreMultiples` | aethalloc-core/src/buddy.rs:168-211 | in regions at multiples of 2^18 every block starts at a multiple of its size |
| `BuddyLaws.EveryRun` | aethalloc-core/src/buddy.rs:76-270 | after every sequence of allowed calls from a new allocator: exact tiling, each free block once in the one list of its order, blocks disjoint, an idle current region whole |
| `BuddyLaws.FirstAllocation` | aethalloc-core/src/buddy.rs:76-144 | the first 16 KB request: the region base is handed out and exactly one block of each order 14 to 17 stays free |
| `BuddyLaws.BuddiesAgreeIff` | aethalloc-core/src/buddy.rs:168-222 | exclusive or on absolute addresses pairs the blocks as `split` does, for every block of a region, if and only if bits 14 to 17 of the region base are clear |
| `BuddyLaws.RecoversIff` | aethalloc-core/src/buddy.rs:76-270 | for every region base: a new region is whole again after allocating and freeing a block of any order if and only if bits 14 to 17 of the base are clear |
| `BuddyLaws.StraysIff` | aethalloc-core/src/buddy.rs:219-237 | for every region base: some block of the region has a partner address that passes the range test and is not its buddy, if and only if one of the bits 14 to 16 of the base is set; with bit 17 alone the partners are out of range |
| `BuddyLaws.FreeMergesIntoLive` | aethalloc-core/src/buddy.rs:214-270 | for every such base: after two allocations, freeing the second reads as a header bytes in the middle of the first, which is in use; if they look like a free block of that order, half of the block in use goes on a free list, else nothing merges |
| `BuddyLaws.PageAlignmentIsNotEnough` | aethalloc-core/src/buddy.rs:128-138 | a page-aligned base, all that the page source promises, for which the two disagree |
| `Buddy.ClassOfExact` | aethalloc-core/src/buddy.rs:76-82 | for powers of two the order is in range exactly from 16 KB to 256 KB, and the block size is the requested size |
| `Buddy.ClassOfAny` | aethalloc-core/src/buddy.rs:76-82 | any other size is served by the order of its lowest set bit, the largest block size that divides it |
| `Buddy.RequestOverrunsBlock` | aethalloc-core/src/buddy.rs:75-123 | for every served size the caller has exactly the block size less 16 bytes, fewer than it asked for, and the range it asked for ends at least 16 bytes past the block |
| `Buddy.FullWriteBreaksNeighbour` | aethalloc-core/src/buddy.rs:115-123 | after the first 16 KB allocation, a caller that fills its 16 KB overwrites the header of the free block behind, and with any other header the lists are lost |
| `Buddy.BuddyAllocator.constructor` | aethalloc-core/src/buddy.rs:36-42 | a new allocator is valid and manages nothing |
| `Buddy.BuddyAllocator.Init` | aethalloc-core/src/buddy.rs:49-73 | the headers and lists in memory represent the old heap with the region added as one top block |
| `Buddy.BuddyAllocator.Alloc` | aethalloc-core/src/buddy.rs:76-125 | None with nothing changed outside orders 14 to 18; otherwise the heap in memory and the returned pointer (block start plus 16) are those of the specification, with a terminating recursion |
| `Buddy.BuddyAllocator.AllocNewRegion` | aethalloc-core/src/buddy.rs:128-141 | the fallback through a new region, as specified |
| `Buddy.BuddyAllocator.Dealloc` | aethalloc-core/src/buddy.rs:147-165 | the heap in memory becomes the specified heap after the free |
| `Buddy.BuddyAllocator.Split` | aethalloc-core/src/buddy.rs:168-211 | the loop over headers and lists computes the specified split |
| `Buddy.BuddyAllocator.CoalesceLoop` | aethalloc-core/src/buddy.rs:214-270 | the loop over headers and lists computes the specified coalescing and reads headers of current blocks only |
| `Buddy.BuddyAllocator.RemoveFromFreeList` | aethalloc-core/src/buddy.rs:273-295 | the list loses exactly the block, all other lists and all header marks stay |
| `Buddy.BuddyAllocator.ClientWrites` | aethalloc-core/src/buddy.rs:115-123 | whatever the owner writes into its block past the header, the allocator stays valid; a caller that writes all the bytes it asked for leaves the block, see `Buddy.RequestOverrunsBlock` |
| `Buddy.BuddyHeader` | aethalloc-core/src/buddy.rs:234-239 | the bytes read as the buddy header decide exactly whether the buddy is free and of the same order |
| `RingBuffer.PoppedIsPrefixOfPushed` | aethalloc-amo/src/ring_buffer.rs:138-199 | in every interleaving the popped entries are a prefix of the pushed ones, in order, and at most CAPACITY - 1 are queued |
| `RingBuffer.NeverOutOfBounds` | aethalloc-amo/src/ring_buffer.rs:152-191 | no slot access is out of bounds in any reachable state |
| `RingBuffer.SidesNeverShareASlot` | aethalloc-amo/src/ring_buffer.rs:138-199 | while both sides are mid-operation they use different slots |
| `RingBuffer.StepRefinesQueue` | aethalloc-amo/src/ring_buffer.rs:138-199 | each step is a step of a bounded FIFO queue: a push keeps its entry and ends only by appending it or on CAPACITY - 1 entries, a pop ends only by returning the oldest or on an empty queue, at whatever step |
| `RingBuffer.PushRunsAlone` | aethalloc-amo/src/ring_buffer.rs:138-162 | in every reachable state, wherever the consumer stands, an uninterrupted push ends after at most four steps in the state the method leaves |
| `RingBuffer.PopRunsAlone` | aethalloc-amo/src/ring_buffer.rs:176-199 | the same for a pop |
| `RingBuffer.LenIsQueueLength` | aethalloc-amo/src/ring_buffer.rs:117-130 | wrapping subtraction and mask give the queue length, so empty and full mean what they say |
| `RingBuffer.WrappedDifference` | aethalloc-amo/src/ring_buffer.rs:117-121 | the difference of masked indices modulo the word, masked, is the difference of the counters |
| `RingBuffer.Ring.constructor` | aethalloc-amo/src/ring_buffer.rs:104-115 | a new ring is valid and empty |
| `RingBuffer.Ring.TryPush` | aethalloc-amo/src/ring_buffer.rs:138-162 | alone, appends the entry exactly if fewer than CAPACITY - 1 are queued |
| `RingBuffer.Ring.TryPop` | aethalloc-amo/src/ring_buffer.rs:176-199 | alone, removes and returns the oldest entry exactly if one is queued |
| `Bits.RoundUpPow2Exact` | aethalloc-core/src/size_class.rs:59-67 | `round_up_pow2` is the least power of two at or above its argument if and only if the argument is at most 2^63 |
| `Bits.RoundUpPow2Wraps` | aethalloc-core/src/size_class.rs:59-67 | above 2^63 the shift wraps and the result is 1 |
| `Bits.AlignUpRounds` | aethalloc-abi/src/global.rs:337-339 | the mask form of `align_up` is the least multiple of the alignment at or above the address |
| `BlockLayout.SizeToClassIsLeastFit` | aethalloc-abi/src/global.rs:235-253 | a size has a class exactly up to 64 KiB; it is below 13 and the smallest that holds the size |
| `BlockLayout.SizeToClassWraps` | aethalloc-abi/src/global.rs:235-253 | above 2^63 the wrapped rounding answers class 0; callers test the size first |
| `BlockLayout.ClassIsStable` | aethalloc-abi/src/global.rs:572-576 | the class recomputed from the rounded size is the class of the size |
| `BlockLayout.ClassGeometry` | aethalloc-abi/src/global.rs:620-648 | blocks fit their page or run, are 16-aligned multiples, and the overflow per page is 63, 20 or 0 |
| `BlockLayout.NothingToSpare` | aethalloc-abi/src/global.rs:620-662 | no further block fits in a page, and no page of a run or of a large mapping can be spared |
| `BlockLayout.LargeFits` | aethalloc-abi/src/global.rs:657-683 | for every layout the large user range is aligned to its alignment and to 16, follows both headers and ends inside the mapping |
| `ByteMemory.Read64` | aethalloc-abi/src/global.rs:583-584 | a stored 64-bit little-endian word reads back |
| `ByteMemory.LowHalf` | aethalloc-abi/src/global.rs:695-709 | a small size read as a 32-bit word is itself, so it is never taken for a magic number |
| `Space.UserInside` | aethalloc-abi/src/global.rs:580-683 | the user bytes lie inside the block, after a 16-byte header, 16-aligned |
| `Space.UserRangesApart` | aethalloc-abi/src/global.rs:563-687 | the bytes of two live pointers do not overlap, nor either one the other's header |
| `Space.OwnerUnique` | aethalloc-abi/src/global.rs:689-764 | a live pointer belongs to one block |
| `SpaceSteps.SmallDispatch` | aethalloc-abi/src/global.rs:713-721 | before a small pointer lies its exact size, neither magic number, and the class recomputed from it is the class it was carved for |
| `SpaceSteps.LargeDispatch` | aethalloc-abi/src/global.rs:695-699 | before a large pointer lie the magic, the base, and at the base the page header with size and page count |
| `SpaceSteps.TakeIdleKeeps` | aethalloc-abi/src/global.rs:578-585 | handing out an idle block keeps the space valid and every live block's bytes |
| `SpaceSteps.NewLargeKeeps` | aethalloc-abi/src/global.rs:657-683 | a large allocation keeps the space valid and every live block's bytes |
| `SpaceSteps.CarveKeeps` | aethalloc-abi/src/global.rs:626-634 | carving a page keeps the space valid and every live block's bytes |
| `SpaceSteps.ReleasedInFullIff` | aethalloc-abi/src/global.rs:663-703 | freeing a large block unmaps all of it if and only if its page count is below 2^32 |
| `SpaceSteps.PageCountWraps` | aethalloc-abi/src/global.rs:665-671 | a legal request whose page count is stored as 0, so that its mapping is never released |
| `SpaceSteps.UserStoreKeeps` | aethalloc-abi/src/global.rs:563-764 | a store into the user's own bytes keeps the space valid and all other live bytes |
| `CApi.AllocGives` | aethalloc-abi/src/global.rs:564-687 | every successful allocation gives a block that was not in use, of exactly the requested size, aligned to 16 and to the alignment, all live bytes kept; that a magazine yields an idle block of the class is `MagazineBytes.AllocationsAreSequential` |
| `CApi.RefusedOnly` | aethalloc-abi/src/global.rs:564-687 | a nonzero size is refused only without a run; a cached block serves every small request, a page every one of up to 1024 bytes; without any answer every request is refused |
| `CApi.AllocHandsOver` | aethalloc-abi/src/global.rs:623-638 | the blocks handed over for the magazine are exactly those that are new and idle, each once, of the class asked for |
| `CApi.AethAlloc.Alloc` | aethalloc-abi/src/global.rs:564-687 | null exactly if refused, with nothing changed, and never if a run came; otherwise the specified new space; the blocks for the magazine are exactly those that became idle, the returned one not among them |
| `CApi.AethAlloc.AllocCached` | aethalloc-abi/src/global.rs:578-585 | writes the size over the block and returns past the header |
| `CApi.AethAlloc.AllocPage` | aethalloc-abi/src/global.rs:623-638 | the first block of a fresh page is returned, the following ones, as many as the magazine takes, become idle and are handed over in order; they are new, distinct and not the returned one |
| `CApi.AethAlloc.AllocRun` | aethalloc-abi/src/global.rs:640-646 | a run of pages serves one block |
| `CApi.AethAlloc.AllocLarge` | aethalloc-abi/src/global.rs:656-685 | both headers written and the aligned pointer returned |
| `CApi.AethAlloc.Dealloc` | aethalloc-abi/src/global.rs:689-764 | the branch matches the path that made the block: a small block returns to exactly its class, a large one is unmapped from its base with the stored count; no other live byte changes |
| `CApi.AethAlloc.DeallocLarge` | aethalloc-abi/src/global.rs:695-711 | the large branch on the page header |
| `CApi.AethAlloc.GetAllocSize` | aethalloc-abi/src/global.rs:766-801 | the requested size of every live pointer, exactly; 0 for null |
| `CApi.AethAlloc.Malloc` | aethalloc-abi/src/lib.rs:29-40 | null exactly for 0, for sizes above 2^63 - 8 and when refused, never if a run came; otherwise an allocation |
| `CApi.AethAlloc.Free` | aethalloc-abi/src/lib.rs:44-51 | as dealloc; null is ignored |
| `CApi.AethAlloc.Calloc` | aethalloc-abi/src/lib.rs:54-63 | null exactly on overflow of the product or when malloc fails; otherwise zeroed bytes |
| `CApi.AethAlloc.Realloc` | aethalloc-abi/src/lib.rs:68-88 | the first min(old, new) bytes are preserved and every other live block is unchanged; the old block is given back, a small one idle in its own class, of a large one the counted pages mapped no more; on failure nothing changes; size 0 frees; null allocates |
| `CApi.AethAlloc.AlignedAlloc` | aethalloc-abi/src/lib.rs:91-101 | null exactly for a bad alignment or layout or when refused; otherwise aligned, with 0 counted as 1 |
| `CApi.AethAlloc.PosixMemalign` | aethalloc-abi/src/lib.rs:105-122 | 22 exactly for a bad alignment, 12 exactly when a nonzero size fails, else 0; a size of 0 also gets memory unless refused; failures change nothing |
| `CApi.AethAlloc.ClientStore` | aethalloc-abi/src/lib.rs:29-88 | a store by the owner keeps the allocator valid and all other live bytes |
| `SimpleCache.SimpleCache.Push` | aethalloc-abi/src/global.rs:509-512 | the block goes to the front of the local list, count and links follow |
| `SimpleCache.SimpleCache.PopLocal` | aethalloc-abi/src/global.rs:369-378 | the first block of the local list becomes live, its header the requested size, all other headers kept |
| `SimpleCache.SimpleCache.PopGlobal` | aethalloc-abi/src/global.rs:78-94 | the first block of the global list is taken, none exactly if it is empty |
| `SimpleCache.SimpleCache.PopBatch` | aethalloc-abi/src/global.rs:98-118 | uninterrupted, exactly min(count, length) blocks move from the global to the local list, one by one, none lost |
| `SimpleCache.SimpleCache.Refill` | aethalloc-abi/src/global.rs:411-424 | a page adds exactly its blocks: the first live with the requested size in its header, the others on the local list in order |
| `SimpleCache.SimpleCache.Flush` | aethalloc-abi/src/global.rs:517-538 | the first half of the local list goes to the front of the global list in order; the walk never meets null; no block changes hands otherwise |
| `SimpleCache.SimpleCache.Alloc` | aethalloc-abi/src/global.rs:366-434 | uninterrupted, null exactly if both lists are empty and no page comes; otherwise the block comes from the local list, a batch of at most 128 or a new page, as specified, and alone becomes live; the carved blocks grow exactly by what was mapped; counts equal lengths, below 4096; its header is the requested size and all other headers stay |
| `SimpleCache.SimpleCache.Dealloc` | aethalloc-abi/src/global.rs:501-540 | the class is read from the header and is the one the block was carved for; exactly the block becomes idle, lists as specified with the half-list flush at 4096; counts equal lengths, below 4096 |
| `SimpleCache.PouredAt` | aethalloc-abi/src/global.rs:106-116 | where each block moved by a batch ends up: the batch is reversed in front of the old list |
| `SimpleCacheMachine.StepKeepsInv` | aethalloc-abi/src/global.rs:353-556 | every step of every thread but a stale pop keeps the invariant on links, heads, counts, places, batches and walks, and the variables, lists and hands of all other threads; each load, next-read, link write and compare-and-swap of the global lists and each move of a flush walk is a step |
| `SimpleCacheMachine.CountsAndWalks` | aethalloc-abi/src/global.rs:366-549 | in every interleaving without stale pops the links from each local head spell one list, as long as the counter says, below 4096 except exactly 4096 while that list is being flushed; the flush walk is at the block it counted to, never at null |
| `SimpleCacheMachine.EachBlockInOnePlace` | aethalloc-abi/src/global.rs:366-549 | in every such interleaving each carved block is live with a header that gives back its class, once in one linked list of its class, or in the hands of one thread, a batch still linked from head to tail |
| `SimpleCacheMachine.EveryStepConserves` | aethalloc-abi/src/global.rs:366-549 | each step carves exactly what was mapped, hands out at most one idle or new block of the class asked for, takes back the block freed; every other block stays where it was or goes through the hands of the stepping thread within its class, the global lists only losing their first block or gaining a batch in front, and what other threads have stays with them |
| `SimpleCacheMachine.MissOnlyWhenEmpty` | aethalloc-abi/src/global.rs:366-406 | in every such run a thread turns to the page source only when its own list and the global list of the class are empty |
| `SimpleCacheMachine.AllocEnds` | aethalloc-abi/src/global.rs:366-434 | `alloc` ends exactly with a block for the caller, or with null when neither page nor run came |
| `SimpleCacheMachine.EveryStepAdvances` | aethalloc-abi/src/global.rs:353-556 | every step of `alloc` and `free` brings the call nearer to its end, except a compare-and-swap that fails |
| `SimpleCacheMachine.SoundIffNeverStale` | aethalloc-abi/src/global.rs:78-94 | a run keeps the invariant throughout if and only if no global pop in it succeeds with a stale successor |
| `SimpleCacheMachine.StaleBreaks` | aethalloc-abi/src/global.rs:84-91 | right after a stale pop the links no longer spell the global list |
| `SimpleCacheMachine.ApartNeverStale` | aethalloc-abi/src/global.rs:60-94 | no pop is stale in any run in which no two pops of one class overlap, however they overlap with pushes |
| `SimpleCacheMachine.BooksAreAuxiliary` | aethalloc-abi/src/global.rs:353-556 | words, heads, counts and local variables step without looking at the records of lists and places |
| `SimpleCacheRace.SafeForOnePopperOnly` | aethalloc-abi/src/global.rs:78-118 | every run in which `n` threads pop from the global lists keeps the invariant if and only if `n` is at most 1; two threads have a run from the start, with flushes at 4096 and batches of 128, that ends in a stale pop |
| `ThreadLocalCache.GetSlotIsLeastFit` | aethalloc-core/src/thread_local.rs:79-109 | the slot arithmetic gives sizes up to 8192 the smallest slot that holds them, the same as the size classes, and none to larger ones |
| `ThreadLocalCache.SamePages` | aethalloc-core/src/thread_local.rs:133-168 | the page count computed at free time is the one computed at allocation time |
| `ThreadLocalCache.ThreadLocalCache.constructor` | aethalloc-core/src/thread_local.rs:59-76 | a new cache is valid and maps nothing |
| `ThreadLocalCache.ThreadLocalCache.Alloc` | aethalloc-core/src/thread_local.rs:112-140 | None exactly without slot, or without cached run and page; otherwise the most recently cached run or, with none, the new one becomes live, all others stay |
| `ThreadLocalCache.ThreadLocalCache.Dealloc` | aethalloc-core/src/thread_local.rs:147-180 | the run is cached if fewer than 32 are, else unmapped with the count it was mapped with; a run of a size without slot is unmapped |
| `ThreadLocalCache.ThreadLocalCache.MapOutside` | aethalloc-core/src/thread_local.rs:147-159 | a run of a size without slot, mapped by the program for itself, is what `dealloc` may be given besides its own |
| `ThreadLocalCache.ThreadLocalCache.ClearSlot` | aethalloc-core/src/thread_local.rs:195-214 | every cached run of the slot is unmapped once with its own count, nothing else |
| `ThreadLocalCache.ThreadLocalCache.Clear` | aethalloc-core/src/thread_local.rs:186-193 | only runs held by the program stay mapped; with all cached, none does |
| `Slab.SlotsDisjoint` | aethalloc-core/src/slab.rs:58-98 | two slots of a slab never overlap |
| `Slab.SlotFacts` | aethalloc-core/src/slab.rs:85-97 | every slot is aligned to the slot size and lies whole in one of the pages |
| `Slab.Slab.constructor` | aethalloc-core/src/slab.rs:40-55 | a new slab for a power of two from 16 to 4096 is valid and empty |
| `Slab.Slab.Alloc` | aethalloc-core/src/slab.rs:58-98 | None exactly if no slot is free, all pages are used up and no page comes or four are there, all slots then being live; otherwise the most recently freed slot or, with none, the next in order; it was not live, is aligned and in one page, all other slots unchanged |
| `Slab.Slab.AllocNewPage` | aethalloc-core/src/slab.rs:101-110 | a new page changes no slot |
| `Slab.Slab.Dealloc` | aethalloc-core/src/slab.rs:117-148 | the slot goes to the front of the free list; a pointer outside every page is ignored; all other slots unchanged |
| `Slab.Slab.FreeThenAlloc` | aethalloc-core/src/slab.rs:58-148 | freeing then allocating returns the same slot and restores the free list |
| `Slab.MoreUsedThanFree` | aethalloc-core/src/slab.rs:117-148 | with a slot in use fewer slots are free than were handed out, so the counter never underflows |
| `SlabPool.PopReadsTop` | aethalloc-core/src/global_pool.rs:69-91 | a pop that will succeed and whose reading still holds has the top of the stack and its true successor |
| `SlabPool.StepRefines` | aethalloc-core/src/global_pool.rs:45-91 | each step but a stale pop is one event of an atomic LIFO stack and keeps the invariant and the set of slabs |
| `SlabPool.RunIsLifo` | aethalloc-core/src/global_pool.rs:45-91 | an interleaving of any number of pushers and poppers is a run of an atomic LIFO stack spelled by the links, every other slab being with its owner or with a thread that is pushing it, if and only if no pop in it succeeds with a stale successor |
| `SlabPool.ApartRunIsLifo` | aethalloc-core/src/global_pool.rs:45-91 | in particular every interleaving in which no two pops overlap is one |
| `SlabPool.OperationsEndByEvents` | aethalloc-core/src/global_pool.rs:45-91 | a push ends exactly by putting its slab on the stack, however often its compare-and-swap fails; a pop ends exactly by taking the slab it returns or on an empty pool |
| `SlabPool.PushAlone` | aethalloc-core/src/global_pool.rs:45-64 | whatever other threads are at, four uninterrupted steps complete a push |
| `SlabPool.PopAlone` | aethalloc-core/src/global_pool.rs:69-91 | uninterrupted, a pop returns the top, or nothing exactly if the pool is empty |
| `SlabPool.SafeForOnePopperOnly` | aethalloc-core/src/global_pool.rs:45-91 | every run with any number of pushers and `n` popping threads looks to its callers like a LIFO stack if and only if `n` is at most 1; with two, a run from an empty pool returns a slab that is not in it |

## Left out

- `mmap` and `munmap` themselves: page answers are parameters, see above.
- Weak-memory behaviour: steps are sequentially consistent, memory orderings are not modelled.
- `Drop` of the buddy allocator, the slab and the thread-local cache, and coalescing in regions older than the current one.
- `pop_empty`, `full_depth` and the `GlobalPools` index lookup: not called by the allocator, or single expressions.
- The blocking `push` and `pop` of the ring buffer: they retry `try_push` and `try_pop`.
- Metrics counters and their flushing, and `aethalloc-metrics`.
- `aethalloc-vmpc`, `aethalloc-hess` and the support core of `aethalloc-amo`: system calls, assembly, small bitmaps, discarded payloads.
- `slab_index`, `classify` and `alloc_size` beyond what the thread-local cache uses: they would only add easy members.
- SimpleCache.SimpleCache.Alloc: large allocations of this build are the code of the default build, modelled in `CApi`.
- SimpleCacheMachine.StepKeepsInv: not for stale pops; that is exact (`SimpleCacheMachine.SoundIffNeverStale`), and which numbers of threads exclude them is `SimpleCacheRace.SafeForOnePopperOnly`.
- MetadataNodes.RunKeepsInv: for runs in which no refill overlaps a bump; which numbers of threads guarantee that is `MetadataNodes.SafeForOneThreadOnly`.
- SlabPool.StepRefines: not for stale pops; that is exact (`SlabPool.RunIsLifo`), and which numbers of threads exclude them is `SlabPool.SafeForOnePopperOnly`.
- CApi.AethAlloc.Alloc: one caller at a time; the interleaving of threads over the same memory is `MagazineBytes`.
