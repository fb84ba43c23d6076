# rts-alloc, modelled and proved in Dafny

This project models the allocator of rts-alloc: a lock-free slab allocator that lives in a shared, memory-mapped file
and is used by many processes at once. It proves safety over every interleaving, linearizability of the two lock-free
lists, exact accounting, progress bounds, what a cleaning call achieves, and soundness of the file layout.
`dafny verify dfyconfig.toml` checks everything.

## What is modelled

A file holds slabs of equal size. A slab is in the *global free list*, on a *partial* or *full* list of one worker for
one of five size classes, or in the hands of one thread on its way between those. The owner of a slab allocates from
and frees to a *free stack*; everyone else frees by pushing the slot on the slab's *remote free list*, which is
threaded through the first two bytes of the freed slots, and which the owner takes whole and frees when it *cleans*.

* **The allocator as a step system** (`Allocator`). Any number of slabs, workers and handles; a handle is an
  `Allocator` bound to a claimed worker index or a `FreeOnlyAllocator`. Every access to the two lock-free lists, to a
  claim flag, to a slab's metadata and to a link word is a step of its own, and so is a client's write of arbitrary
  values into a block it holds. Steps of all handles interleave sequentially consistently. What only a slab's owner
  touches (free stack, local lists, byte counter) is done in one step. A code panic is a program counter `Panicked`.
* **Its parts as step systems of their own**: the tagged stack (`GlobalFreeList`) and one slab with its remote list
  (`Slab`), with their whole runs in `GlobalFreeListRuns` and `SlabRuns`. `AllocatorProjection` proves that every run
  of the allocator, seen through one slab or through the global list, is a run of that part, so what is proved of the
  parts holds inside the allocator.
* **The owner's code** on arrays and objects that it updates in place: `WorkerLocalList.LocalList` (doubly linked
  lists over one shared node array), `FreeStack.FreeStack`, `OwnerCode.WorkerLists` (cutting a slab, handing a slot
  out, taking one back), each of whose methods is proved to perform exactly the step the step system takes, and
  `Memory.Memory`, the loops that fill a new file, proved to write the step system's initial state.
* **The lock-free code** as retry loops that update the shared words in place, with a schedule of other threads' events
  between any two accesses: `GlobalFreeListCode.SharedList` (`push`, `pop`) and `RemoteFreeListCode.SharedSlab`
  (`push`, `drain`). Under every schedule the loops perform a run of the step systems.
* **Arithmetic**: block sizes (`SizeClasses`), offsets and back (`Address`), the file layout and the search for the
  number of metadata slabs (`Layout`, `LayoutSound`, `LayoutRecords`), creating and joining a file (`Init`). 16-, 32- and 64-bit
  truncation is written out wherever the code casts or wraps.

The history variables `version`, `stack`, `updates`, `loc`, `chain`, `lists`, `place`, `holder`, the chain inside a
drain and the walk of a cleaning call are never read by a step to decide what to do. Properties that could be about a
history variable are tied to the shared words themselves (`StepRefinesStack`, `RemoteListAtomic`, `PlacesAreSpelled`).

`Reachable` states are those some run reaches from the initial state, with any number of handles. Two things are
assumed of a run. Clients keep the unsafe contracts: a freed block is live, and only live blocks are written. And at
each exchange that ends a pop, fewer than 2^32 successful updates of the global head lie between the pop's load and the
exchange (`Fresh`), because the 32-bit generation wraps; `BoundIsSafeIff` shows that 2^32 is the exact bound. The bounds
on retries hold of every run, without it.

Where the code and its comments differ, the code is modelled: the comment that the generation prevents ABA holds only
within that bound, and `max_workers` may take more metadata slabs than needed (`SearchFindsSmallestIff` says exactly when
it does not). The 32-bit casts of `layout_for` are unchecked; `LayoutSoundIff` says exactly when that is harmless and
`UnsoundLayout` gives accepted parameters for which it is not.

## Model

| member | source | states |
|---|---|---|
| GlobalFreeList.PackUnpack | src/global_free_list.rs:6-12 | Packing a generation and an index into the head word and unpacking it gives both back |
| GlobalFreeList.PopTakesTop | src/global_free_list.rs:73-103 | A pop whose exchange succeeds within 2^32 updates of its load removes the top slab and installs its true successor |
| GlobalFreeList.StepKeepsInv | src/global_free_list.rs:39-103 | Every access of every thread keeps the list acyclic, duplicate-free and bounded, and each carried slab with one thread |
| GlobalFreeListRuns.InitialInv | src/init.rs:237-274 | The list `initialize` builds is well formed and holds every slab |
| GlobalFreeListRuns.RunKeepsInv | src/global_free_list.rs:39-103 | Over any interleaving of pushes and pops the list stays well formed and no access is out of bounds |
| GlobalFreeListRuns.StepRefinesStack | src/global_free_list.rs:39-103 | Read from the shared words alone, each step is a push, a pop or a stutter of an abstract stack, and a pop returns its top |
| GlobalFreeListRuns.PopFailsIffEmpty | src/global_free_list.rs:73-79 | `pop` answers None exactly when the list is empty at the step that reads the head |
| GlobalFreeListRuns.OnePlace | src/global_free_list.rs:39-103 | A slab is on the list, with exactly one thread, or outside; the late store of null in `pop` touches only a slab its thread owns |
| GlobalFreeListRuns.FailureMeansOvertaken | src/global_free_list.rs:53-64 | A failed exchange means another thread's exchange succeeded since this attempt's load |
| GlobalFreeListRuns.PoppedWasTop | src/global_free_list.rs:73-103 | Over a fresh run, a slab that `pop` has returned was the top of the list at the event that took it |
| GlobalFreeListRuns.PushedOnTop | src/global_free_list.rs:39-66 | Over a fresh run, a `push` that has returned put its slab on top of a list that did not hold it |
| GlobalFreeListRuns.RetriesBounded | src/global_free_list.rs:41-102 | Over any run, an operation's failed exchanges are at most the other threads' successful updates; no freshness needed |
| GlobalFreeListAba.WrappedGenerationBreaksPop | src/global_free_list.rs:50-52 | With exactly 2^32 updates in between, a reachable pop succeeds and corrupts the list |
| GlobalFreeListAba.BoundIsSafeIff | src/global_free_list.rs:50-52 | A bound on the updates between a pop's load and its exchange keeps every run of any number of slabs and threads well formed if and only if it is at most 2^32 |
| GlobalFreeListCode.SharedList.Push | src/global_free_list.rs:39-66 | In place, whatever other threads do between its accesses, the retry loop performs a run of the step system; under allowed events of the others it is still running at the end of its schedule only if it lost every exchange the schedule had room for, so with fewer exchanges won by the others it has returned; if the events are fresh too, the slab was put on top of a list without it |
| GlobalFreeListCode.SharedList.Pop | src/global_free_list.rs:73-103 | In place, likewise still running only if it lost every exchange there was room for; None exactly when the head read was null, a slab exactly when the exchange succeeded and its link was cleared, a crash exactly when an index is out of bounds; under allowed and fresh events of the others it never crashes, the slab was the top when taken, and None means the list was empty when its head was read |
| Slab.PushWinKeeps | src/remote_free_list.rs:50-64 | A remote push's exchange that succeeds keeps the chain right even if the head left its value and came back meanwhile |
| Slab.PushStoreKeeps | src/remote_free_list.rs:52-54 | The link store of a remote push touches no word any chain or other push relies on |
| Slab.DrainKeeps | src/remote_free_list.rs:68-72 | Swapping the head takes the whole chain for the drainer and leaves every other thread's view intact |
| Slab.ScribbleKeeps | src/remote_free_list.rs:41-93 | The holder of a live block may write anything into it without harm to any chain |
| Slab.ClearHeadDropsNothing | src/slab_meta.rs:12-18 | On a slab with nothing outstanding, resetting the remote head changes nothing |
| Slab.ResetKeeps | src/free_stack.rs:47-54 | Re-cutting such a slab to another capacity leaves it well formed with every slot free |
| Slab.FullIffQuiet | src/free_stack.rs:102-105 | The free stack is full exactly when nothing is outstanding, so the test that retires a slab is exact |
| Slab.RoomForHeld | src/free_stack.rs:80-90 | A slot in a thread's hands leaves room for it: `push` never overflows |
| SlabRuns.StepDefined | src/remote_free_list.rs:41-93 | Every step of the slab machine stays in bounds and keeps the slab well formed |
| SlabRuns.Conservation | src/allocator.rs:190-386 | The slots are split without overlap or loss among free stack, live, carried, remote and drained, and counts add up to the capacity |
| SlabRuns.HandsHold | src/remote_free_list.rs:41-93 | Carried slots are exactly those in some thread's hands, drained slots exactly those in some thread's chain |
| SlabRuns.RemoteListAtomic | src/remote_free_list.rs:41-93 | Read from head and slot words, a successful exchange conses one slot, a swap takes everything, every other step stutters |
| SlabRuns.DrainedChainFixed | src/remote_free_list.rs:68-93 | A drained chain does not change under any step of others; its owner yields its first slot after reading the link in it |
| SlabRuns.EachPushYieldedOnce | src/remote_free_list.rs:41-93 | Over any run each pushed slot is yielded by exactly one drain |
| SlabRuns.RetriesBounded | src/remote_free_list.rs:50-64 | A remote push's failed exchanges are bounded by other threads' successful changes of the head |
| RemoteFreeListCode.SharedSlab.Push | src/remote_free_list.rs:41-65 | In place, under any schedule of other threads, the retry loop performs exactly the scheduled accesses and returns exactly when its slot is in front of the list |
| RemoteFreeListCode.SharedSlab.Drain | src/remote_free_list.rs:68-93 | In place, under any schedule of other threads, a drain whose slots are freed as they come yields, in order, exactly the list it swapped out |
| WorkerLocalList.PushSpells | src/worker_local_list.rs:37-58 | The words `push` stores spell the old list with the slab in front, in both directions |
| WorkerLocalList.RemoveSpells | src/worker_local_list.rs:65-90 | The words `remove` stores spell the old list without the slab, from any position |
| WorkerLocalList.PushFrame | src/linked_list_node.rs:10-17 | Every list sharing no slab with this one is unchanged by `push` |
| WorkerLocalList.RemoveFrame | src/linked_list_node.rs:10-17 | Every list sharing no slab with this one is unchanged by `remove` |
| WorkerLocalList.SpellsUnique | src/worker_local_list.rs:96-108 | The words of a list mean one sequence only |
| WorkerLocalList.LocalList.Push | src/worker_local_list.rs:37-58 | In place: the list is the old one with the slab in front; the global links and all other lists are untouched |
| WorkerLocalList.LocalList.Remove | src/worker_local_list.rs:65-90 | In place: the list is the old one without the slab, the slab is unlinked, the global links and all other lists are untouched |
| WorkerLocalList.LocalList.Iterate | src/worker_local_list.rs:96-108 | Iterating yields exactly the list, in order |
| LocalLists.PushToKeeps | src/worker_local_list.rs:37-58 | Over all lists of all workers: pushing an unlisted slab stays in bounds and keeps every list right and all lists disjoint |
| LocalLists.RemoveFromKeeps | src/worker_local_list.rs:65-90 | Over all lists of all workers: removing a listed slab stays in bounds, unlists it and keeps every list right |
| SizeClasses.LeastClass | src/size_classes.rs:13-30 | The class found is the least one not below the request, and a request has none if and only if no class covers it |
| SizeClasses.SizeIsPower | src/size_classes.rs:1-6 | The classes are the powers of two from 2^8 on, one exponent apart, as the search for a class supposes |
| Bits.MaskIsMod | src/allocator.rs:545-548 | Masking with a power of two less one is the remainder |
| Bits.RoundUpIsNextMultiple | src/align.rs:1-4 | The mask yields the least multiple of a power of two not below the value |
| Address.ValidSlabSizeIff | src/init.rs:115-131 | The three checks of a slab size accept exactly the powers of two from 2^14 to 2^23 |
| Address.CapacityExact | src/allocator.rs:277-279 | A slab is cut into its class with nothing left over, at least four blocks, and the capacity survives its cast to 16 bits |
| Address.RoundTrip | src/allocator.rs:509-539 | Any offset inside a block leads back to its slab and slot, with no truncation and no clash with a null marker |
| Address.BlocksDisjoint | src/allocator.rs:251-260 | Blocks of distinct slots or slabs share no byte |
| Address.BlockAligned | src/header.rs:86-89 | With slabs at a multiple of the slab size, a block's offset is a multiple of its size |
| AllocatorRuns.InitialInv | src/init.rs:150-179 | The initial state satisfies the invariant of the whole allocator |
| AllocatorRuns.StepKeepsInv | src/allocator.rs:183-386 | Every step of every handle, calls and client writes included, keeps the invariant |
| AllocatorRuns.ReachableInv | src/allocator.rs:183-386 | So the invariant holds in every state any interleaving reaches |
| AllocatorProjection.SlabProjection | src/allocator.rs:183-386 | Every step of the allocator is, for each slab, one step of that slab's machine or none |
| AllocatorProjection.SlabRun | src/remote_free_list.rs:41-93 | Every run of the allocator, seen through a slab, is a run of that slab's machine |
| AllocatorProjection.PoolProjection | src/allocator.rs:269-286 | Every step of the allocator is one step of the global list's machine or none |
| AllocatorProjection.PoolRun | src/global_free_list.rs:39-103 | Every run of the allocator, seen through the global list, is a run of that list's machine |
| AllocatorRetire.NeverUnreachable | src/allocator.rs:339-344 | The unreachable arm of `local_free_with_size_index` is never taken |
| AllocatorTheorems.NothingPanics | src/allocator.rs:183-386 | No handle ever panics and no index it holds is out of bounds |
| AllocatorTheorems.SlotConservation | src/allocator.rs:190-386 | In every reachable state each slab's slots are conserved across all handles: the shared words spell the remote share, and the carried and drained shares are those in handles' hands and chains |
| AllocatorTheorems.OneHand | src/allocator.rs:641-664 | A slot in one handle's hands or chain is in no other handle's, nor in the free stack or the remote list |
| AllocatorTheorems.SlabPartition | src/header.rs:72-77 | Every slab is in exactly one place: the global list, one list of one worker, or one handle's hands |
| AllocatorTheorems.PlacesAreSpelled | src/header.rs:72-77 | The shared words spell the global list and every local list, and nothing else, in every reachable state |
| AllocatorTheorems.RetiredIsQuiet | src/allocator.rs:359-371 | A slab outside every worker's lists has no slot live, pending, remote or drained, a null remote head, and no drain with anything left to read |
| AllocatorTheorems.AssignDropsNothing | src/slab_meta.rs:12-18 | When a new owner resets the remote head it is null already, in every reachable state |
| AllocatorTheorems.LiveBlockAt | src/allocator.rs:251-260 | A live block was handed out under the offset that its slab, its slab's class and its slot still determine |
| AllocatorTheorems.LiveBlocksDisjoint | src/allocator.rs:251-260 | Blocks live at the same time share no byte, and lie within the slabs' region |
| AllocatorTheorems.AllocateChooses | src/allocator.rs:190-218 | `allocate` rejects a request, changing nothing, if and only if its size is zero or no class covers it; otherwise it works in the least class that fits, and goes to the global list exactly when its partial list is empty |
| AllocatorTheorems.TakeFailsIffPoolEmpty | src/allocator.rs:269-270 | Taking a slab fails exactly when the global list is empty at the step that reads its head |
| AllocatorTheorems.SlotIsHandedOut | src/allocator.rs:224-261 | A slab from either source always yields a slot that was free; it is now live, counted, and the slab stands on the right list |
| AllocatorOwners.OneHandlePerWorker | src/allocator.rs:784-796 | At most one live handle holds each worker index, over any joins and drops |
| AllocatorOwners.OnlyOwnerTouchesLists | src/worker_local_list.rs:4-6 | No other handle's step changes a worker's lists, heads or counter |
| AllocatorOwners.OnlyOwnerTouchesSlab | src/free_stack.rs:8-9 | No other handle touches the free stack of a listed slab, drains it or reassigns it |
| AllocatorOwners.ReleasedIndexKept | src/allocator.rs:145-149 | A released index keeps its lists, slabs and counter until and including the step that claims it again |
| AllocatorJoins.JoinFailsIffAllClaimed | src/allocator.rs:784-796 | Whatever others do meanwhile, a join comes back without an index if and only if it found every index claimed at the step that tried it; otherwise it has claimed the first index it found free |
| AllocatorJoins.JoinAlone | src/allocator.rs:784-796 | From any reachable state a join left alone claims the least free index and changes nothing else, or, if and only if none is free, comes back without one and leaves the state as it was |
| AllocatorJoins.ClaimedMeansHeld | src/allocator.rs:784-796 | An index is claimed if and only if some handle is bound to it |
| AllocatorJoins.DropReleases | src/allocator.rs:183-185 | A drop by the holder of an index clears its flag and its holder and unbinds the handle, and changes nothing else; a free-only handle leaves every shared word |
| AllocatorJoins.JoinThenDrop | src/allocator.rs:145-149 | Claiming an index and dropping it at once restores the state exactly |
| AllocatorOwners.OutstandingKeepsMeta | src/slab_meta.rs:12-18 | From the step that hands a block out until its free takes effect its slab keeps owner, size class and capacity, whatever others do |
| AllocatorOwners.OffsetStaysGood | src/allocator.rs:509-539 | At any such moment the block's offset, through the class read then, gives the slab and slot that were allocated |
| AllocatorOwners.FreeFindsItsBlock | src/allocator.rs:307-308 | A free computes exactly the slab and slot of the block it was given |
| AllocatorOwners.RoutesByOwner | src/allocator.rs:310-325 | A free is local exactly when the slab stands on a list of the caller's own worker |
| AllocatorAccounts.PlacementMatchesFullness | src/allocator.rs:235-249 | Between calls full lists hold slabs without free slots, partial lists slabs with some but not all free, all with the list's worker and class |
| AllocatorAccounts.ExactBytes | src/allocator.rs:251-260 | At every moment a worker's counter is the sum over its listed slabs of what is not in the free stack, plus what the drain under way has pushed back |
| AllocatorAccounts.ZeroIffNoSlab | src/allocator.rs:618-622 | Between calls the counter is zero exactly when the worker holds no slab |
| AllocatorAccounts.LocalFreeTakesEffect | src/allocator.rs:310-377 | A local free frees its slot, drops the counter by exactly the block's size without wrapping, and retires the slab exactly when nothing is outstanding |
| AllocatorAccounts.DrainSettles | src/allocator.rs:658-662 | The counter drops only at the end of a slab's drain, by exactly what the drain freed, without wrapping |
| AllocatorCalls.AllocateFailsOnlyWhenEmpty | src/allocator.rs:190-286 | A request that has a class fails only if its partial list and the global list were both empty at the step that read the global head |
| AllocatingAlone.AllocateAlone | src/allocator.rs:190-286 | From any reachable state an allocation left alone returns; it hands out one new block, in the least class that fits, and counts it, unless both its partial list and the global list are empty, which is exactly when it comes back without one; every other block stays live where it is |
| AllocatorRetries.OnlyExchangesMove | src/global_free_list.rs:53-62 | Inside the allocator, in any state, the global head changes only by a successful exchange |
| AllocatorRetries.GlobalRetriesBounded | src/global_free_list.rs:41-102 | Inside the allocator, over any run, retries on the global head are bounded by the other handles' changes of it since the attempt began |
| AllocatorRetries.RemoteRetriesBounded | src/remote_free_list.rs:50-64 | Inside the allocator, over any run, retries of a remote push are bounded by the other handles' changes of that slab's head |
| AllocatorClean.CursorListed | src/worker_local_list.rs:96-108 | The iterator's cursor is the first slab still ahead, it is on the list, and its next link is the slab after it, although the body unlinks slabs |
| AllocatorClean.WalkGoesOn | src/allocator.rs:641-664 | Freeing a drained slot, which may move or give away the slab visited, leaves the slabs still ahead where they were |
| Cleaning.VisitsEachOnce | src/allocator.rs:625-643 | Over a whole cleaning call interleaved with anything, each slab listed at entry is visited exactly once and no other is |
| CleaningDrains.CleanEmptiesRemoteList | src/allocator.rs:641-664 | If no push lands on a visited slab during the call, its remote list is empty at the end and exactly the slots on it at entry were yielded, once each |
| CleaningPushes.EveryWaitingSlotYielded | src/allocator.rs:641-657 | Whatever others free meanwhile, every slot waiting on the remote list of a listed slab when the call begins is yielded during it |
| CleaningPushes.ChainAtEnd | src/allocator.rs:641-664 | The remote list of a slab still held at the end is exactly the slots whose push landed after its visit, so empty if and only if none did; slot by slot, what was yielded is what waited plus what was pushed, less those |
| CleaningLate.LatePushStays | src/remote_free_list.rs:41-72 | From any state with a live block and another idle handle there is a run in which the block is freed after its slab's visit and stays on the list when the call ends |
| AllocatorPaths.RemoteListMayStayFull | src/allocator.rs:625-664 | Such a state is reachable in every file, so the list need not be empty after cleaning |
| CleaningDrains.CleanGivesBack | src/allocator.rs:359-371 | A slab with only free and remotely freed slots at entry is off its worker's lists at exit, whatever the other handles do |
| CleaningAlone.AloneEnds | src/allocator.rs:625-664 | A cleaning call that is left alone ends, from whatever point it has reached |
| CleaningAlone.CleanAloneIsExact | src/allocator.rs:625-664 | A call alone frees exactly the remotely freed slots of its worker's slabs, returns exactly those left wholly free to the pool, and changes no other slab |
| CleaningAlone.CleanAlone | src/allocator.rs:625-664 | From any reachable state a call left alone returns, having done exactly that |
| FreeStack.FreeStack.Reset | src/free_stack.rs:47-54 | In place: all slots free, slot 0 on top |
| FreeStack.FreeStack.Pop | src/free_stack.rs:61-78 | In place: removes and returns the last pushed slot, and answers None exactly when empty |
| FreeStack.FreeStack.Push | src/free_stack.rs:86-90 | In place: the slot is on top of the old contents |
| FreeStack.FreshSlabAscends | src/free_stack.rs:47-78 | A freshly cut slab hands out its slots in ascending order, each once |
| FreeStack.PushedBackReverses | src/free_stack.rs:61-90 | Slots come back out in the reverse of the order they were pushed |
| OwnerCode.WorkerLists.AllocateWithinSlab | src/allocator.rs:224-261 | On real stacks, nodes and counters, the code performs exactly the step system's step and returns that block's offset |
| OwnerCode.WorkerLists.LocalFree | src/allocator.rs:310-377 | On real stacks, nodes and counters, the owner's free performs exactly the step system's step |
| OwnerCode.WorkerLists.DrainFree | src/allocator.rs:649-657 | One turn of the drain loop performs exactly the step system's step |
| OwnerCode.WorkerLists.CutSlab | src/allocator.rs:276-284 | Filling the free stack and listing the slab performs exactly the step system's step |
| Memory.Memory.WorkerLocalLists | src/init.rs:206-235 | The loop leaves every worker unclaimed, with a zero counter and null heads |
| Memory.Memory.FreeListElements | src/init.rs:237-274 | The loop links every slab to the next, unlinks all local links and sets the head |
| Memory.Memory.SlabSharedMeta | src/init.rs:276-294 | The loop gives every slab no owner, class 0 and an empty remote list |
| Memory.Memory.Initialize | src/init.rs:150-179 | Whatever the file held, it then holds the state from which every run of the step system starts |
| Layout.LayoutFor | src/header.rs:161-182 | The accumulated offsets, cut to 32 bits, are those of the layout's definition |
| Layout.MaxWorkers | src/header.rs:120-159 | The loop ends, never saturates or underflows, and returns what the search defines |
| Layout.SearchFits | src/header.rs:131-157 | A result splits the slabs, its metadata fits, and it serves at least the workers asked for |
| Layout.LimitsAgree | src/header.rs:120-159 | Recomputing with the number of workers found gives the same limits |
| LayoutSound.LayoutSoundIff | src/header.rs:161-182 | For every accepted file and slab size the regions are ordered, disjoint, aligned and within the file if and only if the slabs' offset fits 32 bits |
| LayoutSound.SoundIfFits | src/header.rs:120-182 | Then no offset is cut and the slabs start within the metadata slabs |
| LayoutSound.LayoutValues | src/header.rs:161-182 | Before any cut each region starts where the one before it ends, padded to a cache line before the metadata and to a slab before the slabs, and not at all elsewhere |
| LayoutRecords.RecordSizes | src/header.rs:11-48 | The record sizes the offsets are computed with are those of the records laid out field by field |
| LayoutRecords.StackHasRoom | src/header.rs:231-239 | The bytes set aside for one free stack suffice for a slab of any class, and exactly for one of the smallest |
| LayoutRecords.RecordsApart | src/allocator.rs:745-757 | In a sound map no two worker heads, nodes, metadata records, free stacks filled to capacity or slabs share a byte, and all end within the file |
| LayoutRecords.RecordsAligned | src/header.rs:191-250 | In a sound map every record starts at a multiple of the alignment of its fields |
| LayoutSound.SlabsStartBehindMeta | src/header.rs:145-147 | The slabs then start exactly behind the metadata slabs if and only if the count of workers was not cut to 32 bits |
| LayoutSound.UnsoundLayout | src/header.rs:161-182 | Concrete accepted parameters for which an offset is cut and the regions overlap |
| LayoutSound.SearchFindsLeast | src/header.rs:129-157 | With nothing cut the search finds the least feasible count not below its first jump, and fails if and only if there is none |
| LayoutSound.SearchFindsSmallestIff | src/header.rs:129-157 | It finds the smallest feasible count if and only if the one just below its first jump will not do: one evaluation decides |
| LayoutSound.SearchOvershoots | src/header.rs:139-143 | Concrete parameters for which a smaller count would have done |
| LayoutSound.CutMisleadsSearch | src/header.rs:136-143 | Concrete parameters for which a cut offset makes the search see no metadata at first and then pass over a feasible count above its first jump |
| Init.Create | src/init.rs:17-56 | Rejects a slab size if and only if it is not a power of two from 2^14 to 2^23, a file size if and only if it counts 2^32 slabs or more or has no limits, and otherwise only zero workers or a file that is not empty; what it writes serves the workers asked for and is accepted by `join` |
| Init.Join | src/init.rs:71-113 | Accepts exactly what `create` could have written, rejects a slab size exactly when `create` would, and tells a foreign magic, another version and a mismatch apart |
| Init.JoinAcceptsCreated | src/init.rs:89-110 | `join` accepts every header `create` writes |
| Init.JoinAcceptsOnlyCreated | src/init.rs:71-113 | `join` accepts a header if and only if `create` could have written it for that file |
| Init.CreatedIsValid | src/init.rs:26-33 | A created header with uncut offsets has a sound map and satisfies all the allocator relies on |
| Init.SlabSizesAccepted | src/init.rs:115-131 | A slab size is accepted if and only if it is a power of two from 2^14 to 2^23, and is an invalid slab size otherwise |
| Init.CreatedRecordsApart | src/init.rs:26-33 | In a file `create` writes with uncut offsets no two records share a byte, and all lie within the file |
| Init.CreatedBlocksAligned | src/header.rs:86-89 | In such an allocator the offset of every block is a multiple of its size class |

## Left out

- Memory orderings: steps are sequentially consistent; acquire, release and relaxed are not distinguished, and `sync.rs` and `cache_aligned.rs` have nothing to add.
- The loops in `GlobalFreeListCode` and `RemoteFreeListCode` stop when the schedule they are given ends; that a thread is ever scheduled again is the scheduler's choice.
- `claim_any_worker_index` is its steps in `Allocator`, not a loop, because other handles act between its exchanges.
- `allocate`, `free_offset` and `clean_remote_free_lists` cross such accesses and so are sequences of steps rather than methods; `OwnerCode` gives as methods the stretches between them that update free stacks, lists and counters in place.
- `memory_map.rs`, file handling, unmapping and `Arc`: the mapping is given, with the right size and any bytes; raw pointers are offsets and indices.
- `error.rs` display code and `lib.rs` exports: only accept and reject outcomes are kept.
- Misuse the unsafe contracts forbid (double free, foreign offsets, corrupted shared memory, creating twice): these are what `Enabled` excludes.
- The words of a re-cut slab are arbitrary: the bytes of a slot under another class are whatever the file held.
- Each free stack is its own array; that their bytes do not overlap in the file is `RecordsApart`.
- GlobalFreeListRuns.RunKeepsInv: assumes fewer than 2^32 updates between a pop's load and its exchange, because the 32-bit generation wraps; `BoundIsSafeIff` shows no larger bound would do.
- CleaningDrains.CleanEmptiesRemoteList: supposes no push lands on the slab during the call; `ChainAtEnd` is the exact statement without that, and `RemoteListMayStayFull` a run in which the list does not end empty.
- LayoutSound.SearchFindsLeast: supposes the metadata of all but one slab ends below 2^32; `CutMisleadsSearch` is an input for which it fails otherwise.
- Handles that die inside a call: a drop happens between calls; a crashed process's worker index stays claimed for good.
