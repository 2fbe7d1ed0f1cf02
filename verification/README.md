# MMgc, verified

A Dafny model of MMgc, the memory manager of the Tamarin virtual machine. Each of its
interlocking state machines is modelled in the form it has in the C++ code and proved
correct: the incremental marker, the block manager, the small-object allocators, the
pointer hash table, and the fixed-size allocator with its spin lock.

| part | files |
|---|---|
| incremental marker (`MMgc/GC.cpp`) | `MarkModel`, `MarkInvariants`, `MutatorSteps`, `MarkRuns`, `SplitTracing`, `ShieldLoss`, `MarkCompleteness`, `MarkProgress`, `MarkFinish`, `Marker` |
| block manager (`MMgc/GCHeap.cpp`) | `HeapLayout`, `FreeLists`, `HeapState`, `HeapSteps`, `Coalescing`, `Alignment`, `RunAssembly`, `RunSearch`, `MissedRun`, `Compaction`, `Regions`, `Decommitting`, `Growth`, `Expansion`, `GCHeap` |
| small objects (`MMgc/GCAlloc.cpp`) | `SmallBlocks`, `ItemStatus`, `Sweeping`, `SweepRuns`, `QuickLists`, `IndexArithmetic` |
| hash table (`MMgc/GCHashtable-inlines.h`) | `Probing`, `HashSlots`, `GCHashtable` |
| fixed-size allocator (`MMgc/FixedAlloc.cpp`) | `FixedBlocks`, `FixedAlloc`, `FixedAllocSafe` |

`Arithmetic`, `Powers`, `Sets`, `Options` and `Paths` are shared. `dafny verify dfyconfig.toml`
checks everything.

**The marker.** An object is white, grey (`kQueued`) or black (`kMark`). A run is any
interleaving of mark steps, root tracing, barrier-stack transfers, stores, pointer moves,
allocations, frees and unbarriered root changes over an arbitrary object graph; every push
on the bounded stacks may succeed or fail. `MarkRuns` proves the invariant over all runs,
`SplitTracing` that the words of a split object are traced once each, `MarkCompleteness` that
what was unreachable stays white, `MarkFinish` that what is reachable is black when marking ends. The class `Marker.GC` has the code's own loops,
among them the recovery passes that use the heap as the queue, and is proved to finish.

**The block manager.** The array of `HeapBlock`s, the links of the free lists and the pages
behind them are one state, `HeapState.Heap`; `HeapState.Ok` is the layout invariant, the
free-list invariant, commit-state coherence and "a clean free block is zero" taken together.
The methods of `BlockManager.GCHeap` change the fields in the order of the C++ code, up to
`Alloc`, which searches, expands the heap and searches again.

**The small-object allocators.** One allocator is a value; `SmallBlocks.Live` says which
items are alive, also while blocks await their sweep, and every operation is specified by
what it does to that set and by the acts it consists of (`ItemStatus.Does`). `SweepRuns` has
the runs of these acts and of the phases of collections, over which sweeping is exact.
`QuickLists.Collector` is the collector's 201 allocators with the budget they share; each of
its methods takes every allocator along a stretch of such a run.

Where the code and its comments disagree the model follows the code:

- Decommitted blocks do not always go to the last free list: what `PruneDecommittedBlock`
  cuts off goes to the list of its size (`MMgc/GCHeap.cpp:1622-1626`, `MMgc/GCHeap.cpp:1838-1857`). The
  invariant that holds is that committed blocks are in the list of their size and no
  committed block comes after a larger block of any kind.
- Merging a block into a committed free predecessor forgets the block's own dirty flag
  (`MMgc/GCHeap.cpp:1806-1807`). It is harmless: the only block that can be dirty there is
  alignment slop, and it lies inside the freshly committed first block of its run.
- `block->baseAddr < region->baseAddr` in `Decommit` (`MMgc/GCHeap.cpp:847-852`) never
  holds, since the region was found from that address. The model asserts nothing about it.
- The comment on `ObtainQuickListBudget` says its loop is guaranteed to terminate
  (`MMgc/GC.cpp:943-945`). It is, exactly when what the victims can give back suffices; the
  float allocator is no victim, so what it holds counts against that, and freeing enough
  floats one after the other gets the loop to go round for ever.
- `GC::Finalize` does not reset `m_finalized` of the float allocator (`MMgc/GC.cpp:1051-1057`).
  From the second collection on a block that this allocator gets before it is finalized counts
  as finalized already (`MMgc/GCAlloc.cpp:248-251`), and a float that is boxed in it, by a
  presweep callback or a finalizer, is swept while it is in use.
- `AllocBlock` looks for runs only around decommitted blocks in the lists from that of the
  size asked for on. What `PruneDecommittedBlock` cut off can stand in an earlier list, so NULL
  may be returned although there is a run with room.
- An expansion leaves less than was asked for when the `HeapBlock` array stays where it is, the
  request fills whole increments, and a page is taken for region records.
- `GCHashtable` with a capacity of 1 or 2 fills up completely, after which a search for an
  absent key does not end; at 4 and above an empty slot always remains.
- `put` and `remove` of `GCHashtable` take NULL for a key and break the table; `remove` may write
  a tombstone into the shared empty table (`MMgc/GCHashtable-inlines.h:212-217`).
- Entries in the block that holds a relocated `HeapBlock` array are not cleared when the heap
  grows (`MMgc/GCHeap.cpp:2190-2224`). The layout holds exactly if size, previous size and
  address of these entries arrive zeroed; their flags do not matter.
- `MMgc/GCAlloc.h:266-268` says no proof is known that the shifted bit index is unique for
  every item of a block; `IndexArithmetic.BitsIndexInjective` is one.

## Model

| member | source | states |
|---|---|---|
| MarkInvariants.TracePointerKeeps | MMgc/GC.cpp:2760-2794 | Tracing a pointer, whether or not the push succeeds, keeps the marking invariant: queued objects are exactly those on the stacks, a black object has no white child outside a pending chunk, a split object is shielded. |
| MarkInvariants.TraceWordsKeeps | MMgc/GC.cpp:2535-2590 | The same for a whole range of words, after which none of them is white unless the stack overflowed. |
| MarkInvariants.TraceObjectKeeps | MMgc/GC.cpp:2473-2517 | Scanning an object blackens it and keeps the invariant, the object no longer being exempt. |
| MarkInvariants.SplitObjectKeeps | MMgc/GC.cpp:2295-2332 | Splitting a large object leaves its tail as a pending chunk below which its white children are allowed, with a protector under it. |
| MarkInvariants.MarkChunkKeeps | MMgc/GC.cpp:2403-2462 | Processing a chunk traces its head and pushes the rest back, keeping the invariant. |
| MarkInvariants.MarkStackMemoryKeeps | MMgc/GC.cpp:1469-1492 | The same for an area of the program stack. |
| MarkInvariants.ProtectorKeeps | MMgc/GC.cpp:2403-2424 | Popping a protector unshields the object only when no chunk of it is pending. |
| MarkInvariants.MarkTopKeeps | MMgc/GC.cpp:1402-1440 | One mark step, whatever is on top of the stack, keeps the invariant. |
| MutatorSteps.TrapKeeps | MMgc/GC.cpp:3112-3137 | A barrier hit keeps the invariant with the barrier stack full or not and the mark stack full or not, and leaves the container not black. |
| MutatorSteps.TrapShieldedIff | MMgc/GC.cpp:3112-3137 | Split objects stay shielded across a barrier hit exactly when the barrier stack takes the object, which it does as long as its first segment is not full, or no chunk of it is pending. |
| MutatorSteps.StoreKeeps | MMgc/GC.h:1089-1104 | A store behind the barrier keeps the invariant. |
| MutatorSteps.RearrangeKeeps | MMgc/GC.cpp:3150-3211 | Moving or reversing the pointers of one object keeps the invariant without the barrier when the object is small enough never to be split. |
| MutatorSteps.MovedWithinWords | MMgc/GC.cpp:3150-3185 | What movePointersWithinBlock leaves in the object was there before or is NULL. |
| MutatorSteps.CopyWordsKeeps | MMgc/GC.cpp:3139-3148 | Copying pointers between objects keeps the invariant. |
| MutatorSteps.AllocateKeeps | MMgc/GCAlloc.cpp:441-490 | A new object is white and breaks nothing. |
| MutatorSteps.FreeRefusedWhileSplit | MMgc/GCLargeAlloc.cpp:159-178 | An object with a pending chunk is never released while barrier pushes succeed. |
| MutatorSteps.RefusedFreeKeeps | MMgc/GCLargeAlloc.cpp:159-178 | A refused free keeps the invariant. |
| MutatorSteps.ReleaseKeeps | MMgc/GCAlloc.cpp:578-656 | Releasing an object nothing refers to any more keeps the invariant. |
| MutatorSteps.TransferKeeps | MMgc/GC.cpp:3010-3023 | Moving segments of the barrier stack to the mark stack keeps the invariant. |
| MutatorSteps.FlushBarrierKeeps | MMgc/GC.cpp:3025-3039 | Flushing the barrier stack keeps the invariant, with the overflow recorded when not all fits. |
| MarkRuns.StepKeepsInv | MMgc/GC.cpp:2900-2976 | Every step of marker or program keeps the invariant. |
| MarkRuns.RunKeepsInv | MMgc/GC.cpp:1982-2028 | Every state of every run satisfies the marking invariant. |
| MarkRuns.RunShieldsSplitObjects | MMgc/GCLargeAlloc.cpp:159-178 | In every run a free is refused while a chunk of the object is pending, unless a barrier push failed for a split object. |
| MarkRuns.ReachedIsRun | MMgc/GC.cpp:2822-2898 | What is reached from a fresh start by marker and program steps is the last state of a run. |
| SplitTracing.HandedIsTraced | MMgc/GC.cpp:2403-2590 | The locations a mark step is said to hand over are those whose words it traces, in that order, for whole objects, heads and chunks. |
| SplitTracing.SplitTracedOnce | MMgc/GC.cpp:2295-2462 | In any run, from the pop of a large object to the pop of its protector, whatever else happens in between: its words from the first to the m-th are traced, each once and in order, and m is their number exactly if every chunk could be pushed. |
| SplitTracing.SmallTracedOnce | MMgc/GC.cpp:2473-2517 | A small object is traced whole in the step that takes it off the stack, and leaves no chunk. |
| ShieldLoss.ShieldLost | MMgc/GC.cpp:3112-3137 | A run in which the first segment of the barrier stack has been filled, a non-NULL store hits a split object, no second segment can be had, and a free would then release the object with a pending chunk. |
| MarkCompleteness.StepClosed | MMgc/GC.cpp:2760-2794 | The objects reachable at the start, with those allocated since, are closed under every step. |
| MarkCompleteness.UnreachableStaysWhite | MMgc/GC.cpp:1982-2028 | An object unreachable when marking starts is neither black nor grey in any later state of any run. |
| MarkProgress.MarkTopDecreases | MMgc/GC.cpp:1402-1413 | Every mark step decreases a measure, so emptying the stack ends. |
| MarkFinish.MarkTopProgress | MMgc/GC.cpp:2110-2210 | A mark step keeps the account by which an overflowing recovery pass must blacken at least one more object. |
| MarkFinish.RemarkProgress | MMgc/GC.cpp:2110-2210 | So does marking an object again during recovery. |
| MarkFinish.FinishedMarksReachable | MMgc/GC.cpp:2900-2976 | When marking is finished every reachable object is black and none is grey. |
| Marker.PassBlackens | MMgc/GC.cpp:2150-2203 | A recovery pass that overflowed again has blackened at least one object. |
| Marker.GC.TracePointer | MMgc/GC.cpp:2760-2794 | In place, the step TracePointer. |
| Marker.GC.MarkItem | MMgc/GC.cpp:2473-2590 | In place, the step MarkItem, including splitting. |
| Marker.GC.MarkChunk | MMgc/GC.cpp:2403-2462 | In place, the step MarkChunk. |
| Marker.GC.MarkTop | MMgc/GC.cpp:1402-1440 | In place, the step MarkTop. |
| Marker.GC.Mark | MMgc/GC.cpp:1402-1413 | Empties the mark stack; what was owed is covered unless it overflowed. |
| Marker.GC.MarkSome | MMgc/GC.cpp:1415-1439 | An arbitrary number of mark steps keeps the invariant and is a stretch of a run. |
| Marker.GC.CheckBarrierWork | MMgc/GC.cpp:3010-3023 | In place, a transfer of barrier segments, a step of a run. |
| Marker.GC.FlushBarrierWork | MMgc/GC.cpp:3025-3039 | In place, the flush. |
| Marker.GC.WriteBarrierHit | MMgc/GC.cpp:3112-3137 | In place, the trap. |
| Marker.GC.WriteBarrier | MMgc/GC.h:1089-1104 | In place, a store behind the barrier. |
| Marker.GC.MovePointersWithinBlock | MMgc/GC.cpp:3150-3185 | In place: the barrier, the move and the zeroing of what was emptied, in every phase. |
| Marker.GC.ReversePointersWithinBlock | MMgc/GC.cpp:3187-3211 | In place: the barrier and the swapping loop reverse the pointers, in every phase. |
| Marker.GC.MovePointers | MMgc/GC.cpp:3139-3148 | In place: the barrier and the move between objects or within one, in every phase. |
| Marker.GC.MarkNonstackRoots | MMgc/GC.cpp:2047-2108 | No word of any root is white afterwards, unless the stack overflowed. |
| Marker.GC.HandleMarkStackOverflow | MMgc/GC.cpp:2150-2203 | A pass that does not overflow leaves no black object with a white child; one that does blackens more. |
| Marker.GC.RecoverFully | MMgc/GC.cpp:2919-2953 | The recovery loop ends with both stacks empty and no overflow. |
| Marker.GC.StartIncrementalMark | MMgc/GC.cpp:1982-2028 | From a heap without marks, tracing the roots and the first time slice are the first stretch of a run, and the invariant holds. |
| Marker.GC.IncrementalMark | MMgc/GC.cpp:2822-2898 | Any time slices are a stretch of a run and keep the invariant. |
| Marker.GC.FinishIncrementalMark | MMgc/GC.cpp:2900-2976 | Marking ends finished, having blackened only what was live. |
| Marker.GC.FinishRun | MMgc/GC.cpp:2900-2976 | After any run: both stacks are empty, every reachable object is marked, and no object unreachable at the start is. |
| HeapLayout.SplitKeepsTiled | MMgc/GCHeap.cpp:1629-1643 | Splitting keeps the heads tiling the array, boundary tags, addresses and empty interiors. |
| HeapLayout.AbsorbKeepsTiled | MMgc/GCHeap.cpp:1796-1807 | So does merging, with the tag behind the merged block left to be updated. |
| HeapLayout.RelinkKeepsTiled | MMgc/GCHeap.cpp:1832-1834 | Updating that tag makes the layout whole. |
| HeapLayout.TilesCover | MMgc/GCHeap.cpp:1194-1243 | Walking from any head or sentinel covers the rest of the array exactly. |
| HeapLayout.Owner | MMgc/GCHeap.cpp:1274-1295 | Every entry that is no sentinel belongs to exactly one block. |
| FreeLists.ListIndexMonotone | MMgc/GCHeap-inlines.h:406-415 | A larger block never belongs to an earlier list. |
| FreeLists.SmallListsUniform | MMgc/GCHeap-inlines.h:406-415 | Below kUniqueThreshold a list holds blocks of one size. |
| FreeLists.UnlinkKeepsRings | MMgc/GCHeap-inlines.h:398-404 | RemoveFromList takes the block out of its ring and leaves every other list as it was. |
| FreeLists.InsertKeepsRings | MMgc/GCHeap.cpp:1772-1782 | Inserting puts it before the given point, and every block is on at most one list, once. |
| HeapState.AttachKeeps | MMgc/GCHeap.cpp:1838-1857 | A block put where it belongs keeps the lists sorted and no two adjacent free blocks alike. |
| HeapSteps.MergeKeeps | MMgc/GCHeap.cpp:1784-1835 | Merging two blocks keeps the whole heap invariant and every block in use. |
| HeapSteps.CommitKeeps | MMgc/GCHeap.cpp:1645-1660 | So does committing. |
| HeapSteps.CommitCounts | MMgc/GCHeap.cpp:1645-1660 | Committing a range leaves that many fewer uncommitted pages as were uncommitted in it. |
| HeapSteps.WriteKeeps | MMgc/GCHeap.cpp:541-637 | What the owner of a block writes concerns no free block. |
| Alignment.Slop | MMgc/GCHeap.cpp:1311-1319 | The slop is smaller than the alignment and reaches a multiple of it. |
| Alignment.SlopAfter | MMgc/GCHeap.cpp:1311-1319 | Starting inside the slop leaves the rest of it. |
| BlockManager.GCHeap.constructor | MMgc/GCHeap-inlines.h:360-367 | The empty heap satisfies the invariant. |
| BlockManager.GCHeap.RemoveFromList | MMgc/GCHeap-inlines.h:398-404 | In place, the removal from the ring. |
| BlockManager.GCHeap.InsertBefore | MMgc/GCHeap.cpp:1772-1782 | In place, the insertion. |
| BlockManager.GCHeap.FindPlace | MMgc/GCHeap.cpp:1838-1855 | The place found keeps the list sorted. |
| BlockManager.GCHeap.AddToFreeList | MMgc/GCHeap.cpp:1784-1858 | The block becomes free, merged with its free neighbours of the same commit state; no other block in use changes, and the whole invariant, clean means zero included, is kept. |
| BlockManager.GCHeap.FreeBlock | MMgc/GCHeap.cpp:1860-1871 | Exactly this block goes out of use. |
| BlockManager.GCHeap.PruneDecommittedBlock | MMgc/GCHeap.cpp:1614-1627 | The block keeps exactly what the request and the minimum commit size call for; the rest is free and decommitted. |
| BlockManager.GCHeap.CreateCommittedBlock | MMgc/GCHeap.cpp:1534-1605 | A run of free blocks becomes one committed block large enough, touching no page in use, honest about being dirty; the count of decommitted pages stays exact without sloppy commit. |
| BlockManager.GCHeap.AllocCommittedBlock | MMgc/GCHeap.cpp:1490-1529 | The aligned piece of the size asked for is cut out, both ends go back, and memory not reported dirty is zero. |
| RunSearch.NoRoomInside | MMgc/GCHeap.cpp:1439-1472 | If a run has no room for an aligned piece counted from its start, no later start in it has. |
| RunSearch.SlopSafeCreated | MMgc/GCHeap.cpp:1447-1473 | Slop returned next to a clean committed free predecessor holds only zeros. |
| RunSearch.BestFit | MMgc/GCHeap.cpp:1418-1437 | The first hit of the segregated search is a smallest committed block that is large enough. |
| RunSearch.NoneSuitable | MMgc/GCHeap.cpp:1418-1487 | After a search of all lists no committed block is suitable and, if no run was found, the free blocks around each decommitted one in the lists from that of the size on have no room, small ones included. |
| RunSearch.NotHopeless | MMgc/GCHeap.cpp:1439-1472 | Conversely no run with room goes through a block around which the search found none. |
| RunSearch.LargeLookedAt | MMgc/GCHeap.cpp:1418-1421 | A free block as large as the request is always in a list that is searched. |
| MissedRun.RunIsMissed | MMgc/GCHeap.cpp:1418-1487 | A valid heap whose free pages lie in one run with room, and yet a request gets NULL. |
| BlockManager.GCHeap.FindLeft | MMgc/GCHeap.cpp:1447-1459 | Walking left stops with room whose slop lies in the first block, or with no free block before. |
| BlockManager.GCHeap.FindRun | MMgc/GCHeap.cpp:1439-1472 | A run found consists of free blocks and has room; when none is found the whole free run around the block has none. |
| BlockManager.GCHeap.Search | MMgc/GCHeap.cpp:1418-1476 | What the list walk finds, and that it has passed over nothing suitable. |
| BlockManager.GCHeap.AllocBlock | MMgc/GCHeap.cpp:1418-1488 | The result is aligned, of the size asked for, newly in use, taken from a smallest suitable committed block if there is one; NULL is returned exactly if there is no such block and, with virtual memory, around no decommitted block in a list from that of the size on there is a run with room; no other block in use changes; memory need not be cleared only if it is zero. |
| BlockManager.GCHeap.AllocHelper | MMgc/GCHeap.cpp:639-671 | Searches, expands the heap if it may, and searches again. After an expansion a request without alignment fails only in the one case in which the new pages do not suffice. |
| BlockManager.GCHeap.Alloc | MMgc/GCHeap.cpp:541-637 | The same, and with kZero the memory returned is zero though the memset is skipped for clean blocks. |
| Compaction.RemovedTiled | MMgc/GCHeap.cpp:1088-1154 | With a sentinel added, removed or neither, the array without the block is laid out right. |
| Compaction.RemovedRings | MMgc/GCHeap.cpp:1156-1175 | Every free list holds the same remaining blocks in the same order. |
| Compaction.RemovedOk | MMgc/GCHeap.cpp:1088-1192 | The whole heap invariant survives the compaction. |
| Compaction.RemovedUse | MMgc/GCHeap.cpp:1088-1192 | What is in use stays in use with the same pages. |
| Compaction.LoweredIsSlide | MMgc/GCHeap.cpp:1156-1175 | Adjusting a pointer past the block by the block's size and the sentinel is exactly where its entry went. |
| Regions.BlockOfAddress | MMgc/GCHeap.cpp:1260-1272 | BaseAddrToBlock finds the entry of the page. |
| Regions.RemovedMapped | MMgc/GCHeap.cpp:1177-1184 | Every surviving region's blockId names the entry of its first page. |
| BlockManager.GCHeap.AddrToRegion | MMgc/GCHeap.cpp:1245-1257 | Finds a region that holds the address, if there is one. |
| BlockManager.GCHeap.FixLinks | MMgc/GCHeap.cpp:1156-1175 | After the loops all links are those of the moved entries. |
| BlockManager.GCHeap.RemoveBlock | MMgc/GCHeap.cpp:1088-1192 | The state afterwards is the old one without the block and its region. |
| Decommitting.RemovedResident | MMgc/GCHeap.cpp:838-862 | Removing a block removes exactly its committed pages. |
| BlockManager.GCHeap.FindBack | MMgc/GCHeap.cpp:914-923 | The place at the back of the bus keeps the committed blocks of the last list sorted. |
| BlockManager.GCHeap.DecommitBlock | MMgc/GCHeap.cpp:864-924 | The block is decommitted, merged and filed; nothing in use changes and the count stays exact. |
| BlockManager.GCHeap.DecommitStep | MMgc/GCHeap.cpp:829-925 | One committed free block is decommitted or its region released, at most the amount left to do. |
| BlockManager.GCHeap.Decommit | MMgc/GCHeap.cpp:754-949 | Terminates despite restarting; touches only free blocks; with virtual memory gives back at most the target, and less only if no committed free block is left; keeps the invariant and the regions. |
| Growth.GrownOk | MMgc/GCHeap.cpp:2131-2224 | The new pages are one block appended to the layout, contiguous or behind a sentinel. |
| Growth.GrownMapped | MMgc/GCHeap.cpp:1969-2129 | However the pages are acquired, every page lies in one region that names its entry. |
| Growth.NewBlocks | MMgc/GCHeap.cpp:2170-2224 | The new entries, written in the order of the code, are the split, cleared and terminated block; inside the array's own block what the memory held stays. |
| Growth.LayoutIff | MMgc/GCHeap.cpp:2190-2224 | The array is laid out right afterwards exactly if the entries inside its own block arrived empty. |
| BlockManager.GCHeap.ExpandHeap | MMgc/GCHeap.cpp:2131-2260 | Keeps the invariant; the new pages are where they were acquired, the regions are those of before with commit tops and ids as written, still mapped, and whole without virtual memory; only the array's pages and the region page come into use, only the old array goes out of use. |
| Expansion.ExpansionSize | MMgc/GCHeap.cpp:1936-1965 | The loop that fits the array into the pages asked for settles: the array has room for every entry, and if it moves the request, the array and the extra pages all fit. |
| Expansion.LeavesRoom | MMgc/GCHeap.cpp:1936-2213 | What is left of the new pages is as much as was asked for exactly unless the array stays, the request fills whole increments and a page goes to region records. |
| Expansion.FreeStretch | MMgc/GCHeap.cpp:1784-1858 | Committed pages that no block in use has lie in one free block. |
| BlockManager.GCHeap.ExpandFor | MMgc/GCHeap.cpp:1914-2260 | An expansion for a request, whatever lies behind an array that stays where it is: the array fits its pages, and a free committed block has room for the request unless the exceptional case holds. |
| Sweeping.CoalesceQuickList | MMgc/GCAlloc.cpp:728-775 | Returns every item of the quick list to its block, changes the status of none, gives back the budget beyond one block, and releases exactly the wholly free blocks that come no earlier in the list of all blocks than the first free one. |
| Sweeping.SweepGuts | MMgc/GCAlloc.cpp:934-962 | Marked and queued items lose their marks, unmarked ones join the free list. |
| Sweeping.Sweep | MMgc/GCAlloc.cpp:979-998 | Sweeping a block turns its garbage, and nothing else, into free items, clears its marks, and files or frees the block. |
| Sweeping.FillQuickList | MMgc/GCAlloc.cpp:557-575 | The quick list is empty, so the budget is always there and the block cannot be flushed from under it. |
| Sweeping.AllocFromQuickList | MMgc/GCAlloc.cpp:441-490 | The item was not alive and is the only one that becomes so. |
| Sweeping.FindFree | MMgc/GCAlloc.cpp:495-523 | Until a block has free items, sweeps blocks one at a time or gets a new one, which counts as finalized as the code says; nothing that is alive changes. |
| Sweeping.AllocSlow | MMgc/GCAlloc.cpp:495-555 | The same for slow allocation, which then takes one item; while collecting the item is marked exactly if its block is still to be finalized. |
| Sweeping.Alloc | MMgc/GCAlloc.cpp:396-439 | Exactly one item comes alive, or none for a caller that can fail, by sweeps, new blocks and one take. |
| Sweeping.Free | MMgc/GCAlloc.cpp:578-694 | Exactly the item goes out of use, unless the free is refused; if its block awaited a sweep, it is swept as well. |
| Sweeping.NothingDied | MMgc/GCAlloc.cpp:886-908 | numMarkedItems == itemsPerBlock - numFree holds exactly when nothing in the block died. |
| Sweeping.FinalizationPass | MMgc/GCAlloc.cpp:804-912 | Exactly the marked items stay alive; nothing free comes into use; the blocks dropped held no marked item. |
| Sweeping.LazySweepPass | MMgc/GCAlloc.cpp:918-930 | The same, with every block awaiting its sweep. |
| Sweeping.SweepNeedsSweeping | MMgc/GCAlloc.cpp:1000-1065 | Sweeps block after block; afterwards none awaits sweeping, no item is marked, and the same items are alive. |
| Sweeping.ClearMarks | MMgc/GCAlloc.cpp:1011-1046 | No marks are left and the same items are alive. |
| Sweeping.GetAllocStats | MMgc/GCAlloc.cpp:1209-1221 | Counts exactly the items that are not free. |
| SweepRuns.RunKeepsInv | MMgc/GC.cpp:1178-1311 | In every state of every run over any number of collections: blocks await a sweep only after finalization, marks are left only there, and all blocks count as finalized or none does, but for stale m_finalized. |
| SweepRuns.MarkingStartsClean | MMgc/GC.cpp:2005-2013 | Whenever marking starts no item is marked, queued or dead (CheckMarks). |
| SweepRuns.LiveExactly | MMgc/GCAlloc.cpp:396-1000 | At any time exactly those items are alive that were handed out, not given back since, and found marked by every finalization since. |
| SweepRuns.LiveSince | MMgc/GCAlloc.cpp:804-1000 | From a finalization on, through any allocations, frees and lazy sweeps: what was marked then, with what was allocated since and without what was freed since. |
| SweepRuns.ReclaimedOnce | MMgc/GCAlloc.cpp:804-1000 | From a finalization to the end of its sweeping every item that was in use and unmarked is reclaimed in exactly one step, until which it never comes alive; no other item is reclaimed. |
| SweepRuns.BornSurvives | MMgc/GCAlloc.cpp:541-550 | An item handed out while collecting survives the finalization of its allocator exactly if its block counts as still to be finalized or the marker finds it; always if m_finalized was reset. |
| SweepRuns.FloatLost | MMgc/GC.cpp:1035-1058 | A run in which a float in use becomes garbage, since m_finalized of the float allocator is left set. |
| QuickLists.Collector.QuickListsBounded | MMgc/GC.cpp:237-253 | The quick lists together never hold more bytes than the total budget. |
| QuickLists.Collector.FlushVictims | MMgc/GC.cpp:950-964 | The loop: if no more than the request is obtainable it is still going round after any number of iterations; otherwise one round of the victims suffices. |
| QuickLists.Collector.ObtainQuickListBudget | MMgc/GC.cpp:943-968 | Ends exactly when more than the request is obtainable; budget left and budget obtained always add up to the total. |
| QuickLists.AlwaysObtainable | MMgc/GC.cpp:943-945 | It is when the float allocator holds only its initial budget. |
| QuickLists.FloatsHoldTooMuch | MMgc/GC.cpp:943-968 | From any settled state, one with all budgets in order in which the float allocator has obtained all it can and not enough is left for one more. |
| QuickLists.Collector.FreeFloats | MMgc/GCAlloc.cpp:578-694 | Freeing floats whose bytes reach the total budget, one after the other, always gets stuck in that loop. |
| QuickLists.Collector.Alloc | MMgc/GCAlloc.cpp:396-555 | One item of one allocator comes alive and the budget adds up, in any phase and whether or not the allocator is finalized. |
| QuickLists.Collector.Free | MMgc/GCAlloc.cpp:578-694 | One item of one allocator goes, whatever quick lists have to be flushed for the budget. |
| QuickLists.Collector.StartMarking | MMgc/GC.cpp:1982-2028 | Sweeps what is left; then no item of any allocator is marked and the same items are alive. |
| QuickLists.Collector.MarkItem | MMgc/GC.cpp:2473-2517 | Marks one item; all others keep their status. |
| QuickLists.Collector.BeginSweep | MMgc/GC.cpp:1195-1203 | Flushes the quick lists before it sets collecting; no item changes its status. |
| QuickLists.Collector.FinalizeOne | MMgc/GCAlloc.cpp:795-802 | In one allocator exactly the marked items stay alive; the others may allocate in between. |
| QuickLists.Collector.Finalize | MMgc/GC.cpp:1035-1046 | In each allocator exactly the marked items stay alive. |
| QuickLists.Collector.EndSweep | MMgc/GC.cpp:1048-1058 | finalizedValue flips and m_finalized is reset, but for the float allocator; every allocator is ready for the next cycle. |
| QuickLists.Collector.Sweep | MMgc/GC.cpp:1178-1311 | As a whole: alive afterwards is exactly what was marked. |
| QuickLists.Collector.SweepNeedsSweeping | MMgc/GC.cpp:1060-1085 | In every allocator the same items are alive, and nothing awaits its sweep. |
| IndexArithmetic.MultiplyShift | MMgc/GCAlloc-inlines.h:148-156 | Multiplying and shifting divides every in-block offset exactly, given a large enough power of two. |
| IndexArithmetic.ComputeMultiplyShift | MMgc/GCAlloc.cpp:1114-1126 | The loop finds such a multiplier and shift for every 16-bit divisor, within 13 and 5 bits. |
| IndexArithmetic.IndexOfInterior | MMgc/GCAlloc-inlines.h:74-79 | Any address inside an item leads to its index and back to its start. |
| IndexArithmetic.Log2 | MMgc/GCAlloc.cpp:144-152 | The integer logarithm. |
| IndexArithmetic.BitsIndexInjective | MMgc/GCAlloc-inlines.h:161-168 | No two items of a block share an entry of the bitmap. |
| IndexArithmetic.BitsIndexInside | MMgc/GCAlloc.cpp:168-180 | Every entry is inside the bitmap, and a bitmap kept in the block reaches no item. |
| Probing.ProbesDiffer | MMgc/GCHashtable-inlines.h:155-160 | Two triangular probes less than the table size apart never meet. |
| Probing.ProbesCover | MMgc/GCHashtable-inlines.h:155-160 | The probe sequence visits every slot of a power-of-two table. |
| Probing.EmptySlotRemains | MMgc/GCHashtable-inlines.h:189-200 | The load test leaves an empty slot exactly if the table has at least four. |
| PointerTable.GCHashtable.FullIsSmall | MMgc/GCHashtable-inlines.h:189-200 | Through any puts, removals and rehashes only a table of one or two slots can have no empty slot left. |
| PointerTable.FillUp | MMgc/GCHashtable-inlines.h:46-204 | A table made for one or two keys takes that many; then a search for any other key is still going round after any number of probes. |
| HashSlots.SearchEnds | MMgc/GCHashtable-inlines.h:120-127 | A search either ends within one round or never. |
| HashSlots.CanEndIff | MMgc/GCHashtable-inlines.h:120-127 | It ends exactly if a slot is empty or the key is in the map. |
| HashSlots.SearchFinds | MMgc/GCHashtable-inlines.h:105-128 | The search ends at the key exactly if it is in the map. |
| HashSlots.NullKeyBreaks | MMgc/GCHashtable-inlines.h:132-228 | A value put under NULL, or NULL removed, breaks the slots: an absent key has that value, a tombstone is counted nowhere. |
| PointerTable.GCHashtable.constructor | MMgc/GCHashtable-inlines.h:46-70 | The empty map, for any capacity that is 0 or a power of two. |
| PointerTable.GCHashtable.Clear | MMgc/GCHashtable-inlines.h:91-102 | The empty map, in the shared table. |
| PointerTable.GCHashtable.FindWithin | MMgc/GCHashtable-inlines.h:120-127 | The loop: if no slot ends the search it is still going round after any number of steps; otherwise it ends within a round. |
| PointerTable.GCHashtable.Find | MMgc/GCHashtable-inlines.h:105-128 | Ends, at the slot of the key or the first empty slot on its chain, exactly if a slot is empty or the key is there. |
| PointerTable.GCHashtable.Get | MMgc/GCHashtable.h:74-75 | The value of the key in the map, 0 if it has none, NULL included; never comes back exactly if the table is full and the key absent. |
| PointerTable.GCHashtable.Count | MMgc/GCHashtable.h:81 | The size of the map, except for the shared empty table. |
| PointerTable.GCHashtable.FindForPut | MMgc/GCHashtable-inlines.h:144-177 | Also the first tombstone on the way, for any key but DELETED. |
| PointerTable.GCHashtable.Put | MMgc/GCHashtable-inlines.h:132-204 | The map with the key bound, through tombstone reuse and growth; the shared table is never written. With NULL the map stays the same, the value is in a slot without a key, and numValues counts a key too many. |
| PointerTable.GCHashtable.Remove | MMgc/GCHashtable-inlines.h:207-228 | The map without the key, and the key's value; without rehashing only a tombstone is written. With NULL a stray tombstone breaks the table, be it the shared one, unless a rehash follows at once. |
| PointerTable.GCHashtable.Prune | MMgc/GCHashtable-inlines.h:231-242 | The same map. |
| PointerTable.GCHashtable.Grow | MMgc/GCHashtable-inlines.h:245-305 | The same map in a larger, smaller or equal table with room and no tombstones. |
| PointerTable.GCHashtable.NextIndex | MMgc/GCHashtable-inlines.h:308-317 | The next index that holds a key. |
| PointerTable.Iterator.NextKey | MMgc/GCHashtable.h:109-116 | A key of the map not given before; NULL only when all that are left were given. |
| PointerTable.Iterator.RemoveMeanwhile | MMgc/GCHashtable-inlines.h:207-228 | Removing a key without rehashing does not disturb the iteration; only NULL breaks the table. |
| FixedBlocks.AllocKeeps | MMgc/FixedAlloc-inlines.h:148-237 | The item handed out was in nobody's hands; lists, counters and nextItem stay right. |
| FixedBlocks.FreeKeeps | MMgc/FixedAlloc-inlines.h:240-279 | A freed item is free exactly once, and a block goes with its last item. |
| FixedBlocks.ChunkKeeps | MMgc/FixedAlloc.cpp:181-237 | A new block is added empty. |
| FixedAllocator.FixedAlloc.Alloc | MMgc/FixedAlloc-inlines.h:148-237 | In place: a new item, or none for a caller that can fail. |
| FixedAllocator.FixedAlloc.Free | MMgc/FixedAlloc-inlines.h:240-279 | In place, the steps of Free. |
| FixedAllocSafe.SameOutcome | MMgc/FixedAlloc-inlines.h:148-279 | No step under the lock changes what the critical section comes to. |
| FixedAllocSafe.StepKeeps | MMgc/FixedAlloc.cpp:181-286 | Every step of every thread keeps the invariant, also where the lock is dropped and taken again. |
| FixedAllocSafe.RunInv | MMgc/FixedAlloc.cpp:181-286 | It holds in every state of every interleaving, in which any thread may free an item, whoever allocated it. |
| FixedAllocSafe.FreeLockIsGood | MMgc/FixedAlloc.cpp:181-286 | Whenever the lock is free m_firstFree lists exactly the blocks that are not full, every item is exactly one of allocated, free or never handed out, and no empty block is kept. |
| FixedAllocSafe.OneHolder | MMgc/FixedAlloc-inlines.h:120-146 | Two threads are never in critical sections at once. |
| FixedAllocSafe.HandedOutOnce | MMgc/FixedAlloc-inlines.h:148-237 | An item is handed out only while nobody has it, and only a caller that can fail gets none. |
| FixedAllocSafe.KeptUntilFreed | MMgc/FixedAlloc-inlines.h:131-146 | An item that is in use stays so until some thread frees that very item, so it is freed between any two times it is handed out. |

## Left out

- The operating system: reserving, committing and releasing memory are nondeterministic, and
  give ranges disjoint from those in use; decommitting succeeds.
- Clocks, policy and limits: a time slice is an arbitrary number of mark steps, the target of
  `Decommit` and whether the heap may grow are parameters, OOM notification and aborting are
  not modelled.
- Conservative pointer recognition, the page map and interior pointers: an object is a
  sequence of words that are addresses of objects or NULL; words are 8 bytes, so the split
  threshold is 246 words and a segment of a mark stack has 510.
- `GCMarkStack` is a bounded stack whose pushes may fail once there is room for less than a
  protector, a chunk and an object (the barrier stack: once a segment is full); how many
  segments it keeps in reserve is arbitrary.
- The exact-tracing cursor and recursion control; presweep callbacks, weak references and
  finalizers' effects other than allocating.
- The reserve counts, `numAlloc` and statistics of the block manager, heap limits, the Mac-only
  path and poisoning.
- Addresses of `HeapBlock`s are indices, so rebasing pointers after the array moved is the
  identity. Addresses are in pages.
- Unsigned wrap-around: sizes, counters and the table size are unbounded; masking with the
  table size less one is taken as the remainder by a power of two.
- `GCAlloc` objects are records in a sequence of their collector, and their blocks records
  in a map, so aliasing between them is not captured; likewise the blocks of `FixedAlloc`.
- Eager sweeping (`MMgc/GC.cpp:1294-1298`), which is `SweepNeedsSweeping` right after `Sweep`.
- `m_numBlocks` of `FixedAlloc`, which is raised before the block is obtained.
- `GCLargeAlloc::Finalize` and `ClearMarks`: one pass over a list, which frees the large blocks
  without a mark and clears the marks of the others.
- String keys of `GCHashtable`: the map is over pointer keys, for any hash function.
- MutatorSteps.ReleaseKeeps: requires that nothing refers to the object, where explicit
  deletion leaves it to the program not to use a dangling pointer.
- MarkRuns.StepKeepsInv: the frees among the steps leave no dangling pointer behind.
- MarkRuns.RunKeepsInv: the frees in a run leave no dangling pointer behind.
- MarkRuns.ReachedIsRun: as for RunKeepsInv, the frees leave no dangling pointer behind.
- SplitTracing.SplitTracedOnce: a barrier hit on the object itself is assumed to find room on
  the barrier stack; otherwise the object is scanned again on top of its own chunk (see
  ShieldLoss.ShieldLost).
- Marker.GC.MovePointersWithinBlock: memmove and memset are one assignment each.
- Marker.GC.MovePointers: memmove is one assignment.
- Marker.GC.MarkNonstackRoots: a large root is traced at once where the code splits it into
  chunks below a root protector.
- Marker.GC.StartIncrementalMark: the heap has been swept before; the sweep it begins with is
  QuickLists.Collector.StartMarking.
- BlockManager.GCHeap.Commit: with sloppy commit the count of decommitted pages is only
  bounded from above by the true number, since pages committed before are subtracted again.
- BlockManager.GCHeap.AllocHelper: with virtual memory requests of 256 pages and more go to the
  operating system when the heap has to grow; this large allocation is not part of the model.
- BlockManager.GCHeap.Alloc: the second try after the program has been asked to free memory, and
  the check of limits after a success, are left out.
- BlockManager.GCHeap.ExpandHeap: requires that size, previous size and address of the entries
  inside the array's own block arrive zeroed, without which the layout breaks (see
  Growth.LayoutIff).
- BlockManager.GCHeap.ExpandFor: the first expansion of a heap with an initial size takes the
  array's pages from that size instead of adding them.
- QuickLists.Collector.ObtainQuickListBudget: returns false where the loop of the code goes
  round for ever.
- QuickLists.Collector.Free: returns false where the loop of ObtainQuickListBudget goes round for
  ever.
- PointerTable.GCHashtable.Find: ok is false where the loop of the code goes round for ever; so it is
  for Get, FindForPut, Put and Remove.
