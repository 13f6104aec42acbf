# Protura, verified in Dafny

A model of the hard parts of the Protura kernel, with proofs about every input, every state or every
run of it. `dafny verify dfyconfig.toml` checks the project.

| files | what they model |
|---|---|
| `BuddyMath`, `BuddySpec`, `Buddy` | the buddy page allocator (`src/mm/palloc.c`): page array, free lists and counters updated in place |
| `VmArea` | the kernel virtual-area allocator (`src/mm/vm_area.c`): areas on the heap, the reverse map and the sorted free list |
| `Slab` | the slab allocator (`src/mm/slab.c`) |
| `BlockCache*` | the block cache (`src/block/bcache.c`) with the ATA request queue and its interrupt (`src/drivers/block/ata.c`), as a step system over any number of tasks |
| `InodeTable*` | the inode table (`src/fs/inode_table.c`) as a step system over any number of tasks |
| `Pipe` | pipes (`src/fs/pipe.c`), one method per section under the mutex |
| `Kbuf`, `SeqFile` | the page buffer (`src/kernel/kbuf.c`) and the restartable renderer on top of it (`src/fs/seq_file.c`) |
| `FileIo` | block-mapped file reading and writing (`src/fs/file.c`) |
| `ListHead` | circular intrusive lists (`include/uapi/protura/list.h`) on the heap |
| `RwLock` | the sleeping reader/writer lock (`include/protura/rwlock.h`) as a step system |
| `KTimer` | kernel timers (`src/kernel/ktimer.c`) |
| `Calendar` | `mktime` (`arch/x86/drivers/rtc.c`) |
| `Common` | options, lists without repetition, hash-chain scans, bytes |

How concurrency is modelled. A spinlock section runs with interrupts off on one processor, so it is one
step of the whole system; everything a task does between two sections is another step, and steps of
all tasks interleave freely. A state holds a program counter per task. Some records carry history
fields (who holds which reference, who holds a lock, who is to free an inode): they follow
the steps and decide none of them, and the invariants say that the counters and flags of the code agree with
them. Where the source works on data behind a mutex (pipes, seq files) the sections are methods of a class whose
`Valid()` is the invariant that holds between sections.

Main results:

* Buddy: after any sequence of calls the free blocks are a function of the set of free pages alone, and a
  request fails exactly when no aligned run of that many pages is free.
* Virtual areas: the areas tile the window and the reverse map and sorted list agree with them; allocation is best fit and
  fails exactly when no run of that length is free.
* Block cache: every run, by any number of tasks and with any drive timing, is a run of a flat disk on which
  every read sees the latest write, as long as it takes neither of the two steps listed below; whoever asks for a
  sector gets the block of that sector; when a call of a waiting sync returns, every block that was dirty at the call
  has been on the disk since; and eviction is least recently used first.
* Inode table: whoever asks for an inode gets the one of that name, no inode is reachable twice, none is freed while anybody refers to it, none that is being freed comes
  back, and no sleeper is forgotten, as long as a run does not take the step listed below. A linked inode
  goes with all its changes on the disk in every run in which no inode is changed between being copied to the
  disk and having DIRTY cleared; where one is, the change can be lost. By the time a waiting write or sync returns, the
  inode has been on the disk since, unless another task was between the two at the call.
* Pipes, seq files, files, lists, slabs, locks, timers and dates: each refines the sequence, set or count it stands for.

Where the code does less than its documentation says, the model keeps the code, a lemma gives a state, a run or
an input with which it falls short, and another says exactly when it does not:

* `block_sync_all` with `wait`: a block that was cleaned in the meantime is put at once but stays on the list,
  and is put again (`BlockCacheRuns.AllowedIffKept`; a run from the start: `BlockCacheTraces.EarlyContinueBreaks`).
* `ext2_alloc_block_zero` clears a block and marks it synced without writing it: after an eviction the old contents
  are read (`BlockCacheRuns.AllowedIffKept`; a run from the start: `ClearingLost`; marking it dirty would do:
  `ClearedDirtyIsFlat`).
* `inode_wait_for_valid_or_bad` deallocates a bad inode even when its reference was not the last (`FreedUnderHolder`,
  `InodeTableRuns.AllowedIffKept`; a run from the start: `TwoWaitersBreak`).
* `inode_write_to_disk` lets go of the inode after copying it and only then clears DIRTY, so a change marked in
  between is forgotten (`SavedIff`, `ClearedUpToDateIff`; a run from the start: `ChangeLost`).
* `inode_write_to_disk` with `wait` takes a write that another task has already copied for its own: it then returns
  without what was changed since (`WriteIsDurable`, `SyncIsDurable`; a run: `WriteReturnsEarly`).
* `pipe_poll` tells a writer of a pipe without readers about the hang-up only when the pipe is full (`Poll`,
  `PollThenWrite`).
* The checks for pages of the kernel image go by the address of the page: they cover the image if and only if it
  begins on a page (`KernelCoveredIff`).
* `__pfree_add_pages` looks at a buddy without a bounds check (`LookupsInBoundsIff`).
* `kbuf_read` from a position past what was written, or of a length that overflows, returns what was not written
  (`ReadInsideIff`).
* `fs_file_generic_pread` reads past the end of the file when `off + len` overflows (`ClipExactIff`).
* `timer_add` on a timer that is queued changes its tick where it stands (`ReAddSortedIff`).
* `__seq_file_fill` never ends for an entry that does not fit into one page more than there was (`EndsIff`,
  `OversizedEntry`), and does not call `end` for a list that is empty from the start (`Fill`).
* `timer_cancel` returns while the callback runs if the timer was queued again by then (`CancelledIff`).
* A faulting user copy loses the page it was working on, and on the read side the bytes up to the end of that page; a
  pipe stays a queue if and only if no read of it faults (`ReadSection`, `WriteSection`; a lost byte: `FaultLosesByte`).
* `fs_file_generic_write` takes a length that does not fit in `off_t` for a negative one, writes nothing and reports
  success; its test for such lengths rejects none (`LengthKeptIff`, `Write`).

The comments in `__vm_area_split` and `__vm_area_combine` say that the object with fewer mappings is the
one rewritten; the code gives the larger side to the new object in a split, and in the second merge keeps the smaller
object. The model follows the code.

## Model

| member | source | states |
|---|---|---|
| `BuddyMath.BuddyHalves` | src/mm/palloc.c:79-84 | flipping and clearing bit k of an aligned page number give the two halves of one aligned block of the next order and its head; being buddies is symmetric |
| `BuddyMath.SharedNests` | src/mm/palloc.c:87-118 | aligned blocks that share a page nest |
| `BuddyMath.LookupsInBoundsIff` | src/mm/palloc.c:92-96 | the unchecked buddy lookup stays inside the page array for every block if and only if the page count is a multiple of the largest block |
| `BuddySpec.OrderIffMaximal` | src/mm/palloc.c:87-118 | in a coalesced state a page has order k if and only if it heads a maximal free aligned run of 2^k pages |
| `BuddySpec.Canonical` | src/mm/palloc.c:87-118 | two coalesced states with the same free pages have the same free blocks |
| `BuddySpec.BlockIffRun` | src/mm/palloc.c:207-239 | there is a free block of order at least k if and only if some aligned run of 2^k pages is wholly free |
| `Buddy.MergeRound` | src/mm/palloc.c:91-110 | absorbing a free buddy keeps lists and orders in agreement and coalescing below the new order |
| `Buddy.SplitRound` | src/mm/palloc.c:165-195 | splitting a block of order k into two of order k-1 frees and takes no page and keeps lists, orders and the weighted count |
| `Buddy.ListedIffBlock` | src/mm/palloc.c:165-195 | a list of order at least k is non-empty if and only if there is a free block of order at least k |
| `Buddy.PageBuddyAlloc.constructor` | src/mm/palloc.c:282-313 | the initial state: all pages invalid, nothing free, the invariant holds |
| `Buddy.PageBuddyAlloc.AddPages` | src/mm/palloc.c:87-118 | exactly the given block becomes free, the state stays coalesced, each list holds exactly the heads of its order, and the free count grows by 2^order |
| `Buddy.PageBuddyAlloc.MarkPageFree` | src/mm/palloc.c:120-128 | a page becomes free unless it belongs to the kernel image |
| `Buddy.PageBuddyAlloc.KernelCoveredIff` | src/mm/palloc.c:120-143 | the test by page address covers every address of the kernel image if and only if the image begins on a page |
| `Buddy.PageBuddyAlloc.KernelKept` | src/mm/palloc.c:120-143 | if so, the page of an address in the image is never free and never handed out |
| `Buddy.PageBuddyAlloc.Pfree` | src/mm/palloc.c:130-155 | the last reference gives exactly the block's pages back; an earlier one only drops the count; live blocks stay disjoint from each other and from free pages |
| `Buddy.PageBuddyAlloc.BreakPage` | src/mm/palloc.c:165-195 | the recursive split: some larger block yields a pair one order below, no page changes hands; without one nothing changes |
| `Buddy.PageBuddyAlloc.PallocPhysMultiple` | src/mm/palloc.c:207-239 | fails if and only if no aligned run of 2^order pages is free; otherwise takes exactly one such run, which was nobody's and now has one reference, and keeps the invariant |
| `VmArea.VmAreaAllocator.constructor` | src/mm/vm_area.c:227-243 | one free area covers the window and the invariant holds |
| `VmArea.VmAreaAllocator.FitsIffRun` | src/mm/vm_area.c:191-213 | an area on the list is large enough if and only if that many contiguous pages are free |
| `VmArea.VmAreaAllocator.RunInOneArea` | src/mm/vm_area.c:117-189 | because no two neighbours are free, a run of free pages lies in one area |
| `VmArea.VmAreaAllocator.Add` | src/mm/vm_area.c:53-65 | the area goes into the list, which stays sorted by size and without repetition |
| `VmArea.VmAreaAllocator.Split` | src/mm/vm_area.c:72-115 | a free area becomes two that tile it; the front one has the pages asked for, the rest is listed, and the reverse map follows |
| `VmArea.VmAreaAllocator.CombineOnce` | src/mm/vm_area.c:122-186 | one pass, with its index read before the first merge: it merges only true neighbours, and if it repeats an area has gone |
| `VmArea.VmAreaAllocator.Combine` | src/mm/vm_area.c:117-189 | the loop ends, the area has absorbed its free neighbours and nothing else, and no two neighbours are free |
| `VmArea.VmAreaAllocator.Alloc` | src/mm/vm_area.c:191-213 | returns the front of a smallest area that fits, exactly those pages stop being free, other allocated areas stay put, and it fails if and only if no run of that length is free; areas made are new objects |
| `VmArea.VmAreaAllocator.Free` | src/mm/vm_area.c:215-225 | exactly the area's pages become free, other allocated areas stay put, no area is new, and the invariant is restored |
| `VmArea.Serve` | src/mm/vm_area.c:191-225 | any sequence of requests and returns, by a client that uses only the contracts: the invariant holds throughout, areas that were allocated before stay put, and an area that was got stays where it was, sharing no page with another, until it is given back |
| `VmArea.TakeAndReturn` | src/mm/vm_area.c:191-225 | taking pages and giving them back leaves the same pages free |
| `Slab.LiveApart` | src/mm/slab.c:61-124 | live objects are aligned to their size and never overlap |
| `Slab.AllFreeIff` | src/mm/slab.c:132-145 | the two counters of a frame are equal if and only if none of its slots is live |
| `Slab.NewFrame` | src/mm/slab.c:86-113 | a new frame's slots lie between its header and its end with no room for another, its free list is all of them in increasing order |
| `Slab.SlabAlloc.TryMalloc` | src/mm/slab.c:147-185 | exactly one slot, which was not live, becomes live; none if and only if every free list is empty |
| `Slab.SlabAlloc.AddFrame` | src/mm/slab.c:61-124 | the frame is appended with as many slots as fit, all free, and what is live is unchanged |
| `Slab.SlabAlloc.Malloc` | src/mm/slab.c:223-243 | fails if and only if every slot is taken and no frame is to be had; otherwise returns an object nobody had; a frame is added only when every slot is taken |
| `Slab.SlabAlloc.Oom` | src/mm/slab.c:132-145 | releases exactly the frames without a live object and changes nothing that is live |
| `Slab.SlabAlloc.Place` | src/mm/slab.c:187-199 | the walk finds where the slot belongs in the sorted list, and calls it a double free if and only if it is on the list |
| `Slab.SlabAlloc.Free` | src/mm/slab.c:187-263 | a live object becomes free and nothing else changes; if it was the last of its frame, exactly the frames without a live object are released, else none; a free slot is left alone; an address in no frame panics |
| `BlockCacheInv.FindExact` | src/block/bcache.c:162-175 | the lookup finds the cached block of a sector if and only if there is one |
| `BlockCacheIndex.ShrinkKeeps` | src/block/bcache.c:96-148 | eviction of any part of the LRU list keeps the invariant and the contents of every sector |
| `BlockCacheIndex.UncacheLogical` | src/block/bcache.c:50-58 | removing an unreferenced clean block changes the contents of no sector |
| `BlockCacheSync.InsertKeeps` | src/block/bcache.c:204-234 | after the lock was dropped for allocation the new block goes in only if no other task has cached the sector since |
| `BlockCacheClient.ClientStep` | include/protura/block/bcache.h:90-136 | a client under the block lock is the only one to change a sector, and keeps the invariant |
| `BlockCacheCollect.Collected` | src/block/bcache.c:363-378 | the scan lists exactly the valid dirty cached blocks, each once |
| `BlockCacheCollect.SyncStep` | src/block/bcache.c:358-409 | every allowed step of a sync keeps the invariant and the contents of every sector |
| `BlockCacheDrive.InterruptKeeps` | src/drivers/block/ata.c:199-248 | the interrupt moves data between block and disk, completes requests and starts the next, keeping the invariant, every sector's contents and a drive that does not stall |
| `BlockCacheRuns.StepKeeps` | src/block/bcache.c:96-409 | every allowed step keeps the invariant and is a step of the flat disk |
| `BlockCacheRuns.RunIsFlat` | src/block/bcache.c:96-409 | every run, from any good state, is a run of a flat disk: reads return what was last written and nothing but client writes changes contents |
| `BlockCacheRuns.CacheIsDisk` | include/protura/block/bcache.h:17-49 | from an empty cache, reads and writes behave as on the disk itself |
| `BlockCacheRuns.Reachable` | include/protura/block/bcache.h:17-49 | in every reachable state one cached block per sector in its chain, the size is right, a lock has one holder, VALID and not DIRTY means equal to the disk, `block_get` gives a valid block, and references held are counted |
| `BlockCacheCalls.GetsWhatItAskedFor` | src/block/bcache.c:177-256 | in every run from the empty cache, by the calls read off the steps alone: a task that called `block_get` is still at it, also through a shrink, or has the block of the sector it asked for; and it has a block in no other way than asking or being given one |
| `BlockCacheCalls.EventsAreOfAsked` | include/protura/block/bcache.h:174-178 | what a client reads is the contents of the sector it asked for, and what it writes or clears is written to that sector |
| `BlockCacheCalls.CachedIsImmediate` | src/block/bcache.c:177-256 | a cached sector is found at once, and a valid block is returned without waiting for its lock or for the drive |
| `BlockCacheCalls.ValidIsNotRead` | src/block/bcache.c:244-256 | a block that has become valid is not read again |
| `BlockCacheCalls.LooksOnce` | src/block/bcache.c:177-234 | a call looks its sector up once: after a shrink it goes on to allocate, however much was freed |
| `BlockCacheOrder.LruIsByUse` | src/block/bcache.c:177-234 | in every reachable state the LRU list is in the order in which its blocks were last looked up |
| `BlockCacheOrder.ShrinkFrees` | src/block/bcache.c:96-148 | a pass frees until enough bytes are freed or only blocks that are locked, referred to or dirty are left, and counts what the cache lost |
| `BlockCacheOrder.ShrinkInOrder` | src/block/bcache.c:96-148 | nothing is evicted that is behind a block that could have been and was not |
| `BlockCacheOrder.OomFrees` | src/block/bcache.c:96-160 | the first pass frees what is called for, or leaves nothing to free and the task goes on to a waiting sync |
| `BlockCacheOrder.SecondShrinkFrees` | src/block/bcache.c:96-148 | the pass after the sync completes what is called for, or leaves nothing to free |
| `BlockCacheOrder.FirstComeFirstServed` | src/drivers/block/ata.c:150-278 | the drive serves requests in the order they are made |
| `BlockCacheRuns.LockHolderMoves` | include/protura/block/bcache.h:17-49 | whoever holds a block's lock can take a step that needs no other lock |
| `BlockCacheDurable.WrittenBeforeReleased` | src/drivers/block/ata.c:216-278 | in every run, a dirty block handed to the drive reaches the disk with that data before the drive lets go of it |
| `BlockCacheDurable.SyncHandsOver` | src/block/bcache.c:384-397 | a sync hands every block it finds dirty to the drive |
| `BlockCacheDurable.SyncWaitsForDrive` | src/block/bcache.c:399-407 | a waiting sync goes past a block only when the drive has let go of it |
| `BlockCacheFlush.PendingStep` | src/block/bcache.c:384-407 | a block a waiting sync has listed stays listed or on the drive, whatever step any task or the drive takes, until the disk holds what the sector stands for |
| `BlockCacheFlush.SyncIsDurable` | src/block/bcache.c:358-409 | when a waiting sync is over, every block that was valid and dirty when it began has been on the disk since, with the contents the sector had at that moment |
| `BlockCacheSyncCalls.DirtyStep` | src/block/bcache.c:96-409 | a dirty block stays cached and dirty, whatever step is taken, until the disk holds what its sector stands for |
| `BlockCacheSyncCalls.SyncCallIsDurable` | src/block/bcache.c:303-409 | from the call of a waiting sync to its return: every block that was valid and dirty at the call has been on the disk since, with the contents the sector had at that moment |
| `BlockCacheSyncCalls.SyncCallHandsOver` | src/block/bcache.c:303-409 | from the call of any sync to its return: every such block has been on the disk since, or the drive has it |
| `BlockCacheClient.ZeroClears` | src/fs/ext2/bmap.c:111-120 | clearing a block is a write of zeros and keeps the invariant, if the block is marked dirty or the disk has the zeros already |
| `BlockCacheClient.UnwrittenBreaks` | src/fs/ext2/bmap.c:117-120 | marking it synced breaks the invariant if the disk has anything else |
| `BlockCacheRuns.AllowedIffKept` | src/block/bcache.c:384-397 | a step keeps the invariant if and only if it is neither the early continue of a waiting sync nor the marking as synced of a cleared block whose sector on the disk is not zeros |
| `BlockCacheRuns.ClearedDirtyIsFlat` | src/fs/ext2/bmap.c:103-125 | were cleared blocks marked dirty, every run without the early continue would be one of a flat disk |
| `BlockCacheTraces.ClearingLost` | src/fs/ext2/bmap.c:103-125 | there is a run from the empty cache, without a step of any sync and with a cleared block marked synced, whose reads and writes no flat disk can show |
| `BlockCacheTraces.UnmarkedIsFlat` | src/fs/ext2/bmap.c:103-125 | without steps of a sync, a run in which no cleared block is marked synced is one of a flat disk: in the run above that marking is what is at fault |
| `BlockCacheTraces.SeenFlat` | src/block/bcache.c:96-409 | for a run of allowed steps, the events seen are those of a flat disk if and only if the whole trace is |
| `BlockCacheTraces.EarlyContinueBreaks` | src/block/bcache.c:384-397 | an allowed run from the empty cache reaches a state in which the early continue of a waiting sync is next and breaks the reference count |
| `BlockCacheRuns.DoublePut` | src/block/bcache.c:384-407 | after the early continue the block is still on the waiting list while the task has no reference to it |
| `InodeTableInv.LookupExact` | src/fs/inode_table.c:292-316 | the lookup finds the hashed inode of a name if and only if there is one |
| `InodeTableWork.PutAssert` | src/fs/inode_table.c:172-197 | the assertion at line 181 never fires |
| `InodeTableWork.UnusedIsClean` | src/fs/inode_table.c:463-466 | the assertions at lines 464-465 and 553-554 never fire: a hashed inode without references that is not being freed is valid and not being written |
| `InodeTableWork.FreerNeverWaits` | src/fs/inode_table.c:153-170 | the task that frees an inode never finds it being written by another |
| `InodeTableWork.PutKeeps` | src/fs/inode_table.c:172-197 | dropping a reference, and starting an eviction with the last one, keeps the invariant |
| `InodeTableFree.DeallocKeeps` | src/fs/inode_table.c:73-79 | when an inode is deallocated it exists and no task refers to it |
| `InodeTableFree.UncacheKeeps` | src/fs/inode_table.c:135-170 | taking the inode out of the table leaves every waiter owed a wake-up |
| `InodeTableFree.WakeKeeps` | src/fs/inode_table.c:153-170 | waking the queue leaves nobody registered |
| `InodeTableFree.SleepKeeps` | src/fs/inode_table.c:206-226 | going to sleep on an inode that is still hashed and being freed keeps the invariant |
| `InodeTableGet.InsertKeeps` | src/fs/inode_table.c:318-347 | a new inode goes in only when its name is not there, although the lock was dropped to create it |
| `InodeTableGet.FindKeeps` | src/fs/inode_table.c:292-347 | the section of `inode_get_invalid` keeps the invariant: wait, take a reference, insert or go and create |
| `InodeTableGet.ReadFailsKeeps` | src/fs/inode_table.c:236-257 | `inode_mark_bad` keeps the invariant |
| `InodeTableGet.ClearStepKeeps` | src/fs/inode_table.c:447-478 | one turn of `inode_clear_super` keeps the invariant |
| `InodeTableCollect.SyncList` | src/fs/inode_table.c:378-400 | the scan of `inode_sync` lists exactly the valid dirty inodes, of the super block asked for if one is, that nobody is freeing, each once |
| `InodeTableCollect.FreeList` | src/fs/inode_table.c:531-563 | the scan of `inode_oom` lists exactly the valid unreferenced inodes nobody is freeing, each once |
| `InodeTableCollect.OomCollectKeeps` | src/fs/inode_table.c:531-566 | marking all of them in one section keeps the invariant |
| `InodeTableRuns.StepKeeps` | src/fs/inode_table.c:99-566 | every allowed step keeps the invariant |
| `InodeTableRuns.Reachable` | include/protura/fs/inode.h:28-84 | in every reachable state: names are unique and found, FREEING means valid and without references and one task to free it, a writer is alone, `inode_get` gives a valid inode that is not being freed, an inode about to be deallocated is not marked dirty or is unlinked, nothing referred to is missing, and the count is the number of references held |
| `InodeTableCalls.GetsWhatItAskedFor` | src/fs/inode_table.c:292-376 | in every run from the empty table, by the calls read off the steps alone: a task that called `inode_get` is still at it, across sleeping, creation and the second lookup, or has the inode of the name it asked for, unless the read failed; and it has an inode in no other way than asking or being given one |
| `InodeTableEvict.UnlinkedAreFreed` | src/fs/inode_table.c:172-197 | in every reachable state, an inode in the table without links is referred to or being freed |
| `InodeTableEvict.LastPutFrees` | src/fs/inode_table.c:172-197 | the last put of an unlinked inode does not return before it is deallocated |
| `InodeTableEvict.OomFrees` | src/fs/inode_table.c:531-566 | when `inode_oom` returns, every inode that had been read, was referred to by nobody and was being freed by nobody has been deallocated |
| `InodeTableEvict.FreedByThen` | src/fs/inode_table.c:135-170 | by the time the task that marked an inode FREEING is idle, it has been deallocated |
| `InodeTableEvict.ClearIsThorough` | src/fs/inode_table.c:447-529 | `inode_clear_super` gets to the root only when no other inode of the super block is in the table, and does not give up while one is that nobody refers to |
| `InodeTableRuns.FreeingIsFinal` | include/protura/fs/inode.h:28-84 | an inode marked FREEING stays so, in the same hands and without references, until it is deallocated |
| `InodeTableRuns.NoDeadlock` | src/fs/inode_table.c:88-97 | whatever a task is blocked on, the task it waits for is another one and has a step to take: the one freeing the inode or about to wake the sleepers, the one reading it, or the one writing it |
| `InodeTableRuns.AllowedIffKept` | src/fs/inode_table.c:263-290 | a step keeps the invariant if and only if it does not give up on a bad inode that others refer to |
| `InodeTableRuns.FreedUnderHolder` | src/fs/inode_table.c:271-284 | after that step and the deallocation some task refers to an inode that is gone |
| `InodeTableTraces.TwoWaitersBreak` | src/fs/inode_table.c:271-284 | an allowed run from the empty table (one task makes the inode, two wait for it, the read fails) reaches a state in which that step is next and breaks the invariant |
| `InodeTableTraces.LeftDangling` | src/fs/inode_table.c:271-284 | two steps later the other task refers to an inode that is gone |
| `InodeTableSaved.SavedIff` | src/fs/inode_table.c:99-133 | that every inode in the table that differs from the disk is dirty, or about to be marked so by the task that changed it, is kept by a step if and only if the step does not clear DIRTY on an inode that differs from the disk and that nobody is about to mark |
| `InodeTableSaved.ClearedUpToDateIff` | src/fs/inode_table.c:117-128 | when a task comes to clear DIRTY, whatever the others did since its copy, the inode is on the disk as it is in memory if and only if it was not changed in between |
| `InodeTableSaved.LeavesSaved` | src/fs/inode_table.c:153-170 | in every run from the empty table in which no inode is changed between a copy and the clearing after it, a linked inode is taken out of the table only with all its changes on the disk |
| `InodeTableFlush.SyncIsDurable` | src/fs/inode_table.c:378-415 | from the call of a waiting `inode_sync` to its return: every inode that was dirty, of the super block asked for, has been on the disk since as it was in memory then, unless another task was between copying it and clearing DIRTY at the call |
| `InodeTableFlush.WriteIsDurable` | src/fs/inode_table.c:99-133 | the same for a waiting `inode_write_to_disk` |
| `InodeTableFlush.SyncSeesToAll` | src/fs/inode_table.c:378-415 | without waiting, every such inode has been on the disk or is being written |
| `InodeTableFlush.NoWaitGoesOn` | src/fs/inode_table.c:99-115 | a write that is not to wait goes past an inode that another task is writing |
| `InodeTableTraces.WriteReturnsEarly` | src/fs/inode_table.c:99-133 | a run, from a reachable state in which another task is between the two, in which a waiting write of a changed inode returns without the change having been on the disk |
| `InodeTableTraces.ChangeLost` | src/fs/inode_table.c:99-170 | an allowed run from the empty table in which a linked inode is about to be deallocated while the disk has an earlier version of it |
| `Pipe.PipeInfo.ReadSection` | src/fs/pipe.c:156-239 | one section of a read: takes exactly the first bytes, tells end of file, would-block and sleep apart, wakes writers exactly when a page was freed; delivered + buffered = appended if and only if no read has faulted; a fault costs a page and the bytes up to its end, and delivers nothing; every page is accounted for |
| `Pipe.PipeInfo.ReadPass` | src/fs/pipe.c:170-199 | the copy loop returns the longest prefix asked for, and faults if and only if that crosses the end of user memory |
| `Pipe.PipeInfo.WriteSection` | src/fs/pipe.c:241-330 | one section of a write: appends exactly as much as there is room for; at most a page goes in whole or not at all; outcomes and wake-ups are decided by readers, room, blocking and faults; a fault, and only that, costs a page; keeps the queue law |
| `Pipe.PipeInfo.Append` | src/fs/pipe.c:255-296 | with the pages it may add, the loop appends exactly what the page limit leaves room for |
| `Pipe.PipeInfo.FillPass` | src/fs/pipe.c:262-281 | the copy loop fills free pages in order |
| `Pipe.PipeInfo.Poll` | src/fs/pipe.c:332-358 | ready if and only if a non-blocking call would not be turned away; hang-up to a reader if and only if it would see end of file, to a writer if and only if there are no readers and no room |
| `Pipe.PollThenWrite` | src/fs/pipe.c:241-358 | a writer without readers gets a broken pipe, and polling told it so before if and only if the pipe was full |
| `Pipe.FaultLosesByte` | src/fs/pipe.c:156-180 | a byte written and read with a fault was never delivered and is no longer there, and the pipe has room for a page less |
| `Pipe.PipeInfo.Release` | src/fs/pipe.c:118-139 | the counts go down, contents stay, and the other side is woken exactly on the last close |
| `Pipe.BytesAppend` | src/fs/pipe.c:262-281 | appending a page appends its bytes |
| `Kbuf.Buffer.Write` | src/kernel/kbuf.c:117-151 | appends as much as there is room for, across pages |
| `Kbuf.Buffer.CopyIn` | src/kernel/kbuf.c:130-146 | the copy loop reaches the end of the data before it runs out of pages |
| `Kbuf.Buffer.Read` | src/kernel/kbuf.c:80-115 | returns the bytes from that position; inside the contents, exactly the part asked for |
| `Kbuf.Buffer.ResetPos` | src/kernel/kbuf.c:59-62 | undoes everything written since |
| `Kbuf.Buffer.AddPage` | src/kernel/kbuf.c:18-27 | adds a page of space and leaves the contents alone |
| `Kbuf.ReadInsideIff` | src/kernel/kbuf.c:80-89 | a read stays inside what was written if and only if it starts past every page, or it starts inside and its end does not overflow, or its end overflows and the pages are full |
| `SeqFile.File.ListIter` | src/fs/seq_file.c:194-216 | the walk ends at the entry of that number, or past the end and done |
| `SeqFile.File.Next` | src/fs/seq_file.c:231-250 | goes to the entry after, header included, or is done |
| `SeqFile.File.RenderOne` | src/fs/seq_file.c:58-74 | an entry that fits is appended whole; one that does not leaves no trace |
| `SeqFile.File.Fill` | src/fs/seq_file.c:39-85 | if every entry fits, the loop ends, and the buffer is every entry once and in order across all restarts; `end` balances `start` unless the list was empty |
| `SeqFile.File.Turn` | src/fs/seq_file.c:44-82 | one round makes space, starts again where the last stopped and gets further, and the rest still fits |
| `SeqFile.EndsIff` | src/fs/seq_file.c:44-82 | the rounds get through the list if and only if every entry fits, at its place in the text, into the pages there are by then |
| `SeqFile.SmallFits` | src/fs/seq_file.c:45-47 | entries of at most a page always fit |
| `SeqFile.OversizedEntry` | src/fs/seq_file.c:45-47 | a list of one entry longer than a page is never got through, after any number of rounds |
| `SeqFile.File.SeqRead` | src/fs/seq_file.c:87-180 | returns the next part of the text and moves on by it; rejects negative positions and oversized lengths |
| `SeqFile.ReadMany` | src/fs/seq_file.c:87-180 | successive calls, of any sizes, return the text from the position on without gap or repetition, as far as they ask for in all |
| `SeqFile.File.Lseek` | src/fs/seq_file.c:129-165 | the new position, clipped at zero, where the text is thrown away to be rendered again |
| `FileIo.Volume.Pread` | src/fs/file.c:28-92 | returns exactly the content from `off` to the end of the range or of the file, holes as zeros; the error cases |
| `FileIo.Volume.ReadLoop` | src/fs/file.c:49-85 | the block loop returns the file's bytes in order, whether mapped or not |
| `FileIo.ClipExactIff` | src/fs/file.c:39-47 | reading stops at the end of the file if and only if `off + len` does not overflow |
| `FileIo.Volume.Write` | src/fs/file.c:104-177 | the range is replaced and the file zero-extended to hold it, no other file changes, and on lack of space a prefix was written and the position stays; a length past `off_t` writes nothing and returns 0, having extended the file if the end so computed lies past it |
| `FileIo.LengthKeptIff` | src/fs/file.c:120-124 | the test for large lengths rejects none, and the length used is the one given if and only if it fits in `off_t` |
| `FileIo.Volume.WriteLoop` | src/fs/file.c:136-167 | the block loop writes a prefix of the data and touches no other byte of any file; it stops early only without free blocks |
| `FileIo.AllocBytes` | src/fs/file.c:137-144 | giving a hole a cleared block changes no byte of any file |
| `FileIo.Overlay` | src/fs/file.c:104-177 | what was written is read back |
| `FileIo.WriteThenRead` | src/fs/file.c:28-177 | a successful write followed by a read of the same range returns the data |
| `ListHead.Rotated` | include/uapi/protura/list.h:18-30 | a ring has no distinguished node |
| `ListHead.AddBetween` | include/uapi/protura/list.h:52-61 | the node closes the ring between its end and its start |
| `ListHead.Add` | include/uapi/protura/list.h:63-66 | prepends, touching three nodes |
| `ListHead.AddTail` | include/uapi/protura/list.h:68-71 | appends, touching three nodes |
| `ListHead.Del` | include/uapi/protura/list.h:108-112 | removes the entry, which is then a list of its own |
| `ListHead.MoveFrom` | include/uapi/protura/list.h:128-132 | moves an entry from one list to the front of another |
| `ListHead.Move` | include/uapi/protura/list.h:128-132 | moves an entry to the front of its list |
| `ListHead.MoveTail` | include/uapi/protura/list.h:134-138 | moves an entry to the end of its list |
| `ListHead.RotateLeft` | include/uapi/protura/list.h:151-155 | one rotation, nothing for an empty list |
| `ListHead.RotateRight` | include/uapi/protura/list.h:157-161 | one rotation the other way |
| `ListHead.NewFirst` | include/uapi/protura/list.h:198-217 | rotates the list so that the node comes first |
| `ListHead.NewLast` | include/uapi/protura/list.h:219-236 | rotates the list so that the node comes last |
| `ListHead.ManyRotations` | include/uapi/protura/list.h:192-197 | that is as many single rotations at once, and rotating right undoes rotating left |
| `ListHead.Splice` | include/uapi/protura/list.h:163-181 | the other list goes in front, and is emptied if initialised |
| `ListHead.SpliceTail` | include/uapi/protura/list.h:169-189 | the other list goes at the end, and is emptied if initialised |
| `ListHead.ReplaceInit` | include/uapi/protura/list.h:114-126 | the new head takes over the list, even an empty one, and the old head is empty |
| `ListHead.TakeFirst` | include/uapi/protura/list.h:254-259 | takes the first entry off |
| `ListHead.TakeLast` | include/uapi/protura/list.h:264-269 | takes the last entry off |
| `RwLock.StepKeeps` | include/protura/rwlock.h:46-107 | every step keeps the invariant |
| `RwLock.Reachable` | include/protura/rwlock.h:18-26 | in every reachable state the count is -1 if and only if one writer has the lock, else the number of readers; no writer sleeps while it is free; a reader sleeps only while a writer has it or is after it |
| `RwLock.WriterAlone` | include/protura/rwlock.h:46-107 | by the calls read off the steps alone: a task is where its last call has put it, and one that called `rwlock_wlock` and has been let in is alone, whatever the others called |
| `RwLock.SomebodyMoves` | include/protura/rwlock.h:58-101 | while a task sleeps, somebody has the lock or an awake writer is about to try |
| `RwLock.WriteUnlockKeeps` | include/protura/rwlock.h:89-101 | waking readers only when no writer was woken forgets nobody |
| `KTimer.Timers.Add` | src/kernel/ktimer.c:81-103 | an unqueued timer goes to its place in the sorted list; a queued one is refused with its tick changed |
| `KTimer.InsertSorted` | src/kernel/ktimer.c:91-99 | the list stays sorted |
| `KTimer.ReAddSortedIff` | src/kernel/ktimer.c:84-90 | after adding a queued timer the list is sorted if and only if the new tick lies between its neighbours' |
| `KTimer.Timers.Del` | src/kernel/ktimer.c:105-115 | takes the timer off if it is queued, and says which |
| `KTimer.Timers.HandleTimers` | src/kernel/ktimer.c:46-73 | with callbacks that add and delete any timers, ends, having fired the timers due, each once and in order, except those the callback of one fired before deleted; a timer is queued afterwards if and only if the last thing a callback did to it was to add it, with that tick, or none touched it and it was queued for later |
| `KTimer.FiredUnlessDeleted` | src/kernel/ktimer.c:46-73 | no timer is fired after a callback that deletes it, and one that is due and not fired was deleted by a callback that ran |
| `KTimer.QueuedEndIff` | src/kernel/ktimer.c:46-73 | who is queued in the end, by the last thing done to each timer in the list of all that the callbacks did |
| `KTimer.Timers.Perform` | src/kernel/ktimer.c:81-115 | a callback that adds and deletes timers changes the part of the list that is due only by what it deletes |
| `KTimer.Timers.TakeDue` | src/kernel/ktimer.c:52-69 | one section takes the first timer if it is due |
| `KTimer.Timers.NotRunning` | src/kernel/ktimer.c:128-133 | the check that ends `timer_cancel` holds, for a timer that is not queued, if and only if the timer is gone |
| `KTimer.CancelledIff` | src/kernel/ktimer.c:117-136 | after `timer_cancel`, whatever ran in between, the timer is neither queued nor running until it is added again, if and only if it was not queued while its callback ran |
| `KTimer.QuietKept` | src/kernel/ktimer.c:46-115 | the other sections keep a timer from being queued while its callback runs; adding it keeps it so if and only if the callback is not running |
| `Calendar.NextIsOneMore` | arch/x86/drivers/rtc.c:96-144 | the day number grows by one from day to day, over every month end and every February |
| `Calendar.EveryDateIsReached` | arch/x86/drivers/rtc.c:96-144 | every valid date from 1970 on is the one that many days after 1970-01-01 |
| `Calendar.MkTimeCounts` | arch/x86/drivers/rtc.c:96-144 | for every valid date from 1970 on, `mktime` is 86400 times the days counted plus the time of day, as in section 4.16 of the POSIX.1-2017 Base Definitions |
| `Calendar.MkTimeInjective` | arch/x86/drivers/rtc.c:96-144 | no two moments get the same time |

## Left out

- Port I/O, DMA registers, interrupt entry, context switches, descriptor tables, PCI and the console: hardware plumbing.
- System-call dispatch, `palloc_unordered`, `slab_has_addr`, `fifo_open`, `fs_file_generic_lseek`, `bcd_to_bin` and the like: they would only add easy members.
- Page tables, `kmalloc` for large sizes, mounts, sockets, ARP, the loop driver and credentials.
- Memory runs out nowhere except where a member takes the new page, frame or block as an option: `palloc` inside the pipe and the seq file always succeeds, and waiting for memory in `__palloc_sleep_for_enough_pages` with its out-of-memory callbacks is not modelled.
- Buddy.PageBuddyAlloc.constructor: requires the page count to be a multiple of the largest block, which is exactly when the buddy lookup is in bounds.
- Buddy.PageBuddyAlloc.Pfree: requires a block that is live with that order; freeing anything else is not modelled.
- VmArea.VmAreaAllocator.Alloc: requires a positive number of pages; addresses are page numbers inside the window, and `kmmap_pcm` with its page tables is not modelled.
- Slab.SlabAlloc.Free: requires that an address inside a frame is the start of a slot; poison values are not modelled, so neither is skipping a damaged slot.
- Slab.SlabAlloc.Malloc: the lock that is dropped while a frame is allocated is modelled by `TryMalloc` and `AddFrame` as sections of their own; `Malloc` itself is their sequence without interference.
- BlockCacheRuns.RunIsFlat: for runs without the two excluded steps, the early continue of a waiting sync and the marking as synced of a cleared block; one device; `bdev->blocks`, the second queue of the drive, partitions and `block_dev_clear` are not modelled, and a drive reports no error.
- InodeTableRuns.Reachable: the dirty list, the list of inodes per super block (any order is allowed instead), `sync_lock` (more interleavings are allowed instead) and `inode_delete` are not modelled.
- InodeTableRuns.NoDeadlock: the lock on an inode's contents, which the write takes to copy it, is not modelled; a client that has it is taken to let go of it.
- InodeTableSaved.SavedIff: contents are a version number that a change makes one larger, and writing them never fails.
- Pipe.PipeInfo.ReadSection: sleeping readers are only told apart by outcome; whether a reader asleep at the last close wakes up is not stated, and the wait condition does not promise it.
- Kbuf.Buffer.Read: user copies succeed.
- SeqFile.File.Fill: requires that every entry fits, which is exactly when the loop ends; render functions report an overflow, `start`, `next` and `end` are those of the list helpers, and the list does not change.
- FileIo.Volume.Write: requires that the end of the range fits in `off_t` when the length does, since what `truncate` does with a negative size is not modelled; growing the file succeeds, new blocks are cleared, files are not shrunk, and the blocks are read through a cache that behaves as the disk.
- RwLock.Reachable: a task takes the lock at most once at a time, and fairness is not claimed.
- KTimer.Timers.HandleTimers: requires that callbacks add a timer only when it is not queued and for later than the tick being handled; a queued one is the case of `ReAddSortedIff`.
- Calendar.MkTimeCounts: `time_t` is unbounded.
- In the step systems data is in sequences, maps and sets that each step replaces, so aliasing between a block and the drive's pointer to it is by identifier.
