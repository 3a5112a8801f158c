# Verified models of the coursework repository

The repository collects coursework programs.  This project models the ones that hold an algorithm or a protocol, each
with its own branches, constants and error cases, and proves what they are for:

* **The block file system** (`os_final_project/code/fs/fs.c`): a bitmap allocator, direct and indirect block slots,
  byte-range reads and writes, truncation.  `FsModel` states every function on values, `FileSystem` has the code with
  its loops and in-place updates, and the `Fs...` modules prove exact block ownership, write-then-read, isolation of
  files, and exactly which slots a truncation empties.  File byte contents are the blocks' bytes; a freshly allocated
  data block keeps whatever bytes it had.
* **The block cache under it** (`bc.c`): faults with their panic on free blocks, flushes, evictions and `fs_sync` over a
  page table with mapped and dirty bits.  No interleaving distinguishes it from a plain array of blocks, no fault
  panics, and no allocation is lost in a crash exactly on the disks whose bitmap is one block.
* **The file system over the block cache**: `CachedFs` runs the functions of `fs.c` on cached blocks that hold the
  bitmap, the file records, the indirect blocks and the bytes.  `CachedState`, `CachedOps` and `CachedFsTheorems` prove
  that every run, with flushes, evictions, syncs and restarts anywhere between the calls, returns what it returns on
  values and never panics; `FsFlush` says what `file_flush` reaches.
* **Shortest paths** (`astar`, and the Floyd-Warshall function `foox`) over any finite network and any metric, checked
  against each other in `Planners`.
* **The set-associative LRU cache simulator** (`cachesim.c`): timestamps refine a recency list, which gives the
  reuse-distance rule and the inclusion property over all traces.
* **The CPU scheduler and its simulator** (`student.c`, `os-sim.c`) as a transition system whose steps are a handler
  with its context switch and the CPU thread's return to its loop.  Idle CPUs may run `schedule()` in any gap between
  steps, in any order; each tick carries a list of such choices.  Placement is invariant, and every run terminates.
* **The LC-2200 assembler and simulator**: the assembled image simulates the source program over runs of any length.
* **The stop-and-wait reply** (`prj7-server.py` to `rtp.c`): exactly which replies arrive, and in how many rounds.
* **Behaviour trees** (`btnode.py`, `behaviortree.py`): ticking is left-to-right short-circuit evaluation.
* **Polygon merging** (`homework3`), **Q-learning** (`gameai/rl`) and the **linked deque** (`threadsafeLinkedList.c`).

For each program a module of functions gives the meaning, and where the original works in place a class or a method
with its loops is proved equal to it.  I/O, clocks, randomness and the thread scheduler appear as parameters.

## Where the code differs from its documentation

* `file_block_walk` promises to allocate the indirect block when it is needed, but the test `filebno > NDIRECT / BLKSIZE`
  means `filebno > 0` (`fs.c:153`): block 1 already gets one.  With no indirect block, a walk that may not allocate
  refuses the direct slots 1 to 9, so a second truncation leaves them filled
  (`FsTruncate.TruncationClearsIff`, `FsTheorems.GapExampleLeavesBlock`), and on a full disk a file's own bytes in them
  cannot be read (`FsTheorems.ReadHeldIff`, `FsTheorems.FullGapExampleUnreadable`).
* `file_flush` promises to write out the contents of the file, but skips those slots for the same reason
  (`FsFlush.FlushesIff`, `FsFlush.FlushReachesDiskIff`, `FsTheorems.GapExampleNotFlushed`); `fs_sync` is complete.
* `alloc_block` says it flushes the changed bitmap block, but it flushes the first one (`fs.c:77`): on disks of
  more than 32768 blocks, and on no others, an allocation can be lost (`CacheDurable.AllocIsDurableIff`,
  `CacheDurable.LargeBitmapIsNotDurable`, `CacheDurable.DurableForAllRunsIff`).
* `pass1` gives an address to a line that has neither a label nor an opcode, `pass2` does not: labels after such a line
  are one too high (`AsmRuns.LabelIsAddress`, `AsmRuns.BareLineShiftsLabels`).
* A `beq` whose label is out of reach is tried as a number instead of being reported, because the exit of `imm5` is
  caught (`lc2200-16as.py:248-253`): it is accepted if the label's name is a number in range
  (`AsmLimits.OutOfReachAcceptedIff`, `AsmLimits.LandsOnLabelIff`, `AsmLimits.NumericLabelIsMissed`).  `spop`, `.word` and
  `la` accept numbers that make a word longer than 16 bits (`AsmLimits.SixteenBitsIff`, `AsmLimits.LongSpop`).
* `addi` does not cut its result to 16 bits (`lc2200-16sim.py:166-167`, `Alu.AddiIsModularIff`).
* A sequence or selector without children is documented to succeed or fail; the code looks a child up and raises an
  error.  A run gives the documented value exactly if short-circuit evaluation comes to no empty node
  (`BtTheorems.EmptyNodeCrashes`, `BtTheorems.GivesValueIff`, `BtTheorems.DocumentedIff`).
* The two `checksum` functions agree only if an even number of bytes has the high bit, and the receive buffer is still
  NULL when a one-byte reply is copied into it (`RtpTheorems.DeliveredIff`, `RtpTheorems.OneByteCrashesIff`).

## Model

| member | source | states |
|---|---|---|
| `FsModel.WordRoundTrip` | os_final_project/code/fs/fs.c:169 | a 32-bit block number stored in one slot of an indirect block is read back, and no other slot changes |
| `FsModel.FirstFree` | os_final_project/code/fs/fs.c:66-76 | the block allocated is the lowest free one, and none below it is free |
| `FsOwnership.ExactOwnership` | os_final_project/code/fs/fs.c:57-79 | a block is in use exactly if it is reserved or named by a non-zero slot of some file, and by one slot only |
| `FsOwnership.ClaimSlot` | os_final_project/code/fs/fs.c:192-198 | filling an empty slot with a fresh block keeps ownership exact |
| `FsOwnership.ReleaseSlot` | os_final_project/code/fs/fs.c:428-431 | freeing the block a slot names and emptying the slot keeps ownership exact |
| `FsOwnership.ClaimIndirect` | os_final_project/code/fs/fs.c:153-164 | a new indirect block, cleared, adds no names but its own |
| `FsOwnership.ReleaseIndirect` | os_final_project/code/fs/fs.c:456-459 | an indirect block that names nothing can be freed without a leak |
| `FsData.WalkAllocates` | os_final_project/code/fs/fs.c:147-173 | an allocating walk reaches every slot in range unless the disk is full, keeps ownership, and moves no block of any file |
| `FsData.GetBlockAllocates` | os_final_project/code/fs/fs.c:184-201 | for every block number: exactly when the block can be had, that the file then has it, that all other files and bytes stay as they were and ownership exact; an indirect slot past the end of the file is filled exactly if the block is there |
| `FsTransfer.WriteFromCorrect` | os_final_project/code/fs/fs.c:406-413 | the write loop succeeds exactly if the range fits, stores the buffer across chunk boundaries, and changes nothing outside the range, also when it fails half-way |
| `FsTransfer.ReadFromCorrect` | os_final_project/code/fs/fs.c:377-384 | the read loop succeeds exactly if the range fits and returns what the file then holds |
| `FsTruncate.TruncateCorrect` | os_final_project/code/fs/fs.c:444-460 | truncation keeps ownership exact, releases what it clears, and keeps every byte below the new size and of other files |
| `FsTruncate.TruncationClearsIff` | os_final_project/code/fs/fs.c:452-454 | which block slots a truncation empties: all past the new size if and only if the walk reaches them |
| `FsTruncate.GrowCorrect` | os_final_project/code/fs/fs.c:463-471 | growing changes the size only |
| `FsTruncate.ShrinkCorrect` | os_final_project/code/fs/fs.c:463-471 | shrinking keeps the invariant and every byte below the new size |
| `FsTheorems.WriteCorrect` | os_final_project/code/fs/fs.c:394-416 | success exactly within the maximum file size and the free space; on success the file holds the buffer; no other byte of any file changes |
| `FsTheorems.WriteFailsWith` | os_final_project/code/fs/fs.c:407-408 | a failed write reports an invalid offset exactly if all of the range that a file can have has room, and else a full disk |
| `FsTheorems.ReadCorrect` | os_final_project/code/fs/fs.c:365-387 | the bytes returned are the file's, as many as it has, and reading changes no byte |
| `FsTheorems.ReadFailsWith` | os_final_project/code/fs/fs.c:378-379 | the same for a failed read, which the file's size has cut off before |
| `FsTheorems.ReadIsPureIff` | os_final_project/code/fs/fs.c:377-384 | reading bytes that are present changes nothing exactly if they are in block 0 or there is an indirect block |
| `FsTheorems.WriteThenRead` | os_final_project/code/fs/fs.c:365-416 | after a successful write the same range reads back as the buffer and the state does not change |
| `FsTheorems.RunKeepsInv` | os_final_project/code/fs/fs.c:365-471 | ownership stays exact over every sequence of reads, writes and resizes, including failed ones |
| `FsTheorems.RunIsolates` | os_final_project/code/fs/fs.c:365-471 | no run on other files changes a byte or a slot of a file |
| `FsTheorems.WriteSurvivesOthers` | os_final_project/code/fs/fs.c:365-471 | what was written is read back after any run on other files |
| `FsTheorems.ReadHeldIff` | os_final_project/code/fs/fs.c:365-387 | bytes of a file that are all on the disk are read exactly if they lie in the first block, or the file has an indirect block, or there is room for one |
| `FsTheorems.WriteSurvivesRun` | os_final_project/code/fs/fs.c:365-471 | what was written stays through any run that neither writes over it nor cuts it off, on the same file too, and is read back exactly under that condition on the state then |
| `FsTheorems.FullGapExampleUnreadable` | os_final_project/code/fs/fs.c:153-164 | a valid full disk on which a byte within the file, in a block that the file names, cannot be read |
| `FsTheorems.ShrinkTwiceLeavesBlocks` | os_final_project/code/fs/fs.c:444-460 | shrinking twice into the direct range leaves the slots between filled, for every such file |
| `FsTheorems.GapExampleLeavesBlock` | os_final_project/code/fs/fs.c:444-460 | a valid disk on which truncating a file to nothing leaves one of its blocks in use |
| `Bitmap.BitsAreBlocks` | os_final_project/code/fs/fs.c:48 | setting or clearing one bit of one bitmap word adds or removes exactly that block from the free set |
| `FileSystem.Disk.BlockIsFree` | os_final_project/code/fs/fs.c:29-38 | the bitmap bit, and false past the end of the disk |
| `FileSystem.Disk.constructor` | os_final_project/code/fs/fs.c:108-130 | the starting state: a disk with given bitmap, blocks and files that satisfy the invariant |
| `FileSystem.Disk.FreeBlock` | os_final_project/code/fs/fs.c:40-49 | exactly one more free block; a panic and no change for block 0; no change for a number past the last block |
| `FileSystem.Disk.AllocBlock` | os_final_project/code/fs/fs.c:57-79 | the search loop finds the lowest free block, or reports a full disk without changing anything |
| `FileSystem.Disk.FileBlockWalk` | os_final_project/code/fs/fs.c:146-173 | in place, the walk with its early test for the indirect block and all its error results |
| `FileSystem.Disk.FileGetBlock` | os_final_project/code/fs/fs.c:183-201 | in place, the block lookup that allocates |
| `FileSystem.Disk.FileRead` | os_final_project/code/fs/fs.c:365-387 | the loop over chunks returns what the read function on values returns, and leaves its state |
| `FileSystem.Disk.FileWrite` | os_final_project/code/fs/fs.c:394-416 | the resize and the loop over chunks leave exactly the state of the write function on values, also on failure |
| `FileSystem.Disk.FileFreeBlock` | os_final_project/code/fs/fs.c:420-433 | frees the block and empties the slot, or leaves both when the walk refuses |
| `FileSystem.Disk.FileTruncateBlocks` | os_final_project/code/fs/fs.c:444-460 | the loop and the release of the indirect block |
| `FileSystem.Disk.FileSetSize` | os_final_project/code/fs/fs.c:463-471 | truncates only when shrinking, then sets the size |
| `FileSystem.Disk.FileFlush` | os_final_project/code/fs/fs.c:478-492 | the loop hands exactly the specified blocks to `flush_block`, in order, and changes nothing |
| `FsFlush.FlushesIff` | os_final_project/code/fs/fs.c:474-488 | a block of the file is flushed exactly if it is within the file's size and the walk reaches it |
| `FsFlush.FlushReachesDiskIff` | os_final_project/code/fs/fs.c:478-492 | under the block cache: a changed block of the file is on the disk afterwards exactly under that condition, and nothing that can be seen changes |
| `FsFlush.FlushedIff` | os_final_project/code/fs/fs.c:478-492 | a block is handed to `flush_block` exactly if it is the record's, the indirect block, or a block within the file's size that the walk reaches |
| `FsFlush.FlushedReachDiskIff` | os_final_project/code/fs/fs.c:478-492 | under the block cache, of all changed blocks exactly these are on the disk afterwards |
| `FsTheorems.GapExampleNotFlushed` | os_final_project/code/fs/fs.c:483-486 | a valid disk on which a block within the file's size is not flushed |
| `FsOnDisk.AllocAgrees` | os_final_project/code/fs/fs.c:57-79 | allocation through the cached bitmap takes the block the allocator on sets of blocks takes, or fails with it, and the bitmap goes on holding exactly the free set |
| `FsOnDisk.FreeAgrees` | os_final_project/code/fs/fs.c:40-49 | the same for freeing a block |
| `CachedState.MountShows` | os_final_project/code/fs/fs.c:108-130 | every file system on values has a disk that holds its bitmap, records, slots and bytes |
| `CachedState.LoadShows` | os_final_project/code/fs/bc.c:44-79 | a block in use is faulted in with the bytes it has on values, whatever was in the cache, and nothing else changes |
| `CachedState.SetFieldShows` | os_final_project/code/fs/fs.c:159 | a word stored in a file record on its block changes that field of that file and nothing else |
| `CachedOps.WalkShows` | os_final_project/code/fs/fs.c:146-173 | the walk over the cached disk has the result it has on values, and leaves the disk holding that state |
| `CachedOps.GetBlockShows` | os_final_project/code/fs/fs.c:183-201 | the same for the block lookup that allocates |
| `CachedOps.ReadShows` | os_final_project/code/fs/fs.c:365-387 | the same for a read: its bytes, its errors and what it allocates |
| `CachedOps.WriteShows` | os_final_project/code/fs/fs.c:394-416 | the same for a write, also when it fails half-way |
| `CachedOps.SetSizeShows` | os_final_project/code/fs/fs.c:463-471 | the same for a resize, with the truncation and the flush of the record |
| `CachedFsTheorems.RunShows` | os_final_project/code/fs/fs.c:365-502 | over every run of reads, writes and resizes, with blocks flushed and evicted, `fs_sync` and synced restarts anywhere in between: the same results as on values, no panic, and the disk as it is seen holds the same file system |
| `CachedFsTheorems.MountedRunShows` | os_final_project/code/fs/fs.c:365-502 | so every such run from any file system on a disk with nothing cached returns what it returns on values |
| `CachedFsTheorems.WriteSurvivesRestart` | os_final_project/code/fs/fs.c:394-502 | what was written is read back after `fs_sync` and a crash |
| `CachedFsTheorems.NamedIsInUseOnDisk` | os_final_project/code/fs/fs.c:57-79 | with a one-block bitmap, a crash after any such run, synced or not, leaves no block that a file names marked free on the disk |
| `CacheTheorems.FaultPanicsIff` | os_final_project/code/fs/bc.c:44-79 | a fault, with the further faults of reading the bitmap, is invisible but for the panic, and panics exactly if the block is free |
| `CacheTheorems.TouchPanicsIff` | os_final_project/code/fs/bc.c:75-78 | using a block panics exactly if it is free and not in the cache |
| `CacheTheorems.TouchShows` | os_final_project/code/fs/bc.c:44-79 | using an allocated block changes no block's contents, leaves every clean page equal to its disk block, and finds the block's contents in the page |
| `CacheTheorems.FaultIsClean` | os_final_project/code/fs/bc.c:60-78 | reading a block in makes no page dirty and leaves the pages that were mapped before as they were |
| `CacheTheorems.FlushShows` | os_final_project/code/fs/bc.c:89-105 | a flush changes no block's contents, and on the disk this block only, to what is seen |
| `CacheTheorems.UnmapShowsIff` | os_final_project/code/fs/bc.c:124 | dropping a page is invisible exactly if it is clean or equal to the disk |
| `CacheTheorems.SyncShows` | os_final_project/code/fs/fs.c:496-502 | after `fs_sync` every block from 1 is on the disk as it is seen, and nothing changed |
| `CacheTheorems.CacheIsTransparent` | os_final_project/code/fs/bc.c:43-105 | over every interleaving of reads, writes, flushes, evictions, syncs, allocations and frees the replies and the contents are those of a plain array of blocks |
| `CacheTheorems.NoPanics` | os_final_project/code/fs/bc.c:75-78 | so a file system that reads and writes allocated blocks only never meets the panic, neither on its own blocks nor on the bitmap's, and each of its runs gets to its end |
| `CacheTheorems.ReservedStep` | os_final_project/code/fs/fs.c:86-99 | every allowed operation leaves the reserved blocks marked in use |
| `CacheTheorems.SyncSurvivesCrash` | os_final_project/code/fs/fs.c:496-502 | a crash right after `fs_sync` loses nothing |
| `CacheTheorems.SyncedRunSurvivesCrash` | os_final_project/code/fs/fs.c:496-502 | after any run, `fs_sync` and a crash the blocks are those of the plain array |
| `CacheDurable.AllocIsDurableIff` | os_final_project/code/fs/fs.c:57-79 | an allocation keeps the disk's bitmap safe exactly if the lowest free block has its bit in the first bitmap block or was in use on the disk before |
| `CacheDurable.LargeBitmapIsNotDurable` | os_final_project/code/fs/fs.c:76-77 | for every size above 32768 blocks a disk on which an allocated block is still free on the disk |
| `CacheDurable.AllocationsAreDurable` | os_final_project/code/fs/fs.c:40-79 | with a one-block bitmap every block in use in memory is in use on the disk, after every run |
| `CacheDurable.DurableForAllRunsIff` | os_final_project/code/fs/fs.c:57-79 | every run from every state of a disk keeps its allocations on the disk if and only if the disk has at most 32768 blocks |
| `BlockCache.Cache.constructor` | os_final_project/code/fs/bc.c:138-146 | the starting state: a disk with given blocks, and of them the super block alone in the cache, clean |
| `BlockCache.Cache.PageFault` | os_final_project/code/fs/bc.c:44-79 | the page becomes a clean, mapped copy of the disk block; then the block's bit is read, with a fault of its own if need be, and a set bit panics |
| `BlockCache.Cache.FlushBlock` | os_final_project/code/fs/bc.c:88-105 | writes back a mapped dirty page and clears its dirty bit, and else does nothing |
| `BlockCache.Cache.FsSync` | os_final_project/code/fs/fs.c:496-502 | the loop from block 1 |
| `BlockCache.Cache.AllocBlock` | os_final_project/code/fs/fs.c:57-79 | the search through the cached bitmap, the cleared bit and the flush of the first bitmap block |
| `AStar.BuildAdjacency` | gameai/homework6/astarnavigator.py:126-129 | the adjacency sets hold exactly the network's edges in both directions |
| `AStar.PoppedIsCheapest` | gameai/homework6/astarnavigator.py:136-143 | the first entry popped for a point has the least cost of any walk to it |
| `AStar.SettleDistance` | gameai/homework6/astarnavigator.py:144-152 | closing a point keeps every closed point's recorded cost minimal |
| `AStar.EmptyQueueIsComponent` | gameai/homework6/astarnavigator.py:136-159 | when the queue runs empty the closed points are exactly the part of the network reached from the start |
| `AStar.Search` | gameai/homework6/astarnavigator.py:136-152 | the loop terminates, with an entry for the goal or an empty queue |
| `AStar.Astar` | gameai/homework6/astarnavigator.py:120-161 | a non-empty result is a simple walk no longer than any other, and no point is closed that is further from the goal, by a shortest walk and then straight on, than the result is long; an empty one means there is none, and then the closed list is the start's component |
| `FloydWarshall.Initialise` | gameai/homework6/mycreatepathnetwork.py:174-193 | the first tables: zero on the diagonal, edge lengths, infinity elsewhere, no intermediates |
| `FloydWarshall.RelaxThrough` | gameai/homework6/mycreatepathnetwork.py:195-199 | relaxing in place through one more node covers all walks through the nodes so far |
| `FloydWarshall.Foox` | gameai/homework6/mycreatepathnetwork.py:173-200 | every entry is the least walk length or infinite exactly if there is no walk, and every recorded intermediate splits its pair's distance exactly |
| `FloydWarshall.ExpandedPathIsShortest` | gameai/homework6/mycreatepathnetwork.py:196-200 | expanding intermediates terminates in a shortest walk |
| `FloydWarshall.TableAgreesWithSearch` | gameai/homework6/mycreatepathnetwork.py:173-200 | any shortest walk, A*'s in particular, has the tabulated length |
| `Planners.PlanBothWays` | gameai/homework6/astarnavigator.py:120-161 | on one network A* finds a path exactly if the table has a distance, and its length is that entry and the length of the expanded path |
| `CacheTrace.TagAndIndexSplitBlockNumber` | cs_2200/caching/prj5/cachesim.c:59-69 | tag and index are the two halves of the block number, in 64-bit shifts, also in the fully associative case |
| `CacheTrace.SameBlockIff` | cs_2200/caching/prj5/cachesim.c:59-69 | two addresses have the same tag and index exactly if they are in the same block |
| `LruStack.ContentsAreTopOfStack` | cs_2200/caching/prj5/cachesim.c:161-204 | a set holds the most recently used tags, most recent first, cut off at its number of ways |
| `LruStack.HitIffReused` | cs_2200/caching/prj5/cachesim.c:71-107 | an access hits exactly if its tag was used before and fewer distinct other tags than ways were used since |
| `LruStack.MoreWaysHoldMore` | cs_2200/caching/prj5/cachesim.c:97-107 | after any trace more ways hold all that fewer ways hold |
| `LruDirty.DirtyIffWritten` | cs_2200/caching/prj5/cachesim.c:178-201 | a resident block is dirty exactly if it was written since it was last brought in |
| `CacheTrace.LinesIncluded` | cs_2200/caching/prj5/cachesim.c:124-153 | with equal block size and number of lines every line of the more associative cache includes the other's |
| `CacheTrace.MissesNeverRise` | cs_2200/caching/prj5/cachesim.c:161-204 | so misses never rise with associativity, over every trace |
| `CacheTrace.StatsCount` | cs_2200/caching/prj5/cachesim.c:161-204 | each counter is the number of accesses of its kind: reads, writes, misses of both, write-backs |
| `LruLine.HitLine` | cs_2200/caching/prj5/cachesim.c:178-182 | restamping the hit block moves its tag to the front of the recency list |
| `LruLine.FillLine` | cs_2200/caching/prj5/cachesim.c:192-201 | loading into an empty block puts the tag in front and drops nothing |
| `LruLine.EvictLine` | cs_2200/caching/prj5/cachesim.c:195-201 | loading into the block with the least timestamp drops exactly the last of the list |
| `CacheSim.Cache.constructor` | cs_2200/caching/prj5/cachesim.c:124-153 | an empty cache of the given geometry, for the empty history |
| `CacheSim.Cache.GetHitBlock` | cs_2200/caching/prj5/cachesim.c:71-84 | the first valid block with the address's tag, or none |
| `CacheSim.Cache.GetEmptyBlock` | cs_2200/caching/prj5/cachesim.c:86-95 | the first invalid block, or none |
| `CacheSim.Cache.GetLruBlock` | cs_2200/caching/prj5/cachesim.c:97-107 | the first block among those whose timestamp is least |
| `CacheSim.Cache.CacheAccess` | cs_2200/caching/prj5/cachesim.c:161-204 | every line stays the recency list of the accesses to it, and the counters are those the reuse-distance rule gives for the history |
| `CacheSim.OutcomeIsReuse` | cs_2200/caching/prj5/cachesim.c:175-200 | hit, miss and write-back of one access as the history decides them |
| `SchedInvariant.RunningAtCpuOp` | cs_2200/scheduling/prj6/os-sim.c:527-535 | whatever runs on a CPU is at a CPU operation, so the error cases are never reached |
| `SchedInvariant.ScheduleKeeps` | cs_2200/scheduling/prj6/student.c:84-98 | scheduling an idle CPU keeps every process in its place |
| `SchedInvariant.PreemptKeeps` | cs_2200/scheduling/prj6/student.c:142-162 | so does preemption |
| `SchedInvariant.YieldKeeps` | cs_2200/scheduling/prj6/student.c:172-178 | so does yielding for I/O, with the request queued |
| `SchedInvariant.TerminateKeeps` | cs_2200/scheduling/prj6/student.c:186-192 | so does terminating, and the count of terminated processes stays right |
| `SchedInvariant.IoDoneKeeps` | cs_2200/scheduling/prj6/os-sim.c:563-594 | so does the end of an I/O request, with `wake_up` in every mode |
| `SchedInvariant.CreateKeeps` | cs_2200/scheduling/prj6/os-sim.c:596-611 | so does creating the next process |
| `SchedInvariant.ProcessKeeps` | cs_2200/scheduling/prj6/os-sim.c:456-537 | so does one tick of a running process |
| `SchedInvariant.TickKeeps` | cs_2200/scheduling/prj6/os-sim.c:176-193 | after every round, with idle CPUs scheduled at any time in any order: ready processes are the duplicate-free ready queue, waiting ones the I/O queue, each running one current on exactly one CPU |
| `SchedTimers.VictimIs` | cs_2200/scheduling/prj6/student.c:217-228 | which CPU a wake-up preempts: the first without a running process, or else the first of those with the least priority if that is below the new one's |
| `SchedTimers.BurstIsCutIff` | cs_2200/scheduling/prj6/os-sim.c:470-487 | a burst is cut exactly when its slice is used up, and never without a slice; then the process goes to the queue's tail and the queue's head gets the CPU and a new slice |
| `SchedSteps.WakeUpIs` | cs_2200/scheduling/prj6/student.c:210-236 | in priority mode, with every CPU running and one of them a lower priority, the first of those with the least priority goes to the queue behind the woken process and its CPU to the queue's head; in all other cases the woken process is queued and no CPU changes |
| `SchedSteps.BurstEnds` | cs_2200/scheduling/prj6/os-sim.c:489-523 | at the end of a burst the process moves on: with a request at the tail of the I/O queue or at its end it leaves the CPU to the queue's head |
| `SchedSteps.IdleTakes` | cs_2200/scheduling/prj6/student.c:84-98 | an idle CPU takes the head of the queue and nothing else changes |
| `SchedSteps.RequestServed` | cs_2200/scheduling/prj6/os-sim.c:563-594 | only the head request counts down; at 0 it leaves the queue, and its process wakes up at its next operation |
| `SchedSteps.NextCreated` | cs_2200/scheduling/prj6/os-sim.c:596-611 | every tenth tick the next process wakes up for the first time |
| `SchedSteps.NewcomerWaits` | cs_2200/scheduling/prj6/os-sim.c:185-193 | a process does not compute in the round that creates it |
| `SchedSteps.WokenWaits` | cs_2200/scheduling/prj6/os-sim.c:185-193 | a process whose request is done moves on in that round and does not compute in it |
| `SchedSteps.WokenBeforeCreated` | cs_2200/scheduling/prj6/os-sim.c:185-193 | in the queue the woken process of a round stands in front of the new one |
| `SchedTimers.TickTimers` | cs_2200/scheduling/prj6/os-sim.c:176-193 | after every round each running process is within its slice |
| `SchedTimers.RunFromStartTimers` | cs_2200/scheduling/prj6/os-sim.c:122-193 | so it is at every point of every run from the start |
| `SchedTermination.TickOnTime` | cs_2200/scheduling/prj6/os-sim.c:596-611 | at time t exactly min(P, t / 10 rounded up) processes have been created |
| `SchedTermination.TickWork` | cs_2200/scheduling/prj6/os-sim.c:185-193 | work is conserved: a round takes off exactly the ticks of computing and I/O it performs |
| `SchedTermination.NoIdleRound` | cs_2200/scheduling/prj6/os-sim.c:445-611 | once all processes exist and idle CPUs have taken what is queued, no round before the end is wasted |
| `SchedTermination.RunKeeps` | cs_2200/scheduling/prj6/os-sim.c:176-193 | the placement holds after any number of rounds, and the work done and the work left add up |
| `SchedTermination.RunsTerminate` | cs_2200/scheduling/prj6/os-sim.c:176-193 | every run has at most 10 P - 9 rounds plus the sum of (time + 1) over all operations, in every mode |
| `SchedTermination.FinishedRun` | cs_2200/scheduling/prj6/os-sim.c:181-186 | a finished run did exactly the work given, all processes are terminated, both queues empty and all CPUs idle |
| `SchedTermination.CanSettle` | cs_2200/scheduling/prj6/student.c:130-139 | idle CPUs can always take the queued work, so the fairness that termination asks for can be met |
| `SchedTermination.CanFinish` | cs_2200/scheduling/prj6/os-sim.c:176-193 | from every starting state some run ends with all processes terminated, within the bound and having done exactly the work given |
| `SchedSim.AlwaysSettles` | cs_2200/scheduling/prj6/student.c:130-139 | the fairness the supervisor's loop assumes of the idle CPUs can be met forever, from every settled state |
| `SchedSim.Simulator.constructor` | cs_2200/scheduling/prj6/os-sim.c:122-160 | the state the simulator starts from |
| `SchedSim.Simulator.GetNextProcess` | cs_2200/scheduling/prj6/student.c:51-65 | unlinks the first process of the linked ready queue |
| `SchedSim.Simulator.AddProcess` | cs_2200/scheduling/prj6/student.c:67-82 | links a process in at the tail |
| `SchedSim.Simulator.ScheduleWorker` | cs_2200/scheduling/prj6/student.c:84-98 | in place, the next process or idle, and the context switch |
| `SchedSim.Simulator.Preempt` | cs_2200/scheduling/prj6/student.c:142-162 | in place, back to the queue and schedule again |
| `SchedSim.Simulator.Yield` | cs_2200/scheduling/prj6/student.c:172-178 | in place |
| `SchedSim.Simulator.Terminate` | cs_2200/scheduling/prj6/student.c:186-192 | in place, with the count kept by the CPU thread |
| `SchedSim.Simulator.FindVictim` | cs_2200/scheduling/prj6/student.c:217-228 | the loop for the first idle CPU or the least priority below the new process's |
| `SchedSim.Simulator.WakeUp` | cs_2200/scheduling/prj6/student.c:210-236 | in place, with the forced preemption in priority mode |
| `SchedSim.Simulator.SimulateProcess` | cs_2200/scheduling/prj6/os-sim.c:456-537 | in place: burst, timer, next operation |
| `SchedSim.Simulator.SimulateIo` | cs_2200/scheduling/prj6/os-sim.c:563-594 | in place: the head request's countdown or its end |
| `SchedSim.Simulator.SimulateCreat` | cs_2200/scheduling/prj6/os-sim.c:596-611 | in place: a process every tenth tick |
| `SchedSim.Simulator.Tick` | cs_2200/scheduling/prj6/os-sim.c:188-192 | one round of the supervisor in place, keeping the placement |
| `SchedSim.Simulator.Supervise` | cs_2200/scheduling/prj6/os-sim.c:170-197 | the supervisor's loop ends within the bound with every process terminated |
| `Binary.FormatThenRead` | cs_2200/LC-2200/Assembly/lc2200-16sim.py:42 | a number formatted to any width is read back |
| `Binary.ReadThenFormat` | cs_2200/LC-2200/Assembly/lc2200-16sim.py:148 | a word of full width, or wider without leading zeros, is formatted back digit for digit |
| `AsmModel.EmitAt` | cs_2200/LC-2200/Assembly/lc2200-16as.py:194-221 | each instruction's address is the number of words written before it, and its words stand there in the image |
| `AsmModel.PassesAgree` | cs_2200/LC-2200/Assembly/lc2200-16as.py:167-221 | the passes' addresses differ by the number of lines with neither label nor opcode |
| `AsmModel.SymbolValue` | cs_2200/LC-2200/Assembly/lc2200-16as.py:181-189 | a symbol is the address of its last definition, off by the bare lines before it |
| `AsmCorrect.Imm5RoundTrip` | cs_2200/LC-2200/Assembly/lc2200-16as.py:60-63 | every offset the assembler accepts is decoded to the same signed number |
| `AsmCorrect.RegRoundTrip` | cs_2200/LC-2200/Assembly/lc2200-16as.py:32-35 | every register name's four bits decode to its number |
| `AsmCorrect.Decoded` | cs_2200/LC-2200/Assembly/lc2200-16sim.py:145-171 | an assembled word in memory is decoded to the fields it was made of |
| `AsmCorrect.BranchOffset` | cs_2200/LC-2200/Assembly/lc2200-16as.py:247-253 | the encoded offset leads from the next instruction to the label, or by the number if the label is out of reach |
| `AsmCorrect.StepLa` | cs_2200/LC-2200/Assembly/lc2200-16as.py:318-353 | the four words of `la` leave the label's address in the register, 0 in `$zero`, and go on behind them |
| `AsmCorrect.StepSpop` | cs_2200/LC-2200/Assembly/lc2200-16as.py:275-284 | `spop` halts with any control code, also one that makes the word too long |
| `AsmCorrect.StepNoop` | cs_2200/LC-2200/Assembly/lc2200-16as.py:288-291 | the all-zero word changes nothing but the program counter |
| `AsmRuns.StepSource` | cs_2200/LC-2200/Assembly/lc2200-16sim.py:143-196 | the words of every instruction take the machine where its source line says |
| `LcSteps.DecodesTo` | cs_2200/LC-2200/Assembly/lc2200-16sim.py:143-149 | the fields of a 16-bit word are its digits 0 to 2, 3 to 6, 7 to 10 and 11 to 14, and the last five as a signed number |
| `LcSteps.AddStep` | cs_2200/LC-2200/Assembly/lc2200-16sim.py:150-155 | the sum modulo 2^16 in register x, and no other change |
| `LcSteps.NandStep` | cs_2200/LC-2200/Assembly/lc2200-16sim.py:156-161 | the bitwise nand in register x, and no other change |
| `LcSteps.AddiStep` | cs_2200/LC-2200/Assembly/lc2200-16sim.py:162-167 | the sum with the offset in register x, moved up by 2^16 if negative |
| `LcSteps.LoadStep` | cs_2200/LC-2200/Assembly/lc2200-16sim.py:168-172 | register x holds the word at register y plus the offset, or 0 if there is none; memory is untouched |
| `LcSteps.StoreStep` | cs_2200/LC-2200/Assembly/lc2200-16sim.py:173-177 | that one address holds register x; every other address and all registers keep their values |
| `LcSteps.BranchStep` | cs_2200/LC-2200/Assembly/lc2200-16sim.py:178-183 | with equal registers the offset is added to the next address, with different ones it is not |
| `LcSteps.JumpStep` | cs_2200/LC-2200/Assembly/lc2200-16sim.py:184-188 | the link goes to register y, the program counter to register x as it was, or to the link if both are one register |
| `LcSteps.HaltStep` | cs_2200/LC-2200/Assembly/lc2200-16sim.py:189-193 | the machine stands still, halted |
| `LcSteps.HaltedStays` | cs_2200/LC-2200/Assembly/lc2200-16sim.py:136-141 | a halted machine stays as it is, however long it is run |
| `LcSteps.RunGoesOn` | cs_2200/LC-2200/Assembly/lc2200-16sim.py:136-141 | any other goes on from its next step, or ends with the lookup's error |
| `Alu.AddIsModular` | cs_2200/LC-2200/Assembly/lc2200-16sim.py:150-155 | on 16-bit words the signed detour of `add` is addition modulo 2^16 |
| `Alu.NandIsBitwise` | cs_2200/LC-2200/Assembly/lc2200-16sim.py:156-161 | on 16-bit words each bit of `nand` is set exactly if not both operands have it |
| `Alu.AddiIsModularIff` | cs_2200/LC-2200/Assembly/lc2200-16sim.py:162-167 | `addi` is addition modulo 2^16, and leaves a 16-bit word, exactly if it does not carry out |
| `Alu.ZeroStaysZero` | cs_2200/LC-2200/Assembly/lc2200-16sim.py:195-196 | register 0 is 0 after every instruction |
| `AsmLimits.OutOfReachAcceptedIff` | cs_2200/LC-2200/Assembly/lc2200-16as.py:247-253 | a branch to a label out of reach is accepted exactly if the label's name is itself a number in range, and then goes that far |
| `AsmLimits.LandsOnLabelIff` | cs_2200/LC-2200/Assembly/lc2200-16as.py:247-253 | an accepted branch to a label goes to it exactly if the label is in reach |
| `AsmLimits.NumericLabelIsMissed` | cs_2200/LC-2200/Assembly/lc2200-16as.py:247-253 | a label called 5 that its branch misses |
| `AsmLimits.SixteenBitsIff` | cs_2200/LC-2200/Assembly/lc2200-16as.py:223-353 | the words of an instruction have 16 bits exactly if its control code is below 4, its data below 65536, or its label's address below 65536 |
| `AsmLimits.LongSpop` | cs_2200/LC-2200/Assembly/lc2200-16as.py:275-284 | an `spop` that is not 16 bits long |
| `AsmLimits.RegisterNumbers` | cs_2200/LC-2200/Assembly/lc2200-16as.py:32-35 | the sixteen register names and their numbers |
| `AsmLimits.AssemblesIff` | cs_2200/LC-2200/Assembly/lc2200-16as.py:223-362 | exactly which instructions assemble and which end in an error exit |
| `AsmLimits.WordIsItsValue` | cs_2200/LC-2200/Assembly/lc2200-16as.py:223-362 | a data word is the number it was given |
| `AsmRuns.LoadIsIntact` | cs_2200/LC-2200/Assembly/lc2200-16sim.py:37-43 | loading puts every instruction's words at its address |
| `AsmRuns.ForwardSimulation` | cs_2200/LC-2200/Assembly/lc2200-16sim.py:136-196 | over runs of any length in which no store changes an instruction, the machine reaches exactly the source program's state |
| `AsmRuns.AssembledProgramRuns` | cs_2200/LC-2200/Assembly/lc2200-16as.py:397-407 | the same from a program assembled with both passes and loaded |
| `AsmRuns.LabelIsAddress` | cs_2200/LC-2200/Assembly/lc2200-16as.py:181-189 | a label stands for the address of the instruction after it exactly if no bare line comes before |
| `AsmRuns.BranchLandsOnLabel` | cs_2200/LC-2200/Assembly/lc2200-16as.py:247-253 | a taken branch goes on with the instruction after its label |
| `AsmRuns.BareLineShiftsLabels` | cs_2200/LC-2200/Assembly/lc2200-16as.py:183-189 | a program of four lines whose label names the wrong instruction |
| `Assembler.Asm.FirstPass` | cs_2200/LC-2200/Assembly/lc2200-16as.py:167-191 | the loop that fills the symbol table |
| `Assembler.Asm.AssembleLine` | cs_2200/LC-2200/Assembly/lc2200-16as.py:223-362 | the words written for a line, or the error exit |
| `Assembler.Asm.SecondPass` | cs_2200/LC-2200/Assembly/lc2200-16as.py:194-221 | the output is the words of all lines in order, or the run exits at the first error |
| `Assembler.Asm.AssembleFile` | cs_2200/LC-2200/Assembly/lc2200-16as.py:397-407 | both passes: pass 1's symbols are the ones pass 2 uses |
| `Assembler.Machine.LoadProgram` | cs_2200/LC-2200/Assembly/lc2200-16sim.py:37-43 | memory holds exactly the image's words from address 0 |
| `Assembler.Machine.StepInstruction` | cs_2200/LC-2200/Assembly/lc2200-16sim.py:143-196 | the step on the register array and the memory map, with the lookup error for a negative word |
| `RtpTheorems.SumsDiffer` | cs_2200/networking/prj7/rtp.c:61-75 | signed and unsigned checksums are equal, or 256 apart if an odd number of bytes has the high bit |
| `RtpTheorems.XorDigits` | cs_2200/networking/prj7/rtp.c:61-75 | the checksums' operation is exclusive or, digit by digit, on negative numbers too |
| `RtpTheorems.AcceptsIff` | cs_2200/networking/prj7/rtp.c:193-213 | a packet is accepted exactly if it is not corrupted and its high bytes are even in number |
| `RtpTheorems.AcceptGrows` | cs_2200/networking/prj7/rtp.c:196-204 | the buffer keeps its size while the bytes fit, and else grows to twice that size and room for all bytes |
| `RtpTheorems.RunInStepIff` | cs_2200/networking/prj7/rtp.c:192-215 | at a point of a run the buffer is the concatenation of the accepted payloads and the sender's index their number, for every reply but the one of a single seven-bit byte, and for that one until its first clean round |
| `RtpTheorems.DeliveredIff` | cs_2200/networking/prj7/prj7-server.py:100-120 | for every reply but those of one byte: it arrives, followed by a NUL, exactly if each packet can pass and enough rounds are clean |
| `RtpTheorems.RoundsTaken` | cs_2200/networking/prj7/prj7-server.py:100-120 | the run ends after exactly packets plus corruptions rounds |
| `RtpTheorems.SevenBitPasses` | cs_2200/networking/prj7/prj7-server.py:42-46 | seven-bit replies have no packet that cannot pass |
| `RtpTheorems.OneByteCrashesIff` | cs_2200/networking/prj7/rtp.c:181-206 | a one-byte reply never arrives; the copy to NULL happens exactly at the first clean round |
| `Rtp.ServerPacketize` | cs_2200/networking/prj7/prj7-server.py:48-58 | the packets of a message, with the single empty packet of an empty one |
| `Rtp.ClientPacketize` | cs_2200/networking/prj7/rtp.c:82-124 | the client's packets are the server's but for the signed checksum |
| `Rtp.ClientPacketIs` | cs_2200/networking/prj7/rtp.c:101-121 | the last of the client's packets and no other is `LAST_DATA`; all but the last are full, none is empty, and each passes the client's own check |
| `Rtp.ClientPacketsJoin` | cs_2200/networking/prj7/rtp.c:101-121 | their payloads join to the message |
| `Rtp.ServerChecksum` | cs_2200/networking/prj7/prj7-server.py:42-46 | the accumulator loop |
| `Rtp.ClientChecksum` | cs_2200/networking/prj7/rtp.c:61-75 | the accumulator loop over signed characters |
| `Rtp.Receiver.Receive` | cs_2200/networking/prj7/rtp.c:193-214 | one packet: checksum, growth of the buffer, copy, reply, and the crash while there is no buffer |
| `Rtp.Exchange` | cs_2200/networking/prj7/prj7-server.py:100-120 | both programs against any pattern of corruption go through the states the theorems speak of |
| `BtTheorems.Tick` | gameai/homework6/btnode.py:126-166 | for any tree: one tick runs one leaf, returns None unless it is the run's last, and leaves exactly the rest of the run to do; if no leaf is left it raises the lookup's error |
| `BtTheorems.WholeRun` | gameai/homework6/behaviortree.py:69-76 | if evaluation comes to no empty node, a run returns None until its last tick and then the left-to-right short-circuit value; it takes the sum of the delays of the leaves evaluated |
| `BtTheorems.CrashRun` | gameai/homework6/btnode.py:126-166 | otherwise it ticks the leaves before the empty node without a result, and the next tick raises the error |
| `BtTheorems.GivesValueIff` | gameai/homework6/btnode.py:126-166 | a run gives a value if and only if short-circuit evaluation comes to no empty node |
| `BtTheorems.DocumentedIff` | gameai/homework6/btnode.py:119-158 | from the start of a run the value the comments promise (a sequence succeeds iff all its children do, a selector iff some child does) comes out exactly if left-to-right evaluation meets no node without children |
| `BtTheorems.RunGivesDocumented` | gameai/homework6/btnode.py:119-166 | and then every tick before the last returns None, and the last that value |
| `BtTheorems.FullTreeMeetsNone` | gameai/homework6/btnode.py:119-166 | so it is on every tree without empty nodes |
| `BtTheorems.LeafSucceedsIff` | gameai/homework6/behaviortree.py:151-185 | a test leaf succeeds exactly if its id is an even number, and reports that; an odd or missing id fails |
| `BtTheorems.LeafTakes` | gameai/homework6/behaviortree.py:151-185 | a delayed leaf set to t ticks gives its result on tick t, any other on the first |
| `BtTheorems.EmptyNodeCrashes` | gameai/homework6/btnode.py:126-130 | a sequence or selector without children raises the error at its first tick |
| `BtTheorems.UnreachedEmptyNode` | gameai/homework6/btnode.py:153-166 | an empty sequence behind a child that succeeds does a selector no harm |
| `BtTheorems.TickEnters` | gameai/homework6/btnode.py:66-72 | a tick enters the nodes on the way to the current leaf and leaves all others as they are |
| `BtTheorems.ResetIsFresh` | gameai/homework6/btnode.py:83-87 | after a reset no node of the tree has been entered and every inner node stands at its first child |
| `BtTheorems.LaterRuns` | gameai/homework6/btnode.py:83-87 | every later run evaluates the same leaves to the same value with one tick each, since reset does not restore timers |
| `BehaviorTree.BTNode.Execute` | gameai/homework6/btnode.py:126-166 | the recursion through the objects, up to a failed lookup, changes the nodes on the way to the current leaf and nothing else |
| `BehaviorTree.BTNode.ExecuteLeaf` | gameai/homework6/behaviortree.py:151-185 | a test leaf's timer, result and report |
| `BehaviorTree.BTNode.Reset` | gameai/homework6/btnode.py:83-87 | all indices and entry flags of the tree, and no timer |
| `BehaviorTree.TestBehaviorTree.Update` | gameai/homework6/behaviortree.py:69-76 | a running tree is ticked and reset after a result, and not after an error; one that is not running fails |
| `BehaviorTree.TestBehaviorTree.Drive` | gameai/homework6/behaviortree.py:59-83 | a tree set, started, updated any number of times and stopped reports and returns what the run on values does, or fails where that does |
| `Polygon.MergeConserves` | gameai/homework3/homework3/mycreatepathnetwork.py:93-112 | a merge of full length repeats no vertex, has all vertices of both, and the sum of their signed areas |
| `Polygon.FullLengthIff` | gameai/homework3/homework3/mycreatepathnetwork.py:123 | the merge has full length exactly if the common points are a side of both, in opposite directions |
| `Polygon.RotateArea` | gameai/homework3/homework3/mycreatepathnetwork.py:150-156 | the signed area does not depend on the first vertex |
| `Polygon.MergeSwapped` | gameai/homework3/homework3/mycreatepathnetwork.py:93-112 | merging two polygons the other way round gives the same polygon from another vertex on |
| `PolyMerge.ReplaceTotal` | gameai/homework3/homework3/mycreatepathnetwork.py:136-138 | replacing two polygons by their merge keeps the total area unless the merge was in the set already |
| `PolyMerge.CommonPoints` | gameai/homework3/homework3/utils.py:246-253 | the two loops list each common point as often as it matches |
| `PolyMerge.Merge2Polys` | gameai/homework3/homework3/mycreatepathnetwork.py:93-112 | the two while loops collect the two arcs |
| `PolyMerge.PassKeeps` | gameai/homework3/homework3/mycreatepathnetwork.py:114-139 | a pass over all pairs repeats no vertex in any polygon, keeps every vertex, and leaves the set as it is or smaller |
| `PolyMerge.MergePairIff` | gameai/homework3/homework3/mycreatepathnetwork.py:114-138 | two polygons of the set are replaced by the way round both of them exactly if they have a side in common, in opposite directions and with no further common vertex, and that polygon passes the tests |
| `PolyMerge.PassArea` | gameai/homework3/homework3/mycreatepathnetwork.py:136-138 | the total signed area falls by exactly the merges that were in the set before |
| `PolyMerge.PassConservesArea` | gameai/homework3/homework3/mycreatepathnetwork.py:136-138 | a pass in which no merge was in the set before conserves the total signed area |
| `PolyMerge.PassIsIdleIff` | gameai/homework3/homework3/mycreatepathnetwork.py:114-139 | a pass leaves the set as it is exactly if no pair of it merges |
| `PolyMerge.IdleInAnyOrder` | gameai/homework3/homework3/mycreatepathnetwork.py:114-139 | if the tests do not depend on a polygon's first vertex, a set that a pass in one order leaves as it is stays so in any order |
| `PolyMerge.RunKeeps` | gameai/homework3/homework3/mycreatepathnetwork.py:80-89 | the same vertices, and the area but for the merges that were in the set before, over any number of passes with the set listed in any order in between |
| `PolyMerge.MergeAllPolys` | gameai/homework3/homework3/mycreatepathnetwork.py:114-139 | the loops do the pass over all pairs, with the vertices and the area it accounts for |
| `PolyMerge.MergeUntilStable` | gameai/homework3/homework3/mycreatepathnetwork.py:80-89 | the loop ends after a run of passes the last of which changed nothing, with all vertices and the area accounted for; every polygon was there before or passes the tests, and no pair is left that could be merged |
| `QLearning.ShippedIsWalled` | gameai/rl/Environment.py:23-58 | the grid and the start state that are shipped are walled and on open cells |
| `QLearning.Walk` | gameai/rl/Environment.py:265-278 | nobody leaves the open cells of a walled grid |
| `QLearning.WalkIs` | gameai/rl/Environment.py:265-278 | the four directions and the walls between |
| `QLearning.EnvStepIs` | gameai/rl/Environment.py:169-224 | the bot moves or smashes an enemy it is together with, then a living enemy torments or moves, then the survivor on the cell is saved |
| `QLearning.RewardInRange` | gameai/rl/Environment.py:288-312 | every reward is within [-40, 50] |
| `QLearning.RewardIs` | gameai/rl/Environment.py:288-312 | what torment, a dead enemy, each saved survivor and the cell add to the reward |
| `QLearning.UpdateStaysBounded` | gameai/rl/Agent.py:181-188 | an update keeps all entries within [-400, 500] |
| `QLearning.UpdateIs` | gameai/rl/Agent.py:181-188 | the one entry moves half the way to the reward plus nine tenths of the next state's best entry, or to the reward alone at the end |
| `QLearning.GreedyIs` | gameai/rl/Agent.py:210-216 | the greedy action is the first of the best ones |
| `QLearning.LearnStepIs` | gameai/rl/Agent.py:124-169 | which entry learns from which reward and state in one turn |
| `QLearning.EpisodeIs` | gameai/rl/Agent.py:124-169 | an episode goes on until the terminal goal or 500 steps |
| `QLearning.Training` | gameai/rl/Agent.py:124-169 | so they stay over any number of episodes, for any random picks and enemy moves |
| `QLearning.Agent.Greedy` | gameai/rl/Agent.py:210-216 | the first of the best actions, with the row made if it is missing |
| `QLearning.Agent.UpdateVtable` | gameai/rl/Agent.py:181-188 | the one entry changed, and its new value |
| `QLearning.Agent.QLearn` | gameai/rl/Agent.py:124-169 | the learning loop goes through the episode's states and keeps the bounds |
| `Deque.LinkedList.AddToHead` | cs_2200/playground/threading/threadsafeLinkedList.c:60-80 | both chains stay inverse to each other and the element comes first |
| `Deque.LinkedList.AddToTail` | cs_2200/playground/threading/threadsafeLinkedList.c:82-102 | the element comes last |
| `Deque.LinkedList.RemoveFromHead` | cs_2200/playground/threading/threadsafeLinkedList.c:104-122 | the first element, or a wait on an empty list |
| `Deque.LinkedList.RemoveFromTail` | cs_2200/playground/threading/threadsafeLinkedList.c:124-143 | the last element, or a wait on an empty list |
| `Deque.LinkedList.Perform` | cs_2200/playground/threading/threadsafeLinkedList.c:60-143 | the linked nodes, under critical sections in any order, take out and keep what the run on sequences does |
| `Deque.Conserves` | cs_2200/playground/threading/threadsafeLinkedList.c:60-143 | in such a run what was taken out and what is left is what was there and what was added |
| `Deque.IsFifo` | cs_2200/playground/threading/threadsafeLinkedList.c:82-122 | additions at the tail and removals at the head make a queue |
| `Deque.IsLifo` | cs_2200/playground/threading/threadsafeLinkedList.c:60-122 | additions and removals at the head make a stack: a removal takes out what the addition it balances put in, and leaves what was there before |

## Left out

- `FileSystem.Disk.FreeBlock`: does not model a block number past the end of the bitmap words, which the original does not check.
- `FileSystem.Disk.FileWrite`: does not model the wrap-around of `offset + count` at 32 bits; sizes and positions are unbounded.
- `Bitmap.BitsAreBlocks`: a bitmap word is 32 separate bits, so the shift and mask arithmetic of `1 << (blockno % 32)` is not modelled.
- `CacheTheorems.NoPanics`: the number of blocks is a constant; the reads of the super block that look it up are not modelled.
- `FileSystem.Disk.constructor`: `fs_init` panics through `check_super` and `check_bitmap` on a bad disk; the model starts behind these checks.
- `CachedFsTheorems.RunShows`: the functions over the cache are compositions on values, in place they are the classes `FileSystem.Disk` and `BlockCache.Cache`; the record blocks are fixed, names and types in the records are not modelled, and file sizes fit into `off_t`.
- `CacheSim.Cache.CacheAccess`: the clock is unbounded; its wrap-around after 2^64 accesses is not modelled, nor the derived averages.
- `FloydWarshall.Foox`: the nested dictionaries are maps keyed by pairs of nodes, so sharing of inner dictionaries is not modelled.
- `AStar.Search`: the priority queue may pop any entry with the least estimate; the original's tie-breaking on further fields is one such choice.
- `AsmRuns.ForwardSimulation`: says nothing after a store into an instruction or a jump to data, where a source program has no meaning.
- `Assembler.Asm.SecondPass`: the output left behind by an error exit is not specified.
- `Deque.LinkedList.RemoveFromHead`: waiting on the condition variable is one return value; lost or spurious wake-ups are not modelled.
- `Deque.LinkedList.AddToHead`: allocation is assumed to succeed.
- `Rtp.ClientPacketize`: does not model the empty message, on which the original writes in front of its array.
- `Rtp.Exchange`: replies are neither lost nor corrupted, and no packet is lost.
- `SchedSim.Simulator.Supervise`: handlers are atomic steps; the interleavings inside `simulate_process` and the condition variables of the CPU threads are not modelled.
- `PolyMerge.MergeAllPolys`: the tests on convexity and obstacles are a parameter.
- `BehaviorTree.BTNode.Reset`: trees are built from finished children; `addChild` on a node already in a tree is not modelled.
- Directories, path walking, `file_create`, `fsformat.c`, the IDE driver and page-table system calls: directory entries start with arbitrary contents, so the model has a fixed set of files.
- Priority order in the scheduler: the ready queue is first-in first-out in every mode, so there is nothing to prove.
- Regular expressions of the assembler's parser, and `.word` with a negative value.
- The server's receiving half, pig latin, sockets, and `rtp_send_message`, which the same argument would cover.
- Floating-point rounding: distances, coordinates and table values are exact reals.
- Ray tracing, visibility and point-in-polygon tests, `randomStart`, printing, and all user interfaces.
