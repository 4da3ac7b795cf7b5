# A verified model of the Lithium kernel's storage, memory and process layers

This project models, in Dafny, the parts of the kernel whose correctness spans many functions and many
interleavings, and proves what they promise.

* **Write-ahead log** (`Recovery`, `LogCore`, `LogMachine`, `LogInvariant`, `LogSteps`, `LogTheorems`, `LogMeaning`,
  `WriteAheadLog`, `LogChanges`): the on-disk protocol of `kernel/fs/log.c` write by write, crash atomicity, and every
  interleaving of operations, commit steps, buffer recycling, crashes and recoveries. `LogMeaning` states what
  readers and recovery find in terms of the updates made, without the machine's own records.
* **Buffer cache** (`CacheModel`, `CacheRefs`, `CacheMap`, `BufferCache`, `BlockLayer`): the list of `kernel/fs/buffer.c` as
  linked objects in the heap, its LRU order and reference counts over runs, and `block_read`/`block_write`.
* **Commit over the real cache** (`CommitModel`, `CommitFacts`, `CommitTheorems`, `CommitStarved`, `CommitDurable`,
  `CommitGroup`, `CommitWitness`): what `commit` does when `block_read` can return NULL; exactly when its writes are the crash-atomic
  sequence, when the transaction is torn, and when `commit` never returns; what a completed one leaves behind; and
  whole transactions, from the first `block_read` to the cleared header.
* **Inodes and files** (`DiskInode`, `InodeModel`, `InodeBytes`, `InodeTheorems`, `WriteBudget`, `FileModel`,
  `FileTheorems`, `InodeFile`, `InodeCache`): byte ranges over blocks, chunked writes as one write, the log budget
  of a chunk, and the table of in-memory inodes.
* **Open files and pipes** (`Pipe`, `FileTable`, `FileLifetimes`, `FileRefs`, `OpenFiles`): FIFO order with 32-bit
  counters under any interleaving, what a file's reference count counts, and the lifetime of a pipe's page.
* **Disk driver** (`Virtqueue`, `VirtqueueSteps`, `VirtqueueWalk`, `VirtioDisk`): descriptor chains and the two rings
  of section 2.6 of VIRTIO 1.1, with a device that completes requests in any order, and what that device finds when
  it walks a chain.
* **Memory** (`PhysMem`, `PteBits`, `PageTable`): the page bitmap, and the three-level table as a finite map.
* **Processes** (`ProcTable`, `ProcOwnership`, `Processes`): page conservation over fork, exit and wait.
* **Decimal text** (`Decimal`): `u_itoa` and `u_atoi` in 32-bit arithmetic.

Code that updates state in place is modelled by classes whose methods are tied to functions on values
(`View()` before and after); the theorems are about those functions and about runs of them. One region that holds
a spin lock is one atomic step, and a `sleep` ends a step; what the sleeper finds when it goes on is whatever the
other steps left.

Where the code and its comments disagree, the code is modelled:

* `kernel/fs/buffer.c:8` says a dirty buffer is written before it is reused. `B_DIRTY` is set at
  `kernel/fs/block.c:46` and never cleared, and `kernel/fs/buffer.c:65` refuses dirty buffers, so a buffer once
  written is never recycled. `CommitTheorems.CommitCompletesIffRoom` says when a commit still completes,
  `CommitStarved.CommitSticksIff` when it hangs, and `CommitStarved.CommitTearsIff` when its header covers a slot
  that was never written.
* `include/kernel/mem/virtual_memory.h:30` says bits 53 to 10; its mask covers bits 45 to 10. Line 37 and
  `kernel/mem/paging.c` name SV39, whose entries hold a page number where `MAKE_PTE` puts the address:
  `PageTable.Sv39Disagrees` says what the processor makes of them.
* `include/kernel/fs/inode.h:28` calls the 13th address indirect; `inode_read` and `inode_write` use it as a 13th
  data block, and `kernel/fs/inode.c:291` bounds writes by 140 blocks. `InodeModel.OverrunsIff` says exactly when
  a transfer leaves the 13 entries.

Properties that turned out not to hold of the code are stated with their exact condition: a commit is complete if
and only if its blocks fit the cache, and it sleeps for ever on a lock it holds itself, with `committing` set and no
operation admitted any more, if and only if the busy blocks and its slots do not fit; operations of up to `budget`
blocks never lose one if and only if the log has `Reach(budget)` slots, which holds of 9-block operations and not of
10-block ones; `pipe_read`'s test is right until 2^32 bytes have been written and never again afterwards; a
transfer indexes past `addrs` if and only if its range passes 13 usable blocks; the processor takes a page-table entry
for the address the kernel meant if and only if that address is 0.

## Model

| member | source | states |
|---|---|---|
| `Bytes.LittleEndian` | kernel/fs/log.c:188-191 | the bytes of a 16-bit and a 32-bit field on disk, least significant first |
| `Recovery.HeaderRoundTrip` | kernel/fs/log.c:184-196 | the block numbers write_head stores are the ones read_head reads back |
| `Recovery.HeaderPlaces` | kernel/fs/log.c:29-33 | struct logheader on disk: the count, the block numbers at 4-byte steps, the rest of the block as it was |
| `Recovery.SlotWriteKeeps` | kernel/fs/log.c:199-213 | a slot written under an empty header changes no durable content |
| `Recovery.HeaderWriteCommits` | kernel/fs/log.c:184-196 | one header write makes exactly the slots' contents durable, all at once |
| `Recovery.InstallWriteKeeps` | kernel/fs/log.c:216-234 | copying a slot home changes no durable content, so it can be repeated or cut short |
| `Recovery.ClearWriteKeeps` | kernel/fs/log.c:242-243 | emptying the header after installation changes no durable content |
| `Recovery.RecoveryPrefix` | kernel/fs/log.c:247-253 | a recovery stopped after any write loses nothing and leaves a log that can be recovered again |
| `Recovery.RecoveryIsIdempotent` | kernel/fs/log.c:247-253 | after any number of interrupted recoveries a complete one yields the same home blocks |
| `Recovery.CommitPrefix` | kernel/fs/log.c:236-245 | the disk after every prefix of commit's writes, and its durable content |
| `Recovery.CrashAtomicity` | kernel/fs/log.c:184-253 | crash after any prefix of a commit, then recover through any crashes: home blocks are all old or all new, split at the first header write |
| `LogCore.BeginKeeps` | kernel/fs/log.c:80-97 | admission keeps the space invariant of the open operations |
| `LogCore.WriteKeeps` | kernel/fs/log.c:135-165 | with room for the budget log_write refuses nothing: the block is in the log, once |
| `LogCore.EndKeeps` | kernel/fs/log.c:102-130 | the end of an operation keeps the invariant; the last one starts the commit |
| `LogCore.RunKeeps` | kernel/fs/log.c:80-165 | the space invariant over every run |
| `LogCore.NineBlocksNeverFill` | kernel/fs/log.c:88-139 | operations of at most 9 blocks never log more than 28 in a group and are never refused |
| `LogCore.LogWriteOutcome` | kernel/fs/log.c:135-165 | the block is in the group afterwards exactly if it was, or an operation is open and both bounds leave room; nothing else changes |
| `LogCore.AdmitsExactly` | kernel/fs/log.c:84-90 | whom the admission test lets in, by the operations open and the blocks logged |
| `LogCore.OpenOperations` | kernel/fs/log.c:80-97 | exactly up to three operations can be open at once |
| `LogCore.GroupSizes` | kernel/fs/log.c:80-165 | the sizes a group can reach, exactly, for every log size and budget |
| `LogCore.SpaceBoundIff` | kernel/fs/log.c:80-165 | no run of operations of at most `budget` blocks loses a block if and only if Reach(budget) fits the log |
| `LogCore.SmallLogLoses` | kernel/fs/log.c:139-143 | in every log below that size some run loses a block |
| `LogCore.TwentyEightReached` | kernel/fs/log.c:88-139 | the bound of 28 is reached |
| `LogCore.TenBlocksCanLose` | kernel/fs/log.c:139-143 | with the nominal 10 blocks an operation's block can be refused and lost |
| `LogCore.LargerLogNeverLoses` | kernel/fs/file_system.c:31 | with a log of LOGSIZE + 1 blocks the nominal budget never loses a block |
| `LogSteps.CommitSlotKeeps` | kernel/fs/log.c:199-213 | one slot write of commit keeps the machine's invariant |
| `LogSteps.CommitHeadKeeps` | kernel/fs/log.c:240 | the header write turns the open group into a committed one |
| `LogSteps.InstallKeeps` | kernel/fs/log.c:216-234 | one home write keeps the invariant and drops exactly one pin |
| `LogSteps.ClearHeadKeeps` | kernel/fs/log.c:242-243 | the clearing header write keeps the invariant |
| `LogSteps.RecInstallKeeps` | kernel/fs/log.c:250 | one home write of recovery keeps the invariant |
| `LogSteps.RecClearKeeps` | kernel/fs/log.c:251-252 | the end of recovery keeps the invariant and readers see the committed groups |
| `LogSteps.CrashKeeps` | kernel/fs/log.c:236-253 | power loss in any state keeps every committed group and forgets the open one |
| `LogSteps.StepKeeps` | kernel/fs/log.c:80-253 | every step of any process, of commit, recovery or the environment keeps the invariant |
| `LogTheorems.RecoveredDiskIsCommittedGroups` | kernel/fs/log.c:236-253 | in every reachable state, crash and recovery yield the mounted disk with exactly the committed groups applied |
| `LogTheorems.ReadsSeeLastWrite` | kernel/fs/block.c:23-34 | block_read returns the last write any operation made to the block |
| `LogTheorems.RecyclingLosesNothing` | kernel/fs/buffer.c:64-74 | an unreferenced loaded buffer equals its disk block; one that differs is logged and holds its pin |
| `LogTheorems.LogDiscipline` | kernel/fs/log.c:80-165 | committing implies no open operation; an idle log is empty and admits; logged blocks are distinct with one pin each |
| `LogTheorems.OperationsAreAtomic` | kernel/fs/log.c:102-130 | no operation is split between groups or between committed and lost |
| `LogTheorems.AdvanceNeverSticks` | kernel/fs/log.c:236-253 | under the assumption that every block_read finds a buffer, commit and recovery always have a next step |
| `LogTheorems.GroupsOnlyGrow` | kernel/fs/log.c:236-245 | committed groups are never removed or reordered, not even by a crash |
| `LogTheorems.FinishedCommitIsDurable` | kernel/fs/log.c:123-129 | the group of a commit past its header write stays committed, as the next one, through anything later, crashes included |
| `LogMeaning.HistoryIsTheSteps` | kernel/fs/log.c:80-165 | in every run the machine's history is the updates made, in order, each with its block and data and the operation open at its index |
| `LogMeaning.HoldersAreCounted` | kernel/fs/buffer.c:84-107 | in every run the users' share of a buffer's count is its block_reads less its block_releases since the last crash |
| `LogMeaning.RecyclingUnnoticed` | kernel/fs/buffer.c:64-74 | recycling takes away a buffer nobody holds, and no reader can tell |
| `LogMeaning.ReadsSeeLastUpdate` | kernel/fs/inode.c:299-315 | from any reachable state on, while the power stays on, a reader finds the data of the last update of a block, or what it held before |
| `LogMeaning.RecoveredIsASnapshot` | kernel/fs/log.c:236-253 | after a crash in any state all home blocks are as readers saw them at one moment with no operation open, and the system was not idle later |
| `LogMeaning.SettledIsDurable` | kernel/fs/log.c:102-130 | with no operation open and no commit under way, everything readers see survives a crash |
| `LogMeaning.Finishes` | kernel/fs/log.c:236-253 | commit and recovery come to an end from every state of the machine, whose buffers are not bounded |
| `LogMeaning.TransactionCanBeMade` | kernel/fs/log.c:80-253 | from any state without an open operation, power-on included, any writes within the budget can be made and committed, and then are what every block holds, durably |
| `WriteAheadLog.TransactionLog.constructor` | kernel/fs/log.c:58-75 | log_init's fields: an empty log, nothing open |
| `WriteAheadLog.TransactionLog.TryBeginOp` | kernel/fs/log.c:80-97 | one pass of log_begin_op, in place |
| `WriteAheadLog.TransactionLog.EndOp` | kernel/fs/log.c:102-121 | the locked part of log_end_op, in place |
| `WriteAheadLog.TransactionLog.Record` | kernel/fs/log.c:139-163 | absorption and append in the array of block numbers |
| `WriteAheadLog.TransactionLog.LogWrite` | kernel/fs/log.c:135-165 | log_write: the list, and one pin exactly when the block is new |
| `WriteAheadLog.TransactionLog.FindSlot` | kernel/fs/log.c:152-156 | the first entry of the block, or n |
| `WriteAheadLog.TransactionLog.WriteHead` | kernel/fs/log.c:184-196 | write_head on the linked cache is the modelled one |
| `WriteAheadLog.TransactionLog.WriteLog` | kernel/fs/log.c:199-213 | write_log on the linked cache is the modelled one |
| `WriteAheadLog.TransactionLog.InstallTrans` | kernel/fs/log.c:216-234 | install_trans on the linked cache is the modelled one |
| `WriteAheadLog.TransactionLog.Commit` | kernel/fs/log.c:236-245 | commit on the linked cache is the modelled one; the log is empty afterwards unless it hangs, which it does exactly when pinned blocks' slots do not fit the cache |
| `WriteAheadLog.TransactionLog.Replay` | kernel/fs/log.c:250-252 | recovery's installs and clearing header on the linked cache are the modelled ones |
| `WriteAheadLog.TransactionLog.ReadHead` | kernel/fs/log.c:171-182 | the in-memory list becomes the header's |
| `WriteAheadLog.TransactionLog.LoadList` | kernel/fs/log.c:171-182 | at boot read_head finds a buffer, loads the list on disk, and leaves no buffer in use |
| `WriteAheadLog.TransactionLog.RecoverFromLog` | kernel/fs/log.c:247-253 | at boot recover_from_log leaves the disk Recovery.Recover makes of it, an empty log, and a store the first commit can start from |
| `WriteAheadLog.TransactionLog.Init` | kernel/fs/log.c:58-75 | log_init as a whole does the same and resets the fields |
| `CacheModel.RunCacheOk` | kernel/fs/buffer.c:24-121 | over every run the list is a permutation of the buffers ordered by last release to zero, no block twice |
| `CacheModel.MissRecyclesOldest` | kernel/fs/buffer.c:64-78 | a miss takes the recyclable buffer released longest ago, and fails only when there is none |
| `CacheRefs.RefsAreCounted` | kernel/fs/buffer.c:47-121 | over every run a buffer's count is the references taken and not given back, modulo 2^32; with one outstanding it is not recycled |
| `CacheMap.BusyCount` | kernel/fs/buffer.c:64-78 | the cache is exhausted exactly when as many blocks are busy as there are buffers |
| `BufferCache.Cache.PushFront` | kernel/fs/buffer.c:100-103 | the relinking puts the buffer first in the ring, the others in order |
| `BufferCache.Cache.Unlink` | kernel/fs/buffer.c:98-99 | the unlinking takes exactly that buffer out of the ring |
| `BufferCache.Cache.Init` | kernel/fs/buffer.c:24-42 | buf_cache_init builds a ring of all buffers, the last one first |
| `BufferCache.Cache.FindBlock` | kernel/fs/buffer.c:54-61 | the forward walk finds the first slot with the key |
| `BufferCache.Cache.FindVictim` | kernel/fs/buffer.c:64-65 | the backward walk finds the last recyclable slot |
| `BufferCache.Cache.Get` | kernel/fs/buffer.c:47-79 | buf_get on the ring is the modelled one; null when every buffer is referenced or dirty |
| `BufferCache.Cache.Release` | kernel/fs/buffer.c:84-107 | buf_release on the ring is the modelled one; refused without the lock |
| `BufferCache.Cache.MoveToFront` | kernel/fs/buffer.c:98-103 | the buffer comes first, the order of the others is kept |
| `BufferCache.Cache.Pin` | kernel/fs/buffer.c:109-114 | one more reference, order unchanged |
| `BufferCache.Cache.Unpin` | kernel/fs/buffer.c:116-121 | one reference less, order unchanged |
| `BlockLayer.Device.BlockRead` | kernel/fs/block.c:23-34 | block_read: null, asleep on a held lock, or the loaded buffer |
| `BlockLayer.Device.BlockWrite` | kernel/fs/block.c:39-48 | block_write: disk and buffer agree, and the buffer stays dirty |
| `BlockLayer.Device.BlockRelease` | kernel/fs/block.c:53-56 | block_release is buf_release on the shared state |
| `BlockLayer.Device.CopyBytes` | kernel/fs/log.c:206-207 | the byte loop copies the whole block |
| `BlockLayer.Device.CopyIteration` | kernel/fs/log.c:202-211 | one iteration of write_log or install_trans, skipped when a read failed |
| `BlockLayer.EncodeHeader` | kernel/fs/log.c:189-192 | the entry loop writes the modelled header |
| `CommitFacts.ReadOutcome` | kernel/fs/buffer.c:54-79 | block_read succeeds exactly when the busy blocks and the block fit the cache |
| `CommitFacts.CopyOk` | kernel/fs/log.c:202-211 | a successful iteration gives the target block what readers saw in the source and changes no other block |
| `CommitTheorems.WriteLogFills` | kernel/fs/log.c:199-213 | with room, write_log puts the visible contents of all logged blocks into the slots |
| `CommitTheorems.InstallCopies` | kernel/fs/log.c:216-234 | with room, install_trans brings every slot home and drops every pin |
| `CommitTheorems.RoomyCommitCompletes` | kernel/fs/log.c:236-245 | with room, commit performs exactly the crash-atomic sequence |
| `CommitTheorems.CommitCompletesIffRoom` | kernel/fs/log.c:204-221 | commit performs the whole sequence if and only if the blocks it ties up fit the cache |
| `CommitTheorems.FourteenBlocksFit` | include/kernel/param.h:9-13 | the first commit after boot completes exactly up to 14 blocks |
| `CommitStarved.CopyOutcome` | kernel/fs/log.c:202-211 | an iteration by what the cache has room for: the copy, or one buffer locked and referenced for ever, or nothing |
| `CommitDurable.OnlyTheHolder` | kernel/fs/block.c:39-56 | block_write and block_release do nothing for a process that does not hold the buffer's lock |
| `CommitStarved.WriteLogGoes` | kernel/fs/log.c:199-213 | write_log never sleeps: what it cannot copy it skips, keeping the home block locked; it touches slots only |
| `CommitStarved.Starves` | kernel/fs/log.c:204 | when the slots do not fit, some slot is left unwritten, its home block locked, and no buffer free |
| `CommitStarved.InstallSticks` | kernel/fs/log.c:216-221 | install_trans runs until it comes to a block write_log left locked, and sleeps there |
| `CommitStarved.CommitSticksIff` | kernel/fs/log.c:199-245 | commit never returns if and only if the busy blocks and the slots need more buffers than there are |
| `CommitStarved.CommitTearsIff` | kernel/fs/log.c:184-213 | the header is written while a slot is missing if and only if the header is busy and the slots do not fit |
| `CommitStarved.CommitTears` | kernel/fs/log.c:184-213 | then a crash after the header write makes a stale slot the durable content of a home block |
| `CommitDurable.CommitJournaled` | kernel/fs/log.c:184-245 | whatever the cache does, commit changes the disk by its list of writes alone |
| `CommitDurable.CommitSettles` | kernel/fs/log.c:236-245 | a commit with room drops one pin per logged block, keeps what readers see, and leaves an empty, coherent header: the next group can be committed |
| `CommitDurable.CommitIsCrashAtomic` | kernel/fs/log.c:184-253 | commit over the real cache, with room, stopped after any write and recovered through any crashes: all old or all as readers last saw it |
| `CommitGroup.UpdateBuilds` | kernel/fs/log.c:158-162 | block_read, overwrite, log_write, block_release: readers see the data, the disk does not yet, and the block is pinned once for the group |
| `CommitGroup.UpdatesBuild` | kernel/fs/inode.c:299-315 | any updates of an operation leave a group that is exactly its blocks, each pinned once, with their last data |
| `CommitGroup.CommitEnds` | kernel/fs/log.c:236-245 | commit drops those pins, brings the disk to what readers see, and leaves nothing referenced |
| `CommitGroup.WholeTransaction` | kernel/fs/log.c:135-253 | a whole transaction over the real cache, with room: it ends, the disk gets the last data and nothing else, the cache can start the next one, and at every block write it is all or nothing |
| `LogChanges.ChangeBlock` | kernel/fs/inode.c:303-314 | the same update in place, over the linked cache and the log's array |
| `CommitDurable.RecoveryRestores` | kernel/fs/log.c:247-253 | replay through a cache with nothing in use makes the disk Recovery.Recover of it |
| `CommitWitness.NotEnough` | include/kernel/param.h:9-13 | a concrete cache of 30 buffers, header cached, whose 15 logged blocks need more slots than fit |
| `CommitWitness.FifteenBlocksStick` | kernel/fs/log.c:221 | the commit of these 15 blocks never returns |
| `CommitWitness.FifteenBlocksTear` | kernel/fs/log.c:204 | from that state a crash after the header write makes a home block's durable content neither the old one nor the new one |
| `CommitTheorems.RecoveryCompletes` | kernel/fs/log.c:247-253 | recovery at boot never runs out of buffers, performs exactly its write sequence and leaves the store quiet |
| `DiskInode.EncodeRoundTrip` | include/kernel/fs/inode.h:22-29 | an inode stored in its 64 bytes is read back the same |
| `DiskInode.FieldPlaces` | include/kernel/fs/inode.h:21-28 | where each field of struct dinode stands in its 64 bytes |
| `DiskInode.SaveLoad` | kernel/fs/inode.c:189-207 | inode_update stores that inode and changes no other inode and no other block |
| `InodeModel.SpanIs` | kernel/fs/inode.c:263-278 | a transfer passes over usable blocks only and stops short only at the first unusable one |
| `InodeModel.OverrunsIff` | kernel/fs/inode.c:291-298 | a transfer indexes past addrs exactly when it passes 13 blocks that are all usable |
| `InodeBytes.WriteLoopWrites` | kernel/fs/inode.c:294-315 | the loop puts the first bytes of the source at the offset and changes no other byte of any block |
| `InodeBytes.ReadLoopReads` | kernel/fs/inode.c:263-278 | the loop returns the file's bytes from the offset |
| `InodeBytes.WroteSame` | kernel/fs/inode.c:294-315 | what was written determines the whole store |
| `InodeTheorems.WriteRefused` | kernel/fs/inode.c:290-291 | a write is refused, changing nothing, exactly past the end or past 140 blocks, in 32-bit arithmetic |
| `InodeTheorems.CoveredAfter` | kernel/fs/inode.c:317 | the size never passes the first missing block |
| `InodeTheorems.WriteOutcome` | kernel/fs/inode.c:286-321 | returning t: t source bytes at the offset, all other bytes kept, size the maximum, disk inode up to date |
| `InodeTheorems.OthersUntouched` | kernel/fs/inode.c:286-321 | a write changes neither the bytes nor the inode of any other file |
| `InodeTheorems.ReadOutcome` | kernel/fs/inode.c:255-281 | a read returns exactly the bytes present, min(n, size - off) when no block is unreadable, and never overruns |
| `InodeTheorems.ReadAfterWrite` | kernel/fs/inode.c:255-321 | reading the range just written returns the bytes written |
| `InodeTheorems.BoundTooWide` | kernel/fs/inode.c:291 | a full 13-block inode written at its end passes the check and runs past addrs |
| `InodeTheorems.FullInodeExists` | kernel/fs/inode.c:291 | a concrete inode of that kind |
| `WriteBudget.ChunkBudget` | kernel/fs/file.c:128-142 | a chunk of file_write logs at most 4 data blocks and the inode block |
| `WriteBudget.ChangesAreLogged` | kernel/fs/inode.c:313-318 | every block inode_write changes is one it logs |
| `WriteBudget.ChunkIsLogged` | kernel/fs/file.c:134-139 | in any state the log can reach no block of a chunk is refused, and every changed block is in the log |
| `FileTheorems.FileWriteOutcome` | kernel/fs/file.c:118-148 | file_write writes a prefix and advances the offset by it: all of it on n, less on -1 |
| `FileTheorems.ChunkedIsOneWrite` | kernel/fs/file.c:126-145 | a file_write returning n leaves what one undivided inode_write leaves; the whole disk too, when the inode's block is readable for the last chunk |
| `FileTheorems.ChunksInside` | kernel/fs/file.c:126-145 | in range, no chunk makes inode_write run past addrs |
| `FileTheorems.FileReadOutcome` | kernel/fs/file.c:96-113 | file_read returns the bytes at the offset and moves past them |
| `FileTheorems.NegativeRead` | kernel/fs/file.c:107 | a negative count fails or, when the 32-bit sum does not wrap, reads the rest of the file |
| `InodeFile.CachedInode.LoadFrom` | kernel/fs/inode.c:150-166 | inode_lock's loading, in place |
| `InodeFile.CachedInode.Update` | kernel/fs/inode.c:189-207 | inode_update field by field is the modelled update |
| `InodeFile.CachedInode.Read` | kernel/fs/inode.c:255-281 | inode_read's loops in place are the modelled read |
| `InodeFile.CachedInode.Write` | kernel/fs/inode.c:286-321 | inode_write's loops in place are the modelled write |
| `InodeFile.OpenFile.Write` | kernel/fs/file.c:118-148 | file_write's chunk loop in place is the modelled one |
| `InodeFile.OpenFile.Read` | kernel/fs/file.c:96-113 | file_read in place is the modelled one |
| `InodeCache.StepKeeps` | kernel/fs/inode.c:93-136 | one entry per inode, its count the number of references, and a held entry keeps its inode |
| `InodeCache.GetOutcome` | kernel/fs/inode.c:93-125 | inode_get returns the inode's one entry or claims a free one, which is not valid yet; it fails exactly when all are taken by others |
| `InodeCache.IdentityStable` | kernel/fs/inode.c:93-136 | over any run a held entry stands for the same inode |
| `InodeCache.AllocOutcome` | kernel/fs/inode.c:65-88 | inode_alloc takes the lowest free inode, blanks it, and changes no other |
| `InodeCache.AllocThenFree` | kernel/fs/inode.c:212-232 | allocating and then freeing makes exactly the same inodes free as before |
| `InodeCache.BlankBytes` | kernel/fs/inode.c:75-77 | clearing 64 bytes and storing the type writes a blank inode |
| `InodeCache.Table.Get` | kernel/fs/inode.c:93-125 | the scan of inode_get in place is the modelled one |
| `InodeCache.Table.Put` | kernel/fs/inode.c:212-232 | inode_put frees the inode on disk exactly at the last reference of an unlinked one |
| `InodeCache.Table.Alloc` | kernel/fs/inode.c:65-88 | inode_alloc in place; with a full table it fails after the inode on disk was taken |
| `Pipe.FullIsExact` | kernel/fs/pipe.c:94 | the full test is right across any number of 32-bit wrap-arounds |
| `Pipe.ReadableIsExact` | kernel/fs/pipe.c:123 | the test of pipe_read is right exactly until 2^32 bytes have been written |
| `Pipe.WriteKeeps` | kernel/fs/pipe.c:88-108 | a stretch of pipe_write appends its bytes in order and stops only when full or done |
| `Pipe.ReadTakesOldest` | kernel/fs/pipe.c:122-125 | a read returns the oldest unread bytes, as many as asked for and present |
| `Pipe.StepKeeps` | kernel/fs/pipe.c:88-130 | every step of any reader or writer keeps FIFO order and every writer's account |
| `Pipe.EveryRunIsFifo` | kernel/fs/pipe.c:88-130 | over all interleavings: bytes read, then bytes in the ring, are the bytes written; at most 512 wait; each writer's order is kept |
| `Pipe.OpenEnds` | kernel/fs/pipe.c:65-83 | over every run an end is closed by its own pipe_close and by nothing else |
| `Pipe.NoByteIsLost` | kernel/fs/pipe.c:88-112 | while the reading end is open, what arrived from a writer and what its call still owes is what its calls were given |
| `Pipe.CallEnds` | kernel/fs/pipe.c:92-111 | a call ends only with all its bytes in the ring, or with the ring full and nobody to read |
| `Pipe.DeadAfterWrap` | kernel/fs/pipe.c:123 | once 2^32 bytes were written no byte is ever read again, although one is there |
| `Pipe.WrapIsReachable` | kernel/fs/pipe.c:123 | a run that ends there: a byte waits that no later run can read |
| `Pipe.Carries` | kernel/fs/pipe.c:88-130 | any number of bytes below 2^32 can go through one pipe |
| `Pipe.Buffer.constructor` | kernel/fs/pipe.c:38-42 | pipe_alloc's initialisation is the empty pipe |
| `Pipe.Buffer.Write` | kernel/fs/pipe.c:88-108 | pipe_write's loop in place is the modelled one; a negative count writes nothing |
| `Pipe.Buffer.Read` | kernel/fs/pipe.c:113-130 | pipe_read's loop in place is the modelled one |
| `FileLifetimes.PipeAllocFailure` | kernel/fs/pipe.c:55-59 | a failing pipe_alloc restores the page bitmap and the file table exactly |
| `FileLifetimes.PipeAllocKeeps` | kernel/fs/pipe.c:22-60 | pipe_alloc keeps the invariant of files, pipes and pages |
| `FileLifetimes.CloseKeeps` | kernel/fs/file.c:62-91 | file_close keeps the invariant |
| `FileLifetimes.DupKeeps` | kernel/fs/file.c:46-57 | file_dup keeps the invariant |
| `FileLifetimes.Lifetimes` | kernel/fs/file.c:26-91 | in every run: ref 0 means FD_NONE; a pipe's page is given back once if nobody holds an end, never otherwise; live pages are allocated and distinct |
| `FileLifetimes.FreedAtLastClose` | kernel/fs/pipe.c:65-83 | the page goes back exactly at the close that ends the second side |
| `FileLifetimes.MadeFile` | kernel/fs/file.c:26-41 | a file is made in the first free entry, of the kind and directions asked for |
| `FileRefs.RefsAreCounted` | kernel/fs/file.c:26-91 | in every run a file's count is the references handed out and not given back; a pipe's page goes back exactly with the last reference to either end; exactly the end that is not writable is readable |
| `FileRefs.HeldStays` | kernel/fs/file.c:46-91 | while a reference is held its entry stays the file it was, whatever other holders do |
| `OpenFiles.Table.FileAlloc` | kernel/fs/file.c:26-41 | the first unused entry with one reference, or none |
| `OpenFiles.Table.FileDup` | kernel/fs/file.c:46-57 | file_dup in place is the modelled one |
| `OpenFiles.Table.FileClose` | kernel/fs/file.c:62-91 | file_close in place is the modelled one |
| `OpenFiles.Table.ClosePipe` | kernel/fs/pipe.c:65-83 | pipe_close in place is the modelled one, on the page bitmap |
| `OpenFiles.Table.AllocPipe` | kernel/fs/pipe.c:22-60 | pipe_alloc in place is the modelled one; failure changes nothing |
| `Virtqueue.TryAllocOutcome` | kernel/fs/virtio_disk.c:145-159 | an allocation pass takes three free descriptors or restores the table |
| `Virtqueue.FreeCount` | kernel/fs/virtio_disk.c:116-133 | with k requests holding chains 8 - 3k descriptors are free and k is at most 2 |
| `Virtqueue.RingsNeverFill` | kernel/fs/virtio_disk.c:190-240 | at most two entries of either ring are unread, so none is overwritten, and the 16-bit tests are exact |
| `VirtqueueSteps.SubmitKeeps` | kernel/fs/virtio_disk.c:138-197 | a request gets a chain exactly when fewer than two are in flight; else exactly two descriptors are given back |
| `VirtqueueSteps.TakeKeeps` | kernel/fs/virtio_disk.c:190-194 | the device reads exactly the next chain submitted |
| `VirtqueueSteps.DoneKeeps` | kernel/fs/virtio_disk.c:225-227 | a completion reported in any order keeps the invariant |
| `VirtqueueSteps.IntrOneKeeps` | kernel/fs/virtio_disk.c:225-240 | one turn sets B_VALID of exactly the buffer whose request was completed |
| `VirtqueueSteps.InterruptKeeps` | kernel/fs/virtio_disk.c:214-243 | the handler wakes exactly the calls whose requests were reported |
| `VirtqueueSteps.FinishKeeps` | kernel/fs/virtio_disk.c:203-206 | freeing the chain keeps every other chain intact |
| `VirtqueueSteps.StepKeeps` | kernel/fs/virtio_disk.c:138-243 | every step of drivers and device keeps the invariant |
| `VirtqueueSteps.QueueDiscipline` | kernel/fs/virtio_disk.c:138-243 | in every reachable state: disjoint chains, 8 - 3k free, k at most 2, rings never overfull, wake-ups exact |
| `VirtqueueWalk.SubmitAsks` | kernel/fs/virtio_disk.c:138-197 | the head put in the ring leads a device through header, data and status of the request as called: block, buffer, and the data device-writable exactly for a read |
| `VirtqueueWalk.DeviceFindsRequests` | kernel/fs/virtio_disk.c:138-208 | in every reachable state each chain in flight asks for what some virtio_disk_rw call asked, and each unhandled submission is such a chain |
| `VirtioDisk.Disk.constructor` | kernel/fs/virtio_disk.c:33-46 | the zeroed queue |
| `VirtioDisk.Disk.AllocDesc` | kernel/fs/virtio_disk.c:116-123 | the first free descriptor, or -1 |
| `VirtioDisk.Disk.FreeDesc` | kernel/fs/virtio_disk.c:125-133 | the descriptor is blank and free |
| `VirtioDisk.Disk.AllocPass` | kernel/fs/virtio_disk.c:146-158 | the loop and its rollback in place; the rollback reads no index that was not set |
| `VirtioDisk.Disk.Start` | kernel/fs/virtio_disk.c:138-197 | virtio_disk_rw up to its wait, in place; a device that walks the chain finds the request with these parameters |
| `VirtioDisk.Disk.Return` | kernel/fs/virtio_disk.c:203-208 | virtio_disk_rw after its wait, in place |
| `VirtioDisk.Disk.Interrupt` | kernel/fs/virtio_disk.c:214-243 | virtio_disk_intr in place |
| `PhysMem.SetOne` | kernel/mem/physmem.c:20-26 | setting a bit frees exactly one page |
| `PhysMem.ClearOne` | kernel/mem/physmem.c:28-34 | clearing a bit takes exactly one page |
| `PhysMem.AddrRoundTrip` | kernel/mem/physmem.c:104-123 | page numbers and addresses correspond |
| `PhysMem.Allocator.IsPageFree` | kernel/mem/physmem.c:13-18 | the bit test is membership in the free set |
| `PhysMem.Allocator.MarkPageFree` | kernel/mem/physmem.c:20-26 | the page is free, the counter one up modulo 2^64; the two still agree exactly when the page was not free |
| `PhysMem.Allocator.MarkPageAllocated` | kernel/mem/physmem.c:28-34 | the page is taken, the counter one down modulo 2^64; the two still agree exactly when the page was free |
| `PhysMem.Allocator.Init` | kernel/mem/physmem.c:36-87 | exactly the pages past the kernel image are free |
| `PhysMem.Allocator.AllocPage` | kernel/mem/physmem.c:89-102 | the lowest free page, or 0 exactly when there is none |
| `PhysMem.Allocator.FreePage` | kernel/mem/physmem.c:104-123 | the page is free afterwards; an unmanaged address changes nothing |
| `PageTable.Sv39Disagrees` | include/kernel/mem/virtual_memory.h:30-35 | the processor takes an entry for four times the address the kernel put into it |
| `PageTable.PointersGrow` | kernel/mem/paging.c:62-87 | an entry above the leaves gets no permission bit: it is a pointer, not a mapping |
| `PteBits.EntryRoundTrip` | include/kernel/mem/virtual_memory.h:30-35 | an entry gives back its address and valid bit, in 64-bit words |
| `PteBits.IndicesAreDigits` | include/kernel/mem/virtual_memory.h:38-40 | the three indices are the digits of the 27-bit page number |
| `PteBits.IndexValues` | include/kernel/mem/virtual_memory.h:38-40 | the shifts and masks of the source are the quotients and remainders of PageTable |
| `PteBits.AddressValue` | include/kernel/mem/virtual_memory.h:30-33 | the address mask of the source is PageTable's |
| `PteBits.EntryValue` | include/kernel/mem/virtual_memory.h:30-35 | an entry made of address and flags, and its valid bit, are PageTable's |
| `PageTable.IndicesNamePage` | include/kernel/mem/virtual_memory.h:38-40 | two addresses have the same indices exactly when they are in the same page |
| `PageTable.GrowTree` | kernel/mem/paging.c:62-70 | linking a zeroed page below an empty entry keeps the tree and every mapping |
| `PageTable.SetLeaf` | kernel/mem/paging.c:92-108 | writing a leaf entry changes one mapping only |
| `PageTable.SetMapping` | kernel/mem/paging.c:92-108 | writing the entry of an address changes the mapping of its page alone |
| `PageTable.GrownTwice` | kernel/mem/paging.c:53-89 | the pages two levels of growth took are all linked; none is lost |
| `PageTable.OtherTreesUnaffected` | kernel/mem/paging.c:53-118 | a tree that shares no table with another is not affected by it |
| `PageTable.NewEntryGrants` | include/kernel/mem/virtual_memory.h:34-35 | the entry map_page writes is present, translates to the page given, and has the permission bits asked for and no others |
| `PageTable.Mmu.CreatePageTable` | kernel/mem/paging.c:31-42 | a fresh root with nothing mapped, or failure with memory out |
| `PageTable.Mmu.AllocBelow` | kernel/mem/paging.c:65-69 | a page taken, linked and zeroed, or nothing changed |
| `PageTable.Mmu.Walk` | kernel/mem/paging.c:53-89 | the entry of the address; at most two pages taken, each linked; a second failure leaves a well-formed tree |
| `PageTable.Mmu.MapPage` | kernel/mem/paging.c:92-99 | 0 maps exactly one page, to the address and with the permissions asked for; -1 leaves every mapping alone |
| `PageTable.Mmu.UnmapPage` | kernel/mem/paging.c:102-108 | exactly one mapping goes; no page is allocated or freed |
| `PageTable.Mmu.WalkPageTable` | kernel/mem/paging.c:111-118 | the translation with the page offset kept, or 0 |
| `PageTable.Mmu.FreePageTable` | kernel/mem/paging.c:45-50 | the root page alone is given back |
| `ProcOwnership.PopulateOutcome` | kernel/proc/control.c:73-98 | fork takes three different pages, or fails and gives back those it took |
| `ProcOwnership.ForkOutcome` | kernel/proc/control.c:62-104 | fork fails exactly without a slot or three pages, and then bitmap and used slots are as before; else a fresh pid and the parent's registers with a0 cleared |
| `ProcOwnership.ForkRegisters` | kernel/proc/control.c:87-91 | fork returns 0 in the child: its registers are the parent's with a0 zero, and everybody else's stay |
| `ProcOwnership.RegistersAreOwn` | kernel/proc/control.c:62-147 | no step of another process changes a process's saved registers |
| `ProcOwnership.ExitOutcome` | kernel/proc/control.c:106-118 | exit leaves a zombie with its code for its parent, and nobody asleep when there is one |
| `ProcOwnership.WaitOutcome` | kernel/proc/control.c:124-147 | wait reaps a zombie child with its pid and code and changes no other slot, or fails exactly when there is none |
| `ProcOwnership.ForkKeeps` | kernel/proc/control.c:62-104 | fork conserves pages, ownership and distinct pids |
| `ProcOwnership.WaitKeeps` | kernel/proc/control.c:125-137 | wait conserves pages, ownership and distinct pids |
| `ProcOwnership.StepKeeps` | kernel/proc/control.c:62-167 | every step conserves the pages and keeps ownership and distinct pids |
| `ProcOwnership.PagesConserved` | kernel/proc/process.c:31-84 | in every run: free pages plus three per used slot add up, owned pages are allocated and distinct, live pids differ |
| `ProcOwnership.ForkExitWait` | kernel/proc/control.c:62-137 | fork, exit and wait return fork's pid and the exit code and restore the bitmap |
| `Processes.Table.AllocProc` | kernel/proc/process.c:31-55 | alloc_proc in place: the first unused slot with the next pid |
| `Processes.Table.FreeProc` | kernel/proc/process.c:59-84 | free_proc in place, on the page bitmap |
| `Processes.Table.Init` | kernel/proc/process.c:87-140 | proc_init succeeds exactly with three free pages and establishes the invariant |
| `Processes.Table.Fork` | kernel/proc/control.c:62-104 | fork in place is the modelled one |
| `Processes.Table.Wakeup` | kernel/proc/control.c:158-167 | wakeup makes every sleeper runnable and changes nothing else |
| `Processes.Table.Exit` | kernel/proc/control.c:106-118 | exit up to its loop, in place |
| `Processes.Table.Wait` | kernel/proc/control.c:125-137 | wait in place: the first zombie child reaped, or -1 |
| `Decimal.RoundTrip` | user/ulibc/ulibc.c:83-123 | u_atoi of u_itoa's text is n, and no value on the way exceeds the absolute value of n |
| `Decimal.TextLength` | user/ulibc/ulibc.c:83-108 | the text is at most 11 characters |
| `Decimal.FillDigits` | user/ulibc/ulibc.c:99-102 | the digit loop produces the digits backwards, at most 10 |
| `Decimal.Itoa` | user/ulibc/ulibc.c:83-108 | u_itoa in 32-bit arithmetic writes the text, its terminator and nothing else |
| `Decimal.Atoi` | user/ulibc/ulibc.c:113-123 | u_atoi in 32-bit arithmetic, without overflow on texts in range |

## Left out

- Lock and sleep internals: a region under a spin lock is one step, a sleep ends one; no liveness is claimed, since `sleep` ignores its channel and releases the lock before it marks the process (kernel/proc/control.c:139-156).
- Scheduler and context switch: processes move between live states by an environment step.
- One device: the log header stores no device (kernel/fs/log.c:32), so one device other than 0 is assumed; all cache slots start with key (0,0).
- LogTheorems.AdvanceNeverSticks: the machine has no bound on its buffers; with the kernel's 30 the step can be missing, and commit then sleeps for ever, exactly under the condition of CommitStarved.CommitSticksIff, stated for a commit running alone.
- WriteAheadLog.TransactionLog.ReadHead: a header whose count is above LOGSIZE is not modelled; the source would copy its entries past the end of lh.block.
- InodeModel: the store is the flat disk readers see, which is what LogTheorems.ReadsSeeLastWrite provides; a block that cannot be read is a parameter.
- Sleep locks in buf_release: `sleeplock_held` is modelled for a process that exists; with no current process its behaviour is not part of this model.
- FileTheorems.FileWriteOutcome: stated without interleaving; the inode lock is released between chunks.
- InodeCache.Table.Put: one step, although the source drops the table's lock while it frees the inode on disk.
- OpenFiles.Table.FileClose: one step, although the source drops ftable.lock before it closes the pipe or releases the inode (kernel/fs/file.c:79); the inode_put of kernel/fs/file.c:86-88 is not performed here, InodeCache.Table.Put is modelled by itself.
- OpenFiles.Table.AllocPipe: one step, although ftable.lock is taken and dropped by each file_alloc and file_close inside it (kernel/fs/pipe.c:34-51).
- FileTable: reference counts are unbounded here, where the source has a 32-bit int.
- PageTable: flags of 2^10 and above, paging_init, switch_page_table and the processor's walk, beyond the address it reads from one entry; numbers with division stand for the masks, as PteBits proves.
- PageTable.Mmu.FreePageTable: the tables below the root are not given back by the source either.
- ProcTable: pids are unbounded, where the source has a 32-bit int; a parent is a slot, and children of an exited parent are not re-parented; pages mapped below a process's root table do not exist yet in fork.
- ProcTable.FreeProc: a stack is kept by its page, not by its virtual top address.
- Virtqueue: MMIO registers, feature negotiation, memory barriers and the device's status byte, which the driver only prints.
- Pipe: `pipe_write` looks at readopen only when the pipe is full; which sleeper a wakeup reaches is left open.
- Indirect blocks, block allocation and directories: not implemented in the source.
- Console, traps, system calls, boot code, small string functions: input and output or single branches.
