# Verified models of xv6 (6.S081 edition)

Dafny models of the parts of xv6 where most can go wrong, each proved against what the
system promises. `dafny verify dfyconfig.toml` checks the whole project.

Every module takes the form of the code it models: code that changes tables, lists and
memory in place is a class with methods and loops, proved against functions on the
state's value; concurrent code is a state machine over its steps; recursion is
recursion. Ghost state (who owns a page, a block, a descriptor; what a reader may see)
is part of the invariants and never of the code.

| Modules | What they model |
|---|---|
| `LogDisk`, `Storage`, `LogLayer`, `CacheRuns`, `LogLimits`, `Reservation` | The redo log over the buffer cache: commit and recovery as sequences of block writes with a crash allowed between any two, runs in which readers and the rounds of a commit interleave, how many blocks a commit can take, and the reservation of log space. |
| `BuddyTree`, `BuddyCanon`, `Rings`, `BuddyHeap`, `BuddyInit`, `BuddyRuns` | The buddy allocator: two bit trees and a ring per size that describe one tiling of the heap, with the address arithmetic, initialisation and whole runs. |
| `PageTable`, `PageMemory`, `UserMemory`, `TableFree`, `MemoryLimits`, `ProcessMemory` | Sv39 page tables in allocated pages as a finite map, the accounting of every page, and the memory of a process as growproc and fork leave it. |
| `Inodes`, `FileSystem`, `FileContents`, `Truncate` | Files as byte sequences over direct and indirect blocks, block ownership, how many blocks an operation logs, and that it logs all it changes. |
| `SleepLocks`, `SleepProgress`, `SleepCircles` | Sleep-locks, sleep and wakeup, yield, kill and the scheduler as interleaved steps: what no interleaving breaks, and what every one leaves possible. |
| `FreeList`, `Umalloc` | The K&R heap of the user library. |
| `VirtioRing`, `VirtioDisk` | The virtio descriptors and rings, with the device as a second party that moves the data. |
| `Regex` | The matcher of grep against the language of a pattern. |
| `ShellSyntax`, `ShellGrammar`, `ShellLexer`, `ShellParser` | The shell's lexer, parser and string termination, with a canonical printer and the grammar the parser decides. |

Properties that do not hold as one might expect, with the condition under which they do:

- Recovery unpins buffers that were never pinned, so their reference counts wrap below
  zero: afterwards a locked buffer has count 0 if and only if its block was recovered
  (`LogLimits.BreadAfterBoot`), and bget then hands it to another block
  (`LogLimits.RecyclesLocked`). `CacheRuns.Run` therefore starts from an empty log.
- A commit or a recovery finds its buffers if and only if it concerns fewer than NBUF
  blocks (`LogLimits.CommitAll`, `LogLayer.LoggedDisk.RecoverFromLog`), and LOGSIZE equals
  NBUF. Writes within the reservation never panic if and only if the log has more than
  LOGSIZE blocks (`Reservation.BudgetedWritesFit`); mkfs makes it exactly LOGSIZE
  (`Reservation.ShippedSizePanics`). With more, thirty blocks can be logged, and their
  commit panics (`Reservation.CommitsFindBuffers`, `LogLimits.FullCommitPanics`): no size of
  the log is free of both panics.
- A write of an already logged block panics if and only if LOGSIZE blocks are logged, with
  no budget left (`Reservation.AbsorbedPanicsIff`).
- `bd_init`, on memory that can hold its tables (176 bytes on, `BuddyInit.TablesFitIff`), panics
  if and only if there are 224 to 255 bytes, 320 to 511 bytes, or a power of two from 1024 on
  (`BuddyInit.BdInit`, `BuddyInit.InitCanPanic`). In the first two cases one block is pushed
  twice; in the last, `bd_initfree` reads past a bit array and pushes a block past the heap.
- `uvmdealloc` is said to accept an old size larger than the process; it panics if and only
  if some page of the range has no leaf (`UserMemory.UvmDealloc`, `MemoryLimits.DeallocPanics`).
- `uvmcopy` is said to free what it allocated when it fails; if not even the first page can
  be had, its clean-up call panics (`UserMemory.UvmCopy`, `MemoryLimits.CopyPanics`).
- `uvmfree` panics if and only if the size is 0 (`TableFree.UvmFree`,
  `MemoryLimits.FreePanics`); its caller checks.
- `morecore` puts memory of the process on the free list if and only if it asks sbrk for
  less than 2^31 bytes, because sbrk takes an int (`Umalloc.Allocator.MoreCore`,
  `Umalloc.BigRequest`).
- Whatever has happened, processes can finish what they are doing and free every sleep-lock if
  and only if none of them wait for each other's locks in a circle (`SleepCircles.HomeIff`);
  two that take two locks in opposite orders do (`SleepCircles.Crossed`).
- `growproc` reports success without a change when the 32-bit sum of size and n wraps
  (`ProcessMemory.GrowProc`).
- The shell does not append: with `>` for every `>>` each line gives the same tree
  (`ShellSyntax.AppendIsGreat`, `ShellLexer.AppendLine`).

## Model

| member | source | states |
|---|---|---|
| `LogDisk.InstalledAt` | kernel/log.c:68-82 | after k rounds of install_trans block hs[i] (i < k) holds log slot i, every other block is as before, the header included |
| `LogDisk.LogWrittenAt` | kernel/log.c:177-190 | after k rounds of write_log slot i (i < k) holds the i-th logged block, nothing outside those slots changed |
| `LogDisk.ReinstallSame` | kernel/log.c:68-82 | installing again over a partly installed disk gives the fully installed disk |
| `LogDisk.RecoveryIdempotent` | kernel/log.c:115-122 | every disk image recovery passes through is well formed and recovers to the same home blocks |
| `LogDisk.RecoveryAfterCrashes` | kernel/log.c:115-122 | recovery cut short any number of times, then completed, gives the home blocks of one uninterrupted recovery |
| `LogDisk.CrashBeforeHeader` | kernel/log.c:177-202 | a crash while the log is being written recovers to the old home blocks |
| `LogDisk.CrashAfterHeader` | kernel/log.c:192-202 | a crash after the header write, during installation, recovers to the new home blocks |
| `LogDisk.CrashAfterErase` | kernel/log.c:192-202 | after the header is erased the home blocks are the new ones and recovery keeps them |
| `LogDisk.CommitImageIs` | kernel/log.c:192-202 | which of the images of a commit the k-th one is: part of write_log, the commit point, part of install_trans or the erased header |
| `LogDisk.CrashAtomicity` | kernel/log.c:68-202 | for every crash point of a commit and any number of crashes inside recovery, the home blocks end up all new if the header write took effect and all old otherwise |
| `LogDisk.HeaderWords` | kernel/log.c:35-38 | the header block word by word: n, then the block numbers; only the first n of them are looked at |
| `Storage.BootState` | kernel/bio.c:35-52 | after binit the cache invariant holds: zero-tagged buffers, no references, every block's latest contents are on disk |
| `Storage.SpareBuffer` | kernel/bio.c:74-86 | if fewer than NBUF blocks are in use some buffer has reference count 0 |
| `Storage.FullCache` | kernel/bio.c:74-86 | when NBUF blocks are in use every buffer is referenced and caches one of them |
| `Storage.RoomForOne` | kernel/bio.c:57-87 | bget finds a buffer for a block nobody uses if and only if fewer than NBUF blocks are in use |
| `Storage.RefCached` | kernel/bio.c:64-72 | taking a reference to a cached block, held or not, keeps the cache invariant |
| `Storage.RefRecycled` | kernel/bio.c:74-85 | recycling an unreferenced buffer for another block keeps the cache invariant: no unwritten contents are lost |
| `Storage.LockKeeps` | kernel/bio.c:90-101 | the one who gets the sleep-lock finds the block's latest contents in the buffer, from the cache or the disk |
| `Storage.PublishKeeps` | kernel/bio.c:104-110 | writing or logging a locked buffer makes its contents the block's latest contents |
| `Storage.PinKeeps` | kernel/bio.c:137-142 | a pin is one more reference and keeps the invariant |
| `Storage.UnpinKeeps` | kernel/bio.c:144-149 | an unpin of a block whose latest contents are on disk keeps the invariant; without a pin the count wraps below zero |
| `Storage.DropKeeps` | kernel/bio.c:114-135 | releasing a buffer whose changes are logged keeps the invariant |
| `Storage.MoveToFrontKeeps` | kernel/bio.c:124-132 | moving a buffer to the most recently used end keeps the list a permutation of the buffers |
| `LogLayer.LoggedDisk.constructor` | kernel/bio.c:35-52 | binit and an idle log over any disk: nothing referenced, list in reverse order |
| `LogLayer.LoggedDisk.Bget` | kernel/bio.c:57-87 | a reference to the first cached buffer on the list, or to the least recently used unreferenced one re-tagged; fails exactly when the block is not cached and every buffer is referenced; while no used buffer has lost a reference it keeps the invariant |
| `LogLayer.LoggedDisk.BreadLock` | kernel/bio.c:69-101 | the one who waited gets a locked buffer that holds the block's latest contents |
| `LogLayer.LoggedDisk.Bread` | kernel/bio.c:90-101 | both at once for a block nobody holds: a locked buffer with the latest contents and the count of its references |
| `LogLayer.LoggedDisk.Bwrite` | kernel/bio.c:104-110 | one block write: the disk block and the latest contents become the buffer's |
| `LogLayer.LoggedDisk.Brelse` | kernel/bio.c:114-135 | drops the reference, and moves the buffer to the front just when none is left |
| `LogLayer.LoggedDisk.Bpin` | kernel/bio.c:137-142 | one more reference, the block counted as pinned |
| `LogLayer.LoggedDisk.Bunpin` | kernel/bio.c:144-149 | one reference less, with wrap-around at zero |
| `LogLayer.LoggedDisk.BreadTwo` | kernel/log.c:68-82 | the two buffers of a round can be had if and only if one is left over with the second block in use |
| `LogLayer.LoggedDisk.LogOne` | kernel/log.c:182-189 | one round of write_log is one block write of the latest contents to the log slot; it panics exactly when there is no room for its buffers |
| `LogLayer.LoggedDisk.InstallOne` | kernel/log.c:73-81 | one round of install_trans is one block write home and one unpin; it panics exactly when there is no room for its buffers |
| `LogLayer.LoggedDisk.WriteLog` | kernel/log.c:177-190 | the log slots hold the latest contents of the logged blocks, by the block writes WriteLogImages lists; it panics exactly when NBUF blocks are in use |
| `LogLayer.LoggedDisk.InstallTrans` | kernel/log.c:68-82 | every listed block is home and unpinned, by the block writes InstallImages lists; it panics exactly when the blocks in use and listed are NBUF or more, with a part of them installed |
| `LogLayer.LoggedDisk.WriteHead` | kernel/log.c:101-113 | one block write that makes the header list the logged blocks |
| `LogLayer.LoggedDisk.ReadHead` | kernel/log.c:85-96 | the list becomes what the header block says |
| `LogLayer.FillHeader` | kernel/log.c:101-113 | the header block that encodes the list, decoding to the list again |
| `LogLayer.FetchHeader` | kernel/log.c:85-96 | decodes the header block |
| `LogLayer.RoomIffFewer` | kernel/log.c:68-202 | with nobody else using a buffer there is room for a commit or recovery if and only if it concerns fewer than NBUF blocks |
| `LogLayer.LoggedDisk.RecoverFromLog` | kernel/log.c:115-122 | succeeds if and only if the header lists fewer than NBUF blocks; then the disk is recovered, by the block writes RecoveryImages lists, and exactly the blocks it installed have lost a reference; otherwise the disk still recovers to the same home blocks |
| `LogLayer.LoggedDisk.Commit` | kernel/log.c:192-202 | finds its buffers if and only if the list is empty or fewer than NBUF blocks are in use; then readers see the same blocks before and after and the block writes are exactly those of CommitImages |
| `LogLayer.CommitDone` | kernel/log.c:192-202 | the four parts of a commit together keep the log and cache invariant |
| `LogLayer.CommitCrash` | kernel/log.c:68-202 | a commit cut short after k writes, with crashes in recovery: in the end the home blocks are those of the disk before it or exactly what readers saw when it began |
| `LogLayer.LoggedDisk.LogWrite` | kernel/log.c:213-235 | the block joins the list once and is pinned; fails exactly when the list is full for the log or no operation is outstanding |
| `LogLayer.LoggedDisk.BeginOp` | kernel/log.c:125-141 | admitted exactly when no commit runs and the reservation fits |
| `LogLayer.LoggedDisk.EndOp` | kernel/log.c:145-163 | the locked part: one operation less, the last one is to commit, a running commit is a panic |
| `CacheRuns.WantRefines` | kernel/bio.c:57-86 | taking a reference, even by recycling a buffer, changes nothing a reader or holder can see |
| `CacheRuns.GotRefines` | kernel/bio.c:69-101 | the contents bread returns are the block's in the map of latest contents |
| `CacheRuns.LogWriteRefines` | kernel/log.c:213-235 | log_write refines updating that map |
| `CacheRuns.BrelseRefines` | kernel/bio.c:114-135 | brelse refines letting go of a block |
| `CacheRuns.LogRoundRefines` | kernel/log.c:182-189 | a round of write_log between readers' steps changes nothing readers see, nor what a crash leaves |
| `CacheRuns.SealRefines` | kernel/log.c:192-202 | the header write makes what readers see what a crash leaves |
| `CacheRuns.MoveRoundRefines` | kernel/log.c:73-81 | a round of install_trans between readers' steps, after which the block may be recycled, changes neither |
| `CacheRuns.EraseRefines` | kernel/log.c:192-202 | nor does erasing the header |
| `CacheRuns.CrashSafe` | kernel/log.c:68-202 | in every phase of a commit and for any crashes in recovery the disk recovers to the durable contents, and recovery finds its buffers |
| `CacheRuns.Step` | kernel/bio.c:57-149 | one step of a run: what it returns and leaves is what the map gives |
| `CacheRuns.Run` | kernel/log.c:68-235 | over every run of reads, changes, log_writes, releases, operations and the single rounds of commits, from a boot with an empty log: each bread returns the latest logged contents of its block, and a crash after any step, with any crashes in recovery, leaves the home blocks of the last sealed commit |
| `CacheRuns.SealsAreWhole` | kernel/log.c:145-202 | a commit is sealed only when no operation is outstanding, so what is durable is never the middle of one |
| `CacheRuns.WholeOperation` | kernel/log.c:125-235 | from any state with nothing going on, an operation that changes any block to anything can run to the end of its commit, and a crash then leaves the new contents |
| `LogLimits.BreadAfterBoot` | kernel/log.c:115-122 | after the recovery of any disk a bread returns a locked buffer with reference count 0 if and only if the header listed the block |
| `LogLimits.RecyclesLocked` | kernel/bio.c:74-85 | on any disk of more than NBUF blocks and for any recovered block, a run in which bget re-tags the buffer that the block's holder has locked |
| `LogLimits.CommitAll` | kernel/log.c:124-235 | three operations log any blocks that fit the log and end: no log_write panics, and the commit finds its buffers if and only if the blocks are fewer than NBUF |
| `LogLimits.FullCommitPanics` | kernel/log.c:177-202 | the commit of thirty blocks in a log of 31 panics |
| `LogLimits.FullRecoveryPanics` | kernel/log.c:115-122 | the recovery of a header of thirty blocks panics |
| `Reservation.StepKeeps` | kernel/log.c:125-174 | every step keeps list length plus unused reservations at most LOGSIZE, commits only with nothing outstanding, and logged numbers distinct |
| `Reservation.RunKeeps` | kernel/log.c:125-174 | the same over every interleaving of begin_op, new-block writes, end_op and commit |
| `Reservation.ReachableKeeps` | kernel/log.c:125-235 | every reachable state meets the reservation invariant |
| `Reservation.EndNeverPanics` | kernel/log.c:145-158 | end_op never finds the log committing |
| `Reservation.BudgetedWritesFit` | kernel/log.c:213-235 | no write by an operation with budget left panics in any reachable state, be the block new or logged, if and only if the log has more than LOGSIZE blocks; otherwise some new block does not fit |
| `Reservation.ShippedSizePanics` | mkfs/mkfs.c:25 | with the log size mkfs gives, a reachable write panics |
| `Reservation.AbsorbedPanicsIff` | kernel/log.c:218-233 | in a log of more than LOGSIZE blocks, in every reachable state, a write of a logged block panics if and only if LOGSIZE blocks are logged, and then no budget is left |
| `Reservation.AbsorbedWritesFit` | kernel/log.c:218-233 | repeated writes are safe in every interleaving only for a log that admits no write at all |
| `Reservation.CommitsFindBuffers` | kernel/log.c:145-202 | commits concern fewer than NBUF blocks in every interleaving if and only if the log has at most LOGSIZE blocks, so no size is free of both panics |
| `Reservation.OperationsGetIn` | kernel/log.c:125-174 | from every reachable state the log can be emptied without a panic; begin_op then lets three operations in and no fourth |
| `BuddyTree.TakenKeeps` | kernel/buddy.c:122-154 | taking a block off a free list keeps bits and lists one binary tree; the block is live |
| `BuddyTree.SplitKeeps` | kernel/buddy.c:143-150 | splitting a taken block keeps it; one half is live, the other free |
| `BuddyTree.MergeKeeps` | kernel/buddy.c:169-194 | joining a block with its free buddy keeps it; the live block is the parent |
| `BuddyTree.FreedKeeps` | kernel/buddy.c:169-194 | putting a block whose buddy is not free on its list keeps it |
| `BuddyCanon.Tiling` | kernel/buddy.c:122-194 | in every good state each leaf lies in exactly one live or free block |
| `BuddyCanon.FreeIff` | kernel/buddy.c:122-194 | a block is free exactly when nothing live lies in it and something live lies in its parent (or it is the top) |
| `BuddyCanon.Canonical` | kernel/buddy.c:122-194 | two good states with the same live blocks have the same free blocks at every size |
| `BuddyCanon.RoomIff` | kernel/buddy.c:129-138 | some list from size fk up is non-empty exactly when some aligned block of that size is wholly free |
| `Rings.ListMemory.constructor` | kernel/list.c:12-17 | every ring is empty |
| `Rings.ListMemory.LstEmpty` | kernel/list.c:19-22 | true exactly for the empty ring |
| `Rings.ListMemory.LstRemove` | kernel/list.c:24-28 | takes one node out of its ring, every other ring and order unchanged |
| `Rings.ListMemory.LstPop` | kernel/list.c:30-37 | removes and returns the first node; panics exactly on the empty ring |
| `Rings.ListMemory.LstPush` | kernel/list.c:39-47 | the four pointer writes on any links; a node on no ring becomes the first of this one |
| `Rings.PushLinked` | kernel/list.c:39-47 | the pointer writes of a push give the rings with the node in front |
| `Rings.RemoveLinked` | kernel/list.c:24-28 | the pointer writes of a removal give the rings without the node |
| `BuddyHeap.FirstK` | kernel/buddy.c:96-106 | the least size that holds n bytes |
| `BuddyHeap.AddressFormulas` | kernel/buddy.c:109-119 | blk_index and addr as quotient and product by the block size, inverse to each other on block starts |
| `BuddyHeap.Allocator.TakeFirst` | kernel/buddy.c:140-142 | takes the first block of a list, which keeps its others in order; no other list changes |
| `BuddyHeap.Allocator.SplitOnce` | kernel/buddy.c:143-150 | one round of the splitting loop: the upper half goes first on its list, no other list changes |
| `BuddyHeap.Allocator.Malloc` | kernel/buddy.c:122-154 | a block of the least sufficient size that held nothing live, other live blocks unchanged, at the address of the first block of the least size that has one; of the lists just that one and those of the halves left over change; nothing exactly when no aligned block of that size is wholly free |
| `BuddyHeap.Allocator.Size` | kernel/buddy.c:157-165 | the size the block was allocated at, found without looking past the top |
| `BuddyHeap.Allocator.MergeOnce` | kernel/buddy.c:175-191 | one round of the merging loop: the buddy leaves its list, no other list changes |
| `BuddyHeap.Allocator.Free` | kernel/buddy.c:169-194 | exactly the freed block stops being live, and the tree is canonical again; the joined block is first on its list, the joined buddies are off theirs, no other list changes |
| `BuddyInit.Mark` | kernel/buddy.c:216-235 | marks exactly the blocks that overlap the range, at every size |
| `BuddyInit.NextFormula` | kernel/buddy.c:197-203 | blk_index_next rounds the block index up |
| `BuddyInit.InitFreePair` | kernel/buddy.c:239-252 | pushes the block of a pair whose bit is clear while the other is set, reading bits past the last block as the layout of the arrays gives them, and returns its size; the rings stay right unless that block is on its ring already or past the heap |
| `BuddyInit.InitFreeSize` | kernel/buddy.c:257-270 | the blocks pushed at one size and their bytes, with a block past the heap if there is one |
| `BuddyInit.InitFree` | kernel/buddy.c:257-270 | the total of the pushed sizes; when no block is pushed twice or past the heap the free lists are the free blocks of the tree |
| `BuddyInit.MarkedInv` | kernel/buddy.c:336-346 | the pushed blocks with the marked bits form one good tree |
| `BuddyInit.CountBalance` | kernel/buddy.c:239-270 | the sizes pushed sum to the usable bytes plus what is pushed twice or past the heap |
| `BuddyInit.InitPanicIff` | kernel/buddy.c:345-352 | the bytes counted are the expected ones exactly when no size pushes a block twice or past the heap |
| `BuddyInit.RoomyInit` | kernel/buddy.c:257-270 | no block is pushed twice if the usable end is at least four times the metadata size |
| `BuddyInit.Log2` | kernel/buddy.c:205-213 | the exponent of the largest power of two not above x |
| `BuddyInit.NumSizes` | kernel/buddy.c:303-307 | the number of sizes is one more than the size firstk would choose for all of the memory |
| `BuddyInit.LayTables` | kernel/buddy.c:312-334 | the end of the size array, the alloc and the split arrays, as TableBytes has it |
| `BuddyInit.TablesSmall` | kernel/buddy.c:312-334 | from nine sizes on the tables take at most an eighth of the heap |
| `BuddyInit.EndIs` | kernel/buddy.c:282-292 | the end of the available memory is the size rounded down to whole leaves |
| `BuddyInit.PairsInRange` | kernel/buddy.c:257-270 | where the two pairs of a size lie: the right one is past the bit array exactly when the memory fills the heap |
| `BuddyInit.CleanFull` | kernel/buddy.c:257-270 | memory that fills its heap pushes no block twice, and one past the heap exactly when the tables take at most a quarter |
| `BuddyInit.TablesFitIff` | kernel/buddy.c:303-334 | the tables fit in the memory if and only if it has at least 176 bytes |
| `BuddyInit.InitPanicsExactly` | kernel/buddy.c:295-353 | for every memory that can hold its tables, some size pushes a block twice or past the heap if and only if there are 224 to 255 bytes, 320 to 511 bytes, or a power of two from 1024 on |
| `BuddyInit.MarkTables` | kernel/buddy.c:336-343 | marking metadata and the unavailable end |
| `BuddyInit.InitHeap` | kernel/buddy.c:336-352 | panics exactly when a block is pushed twice or past the heap; otherwise a good heap in which exactly the leaves outside the usable range are in use |
| `BuddyInit.BdInit` | kernel/buddy.c:295-353 | on [base, end) of at least 176 bytes: panics if and only if there are 224 to 255 bytes, 320 to 511 bytes, or a power of two from 1024 on; otherwise the result is a good heap in which exactly the leaves of the tables and past the end are in use |
| `BuddyInit.InitCanPanic` | kernel/buddy.c:345-352 | 240, 384 and 1024 bytes are inputs on which it panics |
| `BuddyRuns.Step` | kernel/buddy.c:122-194 | one call: what is held grows by a block of the least sufficient size, from the least list that has one, or not at all, exactly when no aligned block of that size is wholly free, or loses the block freed; which lists change, and how |
| `BuddyRuns.ExactFit` | kernel/buddy.c:128-142 | when a block of the wanted size is free the first of them is taken and no list of another size changes |
| `BuddyRuns.MallocFree` | kernel/buddy.c:122-194 | allocating and freeing at once leaves every free list as it was, in its order |
| `BuddyRuns.AllReturned` | kernel/buddy.c:122-194 | with nothing held, the free lists of every size hold the blocks they held at first |
| `BuddyRuns.Run` | kernel/buddy.c:122-194 | any run of bd_malloc and bd_free after bd_init that frees every block it took ends with the free blocks of every size that bd_init left |
| `PageTable.TakenKeeps` | kernel/kalloc.c:68-82 | taking the head page keeps the list through first words equal to the free pages, once each |
| `PageTable.GivenKeeps` | kernel/kalloc.c:46-63 | giving a page back keeps it |
| `PageTable.TableFrame` | kernel/vm.c:78-96 | a table none of whose pages changed has the same tree and the same translations |
| `PageTable.MidAdded` | kernel/vm.c:84-93 | a new second-level table changes no translation |
| `PageTable.LowAdded` | kernel/vm.c:84-93 | a new last-level table changes no translation |
| `PageTable.LeafWritten` | kernel/vm.c:155-175 | writing one last-level entry changes exactly one translation |
| `PageMemory.PageMemory.constructor` | kernel/kalloc.c:26-40 | kinit: every whole page between the kernel's end and PHYSTOP is free, nothing else |
| `PageMemory.PageMemory.Kfree` | kernel/kalloc.c:46-63 | the page, filled with 1s, is the head of the free list |
| `PageMemory.PageMemory.Kalloc` | kernel/kalloc.c:68-82 | the head page, filled with 5s; 0 exactly when nothing is free |
| `PageMemory.EntryOnPath` | kernel/riscv.h:326-351 | the entry that PX selects at each level is the one of the tree |
| `PageMemory.PageMemory.Extend` | kernel/vm.c:84-93 | one allocation in walk |
| `PageMemory.TablesStep` | kernel/vm.c:78-96 | the tables that one more page number needs, counted from those that are there |
| `PageMemory.MissingIs` | kernel/vm.c:78-96 | once the tables for a range are built, what walk has to make for the next page number is what the count for the range grows by |
| `PageMemory.PageMemory.Walk` | kernel/vm.c:78-96 | the last-level table of va; every translation unchanged; only free pages became table pages; no table off va's path is new; with alloc it fails exactly when fewer pages are free than tables are missing |
| `PageMemory.GrewElsewhere` | kernel/vm.c:78-96 | growing one table leaves every other table alone |
| `PageMemory.PageMemory.WalkAddr` | kernel/vm.c:101-119 | the physical address of a valid user page, else 0 |
| `PageMemory.MappingStep` | kernel/vm.c:155-175 | one round of mappages |
| `PageMemory.PageMemory.MapOne` | kernel/vm.c:163-174 | one page: panics exactly when it is mapped already or past MAXVA, fails exactly when its tables cannot be made, and counts the pages taken |
| `PageMemory.PageMemory.MapPages` | kernel/vm.c:155-175 | for any 64-bit address and size: exactly the first `done` pages from the address on are mapped, to consecutive pages with perm and the valid bit, nothing else changed; it succeeds if and only if none of the pages is mapped already or past MAXVA and as many pages are free as tables are missing on their paths, and takes just those |
| `PageMemory.UnmappingFree` | kernel/vm.c:180-208 | freeing an owned page and clearing its entry frees that page and unmaps that page number only |
| `PageMemory.PageMemory.UvmUnmap` | kernel/vm.c:180-208 | for any 64-bit address and size, with the wrap of the last address: exactly the first `done` pages are unmapped, and freed if asked, so many pages more being free; it panics at the first page without a leaf or past MAXVA |
| `UserMemory.UvmCreate` | kernel/vm.c:211-220 | a table that maps nothing; fails exactly when no page is free |
| `UserMemory.UvmDealloc` | kernel/vm.c:271-282 | for any 64-bit sizes: unmaps and frees the pages between the rounded sizes and returns the new size; panics if and only if one of those pages has no leaf |
| `UserMemory.AllocOne` | kernel/vm.c:251-263 | a page with the given contents mapped, or nothing kept; panics exactly when a page can be had but the place is mapped already or past MAXVA, and else fails exactly when the free pages do not suffice for it and its tables |
| `UserMemory.UvmAlloc` | kernel/vm.c:240-265 | the whole range mapped to fresh, distinct, zeroed pages, or all translations as before and every data page free again; it succeeds if and only if no page of the range is mapped already or past MAXVA and as many pages are free as the range has and tables are missing on its paths, and takes just those; it panics exactly when memory lasts up to the first page that cannot be mapped |
| `UserMemory.Reachable` | kernel/vm.c:240-265 | a page that uvmalloc added is valid, for the user, and holds zeros |
| `UserMemory.GrowAndWalk` | kernel/vm.c:101-265 | walkaddr of any address that uvmalloc added gives a page of zeros |
| `UserMemory.AllocatedElsewhere` | kernel/vm.c:240-347 | allocation for one table leaves other tables and their data alone |
| `UserMemory.UvmCopy` | kernel/vm.c:319-347 | the child maps its own copy of every page with the same flags, or nothing is kept; it succeeds if and only if the parent has its pages, the child none and enough pages are free, and takes just those; each other outcome with the page and the reason; if the parent has its pages and the child none, it panics exactly when not even the first page can be had |
| `MemoryLimits.DeallocPanics` | kernel/vm.c:267-282 | a call with an old size larger than the process panics |
| `MemoryLimits.CopyPanics` | kernel/vm.c:313-347 | a call that cannot have the first page panics in its clean-up |
| `MemoryLimits.FreePanics` | kernel/vm.c:306-311 | a call with size 0 panics |
| `ProcessMemory.RoundUpLeast` | kernel/riscv.h:326-326 | PGROUNDUP is the least multiple of the page size not below its argument, as long as that is a 64-bit number |
| `ProcessMemory.GrownProc` | kernel/vm.c:240-265 | fresh pages for the bytes from sz on make a process of sz bytes one of the larger size: exactly its pages are mapped, each to a data page of its own |
| `ProcessMemory.ShrunkProc` | kernel/vm.c:271-282 | unmapping makes it one of the smaller size |
| `ProcessMemory.GrowProc` | kernel/proc.c:226-242 | exactly the pages below the new size are mapped, those below the smaller size as they were, new ones zeroed; the new size is sz + n unless the 32-bit sum wraps; -1 exactly when memory is short for the pages and their tables; it never panics |
| `ProcessMemory.OtherProc` | kernel/vm.c:240-347 | allocating for one process leaves another as it was |
| `ProcessMemory.ForkMemory` | kernel/proc.c:246-264 | the parent is as it was and the child has its size with its own copy of every page, or nothing, exactly when memory is short; it panics exactly when memory is short for the first page |
| `TableFree.EntryOf` | kernel/vm.c:286-302 | what freewalk reads in an entry of a table without leaves: its child or an invalid word |
| `TableFree.ChildDropped` | kernel/vm.c:290-296 | freeing a childless child and clearing its entry keeps the rest of the tree |
| `TableFree.FreeWalk` | kernel/vm.c:286-302 | everything below the table page is free, then the page itself; no other page is touched |
| `TableFree.UvmFree` | kernel/vm.c:306-311 | every data and table page of the table goes back to the allocator, each other page keeps use and contents; for size 0, and only then, it panics |
| `Inodes.WordOfPut` | kernel/fs.c:396-400 | storing a 32-bit entry changes that entry of an indirect block and no other |
| `Inodes.FreshIsSound` | kernel/fs.c:65-104 | a bitmap that covers the metadata with empty inodes meets the ownership invariant |
| `Inodes.ClaimKeeps` | kernel/fs.c:378-406 | a free block stored in an empty slot: every set bit still has one owner, and the block is not 0 |
| `Inodes.ClaimBytes` | kernel/fs.c:378-406 | allocating changes no byte of any file |
| `Inodes.StoreKeeps` | kernel/fs.c:497-506 | writing a data block changes that block of that file only |
| `Inodes.ReleaseKeeps` | kernel/fs.c:413-441 | giving a block up: it was marked, and every other slot and owner stays |
| `FileSystem.FileSystem.LogWrite` | kernel/log.c:213-235 | the block is in the transaction, counted once |
| `FileSystem.FileSystem.EndOp` | kernel/log.c:145-174 | of what has changed just the blocks of the transaction reach the disk |
| `FileSystem.InstallAll` | kernel/log.c:145-202 | a transaction that names every block, bitmap block and inode block that differs leaves all changes on disk |
| `FileSystem.FileSystem.Balloc` | kernel/fs.c:65-87 | the lowest free block, marked and zeroed, at most two blocks logged, its bitmap block and itself among them; fails only when no block is free |
| `FileSystem.FileSystem.Bfree` | kernel/fs.c:90-104 | unmarks the block and logs its bitmap block; panics exactly if it is unmarked already |
| `FileSystem.FileSystem.IUpdate` | kernel/fs.c:222-238 | the inode on disk is the one in memory, its block logged |
| `FileSystem.FileSystem.AllocAddr` | kernel/fs.c:384-394 | fills a slot of the inode with a fresh block, never 0 |
| `FileSystem.FileSystem.AllocEntry` | kernel/fs.c:396-400 | fills an entry of the indirect block with a fresh block and logs the indirect block |
| `FileSystem.FileSystem.Bmap` | kernel/fs.c:378-406 | the file's block; one that was there leaves everything unchanged, a new one changes no byte of any file and logs two blocks beside what the indirect block costs; every changed block and bitmap block is logged, no block changes hands but free ones the file needs; fails only on a full disk |
| `FileContents.ChunkFits` | kernel/file.c:149-160 | every write of at most filewrite's chunk size, at any offset, logs at most MAXOPBLOCKS distinct blocks |
| `FileContents.StartMapped` | kernel/fs.c:492-499 | the block an unaligned write starts in is already mapped |
| `FileContents.RoundCost` | kernel/fs.c:497-506 | what one round of writei adds to the transaction |
| `FileContents.WrittenStep` | kernel/fs.c:497-506 | one round of writei: its bytes are in place, all others unchanged |
| `FileContents.Grown` | kernel/fs.c:508-515 | with the size extended over written bytes there is still no hole, and the contents are the splice |
| `FileContents.WriteRound` | kernel/fs.c:497-506 | one round, with its log cost; every changed block is logged |
| `FileContents.WriteLoop` | kernel/fs.c:497-506 | all rounds, every changed block logged |
| `FileContents.WriteI` | kernel/fs.c:486-518 | the contents become the old ones with data spliced in at off, other files unchanged, the inode on disk, at most LogBound(off, n) blocks more logged and none twice, even when the disk is full; every block, bitmap block and inode block that changed is logged, and no block changes hands but free ones that the written range needs; -1 exactly on a bad offset or length |
| `FileContents.ReadI` | kernel/fs.c:459-480 | the slice of the contents from off, cut at the end; nothing is allocated, logged or changed |
| `FileContents.WriteThenRead` | kernel/fs.c:459-518 | readi after writei, of any file at any place: the bytes of the splice in the file written, so the data where they were written, and in any other file the bytes it had |
| `FileContents.WriteChunk` | kernel/file.c:160-166 | one chunk in a transaction of its own: once it has ended the disk holds what memory does |
| `FileContents.FileWrite` | kernel/file.c:148-175 | the file is the splice of what was written, all of it or the chunks before one that writei rejects; one transaction is committed for each chunk written and for a rejected one, each of at most MAXOPBLOCKS distinct blocks, and so is one that a full disk cuts short; each names all that it changes, so a crash after it leaves the file with the chunks up to then and all other files unchanged |
| `Truncate.EmptiedStep` | kernel/fs.c:413-441 | each block itrunc frees was marked, so the panic is unreachable; it alone loses its owner |
| `Truncate.FreeAddr` | kernel/fs.c:420-425 | frees and clears one address |
| `Truncate.FreeEntries` | kernel/fs.c:427-434 | frees exactly the blocks the indirect block names |
| `Truncate.ITrunc` | kernel/fs.c:413-441 | the file is empty, exactly the blocks it owned belong to nobody, other files and owners unchanged, the inode on disk, every changed bitmap block and the inode block logged |
| `SleepLocks.LockInnerKeeps` | kernel/sleeplock.c:21-27 | taking the inner lock keeps the invariant |
| `SleepLocks.TestKeeps` | kernel/sleeplock.c:25-27 | testing locked keeps it |
| `SleepLocks.LockSelfKeeps` | kernel/proc.c:562-563 | sleep taking p->lock before letting go of the inner lock keeps it |
| `SleepLocks.UnlockInnerKeeps` | kernel/proc.c:562-565 | releasing the inner lock with p->lock held keeps it: a releaser that comes now must wait for p |
| `SleepLocks.SetSleepingKeeps` | kernel/proc.c:567-569 | becoming SLEEPING keeps it |
| `SleepLocks.SwitchKeeps` | kernel/proc.c:497-515 | handing p->lock to the scheduler keeps it |
| `SleepLocks.SetLockedKeeps` | kernel/sleeplock.c:28-30 | taking the sleep-lock keeps it |
| `SleepLocks.ClearLockedKeeps` | kernel/sleeplock.c:36-38 | clearing locked keeps it: from here the releaser sweeps for everyone who waits |
| `SleepLocks.WakeKeeps` | kernel/proc.c:585-597 | waking one process keeps it |
| `SleepLocks.WakeSkipKeeps` | kernel/proc.c:585-597 | passing over a process that does not wait keeps it |
| `SleepLocks.KillKeeps` | kernel/proc.c:614-633 | kill waking its victim keeps it |
| `SleepLocks.YieldStateKeeps` | kernel/proc.c:518-526 | yield keeps it |
| `SleepLocks.SchedLocalKeeps` | kernel/proc.c:444-488 | the scheduler's own steps keep it |
| `SleepLocks.LaunchKeeps` | kernel/proc.c:463-469 | launching a process with its lock held keeps it |
| `SleepLocks.StepKeeps` | kernel/proc.c:444-633 | every step of every process and scheduler keeps the invariant |
| `SleepLocks.RunKeeps` | kernel/proc.c:444-633 | every interleaving of any number of processes, CPUs and sleep-locks keeps it |
| `SleepLocks.MutualExclusion` | kernel/sleeplock.c:21-41 | over every interleaving at most one process holds a sleep-lock, and its pid is the recorded one whenever the inner lock is free |
| `SleepLocks.NoLostWakeup` | kernel/sleeplock.c:21-41 | over every interleaving, while the inner lock is free and locked is 0 nobody is asleep on the lock or past its check on the way to sleeping |
| `SleepLocks.SchedNeverPanics` | kernel/proc.c:497-515 | at every call of sched its CPU holds p->lock and no other spinlock, and p is not RUNNING |
| `SleepLocks.AcquireNeverPanics` | kernel/spinlock.c:33-58 | no process's thread and no scheduler thread acquires a spinlock its own CPU holds |
| `SleepLocks.ReleaseNeverPanics` | kernel/spinlock.c:61-87 | every spinlock that a process's or a scheduler thread releases is held by its CPU |
| `SleepProgress.PickRuns` | kernel/proc.c:461-469 | a scheduler that holds p->lock of a RUNNABLE process runs it two steps later |
| `SleepCircles.OnlyWoken` | kernel/proc.c:585-633 | whatever step wakes a sleeper is wakeup on the very channel it sleeps on, or kill of it |
| `SleepProgress.Unbusy` | kernel/proc.c:444-633 | a CPU that holds a p->lock comes to release it without any other CPU moving |
| `SleepProgress.ToIdle` | kernel/proc.c:444-633 | with no p->lock held elsewhere a CPU comes back to its scheduler loop without any other CPU moving |
| `SleepProgress.Settles` | kernel/proc.c:444-633 | from every reachable state every CPU can come back to its scheduler loop, with no spinlock held: the spinlocks never deadlock |
| `SleepProgress.Bring` | kernel/proc.c:444-488 | the scheduler comes round to any RUNNABLE process and runs it, with locks, jobs and sleepers unchanged |
| `SleepProgress.Sweep` | kernel/proc.c:585-597 | wakeup makes those asleep on its channel RUNNABLE and no others |
| `SleepProgress.KillRun` | kernel/proc.c:614-633 | kill makes its victim RUNNABLE if it is asleep, on whatever channel, and changes no other process |
| `SleepCircles.TakeJob` | kernel/sleeplock.c:21-31 | a process that wants a free lock gets it, and nobody else's job or lock changes |
| `SleepCircles.GiveJob` | kernel/sleeplock.c:33-41 | a process that holds a lock and is free to act releases it: those asleep on it are awake, all other sleepers asleep |
| `SleepCircles.FallsAsleep` | kernel/sleeplock.c:21-31 | a process that calls acquiresleep on a taken lock comes to sleep on it |
| `SleepCircles.CircleForever` | kernel/sleeplock.c:21-41 | processes that wait for each other's locks in a circle do so in every continuation |
| `SleepCircles.HomeIff` | kernel/sleeplock.c:21-41 | from every reachable state of a machine with a CPU, everything in progress can be finished and every sleep-lock freed again if and only if no processes wait for each other's locks in a circle |
| `SleepCircles.AnyLock` | kernel/sleeplock.c:21-41 | in every reachable state without such a circle any process can still come to hold any sleep-lock |
| `SleepCircles.Contended` | kernel/sleeplock.c:21-41 | from the start, on one CPU or more: one process takes a lock, another falls asleep on it, the first releases it, the other holds it |
| `SleepCircles.Crossed` | kernel/sleeplock.c:21-31 | two processes that take two locks in opposite orders can come to wait in a circle |
| `FreeList.InsertKeeps` | user/umalloc.c:24-44 | a live block put after the last free block below it keeps the list circular, linked and in address order, and the blocks a tiling |
| `FreeList.JoinKeeps` | user/umalloc.c:33-42 | joining two touching free blocks keeps it |
| `FreeList.FreedKeeps` | user/umalloc.c:24-44 | after free no two free blocks touch |
| `FreeList.FreedMoves` | user/umalloc.c:24-44 | free takes exactly that block from the program and keeps every unit |
| `FreeList.TakenWholeKeeps` | user/umalloc.c:75-77 | an exact fit goes to the program whole |
| `FreeList.TakenTailKeeps` | user/umalloc.c:78-82 | a larger block gives its tail, and keeps the rest |
| `FreeList.GrownKeeps` | user/umalloc.c:46-61 | memory from sbrk is one more block above all others |
| `Umalloc.StopsAt` | user/umalloc.c:30-32 | the loop in free stops at exactly the place of the block |
| `Umalloc.Allocator.constructor` | user/umalloc.c:21-22 | nothing but the static header |
| `Umalloc.Allocator.Place` | user/umalloc.c:30-32 | the place is found within one turn of the list |
| `Umalloc.Allocator.Free` | user/umalloc.c:24-44 | the header writes give the list with the block joined to its neighbours; other blocks of the program unchanged |
| `Umalloc.Allocator.MoreCore` | user/umalloc.c:46-61 | at least 4096 units more on the list, and a free block that is big enough; the units on the list are memory of the process if and only if fewer than 2^31 bytes were asked for |
| `Umalloc.Allocator.Take` | user/umalloc.c:75-85 | a block of exactly nunits that was free: the whole of the given one or its end |
| `Umalloc.Allocator.Malloc` | user/umalloc.c:63-90 | a block of the rounded size that was free, other blocks unchanged, from the list or after one sbrk: the whole, or the end, of the first big enough block round the list from where the last search ended, or from the last free block below the new memory; 0 exactly when nothing is big enough and sbrk fails; the search ends within two turns, also when the new memory joins its lower neighbour |
| `Umalloc.SbrkArgument` | user/umalloc.c:54-54 | what sbrk's int parameter makes of the request: the same below 2^31 bytes, less from there on |
| `Umalloc.BigRequest` | user/umalloc.c:46-90 | a request just under 2^31 bytes returns a block that is not memory of the process |
| `VirtioRing.AtMostTwo` | kernel/virtio_disk.c:128-178 | free descriptors plus three per request make NUM, so at most two requests are in flight and each ring holds at most two entries |
| `VirtioRing.CompareIsExact` | kernel/virtio_disk.c:263-268 | the comparison modulo NUM is true exactly when the used ring has unseen entries, also across the 16-bit wrap |
| `VirtioRing.AvailSlotFree` | kernel/virtio_disk.c:242-248 | the slot written next is not one the device has still to take |
| `VirtioRing.SubmitKeeps` | kernel/virtio_disk.c:180-250 | a new request keeps chains disjoint and both rings right |
| `VirtioRing.DeviceTakeKeeps` | kernel/virtio_disk.c:242-248 | the device takes the oldest queued request |
| `VirtioRing.DeviceDoneKeeps` | kernel/virtio_disk.c:263-281 | the device reports a request it took, in any order |
| `VirtioRing.DeliverKeeps` | kernel/virtio_disk.c:268-278 | one completion is delivered to its own buffer |
| `VirtioRing.FinishKeeps` | kernel/virtio_disk.c:252-260 | giving a seen request's descriptors back; all three were in use |
| `VirtioRing.Progress` | kernel/virtio_disk.c:180-281 | while a request is in flight, the device, the interrupt or the one who waits can take a step with it |
| `VirtioRing.Drains` | kernel/virtio_disk.c:180-281 | from every state whatever is in flight can be brought to its end, and then all descriptors are free again |
| `VirtioDisk.Disk.constructor` | kernel/virtio_disk.c:55-125 | all descriptors free, rings empty |
| `VirtioDisk.Disk.AllocDesc` | kernel/virtio_disk.c:128-138 | the first free descriptor, or -1 exactly when none is |
| `VirtioDisk.Disk.FreeDesc` | kernel/virtio_disk.c:141-151 | marks the descriptor free and clears its address; panics exactly on a bad index or a free descriptor |
| `VirtioDisk.Disk.Alloc3` | kernel/virtio_disk.c:166-178 | three different free descriptors exactly when three are free, else the free ones as before |
| `VirtioDisk.Disk.FreeChain` | kernel/virtio_disk.c:154-164 | frees exactly the three descriptors of the chain |
| `VirtioDisk.Disk.Submit` | kernel/virtio_disk.c:180-250 | a request for the sectors of the block on the available ring; refused exactly when two are in flight |
| `VirtioDisk.Disk.Finish` | kernel/virtio_disk.c:252-260 | the request is gone and its descriptors free |
| `VirtioDisk.Disk.Intr` | kernel/virtio_disk.c:263-281 | every completion on the used ring is delivered once, to its own buffer, and nothing else changes; no status is other than 0, so it does not panic |
| `VirtioDisk.Disk.DeviceTake` | kernel/virtio_disk.c:242-248 | the ring names the oldest queued request |
| `VirtioDisk.Disk.Transfer` | kernel/virtio_disk.c:203-240 | the device moves the block that the header, the data descriptor and its direction name, and writes the status; it reports a chain that is not made that way, and no other |
| `VirtioDisk.Disk.DeviceDone` | kernel/virtio_disk.c:180-281 | the block of the request goes from its buffer to the disk or the other way, no other block or buffer changes, and the completion is on the used ring |
| `VirtioDisk.Disk.ReadWrite` | kernel/virtio_disk.c:180-260 | with a device that gets to it and whatever other requests in flight: afterwards the block is on the disk, or in the buffer, and nothing else has changed |
| `VirtioDisk.StoredBlock` | kernel/virtio_disk.c:182-182 | blocks of the disk do not overlap: writing one changes it and no other |
| `Regex.HereCons` | user/grep.c:83-94 | matching a pattern is giving its first item a word and matching the rest after it |
| `Regex.HereStar` | user/grep.c:97-104 | a starred character takes any number of fitting characters |
| `Regex.MatchHere` | user/grep.c:83-94 | true exactly when text begins with a word of the pattern's language, up to the end for a final $ |
| `Regex.MatchStar` | user/grep.c:97-104 | true exactly when some run of fitting characters is followed by a match of the rest |
| `Regex.Match` | user/grep.c:70-80 | true exactly when some suffix of text, or the whole text after ^, begins with a word of the language |
| `ShellSyntax.RedirsRead` | user/sh.c:374-397 | printed redirections are read back in order |
| `ShellSyntax.SimpleRead` | user/sh.c:415-446 | a printed simple command of at most nine words is read back with its redirections |
| `ShellSyntax.RoundTrip` | user/sh.c:327-446 | for every tree, parsing its canonical tokens gives the tree if every simple command has at most MAXARGS - 1 words, and panics otherwise |
| `ShellGrammar.LineReads` | user/sh.c:327-446 | what the grammar rules derive is read, whatever may follow it |
| `ShellGrammar.LineSound` | user/sh.c:327-446 | what is read the grammar rules derive |
| `ShellGrammar.ParsesIff` | user/sh.c:327-446 | for every token list and tree: the parser gives the tree if and only if the grammar rules derive it |
| `ShellGrammar.RefusedIff` | user/sh.c:327-446 | a line is refused if and only if no tree follows from the rules |
| `ShellGrammar.Unambiguous` | user/sh.c:327-446 | no line has two trees |
| `ShellLexer.TokensOfSpelling` | user/sh.c:265-308 | the tokens of a spelled token list are that list |
| `ShellLexer.CharKinds` | user/sh.c:262-263 | white space and symbols are the characters of the two strings, and all others belong to words |
| `ShellLexer.SpaceSeparates` | user/sh.c:265-308 | a white-space character anywhere in a line separates the tokens before it from those after it and means nothing else |
| `ShellLexer.SymbolSeparates` | user/sh.c:265-308 | so does a symbol, as a token of its own, as long as no > meets another |
| `ShellLexer.WordFirst` | user/sh.c:295-299 | a word is read up to the first white-space or symbol character |
| `ShellLexer.TypedWord` | user/sh.c:134-166 | a typed word and the newline after it is the command of that one word |
| `ShellSyntax.AppendIsGreat` | user/sh.c:374-397 | for every token list, with > for every >> it is parsed into the same tree, or refused alike |
| `ShellLexer.AppendLine` | user/sh.c:265-446 | a line with >> and one with > before the same file give the same tree, an output redirection |
| `ShellLexer.LineRoundTrip` | user/sh.c:265-446 | spelling a tree as a line and parsing the line gives the tree if it has at most MAXARGS - 1 words per simple command, and panics otherwise |
| `ShellParser.SkipSpace` | user/sh.c:271-273 | steps over white space, the tokens ahead unchanged |
| `ShellParser.WordEnd` | user/sh.c:295-299 | the end of a word |
| `ShellParser.GetToken` | user/sh.c:265-308 | the kind and range of the next token, and the position after it |
| `ShellParser.Peek` | user/sh.c:310-320 | whether the next token starts with one of the characters, nothing consumed but white space |
| `ShellParser.ParseRedirections` | user/sh.c:374-397 | agrees with ParseRedirs on the tokens ahead |
| `ShellParser.ParseArguments` | user/sh.c:429-444 | agrees with ParseArgs on the tokens ahead |
| `ShellParser.ParseExecAt` | user/sh.c:415-446 | agrees with ParseExec on the tokens ahead; terminates |
| `ShellParser.ParseBlockAt` | user/sh.c:399-413 | agrees with ParseExec at an opening parenthesis |
| `ShellParser.ParsePipeAt` | user/sh.c:361-372 | agrees with ParsePipe on the tokens ahead; terminates |
| `ShellParser.ParseLineAt` | user/sh.c:344-359 | agrees with ParseLine on the tokens ahead; terminates |
| `ShellParser.NulTerminate` | user/sh.c:449-493 | a NUL at the end of every word of the tree, every other character unchanged |
| `ShellParser.WordsTerminated` | user/sh.c:449-493 | afterwards every word and file name is, as a C string, its text in the line |
| `ShellParser.ParseCommand` | user/sh.c:327-342 | the tree of the line's tokens with every word made a C string in place, or a panic exactly when the tokens do not parse |

## Left out

- Storage and LogLayer model one device. A panic is a refused step; begin_op's sleep is a
  refused attempt; the spinlocks of log and cache are the atomicity of the methods.
- LogLayer.LoggedDisk.Brelse: releasing a buffer that was changed and not logged is against
  the rule that log.c states for its callers, and is not described.
- LogLayer.LoggedDisk.Bunpin: the block's latest contents are on disk, as after bwrite.
- LogLayer.LoggedDisk.Bpin: fewer than 2^30 pins, so that the counter does not overflow.
- CacheRuns.Run: a round of write_log or install_trans, which writes one block, is one step;
  readers come between rounds, not inside one. Runs start from an empty log, callers log what
  they change, and steps that would panic for want of a buffer are not part of a run.
- Reservation: each operation adds at most MAXOPBLOCKS new blocks, as the file system
  promises; FileContents.ChunkFits is that promise for filewrite.
- Buddy bit arrays are sequences of booleans; packing eight into a char is not modelled, nor
  is firstk's shift past 2^63.
- BuddyInit.BdInit: memory below 176 bytes, which cannot hold its tables, and sizes of 2^31 on.
- BuddyInit.InitFreePair: what the rings look like after a block was pushed twice, and what a
  push past the heap overwrites, is not described; bd_init panics in both cases.
- PageTable: words and pages, no bytes; the physical addresses below the kernel's end are
  pages that are never free. copyin, copyout, copyinstr, the kernel page table, the TLB.
- PageMemory.PageMemory.UvmUnmap: with freeing, every leaf it reaches is the only mapping of
  a data page of this table; kfree's panics are excluded by that.
- UserMemory.UvmCopy: a valid last-level entry of the parent is a leaf, and the child has no
  first page when the call begins.
- ProcessMemory: the trampoline and trapframe pages, which lie above 2^32, exec and the process
  table; what freeproc does after a failed fork.
- TableFree.FreeWalk: all leaf mappings have been removed, as its comment asks; the panic on
  a leaf is not modelled.
- FileSystem: blocks are what the log layer shows. The bitmap is one boolean per block.
  Inode types, links, directories, path names and the inode cache are left out.
- FileSystem.FileSystem.LogWrite: the panic on a full log is the log's; FileContents.ChunkFits
  bounds what a transaction logs.
- FileContents.FileWrite: no other operation shares a transaction with a chunk. What a crash
  leaves is stated for a disk that agrees with memory when the call begins.
- FileContents.WriteI: copies from kernel addresses, which do not fail.
- FileContents.ReadI: copies to kernel addresses, which do not fail.
- SleepLocks: acquire's spinning is a step that is not enabled yet; memory is sequentially
  consistent; process creation, exit and wait, other sleep channels, and the interrupt
  flags beyond "no spinlock held" are left out.
- SleepCircles.HomeIff: says what can happen next, not that a fair scheduler makes it happen.
- Umalloc: addresses count headers, so every address is aligned, and sbrk gives memory above
  all it gave before. Writing a header outside the process's memory would be a fault; the
  model goes on, to say what is on the list.
- VirtioDisk: the device fails no request whose chain is well made; device registers, feature
  negotiation and the second disk are left out. A sector is one value, not 512 bytes.
- VirtioDisk.Disk.Submit: a caller that finds no descriptors is told so; its sleep and
  retry are not modelled.
- VirtioDisk.Disk.Intr: the device adds no completion while the interrupt runs.
- Regex: characters are compared as they are; the line buffer of grep is left out.
- ShellParser: the nodes of a tree are values, so a simple command gets its words when all
  are read. Running commands is left out.
- Pipes, the console, exec, system call arguments, traps, UART, PLIC, mkfs and the user
  programs are left out.
