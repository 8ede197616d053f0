# A verified model of the vsd kernel

This project models the core of an xv6-derived kernel and of its small libc and shell in
Dafny, and proves what those parts are for: a redo log that makes file-system operations
atomic across crashes, files as flat byte sequences over a two-level block map, the
Kernighan and Ritchie allocator, page tables, sleep and wakeup, pipes, open-file references,
the process tree, the buffer cache, grep's matcher and the shell's parser.

`dafny verify dfyconfig.toml` checks everything; the project needs no other file.

## How it is organised

| files | source | main results |
|---|---|---|
| `RedoLog`, `Log`, `GroupCommit`, `CommitProgress` | log.c, bio.c | crash atomicity; crash consistency, isolation and log reservation over all runs, and the log size they need; commits and recoveries end |
| `BlockCodec`, `FileMap`, `Files` | fs.c | readi and writei refine byte sequences; single ownership of blocks |
| `LoggedFiles` | fs.c, file.c, log.c | a write inside one operation survives a crash whole or not at all |
| `FreeList`, `Heap` | umalloc.c, kalloc.c | allocator invariant, termination, first fit from freep |
| `PageTable`, `Vm`, `UserMemory` | vm.c, kalloc.c | page tables refine partial maps; frames are conserved; the kernel's mappings, entry by entry |
| `SleepWakeup`, `SleepCalls` | proc.c, spinlock.c | no lost wakeup, for any number of processes; what sleep and wakeup return with; ptable.lock always comes back |
| `ProcTree` | proc.c | live, older parents; no cycles; who becomes whose parent when |
| `FileRefs`, `FileCalls` | file.c, sysfile.c, pipe.c, proc.c | reference conservation through fork and exit; pipe ends close with their last descriptor; what each call does to descriptors, files and pipe ends; forks and exits end |
| `Pipe`, `PipeStream` | pipe.c | first-in first-out streams across counter wrap; who can be left asleep |
| `LruList`, `CacheRun` | bio.c, ide.c | the release-ordered list; cache transparency; what bread and bwrite return with |
| `Grep` | grep.c | the matcher decides the declarative meaning of `^ . * $`; patterns and items are inverse |
| `ShellGrammar`, `Shell` | sh.c | the cursor parser decides a declarative grammar; printing and parsing are inverse; word spans |

Concurrent protocols are state machines whose steps are the critical sections or single
shared accesses of the code; a run is any sequence of steps, and crashes are steps.  Code
that updates memory in loops is written as methods proved against specification functions,
with thin classes over them for the objects that are updated in place.  Disk and physical
memory are explicit values, blocks and pages are sequences of bytes or words, and 32-bit
arithmetic is written out where it matters.

## Where the code falls short

Properties that hold only under a condition are proved together with the exact condition.

* NBUF equals LOGSIZE, so a commit can run out of buffers: it panics exactly when the block it
  reads next is uncached and the logged blocks and the clean buffers in use fill the cache
  (`Log.Log.Commit`, `GroupCommit.PanicsIff`).  A transaction of NBUF blocks always gets there
  (`GroupCommit.FullTransaction`, `GroupCommit.FullTransactionStuck`), one of NBUF - 1 blocks does
  beside a reader (`GroupCommit.ReaderPanics`); fewer than NBUF of both kinds together are safe
  (`GroupCommit.RoomyNeverPanics`).
* The log reservation needs LOGSIZE blocks beside the header; with fewer an operation within
  its budget can meet the panic (`GroupCommit.Reservation`, `GroupCommit.ShortLogPanics`).
* log_write makes its tests before it takes the lock, so two processes can pass them for the last
  free entry.  Recovery stays right exactly if the log region has one block, where nothing passes,
  or at least LOGSIZE, where a list that is too long pins the whole cache and its commit panics
  (`GroupCommit.StillIff`, `GroupCommit.CrashConsistency`, `GroupCommit.OverrunStops`); a region of
  another size is overrun into the block behind it (`GroupCommit.Overrun`).
* log_write tests for a full log before it looks for the block in the log, so operations are safe
  exactly if none adds MAXOPBLOCKS blocks (`GroupCommit.SmallOperations`,
  `GroupCommit.LargeOperations`).  filewrite's chunks of 13 data blocks exceed that
  (`GroupCommit.FilewritePanics`).
* malloc's rounding wraps for the seven largest sizes.  Of the others, those from 2 GB less 15
  bytes on give sbrk a negative argument, or zero for the eight sizes just below those seven
  (`Heap.RoomIff`, `Heap.SbrkArgumentIff`).
* writei that fails exactly at the end of the file leaves a new indirect block in the in-memory
  inode only, exactly when one block was free and the file ended at an entry without indirect
  block (`Files.Writei`, `Files.StrayWrite`).  A later write that makes the file grow mends that,
  and no crash in between changes what is in the files (`LoggedFiles.MountBytes`).
* allocuvm ignores a failed mappages: a frame is lost exactly when the frames run out between a
  page and its page table, and if that was the last page the call still reports success
  (`UserMemory.Allocuvm`, `UserMemory.FalseSuccess`).
* copyuvm that finds no frame for a page table does not free the page it has just filled; a frame
  is lost exactly when the frames run out between a page and its page table
  (`UserMemory.Copyuvm`, `UserMemory.CopyLeaks`).
* setupkvm that fails in the middle frees nothing of what it has built (`UserMemory.AbandonedSetup`).
* deallocuvm's 4 MB jumps keep the offset of the first page, so they can enter a page table past
  pages that are mapped; exactly those pages stay (`UserMemory.Deallocuvm`,
  `UserMemory.PassedOver`, `UserMemory.JumpOver`).
* A clone by a thread reads its parent and stores it without a lock; the new thread's parent is
  dead exactly if the parent exits in between (`ProcTree.TreeIff`, `ProcTree.CloneRace`).
* A killed writer returns from a full pipe without waking readers (`PipeStream.StrandedIff`,
  `PipeStream.KilledWriterStrands`).

## Model

| member | source | states |
|---|---|---|
| `RedoLog.CrashAtomicity` | log.c:55-217 | a commit cut after any of its block writes, then recovery run any number of times, each run cut anywhere: once a recovery finishes, the home blocks are exactly those before the transaction if the header had not been written, exactly those after it if it had |
| `RedoLog.CutCommit` | log.c:186-217 | every disk that commit passes through is one that recovery understands, recovers to all or nothing, and carries a non-empty header exactly between the header write and the erasing write |
| `RedoLog.CommittedRecovers` | log.c:186-217 | recovering the disk right after the header write yields the whole transaction |
| `RedoLog.CutBeforeHead` | log.c:186-202 | filling log slots under an empty header does not change what recovery yields |
| `RedoLog.CutAfterHead` | log.c:204-217 | every disk from the header write on recovers to the whole transaction |
| `RedoLog.CutRecovery` | log.c:115-125 | a recovery cut after any number of block writes leaves a disk that recovers to the same home blocks |
| `RedoLog.RepeatedRecovery` | log.c:115-125 | any chain of cut recoveries recovers to the same home blocks as the first disk |
| `RedoLog.RecoveredContents` | log.c:55-71 | a finished recovery puts each logged copy in its home block, keeps every other home block and leaves an empty header |
| `RedoLog.SameRecovery` | log.c:115-125 | recovery depends only on the header, the logged copies and the unlogged home blocks |
| `RedoLog.EntriesOfPut` | log.c:73-113 | reading back the header that write_head wrote gives the block list it was written from |
| `Log.Fetch` | bio.c:73-120 | bread hands out the block's contents as seen before, drops no pinned buffer, keeps the cache coherent, and fails exactly when no buffer can be recycled |
| `Log.WriteSlot` | log.c:186-202 | one round of write_log, beside other holders of buffers: the logged block's cached contents reach its slot and nothing seen in a home block changes; fails, before any write, exactly if the dirty buffers and those that others hold fill the cache |
| `Log.WriteSlots` | log.c:186-202 | write_log produces exactly the specified chain of disks, or none of it, exactly if the dirty buffers and those that others hold fill the cache; it waits for whoever holds a logged block |
| `Log.InstallSlot` | log.c:55-71 | one round of install_trans, beside other holders, copies a slot home and unpins its buffer |
| `Log.InstallSlots` | log.c:55-71 | install_trans, beside other holders, produces exactly the specified chain of disks |
| `Log.Log.Bwrite` | bio.c:122-130 | one block write; the buffer is clean afterwards and no other block is seen to change |
| `Log.Log.WriteHead` | log.c:93-113 | one block write that stores the in-memory block list; buffers that others hold stay theirs |
| `Log.Log.ReadHead` | log.c:73-91 | the in-memory list becomes the one on disk |
| `Log.Log.InstallTrans` | log.c:55-71 | the in-place form installs the transaction and leaves no buffer pinned |
| `Log.Log.RecoverFromLog` | log.c:115-125 | passes through exactly the recovery steps of the disk it finds and ends with an empty log |
| `Log.Log.WriteTransaction` | log.c:204-210 | up to the commit point: the disk holds the filled slots and the header, reached through exactly those writes; stuck, with nothing written, exactly if the dirty buffers and those that others hold fill the cache |
| `Log.Log.Commit` | log.c:204-217 | passes through exactly the commit steps of the disk it finds; memory is unchanged and durable afterwards; stuck, with nothing written, exactly if there is something to commit and the dirty buffers and those that others hold fill the cache |
| `GroupCommit.BeginOpKeeps` | log.c:127-149 | an operation that is admitted keeps the invariant of the machine, and changes neither memory nor what a crash would leave |
| `GroupCommit.AdmissionFits` | log.c:137-148 | begin_op admits an operation only if the blocks logged and what all open operations may still add within their reservations fit in the log together with its own |
| `GroupCommit.BudgetKept` | log.c:127-254 | in every state of every run whose operations add at most MAXOPBLOCKS blocks each, crashes included, the blocks logged and the unspent reservations fit in LOGSIZE |
| `Log.Log.LogWrite` | log.c:219-254 | logs the block once (absorption), pins it, keeps list and pinned set in step; panics exactly if the log is full or no operation is open |
| `Log.Log.Update` | log.c:219-254 | bread, change, log_write, brelse, beside other holders: memory shows the new data in that block and nothing else changes; fails exactly where one of the calls panics |
| `Log.Log.EndOp` | log.c:151-184 | the last operation out commits, with the disk chain of a commit; earlier ones leave disk and memory alone; fails exactly where end_op or its commit panics |
| `Log.CommitInvisible` | log.c:204-217 | after a commit every home block is on disk what it was in memory |
| `GroupCommit.StepRefines` | log.c:127-254 | on a log region of one block, or of at least LOGSIZE: each step of any interleaving of operations, the unlocked tests and the locked part of log_write, cache, commit, crash and recovery keeps the invariant and has exactly the effect its kind allows on memory and on what a crash would leave |
| `GroupCommit.LogAppendKeeps` | log.c:244-253 | the locked part of log_write keeps the invariant and both contents whatever others have logged since the tests: a logged block is pinned, so the list never outgrows the cache |
| `GroupCommit.RunInv` | log.c:127-254 | on such a log the invariant holds in every state of every run, crashes included |
| `GroupCommit.CrashConsistency` | log.c:127-217 | on such a log, at any time, what a crash would leave is what memory held at some earlier time when no operation was open |
| `GroupCommit.StillIff` | log.c:228-254 | the bound is exact: in all runs in which nobody changes a block every home block stays, in memory and after a crash, if and only if the log region has one block or at least LOGSIZE |
| `GroupCommit.Overrun` | log.c:239-253 | for every other log region, a run in which operations of at most MAXOPBLOCKS blocks change nothing, two pass the tests before either adds its block, and the commit writes a log copy over the block behind the log |
| `GroupCommit.OverrunStops` | log.c:186-200 | with exactly LOGSIZE blocks a run overruns the list in the same way, by one block, and its commit panics in bget before it writes anything |
| `GroupCommit.CommitIsolation` | log.c:127-184 | in every state of such a run a commit goes on only with no operation open, and no home block changes on disk while one is open |
| `GroupCommit.CommittedIsDurable` | log.c:151-217 | when the commit is over, every home block in memory is durable |
| `GroupCommit.Reservation` | log.c:137-148 | with LOGSIZE blocks beside the header, in every run whose operations add at most MAXOPBLOCKS blocks, an operation that has added fewer never meets the log_write panics |
| `GroupCommit.SmallOperations` | log.c:239-240 | for every bound below MAXOPBLOCKS: in a run whose operations keep to it log_write never panics inside an operation |
| `GroupCommit.LargeOperations` | log.c:239-240 | for every other bound there is a run that keeps to it, and ends with three open operations and a log_write panic, since the test comes before absorption |
| `GroupCommit.FilewritePanics` | file.c:251-269 | a run of three operations, none with more than the 13 data blocks of one filewrite chunk, that ends in the log_write panic at the fifth block of the third |
| `GroupCommit.ShortLogPanics` | log.c:239-240 | the bound on the log region for the tests is exact: with LOGSIZE blocks or fewer there is a run, within MAXOPBLOCKS blocks per operation, in which an operation with blocks to spare meets the panic (a region shorter still can be overrun instead, as Overrun states) |
| `GroupCommit.PanicsIff` | bio.c:73-107 | on the concurrent machine bget of a block panics exactly if the block is uncached and the dirty buffers and the clean ones that somebody holds number NBUF; while a transaction is open or being written the dirty ones are the logged ones |
| `GroupCommit.RoomyNeverPanics` | bio.c:73-107 | while the logged blocks and the clean buffers in use number fewer than NBUF no bget panics |
| `GroupCommit.PanicStuck` | log.c:186-217 | while the commit's next bread would panic, no step but a crash changes anything except who holds which buffer, and only a brelse can end that |
| `GroupCommit.Proceeds` | bio.c:94-105 | otherwise recycling at most one clean, idle buffer gets the commit the block it reads next |
| `GroupCommit.FullTransaction` | log.c:137-148 | a run that reaches a commit whose own blocks pin the whole buffer cache, so that its first bread panics |
| `GroupCommit.ReaderPanics` | file.c:192-197 | a run in which a commit of NBUF - 1 blocks panics because a process outside any operation holds one buffer; it needs a log region of LOGSIZE blocks only |
| `GroupCommit.FullTransactionStuck` | bio.c:94-106 | every commit of NBUF blocks panics at its first slot, whoever holds what |
| `CommitProgress.CommitEnds` | log.c:151-217 | from every reachable state in which a commit of fewer than NBUF blocks is going on, brelse by the holders of buffers and steps of commit and cache end it: memory is as before and durable, and begin_op then admits every process |
| `CommitProgress.CommitEndsIff` | log.c:204-217 | a commit that starts can end, without a crash, exactly if its blocks do not fill the buffer cache |
| `CommitProgress.ErasedAdmits` | log.c:175-183 | once the log is erased, end_op's last step lets begin_op admit every process, whoever holds what |
| `CommitProgress.LoggedReleases` | log.c:244-253 | once log_write has put a block in the log its holder may release it: the block is then logged, pinned and free to be taken |
| `CommitProgress.BootEnds` | log.c:115-125 | after a crash in any reachable state, steps that change no block and no further crash end the recovery, and memory is then what the crash had left |
| `BlockCodec.PutWord` | fs.c:571-601 | storing a little-endian word reads back and leaves all other words of the block alone |
| `BlockCodec.SetBitBits` | fs.c:57-82 | setting a bit of the free map sets that bit and no other |
| `FileMap.FirstClear` | fs.c:57-82 | the inner loop finds the first clear bit of a bitmap block |
| `FileMap.FindClear` | fs.c:66-79 | the loops of balloc stop at the first clear bit of the bitmap, or find none |
| `FileMap.Balloc` | fs.c:43-82 | returns the lowest free block, marked used and zeroed, or 0 exactly if every block is used |
| `FileMap.AllocKeeps` | fs.c:43-82 | allocation keeps every pointer and the bytes of every file, and the new block is nobody's |
| `FileMap.AllocFree` | fs.c:57-82 | allocation takes exactly one from the number of clear bits |
| `FileMap.NeedStep` | fs.c:571-601 | mapping an entry of a file leaves the rest of a range in need of exactly so many blocks fewer, indirect blocks counted once |
| `FileMap.EmptyInv` | fs.c:43-82 | a file system with empty inodes and only the blocks below the data area in use satisfies the invariant |
| `FileMap.LinkIndirect` | fs.c:571-601 | a fresh block entered as indirect block keeps single ownership and all files |
| `FileMap.LinkEntry` | fs.c:571-601 | a fresh block entered as data block keeps single ownership and all files |
| `Files.Bmap` | fs.c:571-601 | the block of a file's entry, allocated with its indirect block if missing: an existing mapping is returned unchanged, no other mapping or mapped block changes, as many free blocks go as were missing, and it fails exactly if fewer are free; tells exactly when it changed the inode; no block changes but those of the bitmap, the entry and its indirect block |
| `Files.EntryBlock` | fs.c:589-600 | the data block of an entry whose indirect block is there, returned or allocated |
| `Files.Readi` | fs.c:662-690 | returns exactly the requested slice of the file, cut at its end, changes nothing although it calls the allocating bmap, and returns -1 exactly when the offset is past the end or offset plus count wraps |
| `Files.ReadChunk` | fs.c:675-687 | one round of readi yields the file's bytes from one block |
| `Files.ReadLoop` | fs.c:675-687 | the loop of readi yields the slice and changes nothing |
| `Files.PutInode` | fs.c:252-275 | the inode's slot holds its size and addresses, the other slots of the block are unchanged |
| `Files.Iupdate` | fs.c:252-275 | the disk copy of the inode equals memory; every other inode and its disk copy, all files and all blocks from the bitmap on are unchanged |
| `Files.WriteChunk` | fs.c:711-722 | one round of writei: the bytes reach the mapped block, all other bytes of all files stay |
| `Files.WriteRound` | fs.c:711-722 | one round keeps the balance of free blocks and blocks still needed, or is the first to find too few |
| `Files.WriteLoop` | fs.c:711-722 | the loop writes src, or a prefix of it exactly if the free blocks are fewer than the missing data and indirect blocks of the range |
| `Files.Writei` | fs.c:694-730 | from any well-formed state, in step with its on-disk inodes or not: the file becomes its old bytes overlaid with src (or with the prefix that fitted), no other file, inode or on-disk inode changes, ownership and mapping invariants hold; -1 exactly if the offset is past the end or the range too long, -2 exactly if the free blocks are fewer than the missing data and indirect blocks; the file grows exactly if the range passes its end and the first new entry can be had; the on-disk inode is then right, otherwise untouched; a right one stays right exactly unless the file ends inside the range at an entry without indirect block and one block is free; on-disk inodes that lack at most addresses past the end of their files keep doing so; no block changes but those of the bitmap, of the entries in the range and their indirect blocks and, if the file grows, of its inode |
| `Files.StrayWrite` | fs.c:694-730 | a file system of three blocks on which a one-byte write falls short and leaves the inode on disk out of step |
| `Files.WriteThenRead` | fs.c:662-730 | from any well-formed state, what writei accepted whole, readi returns |
| `Files.FileSystem.Read` | fs.c:662-690 | the in-place form of readi on the mounted file system |
| `Files.FileSystem.Write` | fs.c:694-730 | the in-place form of writei on the mounted file system, from any well-formed state, with the same exact conditions |
| `LoggedFiles.MountInv` | fs.c:364-379 | a well-formed file system whose on-disk inodes lack at most addresses past the end of their files is well-formed when its inodes are read back from disk |
| `LoggedFiles.MountBytes` | fs.c:364-379 | and every file read back has the same bytes |
| `LoggedFiles.WholeOrNot` | log.c:127-217 | over every run on a log that is long enough, with other operations and any number of crashes: anything read off the disk that only one operation changes is, after a crash, what it was before the operation if the operation had not ended, and what it was before or what it was at its end otherwise; once the commit is over without a crash it is the latter |
| `LoggedFiles.FileAgrees` | fs.c:662-690 | a file depends on its on-disk inode and on the blocks that hold or map its bytes, and on nothing else on the disk |
| `LoggedFiles.LoggedWrite` | file.c:262-267 | writei inside begin_op and end_op, while others work on other files before, meanwhile and after: after a crash at any time the file has its old bytes, or its old bytes overlaid with what writei wrote, never a mixture; the old until end_op, the new once the commit is over; nothing is asked of blocks the file does not use |
| `LoggedFiles.VolumeSurvives` | file.c:262-267 | if nobody else writes, the file system found after a crash is well-formed, in step with its on-disk inodes, and all its files are those before the operation, or all are those after it |
| `LoggedFiles.EveryWriteRuns` | log.c:127-254 | any change of distinct home blocks that fits in the log is carried out by a run of one operation, so the theorems above speak of every such write |
| `LoggedFiles.WriteBound` | fs.c:694-730 | writei changes no more blocks than the bitmap, the inode, and the data and indirect blocks of its range |
| `LoggedFiles.ChunkBound` | file.c:251-258 | for a chunk of filewrite that is at most 17 blocks besides the bitmap |
| `LoggedFiles.WriteRuns` | file.c:262-267 | whatever writei does to a disk with an empty log, if that bound fits in the log one operation of some run carries it out block by block |
| `Heap.RoomIff` | umalloc.c:90-90 | the unit count leaves room for nbytes exactly if nbytes + 7 does not wrap |
| `Heap.SbrkArgumentIff` | umalloc.c:67-82 | morecore asks for the memory it records exactly if the request is below 2 GB less 15 bytes, or wrapped; otherwise its argument is negative, or zero exactly for the eight largest sizes that do not wrap |
| `Heap.Search` | umalloc.c:29-31 | the search ends, at the last free block below the freed one or at the wrap |
| `Heap.Join` | umalloc.c:32-41 | the freed block merges with its free neighbours, if any: the list stays circular and ordered, blocks tile memory, no two free blocks touch |
| `Heap.FreeBlock` | umalloc.c:21-44 | the block leaves the live set, all other live blocks are untouched, a request of its size can be served, and freep is the last free block below it |
| `Heap.MoreCore` | umalloc.c:67-82 | the new region joins the heap and can serve the request, also when it merges into the block that becomes freep |
| `Heap.Take` | umalloc.c:96-105 | the block found is unlinked or split from its tail; the invariant holds and live blocks are untouched |
| `Heap.Allocate` | umalloc.c:95-110 | the circular scan ends after at most one morecore; it fails exactly if no free block fits and the system refuses; it grows exactly if none fits; without growing it takes the tail of the first block that fits on the way round from freep |
| `Heap.Heap.constructor` | umalloc.c:18-19 | before the first call the heap owns nothing |
| `Heap.Heap.Start` | umalloc.c:91-94 | the first call sets up the one-element list, which fits nothing |
| `Heap.Heap.Malloc` | umalloc.c:84-111 | a fresh live block of the asked size, cut from the first free block that fits, disjoint from all live ones; memory owned grows exactly by the region obtained; the kernel twin is the same with one-page chunks |
| `Heap.Heap.Cfree` | umalloc.c:21-44 | frees exactly the given live block, -1 for a null pointer |
| `Heap.Heap.Store` | umalloc.c:105-105 | whatever a program stores in a live payload, the allocator's invariant holds |
| `Heap.CircularInOrder` | umalloc.c:29-41 | listed in address order, each free block points to the next and the last one to base |
| `FreeList.FreeBoth` | umalloc.c:32-41 | freeing between two adjacent free blocks merges all three |
| `Vm.KallocOk` | kalloc.c:83-99 | the frame handed out leaves the free list and is nobody's |
| `Vm.KfreeOk` | kalloc.c:54-81 | the frame joins the free list once, filled with ones, and no address space changes |
| `Vm.Walk` | vm.c:42-65 | the page table of a virtual page, created zeroed if asked for: no entry of any address space changes, failure exactly without a table and without a frame |
| `Vm.MapUserPage` | vm.c:67-90 | one user page mapped to a frame of its own; nothing else in any address space changes; fails exactly for want of a page table |
| `Vm.Mappages` | vm.c:67-90 | a region is mapped page by page to consecutive frames, user pages taking ownership of theirs, everything else unchanged; exactly if there are frames enough for the missing page tables, and otherwise a known part of it stays mapped and no frame is free |
| `Vm.RegionNeeds` | vm.c:67-90 | the page tables that a kernel region is short of are all of its own, save the first if the region before it ends there |
| `Vm.KmapFits` | vm.c:115-125 | the kernel's table of regions is ascending, above KERNBASE and on disjoint pages |
| `Vm.Setupkvm` | vm.c:127-148 | a new address space with exactly the kernel's regions, all others unchanged, exactly if there are frames for the directory and the page tables; what a failed call built stays allocated |
| `Vm.GapUnmapped` | vm.c:115-125 | in it neither a user page nor a page between the end of physical memory and the devices is mapped |
| `Vm.KernelView` | vm.c:115-125 | the pages present are exactly those of physical memory, found KERNBASE higher, and of the devices, found where they are; each entry is exact: kernel text is read-only, all else writable, nothing is open to users |
| `Vm.KernelSpace` | vm.c:127-148 | setupkvm with the kernel's own table yields exactly that address space and changes no other |
| `UserMemory.PassedOver` | vm.c:262-267 | after the loop the whole range is unmapped exactly if nothing was mapped from the start of the first page table found to where the 4 MB jumps enter it; that stretch is empty if the first page has a table or starts one, or if no table follows |
| `UserMemory.SizedNotPassed` | vm.c:249-277 | on user memory that is contiguous from 0 the jumps pass over no mapped page |
| `UserMemory.JumpOver` | vm.c:262-267 | a memory, with page table 0 missing and page 1024 mapped, on which deallocuvm to one page leaves page 1024 mapped |
| `UserMemory.Deallocuvm` | vm.c:249-277 | from any memory: removes exactly the pages from where the jumps enter the first page table up to oldsz, returns their frames, changes nothing else; the whole range is unmapped exactly under the condition of PassedOver |
| `UserMemory.Freevm` | vm.c:279-296 | every frame of the address space is back on the free list, each once; all other address spaces are unchanged |
| `UserMemory.Allocuvm` | vm.c:222-247 | reports newsz exactly if the frames suffice for the pages and their page tables, or if they are one short, and the last page, alone in the range or first of its page table, has none; grows by exactly the new zeroed pages, in the second case all but the last; otherwise none of the new pages is left; a frame is lost exactly if the frames run out between a page and its table |
| `UserMemory.NoLeak` | vm.c:236-245 | no frame is lost if the frames suffice, or run out between two pages |
| `UserMemory.FalseSuccess` | vm.c:236-247 | a memory with one free frame on which growing by one page reports success, maps nothing and loses the frame |
| `UserMemory.OutcomeSized` | vm.c:222-247 | contiguous user memory stays contiguous, up to the new size, one page less after a false success, or the old size |
| `UserMemory.Copyuvm` | vm.c:311-341 | a new address space with the same contents and flags page by page, kernel mappings and nothing else, all others unchanged, exactly if there are frames for directory, page tables and pages; otherwise all it built is free again if setupkvm succeeded, and one frame is lost exactly if the frames run out between a page and its table |
| `UserMemory.CopyLeaks` | vm.c:330-335 | a memory with one user page, on which copyuvm runs out of frames between the page and its table, fails and loses a frame |
| `UserMemory.AbandonedSetup` | vm.c:141-146 | a memory with one free frame on which setupkvm fails and leaves that frame neither free nor known to anybody |
| `UserMemory.NoSharing` | vm.c:311-341 | no two user pages, in one or in two address spaces, share a frame |
| `UserMemory.Machine.AllocUser` | vm.c:222-247 | the in-place form of allocuvm, with the same exact conditions and the size that contiguous memory then has |
| `UserMemory.Machine.DeallocUser` | vm.c:249-277 | the in-place form of deallocuvm, on any memory and for any sizes; contiguous memory is contiguous again, up to the new size |
| `UserMemory.Machine.CopyUser` | vm.c:311-341 | the in-place form of copyuvm, with the same exact conditions; the copy is contiguous |
| `UserMemory.Machine.FreeUser` | vm.c:279-296 | the in-place form of freevm |
| `SleepWakeup.StepKeeps` | proc.c:666-800 | every single access to locks, states and channels by sleep, wakeup, sched, the scheduler and kill keeps the invariant |
| `SleepWakeup.RunInv` | proc.c:570-800 | the invariant holds in every state of every run, for any number of processes, CPUs, locks and channels |
| `SleepWakeup.NoLostWakeup` | proc.c:723-778 | whenever the lock guarding a condition is free, no process sleeps on its channel with the condition true |
| `SleepWakeup.SleeperIsOwed` | proc.c:723-778 | while a process sleeps on a true condition, one and the same actor holds the lock and owes the wakeup |
| `SleepWakeup.DebtPaid` | proc.c:761-769 | a wakeup is paid only by a scan that leaves no sleeper on the channel, or by making the condition false |
| `SleepWakeup.DispatchSafe` | proc.c:596-658 | a process the scheduler may pick has left its CPU; no process runs on two CPUs |
| `SleepWakeup.SchedChecks` | proc.c:672-677 | two of the four panics of sched are unreachable: it is entered only with ptable.lock held and the state already changed |
| `SleepCalls.LockChanges` | spinlock.c:24-64 | locks exclude: only its holder gives up a lock, and one gets it only when it is free, or ptable.lock from the scheduler that switches to one; acquire leaves its caller the holder of a lock that was free, release leaves a lock free that its caller held |
| `SleepCalls.CondChanges` | proc.c:721-756 | only the holder of its lock changes a condition; a wakeup comes to be owed exactly when one is made true, and stays owed until it is made false or the holder's wakeup is over |
| `SleepCalls.OwedIsTrue` | proc.c:771-778 | over every run a wakeup is owed only for a condition that is true |
| `SleepCalls.SleepReturns` | proc.c:723-756 | over every run: sleep returns with exactly the locks its caller had, its own lock among them, on a CPU and with no channel, and only after the process was asleep on the channel without that lock |
| `SleepCalls.WakeupReturns` | proc.c:761-778 | over every run: wakeup returns with exactly the locks its caller had and with nobody asleep on the channel |
| `SleepCalls.StateChanges` | proc.c:570-801 | the state diagram of a process: the step that falls asleep, is woken, picked, killed, yields, exits, is made or reaped changes its state, to exactly the state due, and no other step does |
| `SleepCalls.PtableReturned` | proc.c:570-778 | from every reachable state, whoever holds ptable.lock inside sleep, wakeup, sched or the scheduler can go on, waiting for nobody, until it has given the lock back or returned |
| `ProcTree.TreeIff` | proc.c:73-94 | over every run: every process has a live parent with a smaller pid, never a thread over a thread, or none, exactly as long as no clone stores a parent that exited since the clone loaded it |
| `ProcTree.StoreKeepsIff` | proc.c:412-415 | clone's store keeps that property exactly if the parent has not exited since it was loaded |
| `ProcTree.StoreIff` | proc.c:412-415 | one store, from any state: it keeps the property exactly if the process that was loaded may be the parent now |
| `ProcTree.FitKept` | proc.c:478-492 | only the exit of the loaded process makes it unfit as a parent |
| `ProcTree.GoneKept` | proc.c:478-492 | once it has exited it never becomes fit again, since its slot comes back with a larger pid only |
| `ProcTree.StepInv` | proc.c:507-548 | fork, clone, exit, wait and the culling of threads keep the process tree |
| `ProcTree.ExitKeeps` | proc.c:478-492 | reparenting to init keeps parents live and older |
| `ProcTree.WaitKeeps` | proc.c:507-548 | reaping or marking a zombie child keeps the tree |
| `ProcTree.CullKeeps` | proc.c:599-612 | culling a dead thread keeps the tree |
| `ProcTree.Acyclic` | proc.c:73-94 | no process is its own ancestor, at any distance |
| `ProcTree.CloneRace` | proc.c:412-415 | a run in which a parent exits inside that window and the new thread's parent is a zombie |
| `ProcTree.ParentChanges` | proc.c:478-492 | only the exit of its own parent hands a process to init, only its reaping leaves it without a parent, and only fork and clone give it one |
| `ProcTree.ParentUntilExit` | proc.c:482-488 | over every run, as long as the tree is in order (TreeIff): a process keeps its parent up to that parent's exit and has init from then on, until it is reaped |
| `ProcTree.StateChanges` | proc.c:438-568 | a slot is taken, started, left a zombie, marked crashed or emptied by exactly one kind of step each and by no other; it gets the next pid when it is taken and loses it when reaped |
| `ProcTree.PidsDistinct` | proc.c:73-94 | over every run, as long as the tree is in order: no two slots in use have the same pid |
| `ProcTree.CrashKept` | proc.c:520-547 | over every such run: wait keeps the slot of its child exactly if the child exited crashed |
| `ProcTree.ForkMakes` | proc.c:216-261 | over every such run: the child that fork starts is live, of the kind asked for, with the pid that was next when its slot was taken and its maker for a parent |
| `FileRefs.RefsConserved` | file.c:105-160 | in every state of every run, with processes forked, cloned, exiting and reaped, a file's count is the number of descriptors naming it over all processes plus the references in flight |
| `FileRefs.StepConserves` | sysfile.c:43-119 | each step of open, dup, close and pipe, of the descriptor loops of fork, clone and exit, and of wait changes counts and references alike |
| `FileRefs.UnusedIsEmpty` | proc.c:446-452 | exit leaves nothing behind: the descriptor table of a process that is dead or unused is empty and it holds no reference in flight |
| `FileRefs.ForkCopies` | proc.c:243-245 | fork and clone, which store over the child's table without a test, give the child exactly the parent's descriptors |
| `FileRefs.StepKeeps` | file.c:105-160 | each step also keeps the pipe ends in step with their files |
| `FileRefs.NoPanic` | file.c:123-143 | filedup and fileclose always find a count of at least one, also in sys_dup, which stores before it counts |
| `FileRefs.OpenWhileNamed` | pipe.c:58-74 | while a descriptor refers to a pipe end, that end is open and the pipe is not freed |
| `FileRefs.ClosedByLast` | file.c:136-160 | fileclose hands a pipe end to pipeclose exactly when it drops its last reference |
| `FileRefs.FreedOnce` | pipe.c:58-74 | a pipe is freed once, when both ends are closed, and never again |
| `FileCalls.TableChanges` | sysfile.c:43-119 | a descriptor changes by open, pipe, dup and close of its own process, by its exit and by the fork that copies it, to exactly what that call says, and by nothing else |
| `FileCalls.FileChanges` | file.c:105-160 | a file changes kind when it is opened, made a pipe end or closed for the last time, its count by one in filealloc, filedup and fileclose, and neither otherwise |
| `FileCalls.LifeChanges` | proc.c:446-494 | a process is made by fork, dies by its own exit and becomes unused by a wait, and changes in no other way |
| `FileCalls.EndChanges` | pipe.c:58-74 | an end of a pipe is open until pipeclose is called for exactly that end |
| `FileCalls.PipeCall` | sysfile.c:498-520 | over every run: after pipe the first descriptor names the reading end and the second the writing end of one new pipe, with both ends open |
| `FileCalls.ForkFinishes` | proc.c:243-260 | from every reachable state a fork or clone under way can go on to its end by its own steps alone; the child then lives and has exactly its parent's descriptors |
| `FileCalls.ExitFinishes` | proc.c:446-452 | from every reachable state an exit under way can go on to its end by its own steps alone; the process is then dead, names no file and holds no reference |
| `Pipe.WindowWrap` | pipe.c:92-92 | the ring's contents do not depend on the 32-bit wrap of the counters |
| `Pipe.Pipe.constructor` | pipe.c:21-36 | a new pipe is empty with both ends open |
| `Pipe.Pipe.Put` | pipe.c:92-92 | appends one byte to what is buffered, across counter wrap |
| `Pipe.Pipe.Get` | pipe.c:115-115 | removes the oldest buffered byte, across counter wrap |
| `Pipe.Pipe.Fill` | pipe.c:83-93 | appends bytes until the data ends or exactly 512 are buffered |
| `Pipe.Pipe.Drain` | pipe.c:112-116 | takes the oldest min(n, buffered) bytes, none for a negative n |
| `PipeStream.RunInv` | pipe.c:77-120 | over any interleaving, bytes delivered followed by bytes buffered are the bytes accepted, at most 512 are buffered, every writer's bytes are among them in order exactly once, and a writer sleeps only on a full pipe with an open read end |
| `PipeStream.WholeWrite` | pipe.c:77-97 | a call that returns its count has put exactly its bytes, after all the process wrote before |
| `PipeStream.StrandedIff` | pipe.c:84-91 | a step leaves a reader asleep beside data exactly if, in the state before it, a reader sleeps, the writer whose turn it is has room for some of its bytes but not for all, and is killed or has no reader |
| `PipeStream.NoneStranded` | pipe.c:77-120 | without such a step no reader ever sleeps while there is data or no writer |
| `PipeStream.KilledWriterStrands` | pipe.c:85-88 | a run in which that happens |
| `PipeStream.WriterReturns` | pipe.c:83-96 | a writer puts as much as fits, and returns exactly if that is all, nobody can read, or it is killed; otherwise it sleeps with the rest |
| `PipeStream.ReaderReturns` | pipe.c:104-111 | a reader returns exactly if there are bytes, nobody can write, or it is killed; otherwise it sleeps |
| `PipeStream.ReadGets` | pipe.c:112-119 | read is handed the next bytes of the stream, as many as it asked for or as there are |
| `PipeStream.EndsAndKills` | pipe.c:58-74 | an end is open until it is closed and closed from then on; a process that is killed does not stay asleep; a call starts with exactly its arguments |
| `PipeStream.OthersKeep` | pipe.c:77-120 | what other processes do wakes a process at most: its call and what it has put so far stay |
| `LruList.PushFront` | bio.c:140-147 | linking a buffer behind the head keeps one circle |
| `LruList.Unlink` | bio.c:142-143 | unlinking a buffer keeps one circle of the others |
| `LruList.BufferCache.constructor` | bio.c:47-68 | all buffers are on the list and cache nothing |
| `LruList.BufferCache.Bget` | bio.c:73-107 | finds the one buffer of the block, waits for it if busy, and otherwise recycles the least recently released buffer that is neither busy nor dirty; panics exactly if there is none |
| `LruList.BufferCache.Brelse` | bio.c:132-153 | the buffer becomes the most recently released one, the others keep their order, the list stays one circle of all buffers |
| `LruList.SamePanic` | bio.c:73-107 | the buffer list and the log's map of cached blocks agree on when bget finds no buffer |
| `CacheRun.StepKeeps` | bio.c:73-153 | every step of cache users and of the disk queue keeps the invariant |
| `CacheRun.RunInv` | ide.c:126-188 | the invariant holds in every state of every run |
| `CacheRun.Transparent` | bio.c:109-120 | what bread hands out is the block's latest contents, and no other buffer caches the block |
| `CacheRun.DiskCurrent` | bio.c:94-105 | a block in no buffer, or in a clean idle one, is up to date on disk, so recycling loses nothing |
| `CacheRun.ReadsLastChange` | bio.c:109-120 | over every run: the bytes that bread hands out are those of the last change made to the block, by anybody, or those the disk held at boot |
| `CacheRun.LatestIs` | bio.c:122-130 | the machine's record of latest contents is that last change |
| `CacheRun.BwriteReturns` | ide.c:160-188 | over every run: bwrite returns only when the disk holds the bytes the buffer had at the call, and the buffer is clean |
| `CacheRun.BreadReturns` | ide.c:126-154 | over every run: bread of an uncached block returns a valid buffer of that block with the bytes of the disk |
| `CacheRun.OneHolder` | bio.c:73-107 | over every run: between two calls of bget that hand out one buffer it is released |
| `Grep.MatchesCons` | grep.c:82-104 | a pattern matches exactly if its first item matches a piece of text and the rest matches from there |
| `Grep.MatchHere` | grep.c:82-94 | true exactly if the pattern matches a text that begins here; terminates |
| `Grep.MatchStar` | grep.c:96-104 | true exactly if, after some run of fitting characters, the rest of the pattern matches |
| `Grep.Match` | grep.c:70-80 | true exactly if the text has a match: at its beginning after ^, anywhere otherwise |
| `Grep.PrintOfItems` | grep.c:82-94 | every pattern is the print of the items it is read as, and those items are readable |
| `Grep.ItemsOfPrint` | grep.c:82-94 | readable items are read back from their print, so that a dollar sign is the end of the text exactly where it is last and not starred |
| `Grep.FoundLiteral` | grep.c:70-94 | on strings: p finds the texts that contain it, ^p those that begin with it, p$ those that end with it and ^p$ those that are like it, a dot standing for any character |
| `Grep.FoundStar` | grep.c:87-104 | on strings: ^c*$ finds exactly the texts of nothing but c, and ^.*$ all |
| `ShellGrammar.RoundTrip` | sh.c:407-509 | the parser reads every command tree back from its printed form, at every level of the grammar |
| `ShellGrammar.ParsesIff` | sh.c:390-509 | the parser accepts exactly the token sequences to which the grammar, stated as a relation, gives a meaning, and yields that meaning |
| `ShellGrammar.Means` | sh.c:407-509 | at every level of the grammar what the parser consumed denotes the command it yields |
| `ShellGrammar.Accepts` | sh.c:407-509 | at every level, before any text that cannot continue it, whatever denotes a command is read as that command |
| `ShellGrammar.PrintedDenotes` | sh.c:407-509 | the printed form of a command denotes it |
| `Shell.GetToken` | sh.c:328-371 | yields the next token of the line, words with the exact span of their plain characters |
| `Shell.TokensIff` | sh.c:325-371 | a line has exactly one reading as blanks and tokens, with longest words and >> before >, and the tokens are that reading |
| `Shell.Peek` | sh.c:373-383 | skips white space only and tells the first character of the next token |
| `Shell.ParseRedir` | sh.c:442-457 | one round of the redirection loop agrees with the grammar, and fails exactly when no file name follows |
| `Shell.ParseRedirs` | sh.c:437-460 | agrees with the grammar on redirections; file words are disjoint spans |
| `Shell.ParseExec` | sh.c:478-509 | agrees with the grammar; words are non-empty disjoint spans within the text consumed, fewer than MAXARGS per command |
| `Shell.ParseArg` | sh.c:492-505 | one round of the word loop agrees with the grammar |
| `Shell.ParseArgs` | sh.c:492-508 | the word loop agrees with the grammar, rejects the tenth word |
| `Shell.ParseBlock` | sh.c:462-476 | agrees with the grammar on parenthesised commands |
| `Shell.ParsePipe` | sh.c:424-435 | agrees with the grammar on pipelines |
| `Shell.ParseAmps` | sh.c:413-416 | agrees with the grammar on trailing & |
| `Shell.ParseLine` | sh.c:407-422 | agrees with the grammar on lists |
| `Shell.Nulterminate` | sh.c:511-556 | writes a NUL behind every word of the tree and nowhere else |
| `Shell.ReadBack` | sh.c:511-556 | no NUL falls inside a word, so each word reads back as its original text |
| `Shell.ParseCmd` | sh.c:390-405 | accepts a line exactly if its tokens have a meaning in the grammar, and yields that meaning as its tree; spans, argument bound and in-place read-back hold; a rejected line is left unchanged |

## Left out

- Log.Log.LogWrite: the buffer's new contents are a parameter of the call, since callers change the buffer before it.
- Log.Log.Commit: other holders of buffers stand still while it runs, save that one who holds a logged block releases it when the commit waits for it, and hold no block of the log region; GroupCommit has their moves as steps.
- GroupCommit.StepRefines: callers' duties are guards of the steps: proper bracketing, and log_write before brelse of a changed buffer.
- Files.Writei: device files, and the type, link count, owner and permission fields of the inode, are not modelled.
- LoggedFiles.LoggedWrite: the order of the block writes of writei is not modelled; memory agrees on the blocks of the file with the state before the call when the operation opens, and with the state after it when it ends.
- LoggedFiles.WriteRuns: that bytes are below 256 is a condition, since blocks of files hold natural numbers.
- GroupCommit.FilewritePanics: the bitmap, inode and indirect blocks that a chunk logs besides its data are not counted, so the panic comes earlier in fact.
- Files.Bmap: the missing brelse when the second allocation fails is not modelled; buffers are seen through the log and the cache as block contents.
- Heap.Heap.Malloc: sbrk's answer is a parameter, memory the heap does not own yet; kmalloc is this model with one-page chunks and requests of at most one page; it takes no lock, and calls of it that overlap are not modelled.
- Vm.KallocOk: the free list is a sequence; the link word kfree stores in a free page is not modelled.
- Vm.Mappages: a region has at least one byte and starts at a frame, and mapping a present page, which panics, is the caller's error.
- UserMemory.Allocuvm: that the new pages are not mapped yet is the caller's duty, as mapping them again panics; nobody else takes or returns frames while it runs, and with a frame returned meanwhile it can go on past a lost one.
- UserMemory.Copyuvm: that the pages below sz are mapped is the caller's duty, as a missing one panics; nobody else takes or returns frames while it runs.
- SleepWakeup.NoLostWakeup: conditions are abstract; every step that makes one true holds its lock and wakes the channel before releasing it; nested interrupt disabling (pushcli, popcli) is not modelled.
- SleepWakeup.SchedChecks: the panics of sched on nested interrupt disabling and on enabled interrupts are not modelled.
- CommitProgress.CommitEnds: that there are steps to the end is proved, not that a scheduler takes them.
- ProcTree.TreeIff: pids are unbounded integers, and the running and waiting states are one state.
- PipeStream.RunInv: wakeup makes all sleepers runnable in one step, as SleepWakeup justifies.
- CacheRun.Transparent: disk errors are not modelled; a request served by the disk always transfers its block.
- Shell.ParseCmd: allocation of tree nodes cannot fail, and a panic is a failed parse.
- Direct inode updates and bdisk_write, which write outside the log, and the mode without a log.
- itrunc, bfree and all space reclaim: bmap_g without create never finds a block, so nothing is freed.
- Directories, path lookup, mount, chroot and inode reference counts.
- tfork, growproc's thread sizes, the thread-killing loop of exit, and mailboxes.
- exec, traps, system-call argument fetching, users and permissions: short case splits.
- Device drivers, interrupt controllers, boot code, image building and the user utilities other than grep's matcher and the shell's parser.
- runcmd of the shell and the rest of the libc: printing, string and number conversion.
