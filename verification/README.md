# xv6 in Dafny: what the kernel and its user programs keep

This project models the state-changing cores of the xv6 RISC-V kernel and of some of its user programs and
proves what they promise. `dafny verify dfyconfig.toml` checks all of it. Citations are to the tree
`Assignment2`; `Assignment1_2` has the same log, file system, cache, paging, pipe, disk driver, allocator and
grep, and differs in `exit`.

## What is modelled

**Redo log** (`LogLayout`, `Log`, `LogRuns`; kernel/log.c). The disk is a sequence of blocks whose writes are
atomic. `Log` is the code, over a device that records the disk after each write. `LogLayout` says what each of
these states recovers to: all old before the header write and all new from it on, also when recovery itself is
cut off any number of times. `LogRuns` lets many processes, commits, crashes and recoveries interleave: the
recovered disk is always the effect of whole commit groups, in order, whatever the operations log; only the results
on log space suppose that operations stay within their budgets of ten blocks. Three results are negative. The log laid
out by mkfs is one block too short for three operations that use their whole budget (room is enough if and only if the
log area has LOGSIZE + 1 blocks); `log_write` looks for a full log before it looks for absorption; and `begin_op`, which
turns away everybody who could come to fill the log, turns away others too, since it counts a whole budget for every
running operation, also for what that has used already (`RefusedIff` says whom exactly).

**Files and blocks** (`FsTree`, `FsFacts`, `FileSys`, `File`; kernel/fs.c, kernel/file.c). A map from block
numbers to the one place (direct, indirect, or entry of an indirect block) that holds each makes the bitmap's
used set exactly the metadata and the reachable blocks, each reachable once, after every operation and also when
the disk fills up half way. A file is a byte sequence: `readi` returns the clipped slice, `writei` overwrites or
extends exactly the bytes written, `itrunc` returns exactly the file's blocks, and none of them touches an inode's type
or link count. Chunks of three blocks stay within
the ten log entries that an operation may use, in files without holes. Everything that an operation changes it hands
to the log. `Mkfs` builds the first such file system, exactly when the files fit; the directory size that
it rounds up leaves an unmapped block below the size exactly when the entries already fill their blocks. Reading such
a block maps it, for which `readi` needs a transaction that a plain read does not open; and if its pointer lies in the
inode, the inode is not written back.

**The file system on the disk** (`FsDisk`; kernel/fs.h, and fs.c over log.c). How a disk's blocks read as free map,
inodes and data. At any moment of any run of the log over file-system operations, the disk recovers to the file system
that whole commit groups lead to, every block still in its one place; a chunk written by `filewrite` is there after a
crash or it is not. The exception is negative: after a read that fills a pointer of an inode, the disk has a marked
block that no inode on it reaches.

**Directories and links** (`Links`, `Sysfile`; kernel/sysfile.c). nlink is the number of entries, other than
".", in linked directories that name the inode; no directory has two equal names; a linked directory has one
name, in the directory its ".." names. `create` and `link` keep this exactly if the directory they write to is
itself linked; `unlink` always does, and failures change nothing.

**Buffer cache** (`BufCache`; kernel/bio.c). The list's prev and next words form one circle through all buffers
in the order of their last release; the buffer recycled is the one released longest ago of those nobody refers
to; and the cache behaves as an uncached store. `CacheLog` puts the log over it: what a commit makes durable is what
processes see through the cache.

**Page tables and page allocator** (`PageTree`, `VmFacts`, `Vm`; kernel/vm.c, kernel/kalloc.c). Pages are 512
words; the free list runs through the free pages and the trees of tables through the others. Every page is on the
free list, at one place of one tree, or held by somebody else. Address spaces are maps from virtual page to
entry: mapping and unmapping change exactly their range, failures leave every mapping as it was and return every
data page, `uvmcopy` copies contents and flags, `uvmfree` returns every page of the tree.

**Processes** (`Proc`, `ProcRuns`, `ProcKin`; kernel/proc.c). A step relation over any number of CPUs and processes, one
critical section a step, with the loops of `reparent`, `wakeup` and `wait` taken entry by entry. The timer may stop a
thread wherever it holds no lock, and an interrupt's wakeup may come on any CPU, idle ones included. `ProcKin` follows
parents and children through all runs: what `exit` was given is what `wait` returns, nobody is ever an orphan, and
`wait` gives up or sleeps exactly when it should.

**Pipes** (`Pipe`; kernel/pipe.c) and the **disk driver** (`Virtio`; kernel/virtio_disk.c): ring buffers under
wrapping 32-bit and 16-bit counters, who sleeps on what, and for the driver a device that serves the requests it
has fetched in any order.

**User programs.** The K&R allocator (`FreeRing`, `Heap`; user/umalloc.c), grep (`Grep`, `GrepFile`;
user/grep.c) and the shell's parser (`ShellGrammar`, `ShellPrint`, `ShellSyntax`, `Shell`; user/sh.c). `ShellSyntax`
describes the shell's language without the parser, as sequences of tokens: the parser accepts exactly this language, and
the tree has every redirection of the line, wherever it stands among the words, in order from the inside out.

Where code and comment differ the code is followed: `uvmdealloc` says that oldsz may be larger than the process,
but `uvmunmap` panics on a page that is not mapped (`Vm.Memory.UvmDealloc` panics exactly if one of the pages given up
is not); and `wait` can sleep although its process has been killed (`ProcRuns.KillOverlooked` is a run in which it
does).

A `requires` that stands for a panic says so beside it; elsewhere the panics are asserts that are proved.

## Model

| member | source | states |
|---|---|---|
| LogLayout.CommitAtomic | Assignment2/kernel/log.c:178-203 | wherever commit is cut off, recovery yields the old home blocks before the header write and the new ones after it |
| LogLayout.CommitTraceAtomic | Assignment2/kernel/log.c:178-203 | the same for the disk states commit really passes through, in order: all old, then all new |
| LogLayout.AfterCommitPoint | Assignment2/kernel/log.c:69-82 | once the header is written, recovery gives the new blocks however far installing has come |
| LogLayout.RecoveryRestartable | Assignment2/kernel/log.c:117-123 | a recovery cut off after any write, run again, ends in the same home blocks |
| LogLayout.CutRecoveriesConverge | Assignment2/kernel/log.c:117-123 | so does any number of cut-off recoveries |
| LogLayout.RecoverTraceAtomic | Assignment2/kernel/log.c:117-123 | the same of the disk states recovery really passes through |
| LogLayout.CrashAtomicity | Assignment2/kernel/log.c:67-123 | commit cut off anywhere, recoveries cut off anywhere, then one that completes: all old or all new, and an empty log |
| LogOps.AbsorbStaysLoggable | Assignment2/kernel/log.c:226-233 | recording one more block keeps the header's blocks distinct, within the log and outside it |
| Log.Log.constructor | Assignment2/kernel/log.c:54-65 | initlog leaves what Recover says of the disk, through the states of recovery |
| Log.Log.ReadHead | Assignment2/kernel/log.c:86-97 | the in-memory header is the one on disk |
| Log.Log.WriteHead | Assignment2/kernel/log.c:102-115 | one block write puts the in-memory header on disk |
| Log.Log.WriteLog | Assignment2/kernel/log.c:178-191 | the log slots hold the cached blocks, state by state |
| Log.Log.InstallTrans | Assignment2/kernel/log.c:68-83 | the home blocks hold the log slots; buffers are unpinned unless recovering |
| Log.Log.RecoverFromLog | Assignment2/kernel/log.c:117-123 | recovery yields Recover of the disk and an empty log |
| Log.Log.Commit | Assignment2/kernel/log.c:193-203 | commit passes through exactly the states of CommitTrace and ends with the overlaid disk and an empty log |
| Log.Log.BeginOp | Assignment2/kernel/log.c:126-143 | an operation has to wait exactly when a commit runs or the blocks logged and ten for each operation, itself included, exceed LOGSIZE; otherwise it is counted in |
| Log.Log.LogWrite | Assignment2/kernel/log.c:214-235 | the block is recorded once and its buffer cached, or one of the two panics applies |
| Log.Log.EndOp | Assignment2/kernel/log.c:145-175 | the last operation's end makes the whole group durable, all or nothing |
| LogRuns.StepKeepsInv | Assignment2/kernel/log.c:126-235 | every step of many processes, commits, crashes and recoveries keeps the invariant, and only a full log panics |
| LogRuns.RunKeepsInv | Assignment2/kernel/log.c:126-235 | the invariant holds in every state of every run |
| LogRuns.RecoveredDiskIsDurableGroups | Assignment2/kernel/log.c:126-203 | at any moment of any run, what recovery yields is the effect of whole commit groups in order, those whose commit returned among them |
| LogRuns.DurableIsPrefixOfClosed | Assignment2/kernel/log.c:145-175 | what is durable is a prefix of the groups handed to commit |
| LogRuns.OperationsAreAtomic | Assignment2/kernel/log.c:14-22 | if one write of an operation is durable, all its writes are, in the same group |
| LogRuns.CommittingExcludesOperations | Assignment2/kernel/log.c:145-175 | committing implies that no operation is outstanding, so end_op's panic is out of reach |
| LogRuns.IdleLogIsEmpty | Assignment2/kernel/log.c:145-175 | whenever no operation and no commit is running, no write waits in the log |
| LogRuns.StepKeepsSpace | Assignment2/kernel/log.c:126-143 | begin_op's reservations cover what operations within their budgets may still log |
| LogRuns.ReservationSuffices | Assignment2/kernel/log.c:133-137 | with LOGSIZE + 1 blocks of log, in every run whose operations stay within their budgets none finds the log full |
| LogRuns.RoomIffOneMoreThanLogsize | Assignment2/kernel/log.c:220-221 | and with fewer blocks some such run does |
| LogRuns.MkfsLogIsOneSlotShort | Assignment2/mkfs/mkfs.c:25 | a run of three operations within budget that panics on the log that mkfs makes |
| LogRuns.OverflowsIff | Assignment2/kernel/log.c:126-143 | in any thrifty run, letting one more operation begin can be followed by operations within their budgets that find the log full if and only if the blocks logged, what the running operations have left, and ten more exceed LOGSIZE |
| LogRuns.RefusedIff | Assignment2/kernel/log.c:133-137 | while no commit runs, begin_op refuses exactly those who could so fill the log, and those whom only what running operations have already used makes harmless |
| LogRuns.RefusedNeedlessly | Assignment2/kernel/log.c:133-137 | a run that ends with a process refused although nobody could have found the log full |
| LogRuns.FullLogRejectsAbsorption | Assignment2/kernel/log.c:220-230 | a run in which logging an already logged block panics, whatever the size of the log area |
| FsBlocks.BitsAreSeparate | Assignment2/kernel/fs.c:76-100 | setting or clearing one bitmap bit leaves the others |
| FsBlocks.BitValue | Assignment2/kernel/fs.c:75 | bit i of a byte has the value 2 to the i, which fixes the bitmap on the disk |
| FsTree.HungOwned | Assignment2/kernel/fs.c:383-421 | hanging a free block at an empty place keeps every block at exactly one place |
| FsTree.UnhungOwned | Assignment2/kernel/fs.c:426-453 | so does letting one go |
| FsFacts.HungOk | Assignment2/kernel/fs.c:66-88 | a block marked used and hung up keeps the bitmap equal to what is reachable |
| FsFacts.UnhungOk | Assignment2/kernel/fs.c:91-105 | so does one let go and cleared; its bit was set |
| FsFacts.WritingDone | Assignment2/kernel/fs.c:506-539 | with the size brought up to date the file holds exactly the overwritten bytes |
| FsFacts.ReadableIsMost | Assignment2/kernel/fs.c:476-479 | what a read returns is the longest stretch within the file and the amount asked for |
| FsFacts.TruncatingDone | Assignment2/kernel/fs.c:426-453 | a truncated file owns no block, and the other files own what they did |
| FsFacts.ChunkFitsBudget | Assignment2/kernel/file.c:149-158 | a write of three blocks' worth of bytes at any offset logs at most ten blocks, eleven in a file with holes |
| FileSys.FileSys.Balloc | Assignment2/kernel/fs.c:65-88 | the lowest free block, zeroed and marked, or none because all are used |
| FileSys.FileSys.Bfree | Assignment2/kernel/fs.c:91-105 | exactly this block's bit is cleared |
| FileSys.FileSys.Bmap | Assignment2/kernel/fs.c:382-421 | the file's block, allocated if necessary, or 0 on a full disk; no other block moves and no byte changes; everything changed is logged but the inode |
| FileSys.FileSys.Readi | Assignment2/kernel/fs.c:471-498 | exactly the slice of the file's bytes that exists, zeros for an unmapped block, short only at one on a full disk; something is written if and only if a block of the range is unmapped and one is free; the inode changes, unlogged, if and only if a pointer of its own was missing |
| FileSys.FileSys.Writei | Assignment2/kernel/fs.c:505-539 | exactly the bytes written are overwritten or appended, short only on a full disk; type and link count stay; every other file reads the same; at most MAXOPBLOCKS log entries for a chunk, one more if the file has holes; everything changed is logged |
| FileSys.FileSys.Itrunc | Assignment2/kernel/fs.c:425-453 | the inode keeps all but its pointers and size, which are 0; its blocks are free, every other file reads the same; everything changed is logged, with at most one entry a bitmap block and the inode's |
| FileFacts.WroteTwice | Assignment2/kernel/file.c:154-174 | two adjoining chunks make one write |
| File.WriteChunk | Assignment2/kernel/file.c:154-165 | one chunk is one operation within the log's budget, which logs all that it changes; the inode keeps type and link count |
| File.FileWrite | Assignment2/kernel/file.c:149-174 | all of the bytes are written at the file's offset, or -1 with a prefix of them written and the offset behind it; the inode keeps type and link count |
| DiskForm.ReadBack | Assignment2/kernel/fs.h:8-51 | a disk that holds a file system reads back as its free map, inodes and data blocks |
| DiskForm.OkReadBack | Assignment2/kernel/fs.h:8-51 | and, if it is in order, as one in order, every block in the same place |
| DiskForm.Storable | Assignment2/kernel/fs.h:31-51 | every file system whose numbers fit their fields can be put on a disk and read back |
| FsCrash.CrashKeepsFs | Assignment2/kernel/log.c:67-123 | a crash anywhere in the commit of what operations logged, and recoveries cut off anywhere: the disk holds the file system from before or the one from after |
| FsCrash.RecoveredFsOk | Assignment2/kernel/log.c:126-203 | at any moment of any run of the log over such operations the recovered disk holds the file system that the durable groups lead to, and reads as one in order if that is |
| FsCrash.ReadLeavesStray | Assignment2/kernel/fs.c:382-421 | when only an inode's pointers in memory have been filled, the disk has a marked block that no place on it refers to |
| FileCrash.ChunkOrNothing | Assignment2/kernel/file.c:154-174 | filewrite's transaction, cut off at any moment of its commit: with the part of the chunk that was written, or without any |
| FileCrash.ReadHole | Assignment2/kernel/fs.c:471-498 | a read of a block without a pointer in the inode, on a disk with room, has that effect |
| MkfsFacts.AppendDone | Assignment2/mkfs/mkfs.c:252-294 | appended bytes are the file's tail, without holes |
| MkfsFacts.RootEntryAt | Assignment2/mkfs/mkfs.c:120-156 | the root's first entries are its own, and the entry of each file follows in order, its number least significant byte first, then its name |
| MkfsFacts.RoundingHoles | Assignment2/mkfs/mkfs.c:161-166 | rounding a directory's size up leaves a hole exactly if the size is a multiple of BSIZE |
| Mkfs.Image.Iappend | Assignment2/mkfs/mkfs.c:252-294 | the file's contents grow by exactly these bytes, its blocks are those its size calls for, its type and link count stay; it succeeds exactly if the size limit and the image have room for them |
| Mkfs.Image.Ialloc | Assignment2/mkfs/mkfs.c:220-232 | a new inode, empty, of the type asked for, with one link |
| Mkfs.Image.Balloc | Assignment2/mkfs/mkfs.c:234-248 | the bitmap marks exactly the blocks handed out |
| Mkfs.Image.Build | Assignment2/mkfs/mkfs.c:69-173 | it succeeds exactly if every file is within the size limit and the blocks of all files and the root fit the image; the image then satisfies the file-system invariant, each file is of type T_FILE and holds its source's bytes, the root is of type T_DIR and holds the entries, all with one link, and the other inodes are free; the root has a hole exactly in the case above |
| Mkfs.HoleyRoot | Assignment2/mkfs/mkfs.c:161-166 | 62 empty files make an image whose root has a hole |
| LinkFacts.EnteredShape | Assignment2/kernel/sysfile.c:123-170 | one more name and one more link in a linked directory keep all counts and names right |
| LinkFacts.EnteredDead | Assignment2/kernel/sysfile.c:123-170 | in a directory no longer linked the count is one too high |
| LinkFacts.DirEnteredOk | Assignment2/kernel/sysfile.c:276-289 | a new directory with its name and "..", and its parent's extra link, keep all counts right |
| LinkFacts.DirEnteredDead | Assignment2/kernel/sysfile.c:276-289 | in a directory no longer linked they do not |
| LinkFacts.EmptyDirLinks | Assignment2/kernel/sysfile.c:215-237 | an empty directory is linked by its one name alone, and its parent by more than its ".." |
| LinkFacts.ErasedOk | Assignment2/kernel/sysfile.c:222-233 | taking a file's name away keeps all counts right |
| LinkFacts.DirErasedOk | Assignment2/kernel/sysfile.c:222-233 | taking an empty directory's name away keeps all counts right |
| Sysfile.SameName | Assignment2/kernel/fs.c:543-547 | true exactly if the names agree in their first DIRSIZ characters |
| Sysfile.Dirs.DirLookup | Assignment2/kernel/fs.c:551-575 | the first live entry whose name has the same first DIRSIZ characters |
| Sysfile.Dirs.DirLink | Assignment2/kernel/fs.c:579-606 | the first empty slot takes the entry, its name cut to DIRSIZ characters, unless that name is there or the disk is full |
| Sysfile.Dirs.IsDirEmpty | Assignment2/kernel/sysfile.c:172-186 | nothing but "." and ".." |
| SysfileFacts.LookupEntered | Assignment2/kernel/fs.c:579-606 | a name entered in the first empty slot, or behind all entries, is looked up as its inode, and every other name as before |
| SysfileFacts.LookupErased | Assignment2/kernel/sysfile.c:222-225 | an entry zeroed is found no more, and every other name is as before |
| Sysfile.Dirs.Link | Assignment2/kernel/sysfile.c:123-170 | failure restores everything; with success the new name stands for the inode, which has one link more, and every other name for what it did; success keeps all counts right if and only if the new name's directory is linked |
| Sysfile.Dirs.Unlink | Assignment2/kernel/sysfile.c:188-243 | exactly when it succeeds; the name then stands for nothing, every other for what it did, and all counts stay right |
| Sysfile.Dirs.Ialloc | Assignment2/kernel/fs.c:198-219 | the lowest free inode, or none |
| Sysfile.Dirs.Create | Assignment2/kernel/sysfile.c:245-302 | exactly when it succeeds, and what an existing name of each kind gives; failure restores everything; the new inode has the type asked for and one link, its name stands for it and every other name for what it did; success keeps all counts right if and only if the directory is linked |
| Sysfile.Dirs.Reclaim | Assignment2/kernel/fs.c:337-363 | freeing an inode without links keeps all counts right |
| Sysfile.CreateInRemoved | Assignment2/kernel/sysfile.c:245-302 | mkdir, rmdir and a file made in the removed directory leave a wrong count |
| LruList.Unlinked | Assignment2/kernel/bio.c:128-129 | relinking a buffer's neighbours takes it out of the circle and nothing else |
| LruList.PushedFront | Assignment2/kernel/bio.c:130-133 | the four assignments put it first |
| BufFacts.MovedFront | Assignment2/kernel/bio.c:125-134 | the list stays ordered by time of last release and complete |
| BufFacts.Recycled | Assignment2/kernel/bio.c:77-87 | recycling a buffer nobody refers to loses no block and makes no duplicate |
| BufFacts.OldestUnused | Assignment2/kernel/bio.c:77-78 | the first unused buffer from the end was released before every other unused one |
| BufCache.BufCache.constructor | Assignment2/kernel/bio.c:36-53 | one circle through all buffers |
| BufCache.BufCache.FindCached | Assignment2/kernel/bio.c:65-67 | the buffer of a block, or none has it |
| BufCache.BufCache.FindUnused | Assignment2/kernel/bio.c:75-78 | the buffer that nobody refers to whose last release is oldest |
| BufCache.BufCache.Bget | Assignment2/kernel/bio.c:55-89 | one buffer per block; a cached one is kept as it is, else the least recently released unused one is recycled |
| BufCache.BufCache.Lock | Assignment2/kernel/bio.c:65-71 | a buffer that somebody has got can be locked, and nothing else changes |
| BufCache.BufCache.Bread | Assignment2/kernel/bio.c:91-103 | the block as an uncached store would hold it |
| BufCache.BufCache.Modify | Assignment2/kernel/log.c:73-76 | the holder of the lock changes this block and no other |
| BufCache.BufCache.Bwrite | Assignment2/kernel/bio.c:105-112 | the disk gets the buffer, and no block changes |
| BufCache.BufCache.Bpin | Assignment2/kernel/bio.c:139-144 | one more reference keeps the buffer |
| BufCache.BufCache.Bunpin | Assignment2/kernel/bio.c:146-151 | and one less, once its block is in place |
| BufCache.BufCache.Unlock | Assignment2/kernel/bio.c:119-122 | a modified buffer must be pinned or written |
| BufCache.BufCache.Unclaim | Assignment2/kernel/bio.c:124-136 | the last reference moves the buffer to the front |
| CacheLog.CacheShowsOverlay | Assignment2/kernel/log.c:178-191 | what the cache shows of a block is the disk under the logged blocks' pinned buffers, whoever else holds buffers |
| CacheLog.CommitWritesWhatIsShown | Assignment2/kernel/log.c:193-203 | after commit every home block on the disk is what the cache shows |
| CacheLog.CrashKeepsOldOrShown | Assignment2/kernel/log.c:67-123 | commit and recoveries cut off anywhere leave every home block as it was on the disk, or every one as the cache showed it |
| Pte.PteRoundTrip | Assignment2/kernel/riscv.h:340-353 | page number and flags are read back from an entry |
| PageMoves.WalkIndices | Assignment2/kernel/riscv.h:355-363 | the three indices of an address are the place of its page |
| PageMoves.LeafPutOk | Assignment2/kernel/vm.c:154-158 | entering or clearing a mapping keeps all trees right |
| PageMoves.TablePutOk | Assignment2/kernel/vm.c:96-100 | so does hanging up a zeroed table |
| VmFacts.OnePlaceEach | Assignment2/kernel/vm.c:86-103 | a page that belongs to a tree is at one place of one tree and not free |
| VmFacts.MapPagesAdds | Assignment2/kernel/vm.c:142-165 | mappages adds exactly its range to the address space |
| VmFacts.UnmapRemoves | Assignment2/kernel/vm.c:170-192 | uvmunmap removes exactly its range and touches no other space |
| VmFacts.GrownKeepsSpaces | Assignment2/kernel/vm.c:91-101 | tables that a failed call leaves behind change no address space, and are all it took |
| VmFacts.RemovedAfterExtended | Assignment2/kernel/vm.c:235-247 | unmapping what was mapped leaves only tables added |
| VmFacts.RemovedFreesFew | Assignment2/kernel/vm.c:170-192 | unmapping frees at most as many pages as the range has |
| KmemFacts.Pushed | Assignment2/kernel/kalloc.c:54-62 | the freed page heads the list through the pages |
| KmemFacts.Popped | Assignment2/kernel/kalloc.c:73-81 | the list goes on from the page taken |
| Vm.Memory.constructor | Assignment2/kernel/kalloc.c:26-40 | exactly the whole pages between the kernel and PHYSTOP are free |
| Vm.Memory.Kfree | Assignment2/kernel/kalloc.c:46-63 | the page, filled with ones, is first on the list |
| Vm.Memory.Kalloc | Assignment2/kernel/kalloc.c:68-82 | the first page of the list, filled with fives; none only if the list is empty |
| Vm.Memory.Walk | Assignment2/kernel/vm.c:85-103 | the table and index of the entry; a missing table is added, or memory is out; no translation changes |
| Vm.Memory.WalkAddr | Assignment2/kernel/vm.c:107-126 | the page that a user address is mapped to, or none |
| Vm.Memory.MapPages | Assignment2/kernel/vm.c:142-165 | the entries from the first page on, all of them or a prefix when memory runs out |
| Vm.Memory.UvmUnmap | Assignment2/kernel/vm.c:170-192 | it panics exactly if a page of the range is not mapped; otherwise exactly the range is unmapped, and its pages freed if asked |
| Vm.Memory.UvmCreate | Assignment2/kernel/vm.c:196-205 | a tree with an empty address space |
| Vm.Memory.MapFresh | Assignment2/kernel/vm.c:235-247 | a new page with the given contents mapped, or everything returned but tables |
| Vm.Memory.UvmAlloc | Assignment2/kernel/vm.c:225-249 | the new pages are mapped, zeroed and the tree's own; on failure every mapping is as before, every data page is back, and no more pages are free than were asked for |
| Vm.Memory.UvmDealloc | Assignment2/kernel/vm.c:255-267 | it panics exactly if a page above the new size is not mapped; otherwise exactly those pages are unmapped and freed |
| Vm.Memory.UvmCopy | Assignment2/kernel/vm.c:305-333 | the child has its own pages with equal contents and flags; on failure its mappings are as before, every data page is back, and no more pages are free than the parent has |
| Vm.Memory.FreeWalk | Assignment2/kernel/vm.c:271-287 | exactly the tables at and below this one are freed; the panic is out of reach |
| Vm.Memory.UvmFree | Assignment2/kernel/vm.c:291-297 | every page of the tree, data and tables, is on the free list, and no other address space changes |
| ProcRuns.StepKeepsInv | Assignment2/kernel/proc.c:280-604 | every step of every thread and scheduler, preemption and interrupts' wakeups among them, keeps the invariant |
| ProcRuns.NoSleeperMissesAZombie | Assignment2/kernel/proc.c:331-435 | whenever wait_lock is free, nobody sleeps in wait with a zombie child, adopted ones included |
| ProcRuns.FreeprocOffStack | Assignment2/kernel/proc.c:152-172 | freeproc frees no process whose kernel stack a CPU is on |
| ProcRuns.EveryZombieReapedOnce | Assignment2/kernel/proc.c:405-421 | wait returns no pid twice, and with each the status recorded when its process exited |
| ProcKin.StatusIsGiven | Assignment2/kernel/proc.c:378-421 | for every pid and status that wait returned, some step of the run is the exit of the process with that pid, called with that status |
| ProcRuns.WaitGivesUpRightly | Assignment2/kernel/proc.c:426-430 | wait gives up only for a process without children or killed |
| ProcKin.WaitDecides | Assignment2/kernel/proc.c:426-433 | having found no zombie, wait gives up if and only if its process has no child or has been killed, and sleeps if and only if neither |
| ProcKin.NoOrphans | Assignment2/kernel/proc.c:331-341 | the parent of every process that can run or has ended is a process that has neither exited nor been freed |
| ProcKin.ChildIsCallers | Assignment2/kernel/proc.c:315-323 | fork's child belongs to the caller when it first becomes ready to run |
| ProcKin.NoStaleChannel | Assignment2/kernel/proc.c:536-562 | a thread that is not in sleep has no channel left on which a wakeup could find it |
| ProcKin.UnusedHasNoPid | Assignment2/kernel/proc.c:152-172 | an entry that is free has no pid, so that kill never finds it |
| ProcRuns.SchedDoesNotPanic | Assignment2/kernel/proc.c:487-492 | a thread at sched holds its own lock and no other and is not RUNNING |
| ProcRuns.OneCpuEach | Assignment2/kernel/proc.c:455-469 | no two CPUs run the same process |
| ProcRuns.KillOverlookedIff | Assignment2/kernel/proc.c:427-433 | a kill is overlooked exactly if it comes between wait's check of killed and sleep's lock |
| ProcRuns.OverlookedStays | Assignment2/kernel/proc.c:426-434 | from then on the thread can only go to sleep, and stays killed and asleep until another kill or an exit's wakeup |
| ProcRuns.KilledSleeps | Assignment2/kernel/proc.c:536-562 | the thread's next three steps put it to sleep on its own address |
| ProcRuns.KillOverlooked | Assignment2/kernel/proc.c:426-434 | a run from boot at whose end init sleeps in wait, killed, with a live child |
| ProcSteps.WakeInitKeepsChild | Assignment2/kernel/proc.c:331-341 | reparent's wakeup reaches init after any child given to it |
| ProcSteps.SleepChild | Assignment2/kernel/proc.c:536-562 | letting go of wait_lock in sleep loses no wakeup |
| PipeRing.WrappedIndex | Assignment2/kernel/pipe.c:95 | a wrapped counter indexes the byte that the true count does |
| PipeRing.FullAndEmpty | Assignment2/kernel/pipe.c:88-113 | full, empty and the count of bytes are told from wrapped counters |
| Pipes.Pipe.Write | Assignment2/kernel/pipe.c:76-103 | bytes are stored in order; nobody sleeps in vain afterwards, unless, and only if, a reader sleeps and the writer meets its kill after at least one byte, told from the state before the call |
| Pipes.Pipe.Read | Assignment2/kernel/pipe.c:105-130 | the bytes delivered are the next ones stored; nothing read means end of file |
| Pipes.Pipe.Close | Assignment2/kernel/pipe.c:58-74 | the other end's sleepers are woken; the pipe goes with its second end |
| Pipes.LostWakeup | Assignment2/kernel/pipe.c:84-87 | a reader left asleep beside a stored byte by a killed writer |
| VirtioQueue.ChainAdded | Assignment2/kernel/virtio_disk.c:235-265 | a formatted chain of three free descriptors joins the disjoint chains in use |
| VirtioQueue.ChainRemoved | Assignment2/kernel/virtio_disk.c:184-197 | freeing it leaves the others |
| VirtioQueue.Wraps | Assignment2/kernel/virtio_disk.c:312-323 | 16-bit indices pick the right ring entries and tell equal counts |
| VirtioQueue.RequestServed | Assignment2/kernel/virtio_disk.c:231-265 | when the device is done, buffer and disk block are the same |
| Virtio.Disk.AllocDesc | Assignment2/kernel/virtio_disk.c:155-166 | the lowest free descriptor, or none is free |
| Virtio.Disk.Alloc3 | Assignment2/kernel/virtio_disk.c:199-213 | three descriptors exactly if three are free; otherwise everything is as before |
| Virtio.Disk.FreeChain | Assignment2/kernel/virtio_disk.c:184-197 | it ends, and frees exactly the chain's three, none twice |
| Virtio.Disk.Submit | Assignment2/kernel/virtio_disk.c:215-281 | the request is with the device, or its process sleeps because two already are |
| Virtio.Disk.DeviceComplete | Assignment2/kernel/virtio_disk.c:235-265 | the device, which follows the descriptors and moves data only if their flags and lengths allow it, moves this request's block and no other, in the request's direction |
| Virtio.Disk.Intr | Assignment2/kernel/virtio_disk.c:294-327 | every completed request, and no other, is finished, those included that the device completes while the loop runs; the panic is out of reach |
| Virtio.Disk.Finish | Assignment2/kernel/virtio_disk.c:283-292 | a request returns exactly after its own completion, and its buffer holds what the disk does |
| Virtio.Disk.AtMostTwo | Assignment2/kernel/virtio_disk.c:199-213 | at most two requests are pending, and two exactly if descriptors are short |
| FreeRing.InsertedOk | Assignment2/user/umalloc.c:33-43 | giving a chunk back keeps the list one sorted circle in which no two chunks touch |
| FreeRing.InsertedCovers | Assignment2/user/umalloc.c:33-43 | and adds exactly the chunk's memory |
| FreeRing.CarvedOk | Assignment2/user/umalloc.c:77-85 | taking memory out keeps that, clear of what is left |
| FreeRing.CarvedCovers | Assignment2/user/umalloc.c:77-85 | and takes exactly the chunk's memory |
| FreeRing.Canonical | Assignment2/user/umalloc.c:24-44 | two lists over the same memory are the same list |
| HeapFacts.SbrkRequestFits | Assignment2/user/umalloc.c:47-61 | morecore asks sbrk for what it records exactly for requests of at most 2147483616 bytes; above that for a negative amount, or for next to nothing |
| HeapFacts.FreeListDetermined | Assignment2/user/umalloc.c:24-90 | the list follows from what was granted and what is live, whatever the history |
| HeapFacts.SizesFitUint | Assignment2/user/umalloc.c:14-20 | no chunk's unit count overflows |
| HeapFacts.ScanStep | Assignment2/user/umalloc.c:76-88 | the search comes round exactly when every chunk is too small |
| Heap.Heap.FreeChunk | Assignment2/user/umalloc.c:24-44 | the chunk is back, coalesced; live chunks are untouched; units are conserved |
| Heap.Heap.Morecore | Assignment2/user/umalloc.c:46-61 | what sbrk grants is on the list, and nothing else changed |
| Heap.Heap.Malloc | Assignment2/user/umalloc.c:63-90 | a chunk clear of all live ones and of the list, or 0 only when sbrk refuses; the search ends even if morecore coalesces |
| Patterns.HereOne | Assignment2/user/grep.c:84-95 | a single character takes a fitting one off the text |
| Patterns.HereStar | Assignment2/user/grep.c:88-89 | c* takes any run of fitting characters off the text |
| Grep.Match | Assignment2/user/grep.c:71-81 | true exactly if a stretch of the text is a word of the expression, tied down by ^ and $ |
| Grep.MatchHere | Assignment2/user/grep.c:84-95 | true exactly if a prefix of the text is |
| Grep.MatchStar | Assignment2/user/grep.c:98-105 | true exactly if one is after some run of fitting characters |
| GrepLines.CompleteIffTractable | Assignment2/user/grep.c:10-34 | grep prints exactly the matching lines, whatever the pattern, if and only if no line reaches 1023 characters or holds a NUL |
| GrepLines.LineReports | Assignment2/user/grep.c:22-27 | taking one line off the buffer prints what it should |
| GrepFile.TakeLines | Assignment2/user/grep.c:19-29 | the complete lines in the buffer are dealt with, in order |
| GrepFile.Run | Assignment2/user/grep.c:10-34 | however read cuts the file up, the same lines are printed |
| ShellGrammar.ParseLine | Assignment2/user/sh.c:345-360 | parsing ends on every input, moves forward, and every word of the tree is a whole word of the line |
| ShellGrammar.GetToken | Assignment2/user/sh.c:266-309 | a token moves the cursor unless the line is at its end, and a word is maximal |
| ShellPrint.BlockParses | Assignment2/user/sh.c:400-414 | a parenthesised command parses to its tree |
| ShellPrint.PrintParses | Assignment2/user/sh.c:328-447 | every command tree with at most nine words a command, printed with parentheses, parses back to itself |
| ShellSyntax.ParsesTo | Assignment2/user/sh.c:328-447 | a line with the tokens of a syntax parses to the tree of that syntax |
| ShellSyntax.ParsesIff | Assignment2/user/sh.c:328-447 | the shell accepts a line if and only if its tokens have a syntax, which allows nine words a command and redirections in any number and place; otherwise it panics |
| ShellSyntax.SimpleLine | Assignment2/user/sh.c:416-447 | of words and redirections in any mixture the tree has all words in order at its core and all redirections around it, in order from the inside out |
| ShellSyntax.WrapText | Assignment2/user/sh.c:375-398 | redirections are wrapped around a command one by one, the last outermost |
| ShellSyntax.SpelledParses | Assignment2/user/sh.c:266-447 | every syntax, written with blanks between its tokens, parses to its tree |
| ShellWords.EveryWordReads | Assignment2/user/sh.c:449-494 | after nulterminate every word pointer reads exactly its token |
| Shell.Parser.GetToken | Assignment2/user/sh.c:266-309 | the cursor and token that the grammar says |
| Shell.Parser.Peek | Assignment2/user/sh.c:311-321 | whether the next character is one of these, blanks skipped |
| Shell.Parser.ParseRedirs | Assignment2/user/sh.c:375-398 | the redirections from here on, or the panic |
| Shell.Parser.ParseLine | Assignment2/user/sh.c:345-360 | the loop over the ampersands and the recursion compute the grammar's tree |
| Shell.Parser.ParsePipe | Assignment2/user/sh.c:362-373 | so does the recursion over pipes |
| Shell.Parser.ParseBlock | Assignment2/user/sh.c:400-414 | and the parenthesised command |
| Shell.Parser.ParseExec | Assignment2/user/sh.c:416-447 | and the loop over words and redirections, with its limit of nine words |
| Shell.NulTerminate | Assignment2/user/sh.c:449-494 | NULs are written at the ends of the tree's words and nowhere else |
| Shell.ParseCmd | Assignment2/user/sh.c:328-343 | the tree of the whole line, as the grammar gives it (`ShellSyntax.ParsesIff` says when, `ParsesTo` which), and its words terminated, or a panic with the line untouched |

## Left out

- Torn writes: a block write is atomic, as the log assumes.
- begin_op's sleep: a process that may not begin is one whose begin step is not taken yet.
- User copies that fail in readi and writei: they would leave a modified buffer unlogged; copies succeed here.
- Locks of inodes and files: the file-system calls run one after another; interleaved calls are modelled for the log, the processes, the pipe, the cache and the driver only.
- iget, idup and the in-memory inode table: an inode is its number. Path names are resolved before `Link`, `Unlink` and `Create` start; skipelem and namex are not modelled.
- The cache under the file system: `FileSys` works on block contents; `BufCache` proves that the cache shows these, `CacheLog` that commits make these durable, and `FsDisk` what they then say; the methods of the three classes do not call each other.
- FsCrash.RecoveredFsOk: that a commit group holds, last for each block, what its operations left in the blocks they logged (`Session`) is a hypothesis; `FileSys` proves that its operations log all that they change.
- FsCrash.CrashKeepsFs: the log header may name more blocks than the operations logged, as long as the cache shows the file system in them; that it does (`Cached`) is a hypothesis.
- Device numbers: major and minor are not fields of the inodes, and are not read from the disk.
- Mkfs.Image.Build: mkfs does not look whether the image is full and would write behind its end; the model stops, and says exactly when.
- Sysfile.Dirs.Link: nlink is a natural number, so that a short overflows after 32767 links is not modelled.
- copyin, copyout, copyinstr and uvmclear: loops over `WalkAddr`; the kernel's own page table, which maps pages that it does not own, is not modelled either.
- Vm.Memory.MapPages: pages and addresses inside loops are counted in pages, not bytes; that a range overflows 64 bits is excluded by its bound MAXVA.
- freeproc frees the trapframe page before its mapping; page tables and processes are separate models.
- Open files, cwd, and the memory of a process in fork, exit and wait, whose copyout does not fail; pids are natural numbers that do not wrap.
- Liveness: no lost wakeup is proved, but not that a woken process ever runs.
- Pipes.Pipe.Close: that nobody is in a call on an end being closed follows from file reference counts, which are not modelled.
- Virtio.Disk.Submit: that no two requests are for one block or one buffer at a time, as the cache's locks ensure, is assumed. Device registers, fences and interrupts are not modelled.
- Fixed-size kernel arrays are sequences that are reassigned, except in the pipe, the log header, grep and the shell's line.
- Heap.Heap.Malloc: for requests above 2147483616 bytes sbrk's int parameter is not what morecore records (`HeapFacts.SbrkRequestFits`); such a request is modelled if the list can serve it or sbrk refuses, and excluded if sbrk grants what it was asked for, which is not what morecore puts on the list.
- The shell's runcmd and its strings' encoding; mkfs's reading and writing of host files.
- `waitall`, `forkn` and the other additions of `Assignment1_2`.
