# xv6, modelled and proved

A Dafny model of the parts of xv6 for RISC-V (with a modified shell) whose
correctness does not show in any one function: the redo log and the buffer
cache, the block and inode layer, page tables and the page allocator, process
coordination, the virtio disk queue, pipes, and three user-level algorithms (the
storage allocator, the shell's command parser and the pattern matcher of grep).

`dafny verify dfyconfig.toml` checks all of it.

How it is laid out:

| modules | source | what they hold |
|---|---|---|
| `Common`, `Bytes`, `Runs` | | what several modules share; blocks of bytes and the words in them; what every step keeps holds over every run |
| `LogDisk`, `LogCode` | kernel/log.c | the on-disk log, and the code of log.c as a class that records every disk it goes through |
| `LogMachine`, `LogSafety` | kernel/log.c, kernel/bio.c | log and cache as a step machine: any interleaving of processes, a crash between any two steps |
| `LogSpace` | kernel/log.c | the space reservation of begin_op() |
| `Bcache` | kernel/bio.c | the LRU list of buffers, in place |
| `SleepLock`, `Procs`, `ProcSafety` | kernel/sleeplock.c, kernel/proc.c | sleep/wakeup and fork/exit/wait as step machines |
| `VmTree`, `VmFree`, `Vm`, `VmCopy` | kernel/vm.c, kernel/kalloc.c | three-level page tables in place, refining a flat map per process |
| `FsLayout`, `Fs`, `FileWrite` | kernel/fs.c, kernel/file.c | bitmap, block maps and files as byte sequences |
| `Virtio` | kernel/virtio_disk.c | the descriptor table and both rings, with the device as a second actor |
| `Pipe` | kernel/pipe.c | the ring with wrapping counters |
| `Umalloc` | user/umalloc.c | the circular free list |
| `Shell`, `ShellPrint`, `ShellCode` | user/sh.c | parser, its inverse, and the code that moves the cursor and writes NULs |
| `Grep` | user/grep.c | the matcher against a declarative meaning, and the line loop |

Sizes (NBUF, LOGBLOCKS, NPROC, the number of pages, blocks and descriptors)
are parameters, constrained only as the code constrains them. Integers that wrap in
C wrap in the model: the pipe's and the rings' counters, `off + n` in readi() and
writei(), the argument of sbrk(). An error return is a value; a panic is either
proved unreachable or a precondition of the caller. Spinlocks are atomic steps.

What fails is stated too, with the exact condition. `LogSpace.AbsorbsIffBelow`: a
log_write() of a block already logged can never panic if and only if every operation
adds fewer than MAXOPBLOCKS blocks. `Grep.PrintsAllIffLinesFit`: grep prints every
matching line, for every pattern, if and only if every line ends in a newline, fits
the buffer and holds no NUL. `Umalloc.LargestRequest`: morecore() asks sbrk() for
what it needs if and only if malloc() was asked for at most 2^31 - 32 bytes.
`ShellPrint.TenWords`: ten words are already too many.

## Model

| member | source | states |
|---|---|---|
| Bytes.PutWord | kernel/log.c:103-115 | storing a 32-bit word through a uint pointer reads back as that word and leaves every other word alone |
| LogDisk.HeaderDecodes | kernel/log.c:87-98 | read_head() gets back exactly the list write_head() stored, whatever the rest of the block holds |
| LogDisk.SlotWriteInvisible | kernel/log.c:184-191 | writing a log slot while the on-disk count is 0 changes nothing that recovery yields |
| LogDisk.HeaderWriteCommits | kernel/log.c:100-115 | one header write makes every slot its block's durable contents and leaves every other block alone |
| LogDisk.InstallInvisible | kernel/log.c:71-83 | copying a slot home changes nothing that recovery yields, however often it is repeated |
| LogDisk.ClearInvisible | kernel/log.c:117-124 | clearing the header changes nothing that recovery yields once every slot is home |
| LogCode.FillSlotsAt | kernel/log.c:179-192 | write_log() fills the slots and no other block |
| LogCode.InstallToAt | kernel/log.c:66-84 | install_trans() changes exactly the listed home blocks, to their slots |
| LogCode.FillSlotsInvisible | kernel/log.c:179-192 | after any number of write_log() turns recovery yields what it did before |
| LogCode.InstallToInvisible | kernel/log.c:66-84 | after any number of install_trans() turns recovery yields what it did before |
| LogCode.InstalledThenCleared | kernel/log.c:117-124 | a finished recovery leaves every durable block home and the count 0 |
| LogCode.InstallTraceInvisible | kernel/log.c:66-84 | every disk install_trans() goes through recovers to the same file system |
| LogCode.CommitAtomic | kernel/log.c:194-204 | at every write of commit() up to the header write recovery yields all of the old file system, from then on all of the new one |
| LogCode.CommitShown | kernel/log.c:194-204 | what is durable from the header write on is what bread() showed when commit() began, and at the end it is home with the log empty |
| LogCode.UnpinAt | kernel/log.c:79-80 | each pinned block loses exactly one reference |
| LogCode.Log.constructor | kernel/log.c:53-63 | the state at power-on, over whatever disk was left |
| LogCode.Log.BRead | kernel/bio.c:92-103 | bread() returns what the cache or else the disk holds, loses no referenced buffer and takes one reference |
| LogCode.Log.BWrite | kernel/bio.c:106-112 | the disk changes at that block only; the new disk is recorded |
| LogCode.Log.CopyBlock | kernel/log.c:184-191 | one turn of a copying loop: destination and disk hold what bread() showed of the source, references are as before or one less |
| LogCode.Log.WriteLog | kernel/log.c:179-192 | write_log() goes through exactly the disks of FillTrace and keeps every pinned buffer |
| LogCode.Log.WriteHead | kernel/log.c:103-115 | the header block on disk lists exactly the in-memory header |
| LogCode.Log.InstallTrans | kernel/log.c:66-84 | install_trans() goes through exactly the disks of InstallTrace and, outside recovery, unpins each block once |
| LogCode.Log.CommitLogged | kernel/log.c:197-203 | the body of commit() goes through exactly the disks of CommitTrace |
| LogCode.Log.Commit | kernel/log.c:194-204 | commit() of any transaction, in one contract: each disk it goes through recovers to all old or all new blocks, at the end every block is home, the log is empty, the pins are gone |
| LogCode.Log.ReadHead | kernel/log.c:87-98 | the in-memory header becomes the list in the on-disk one |
| LogCode.Log.RecoverFromLog | kernel/log.c:117-124 | no write of recovery changes what recovery yields, so it may be interrupted and repeated; at the end every durable block is home and the count is 0 |
| LogCode.Log.LogWrite | kernel/log.c:215-236 | a logged block is absorbed, a new one appended and pinned; a full log is refused before the search, as the panic does |
| LogMachine.Snapshot | kernel/log.c:147-165 | the snapshot a commit is measured against is what bread() shows of every block |
| LogMachine.FillHeader | kernel/log.c:103-115 | write_head()'s stores build a header for exactly the given list |
| LogSafety.StepKeeps | kernel/log.c:66-236 | every step of every process, of commit() and of recovery, and a crash, keeps the invariant of log and cache |
| LogSafety.RunInv | kernel/log.c:66-236 | so it holds in every state of every run |
| LogSafety.StepAtomic | kernel/log.c:194-204 | every step leaves what recovery yields alone, for all home blocks at once, except the commit's header write, which makes it what bread() shows then |
| LogSafety.HomeWrites | kernel/log.c:66-84 | only installs write home blocks |
| LogSafety.InstallWrites | kernel/log.c:66-84 | an install changes only blocks a committed header names, to their committed contents |
| LogSafety.NoSteal | kernel/log.c:179-204 | no home block changes on disk before the committing header write names it |
| LogSafety.DurableStable | kernel/log.c:117-204 | between two commit points recovery yields the same file system at every moment, through any number of crashes |
| LogSafety.RecoveryEnds | kernel/log.c:117-124 | the last step of recovery leaves every durable block home and the log empty |
| LogSafety.CrashThenRecover | kernel/log.c:117-124 | a completed recovery, after a crash anywhere and any further crashes during recovery, leaves exactly the durable blocks and count 0 |
| LogSafety.CrashAtomic | kernel/log.c:117-204 | crash atomicity whole: a commit crashed anywhere, then recovered through any further crashes, leaves all blocks old or all as bread() showed them, the second exactly when the header write came first, and the log empty |
| LogSafety.SnapshotFrozen | kernel/log.c:147-176 | nothing changes what is being committed between the last end_op() and the header write |
| LogSafety.CommitsLatest | kernel/log.c:147-204 | what a commit makes durable is what bread() showed of every block when the last operation ended |
| LogSafety.PinnedStays | kernel/bio.c:76-87 | a logged block stays cached, valid and referenced until it is installed, so bget() can never recycle it |
| LogSpace.RunFits | kernel/log.c:127-176 | in every run the logged blocks and all unused reservations together fit the log |
| LogSpace.NeverTooBig | kernel/log.c:215-224 | if every operation adds fewer than MAXOPBLOCKS blocks the panic of log_write() is unreachable, absorbed writes included |
| LogSpace.NewBlockFits | kernel/log.c:215-224 | with MAXOPBLOCKS blocks per operation a new block still finds room |
| LogSpace.ReachFilled | kernel/log.c:127-143 | three operations can fill the log to any level with MAXOPBLOCKS blocks each |
| LogSpace.AbsorbsIffBelow | kernel/log.c:215-224 | with LOGBLOCKS three times MAXOPBLOCKS, absorbed writes are safe in every run if and only if every operation adds fewer than MAXOPBLOCKS blocks |
| LogSpace.FullLogPanics | kernel/log.c:215-224 | with exactly MAXOPBLOCKS blocks per operation a run exists in which an absorbed write panics |
| Bcache.UnlinkRing | kernel/bio.c:128-129 | unlinking an entry leaves one cycle through all the others |
| Bcache.PushRing | kernel/bio.c:130-133 | pushing an entry behind the head leaves one cycle with it first |
| Bcache.FrontRing | kernel/bio.c:126-134 | both together move one buffer to the front of the cycle and change no other order |
| Bcache.SameContents | kernel/bio.c:139-151 | changing links or counts changes no block |
| Bcache.RecycleContents | kernel/bio.c:77-86 | reusing a clean buffer for a block that has none changes no block |
| Bcache.SortedToFront | kernel/bio.c:114-137 | the list stays sorted by how recently each buffer was released |
| Bcache.Cache.constructor | kernel/bio.c:36-53 | binit() builds one cycle through the head and all buffers |
| Bcache.Cache.LinkAll | kernel/bio.c:46-52 | its loop, turn by turn |
| Bcache.Cache.Lookup | kernel/bio.c:66-73 | finds the block's buffer if and only if there is one |
| Bcache.Cache.Victim | kernel/bio.c:77-87 | finds the least recently released unreferenced buffer, or none when all are referenced |
| Bcache.Cache.Refer | kernel/bio.c:67-71 | one more reference, no block changes |
| Bcache.Cache.Recycle | kernel/bio.c:78-85 | the victim becomes the new block's buffer, no block changes, no block gets two buffers |
| Bcache.Cache.BGet | kernel/bio.c:58-89 | bget() as a whole: hit, recycling of exactly the least recently used unreferenced buffer, or no buffer left |
| Bcache.Cache.BRead | kernel/bio.c:92-103 | bread() returns the block's current logical contents in a referenced buffer and changes no block |
| Bcache.LogicalWritten | kernel/bio.c:106-112 | writing a buffer back changes what bread() returns for no block |
| Bcache.Cache.BWrite | kernel/bio.c:106-112 | the buffer's contents reach the disk, no block reads differently, every invariant stays |
| Bcache.Cache.BPin | kernel/bio.c:139-144 | one more reference |
| Bcache.Cache.BUnpin | kernel/bio.c:146-151 | one reference fewer, the last only when the disk has the contents |
| Bcache.Cache.Unlink | kernel/bio.c:128-129 | the two stores do what Unlinked says |
| Bcache.Cache.Push | kernel/bio.c:130-133 | the four stores do what Pushed says |
| Bcache.Cache.MoveToFront | kernel/bio.c:126-134 | the list is the old one with this buffer at the front |
| Bcache.Cache.BRelse | kernel/bio.c:116-137 | dropping the last reference moves the buffer to the front, any other changes the count only |
| SleepLock.NoLostStays | kernel/proc.c:571-584 | a step owes no more wakeups than before, provided a waker passes only processes it has dealt with |
| SleepLock.ScanAtKept | kernel/proc.c:571-584 | wakeup() leaving an entry leaves no process there that is still going to sleep on the lock |
| SleepLock.YieldKept | kernel/trap.c:154-156 | a process can be made to yield wherever it holds no spinlock, in the middle of these functions too, and all of it still holds |
| SleepLock.StepKept | kernel/proc.c:539-608 | every step of acquiresleep(), releasesleep(), sleep(), wakeup(), kill, the scheduler, and a yield forced wherever no spinlock is held, keeps the invariant |
| SleepLock.RunInv | kernel/sleeplock.c:21-41 | so it holds in every state of every interleaving |
| SleepLock.MutualExclusion | kernel/sleeplock.c:21-41 | no sleep lock is ever held by two processes |
| SleepLock.SleeperHasWaker | kernel/proc.c:539-584 | no lost wakeup: a process asleep on a free lock has a releaser whose wakeup() scan has not passed it |
| SleepLock.FreeLockHasNoSleeper | kernel/sleeplock.c:33-41 | when nobody is inside a free lock's code nobody sleeps on it |
| ProcSafety.StepKept | kernel/proc.c:257-608 | every step of fork, exit, reparent, wait, kill, the scheduler, and a yield forced anywhere no lock is held, keeps the invariant of the process table |
| ProcSafety.RunInv | kernel/proc.c:220-608 | so it holds in every state of every interleaving |
| ProcSafety.LiveParent | kernel/proc.c:306-363 | every process that can be scheduled or reaped has a parent that is neither free, nor being set up, nor a zombie; initproc lives |
| ProcSafety.SleeperHasNoZombie | kernel/proc.c:366-412 | a process asleep in kwait() has no zombie child whenever wait_lock is free |
| ProcSafety.ReapedOnce | kernel/proc.c:366-412 | each pid is reaped at most once |
| ProcSafety.ReapedStatus | kernel/proc.c:366-412 | whatever is reaped comes with the status that process exited with |
| ProcSafety.ExitsOnce | kernel/proc.c:321-363 | the status recorded for a pid never changes |
| ProcSafety.FreedBy | kernel/proc.c:152-172 | freeproc() frees only an embryo whose fork failed or a zombie its parent found |
| ProcSafety.FreedOffCpu | kernel/proc.c:383-397 | freeproc() never runs on a process some CPU still has as its own |
| ProcSafety.ZombieIsDead | kernel/proc.c:383-397 | a zombie whose lock its parent holds has switched off its CPU for good |
| ProcSafety.ReapedTree | kernel/proc.c:383-397 | reaping a child keeps every other parent and fork as it was |
| ProcSafety.AdoptedTree | kernel/proc.c:306-318 | reparent() of one child to initproc keeps the family, even if that child is itself forking |
| ProcSafety.Woken | kernel/proc.c:570-584 | after wakeup() has looked at a process, that process is no longer going to sleep on the channel |
| VmTree.PteRoundTrip | kernel/riscv.h:364-369 | an entry made for a page gives back that page and exactly the flags asked for |
| VmTree.LowBits | kernel/riscv.h:358-369 | flags and page number do not disturb each other |
| VmTree.PxSplit | kernel/riscv.h:371-374 | the three 9-bit indices are exactly the virtual page number |
| VmTree.EntryAt | kernel/vm.c:102-113 | each entry walk() looks at leads to the page-table page of the virtual page, or there is none |
| VmTree.LeafAt | kernel/vm.c:98-115 | the entry walk() ends at is the flat map's entry for the virtual page |
| VmTree.Hung | kernel/vm.c:106-111 | a page-table page hung by walk() leaves every other translation alone and shares no page |
| VmTree.MapRangeAt | kernel/vm.c:146-174 | the flat map after mappages(): exactly the range, in order |
| VmFree.RootBare | kernel/vm.c:263-278 | a page table without leaves is a tree of exactly its own pages, each once |
| VmFree.BareFrame | kernel/vm.c:263-278 | freeing one subtree leaves the others as they were |
| Vm.Memory.constructor | kernel/kalloc.c:26-40 | freerange() frees exactly the whole pages of its range, each once |
| Vm.Memory.KAlloc | kernel/kalloc.c:68-82 | the head of the free list, filled; 0 exactly when it is empty |
| Vm.Memory.KFree | kernel/kalloc.c:46-63 | the page is at the head of the free list and nowhere else |
| Vm.Memory.HangTable | kernel/vm.c:106-111 | one allocation of walk(): a zeroed page at its place, or none and nothing changed |
| Vm.Memory.Walk | kernel/vm.c:97-115 | walk() finds the entry of the virtual page, depends on nothing else, changes no translation, and fails only for want of memory or, without alloc, of a table |
| Vm.Memory.StoreLeaf | kernel/vm.c:163-167 | the flat map gains that one translation |
| Vm.Memory.ClearLeaf | kernel/vm.c:193-212 | the flat map loses that one translation |
| Vm.Memory.MapPages | kernel/vm.c:142-174 | success adds exactly the range to the flat map, failure a prefix of it; every other translation of every process is unchanged |
| Vm.Memory.UnmapOne | kernel/vm.c:201-211 | one page unmapped, and freed if asked; an absent one is skipped |
| Vm.Memory.UvmUnmap | kernel/vm.c:189-212 | exactly the range goes from the flat map, and exactly its pages are freed if asked |
| Vm.Memory.AddPage | kernel/vm.c:226-238 | a new page with given bytes is mapped, or is freed again and nothing mapped |
| Vm.AddedOne | kernel/vm.c:226-238 | mapping one more page extends what has been added by exactly it |
| Vm.AddedUndone | kernel/vm.c:226-238 | unmapping what was added restores every mapping and every page |
| Vm.Memory.UvmDealloc | kernel/vm.c:242-258 | shrinking unmaps and frees exactly the pages above the new size |
| Vm.Memory.UvmAlloc | kernel/vm.c:214-240 | growing maps exactly the pages between the sizes, zeroed; failure restores all leaf mappings, returns every data page, and comes only when no more pages are free than the range has |
| Vm.Memory.UvmCopy | kernel/vm.c:290-324 | the child gets its own copy of every page of the parent, flags included; failure restores all mappings, returns every page, and comes only when no more pages are free than the parent has |
| Vm.Copies | kernel/vm.c:303-316 | exactly the present pages below the size are copied, with their flags and bytes |
| Vm.Memory.FreeWalk | kernel/vm.c:260-278 | every page of the tree is freed, once, and the leaf panic is unreachable |
| Vm.Memory.UvmCreate | kernel/vm.c:177-187 | a new page table that maps nothing and shares nothing |
| Vm.Memory.UvmFree | kernel/vm.c:280-288 | every data and page-table page of the process is back on the free list, and nothing else |
| Vm.Memory.MapKernelPage | kernel/proc.c:190-199 | a page above user memory is mapped without becoming the process's own |
| Vm.Memory.ProcPagetable | kernel/proc.c:174-206 | a page table with trampoline and trapframe only; failure leaves nothing behind |
| Vm.Memory.FreeEmpty | kernel/proc.c:192-201 | the way back after a failed mapping returns every page-table page |
| Vm.AllReturned | kernel/kalloc.c:46-63 | when memory is partitioned before and after, the free list grows by exactly what was given up |
| Vm.Memory.ProcFreePagetable | kernel/proc.c:208-216 | if all user leaves lie below the process size, every data and page-table page is returned and no panic is reached |
| VmCopy.WalkAddr | kernel/vm.c:117-138 | the page of a mapped user address, 0 for any other |
| VmCopy.IsMapped | kernel/vm.c:475-486 | true exactly when the flat map has the page |
| VmCopy.VmFault | kernel/vm.c:448-473 | a fault below the size on an unmapped page maps a zeroed page there; otherwise nothing changes |
| VmCopy.FaultView | kernel/vm.c:448-473 | a lazily allocated page already read as zeros: no byte of user memory changes by a fault |
| VmCopy.WriteView | kernel/vm.c:366-368 | bytes stored in a page appear at its addresses and nowhere else |
| VmCopy.WroteMore | kernel/vm.c:343-375 | two adjacent writes are one |
| VmCopy.Touch | kernel/vm.c:350-359 | the page of an address, allocated now if it was lazy, without changing a byte |
| VmCopy.CopyOutPage | kernel/vm.c:346-373 | one page's worth of copyout() |
| VmCopy.CopyOut | kernel/vm.c:339-375 | the bytes at dstva are the source's, no other byte of user memory and no other process changes; on failure a prefix was copied, up to a byte that cannot be written or for want of memory |
| VmCopy.CopyInPage | kernel/vm.c:384-401 | one page's worth of copyin() |
| VmCopy.CopyIn | kernel/vm.c:377-403 | the destination holds the bytes of user memory, which reads as before; on failure a prefix was copied |
| FsLayout.PutBitAt | kernel/fs.c:76-78 | setting or clearing a bit of a byte changes that bit only |
| FsLayout.BitStored | kernel/fs.c:76-78 | storing one block's bit changes no other block's |
| FsLayout.SlotsKept | kernel/fs.c:395-400 | changing blocks that are not indirect blocks changes no slot of any inode |
| FsLayout.SlotFilled | kernel/fs.c:411-441 | an unused block put in an empty slot keeps every block owned exactly once |
| FsLayout.SlotEmptied | kernel/fs.c:455-472 | emptying a slot keeps every other block owned exactly once |
| Fs.MarkedAlloc | kernel/fs.c:66-89 | the bitmap after balloc() marks exactly one block more |
| Fs.MarkedFree | kernel/fs.c:92-106 | the bitmap after bfree() marks exactly one block less |
| Fs.BitmapExact | kernel/fs.c:66-106 | a bit is set exactly when its block is metadata or in a slot of an inode, and then in exactly one |
| Fs.FileSystem.constructor | mkfs/mkfs.c:236-250 | an empty file system on any superblock: exactly the metadata is marked, every file is empty, every invariant holds |
| Fs.FileSystem.StoreBit | kernel/fs.c:92-106 | one bit of the bitmap stored and its block logged |
| Fs.FileSystem.Take | kernel/fs.c:78-83 | a block marked, zeroed, and both blocks logged |
| Fs.FileSystem.BAlloc | kernel/fs.c:64-89 | the lowest free block, marked and zeroed, and nothing else; 0 exactly when the disk is full |
| Fs.FileSystem.BFree | kernel/fs.c:91-106 | the block is free again; on a block in use the panic is unreachable |
| Fs.FileSystem.NewAddr | kernel/fs.c:411-429 | an empty address gets a zeroed block of its own, or nothing changes |
| Fs.FileSystem.MapEntry | kernel/fs.c:430-440 | an entry of the indirect block, allocated if it was empty |
| Fs.FileSystem.BMap | kernel/fs.c:402-444 | the block of a file, allocated and zeroed if it had none; 0 exactly when it had none and the disk is full; all other slots and contents stay |
| Fs.ChunkStored | kernel/fs.c:543-549 | bytes stored in a block of a file appear in that file alone |
| Fs.ChangedMore | kernel/fs.c:539-551 | two adjacent chunks are one |
| Fs.SizeSet | kernel/fs.c:553-559 | with the size updated, the file is the old one with the stored bytes spliced in, every other file the same |
| Fs.FileSystem.ReadChunk | kernel/fs.c:505-517 | one block's worth of readi() |
| Fs.FileSystem.ReadI | kernel/fs.c:490-519 | readi() returns exactly contents[off..min(off+n, size)] and changes nothing; 0 past the end or when off + n wraps; -1 when the copy to the reader fails |
| Fs.FileSystem.WriteChunk | kernel/fs.c:539-551 | one block's worth of writei(), stored, or not for want of disk or because the copy failed |
| Fs.FileSystem.WriteBlocks | kernel/fs.c:539-551 | the loop: a prefix of the source is stored, up to the last block boundary that can be read, unless the disk is full |
| Fs.FileSystem.WriteI | kernel/fs.c:521-562 | a result r >= 0 means the first r bytes are spliced in at off and no other file changes, r being all of them or the last block boundary that can be read unless the disk is full; -1 means nothing changed; which blocks were logged |
| Fs.FileSystem.FreeDirect | kernel/fs.c:455-460 | one direct block freed and its slot emptied |
| Fs.FileSystem.FreeEntries | kernel/fs.c:465-468 | exactly the blocks named in the indirect block are freed |
| Fs.FileSystem.FreeIndirect | kernel/fs.c:462-472 | those and the indirect block itself |
| Fs.Emptied | kernel/fs.c:446-476 | a file whose size is 0 is empty, every other file has kept its inode and blocks |
| Fs.FileSystem.ITrunc | kernel/fs.c:446-476 | exactly the file's blocks are free again, the file is empty, no other file has changed |
| FileWrite.ChunkSpan | kernel/file.c:153 | a chunk of filewrite() lies on at most four blocks |
| FileWrite.ChunkBlocks | kernel/file.c:149-153 | with one bitmap block a chunk logs at most seven distinct blocks |
| FileWrite.WriteOp | kernel/file.c:160-165 | one transaction of filewrite(): at most seven blocks, fewer than MAXOPBLOCKS, and a spliced file |
| FileWrite.OpenFile.Write | kernel/file.c:132-179 | filewrite() of any length: the file is spliced with what was written, off advances by exactly that, n is returned exactly when all of it was |
| Virtio.WrappedSlot | kernel/virtio_disk.c:312-314 | a 16-bit index finds the slot its unwrapped count does |
| Virtio.RingPushed | kernel/virtio_disk.c:272-277 | storing an entry overwrites none still to be read |
| Virtio.RingPopped | kernel/virtio_disk.c:312-323 | the next entry read is the oldest one |
| Virtio.Pigeons | kernel/virtio_disk.c:202-213 | a chain of three in hand means a ring is not full |
| Virtio.ChainAdded | kernel/virtio_disk.c:228-265 | three free descriptors become a chain; free ones and chains still partition the table |
| Virtio.ChainFreed | kernel/virtio_disk.c:186-197 | a chain becomes three free descriptors; the partition stands |
| Virtio.Submitted | kernel/virtio_disk.c:268-277 | a new request is live, waiting, and known by its buffer |
| Virtio.Completed | kernel/virtio_disk.c:312-323 | the oldest used entry names a live request that has not completed before |
| Virtio.Disk.constructor | kernel/virtio_disk.c:62-153 | an empty queue of any size that divides 2^16 |
| Virtio.Disk.AllocDesc | kernel/virtio_disk.c:155-166 | the lowest free descriptor, or none exactly when all are taken |
| Virtio.Disk.FreeDesc | kernel/virtio_disk.c:168-182 | that descriptor is free and cleared |
| Virtio.Disk.GiveBack | kernel/virtio_disk.c:207-209 | alloc3_desc() gives back what it got |
| Virtio.Disk.Alloc3Desc | kernel/virtio_disk.c:199-213 | three different free descriptors, or none taken |
| Virtio.Disk.Format | kernel/virtio_disk.c:235-269 | three descriptors become a chain for the buffer |
| Virtio.Disk.PushAvail | kernel/virtio_disk.c:271-277 | the chain is last in the available queue and nothing unread is lost |
| Virtio.Disk.Submit | kernel/virtio_disk.c:215-281 | a request for the buffer is in flight, or nothing changed for want of descriptors |
| Virtio.Disk.Take | kernel/virtio_disk.c:271-281 | the device takes the oldest available chain, if there is one |
| Virtio.Disk.Post | kernel/virtio_disk.c:309-314 | the device posts any chain it has taken, with any status, overwriting nothing unread |
| Virtio.Disk.PopUsed | kernel/virtio_disk.c:312-324 | the driver reads the oldest used entry |
| Virtio.Disk.IntrTurn | kernel/virtio_disk.c:294-327 | one turn of the interrupt handler completes exactly the oldest posted request, which never completed before; it panics exactly when the device reported failure there |
| Virtio.Disk.FreeChain | kernel/virtio_disk.c:184-197 | free_chain() frees exactly the three descriptors of the request |
| Virtio.Disk.Finish | kernel/virtio_disk.c:283-292 | once the buffer's flag is clear its request has completed, exactly once, and its descriptors are free |
| Virtio.Act | kernel/virtio_disk.c:215-327 | any one step of a process, the device or the handler keeps all of it, and no accepted request goes missing |
| Virtio.Interleave | kernel/virtio_disk.c:215-327 | over any interleaving each accepted request has completed exactly once or is still in flight, and nothing else has completed |
| Pipe.WrapSlot | kernel/pipe.c:95 | because PIPESIZE divides 2^32 a wrapped counter finds the right slot |
| Pipe.WrapApart | kernel/pipe.c:88 | wrapped counters tell empty and full from everything else |
| Pipe.Ring.constructor | kernel/pipe.c:22-56 | an empty open pipe |
| Pipe.Ring.FullExactly | kernel/pipe.c:88 | the full and empty tests of the code are true exactly when the ring is full or empty |
| Pipe.Ring.Push | kernel/pipe.c:95-96 | one byte stored, none overwritten |
| Pipe.Ring.Write | kernel/pipe.c:83-98 | pipewrite() up to where it stops or sleeps: exactly src[i..done] is stored, in order |
| Pipe.Ring.Poll | kernel/pipe.c:113-119 | piperead() goes on exactly when there is a byte or the write end is closed, and gives up exactly when killed while waiting |
| Pipe.Ring.Pop | kernel/pipe.c:123-125 | the next byte in order is consumed, and delivered if its copyout() succeeds |
| Pipe.Ring.Read | kernel/pipe.c:120-126 | piperead() delivers the next bytes in order; one more is consumed exactly when a copy fails |
| Pipe.Ring.Close | kernel/pipe.c:58-74 | closing one end; the pipe is freed exactly when both are closed |
| Pipe.AllReached | kernel/pipe.c:123-125 | when every copy succeeds all consumed bytes are delivered |
| Pipe.Ring.Fifo | kernel/pipe.c:76-130 | readers have got the stored bytes in order, none missing or twice, unless a copy failed |
| Pipe.Interleave | kernel/pipe.c:58-130 | after any interleaving of reads, writes and closings the bytes consumed are a prefix of those stored, at most PIPESIZE pending, and those delivered are the ones whose copy succeeded, in order |
| Umalloc.RingRemoved | user/umalloc.c:76-77 | unlinking a node keeps one cycle in address order with one wrap |
| Umalloc.RingInserted | user/umalloc.c:30-42 | linking a block in where it belongs keeps it |
| Umalloc.TakenWhole | user/umalloc.c:76-77 | a whole free block becomes an allocated one; every unit stays in exactly one block |
| Umalloc.TakenTail | user/umalloc.c:78-82 | the tail of a free block becomes an allocated one |
| Umalloc.Freed | user/umalloc.c:29-42 | an allocated block becomes a free node |
| Umalloc.Merged | user/umalloc.c:33-42 | two touching free blocks become one |
| Umalloc.OnlyNeighbours | user/umalloc.c:30-42 | a new node can touch only the nodes next to it |
| Umalloc.FreeGood | user/umalloc.c:33-43 | free()'s relinking keeps order, partition and that no two free blocks touch |
| Umalloc.TakeGood | user/umalloc.c:75-85 | malloc()'s taking keeps them too |
| Umalloc.Obtained | user/umalloc.c:54-59 | a region from sbrk() above all others can be freed into the list |
| Umalloc.AllocatedApart | user/umalloc.c:63-90 | no two allocated blocks share a unit, and none shares one with a free block |
| Umalloc.SbrkArgExact | user/umalloc.c:54 | sbrk() is asked for nu * 16 bytes exactly when that is below 2^31 |
| Umalloc.LargestRequest | user/umalloc.c:69 | in bytes asked of malloc(): exactly up to 2^31 - 32, and with one more sbrk() is asked to shrink |
| Umalloc.SearchedMore | user/umalloc.c:74-88 | what malloc() has passed on its way round the list is too small |
| Umalloc.Allocator.constructor | user/umalloc.c:21-22 | nothing obtained, nothing allocated |
| Umalloc.Allocator.FindPlace | user/umalloc.c:30-32 | the search ends, at the node the block goes after |
| Umalloc.Allocator.Link | user/umalloc.c:33-42 | the stores do what AfterFree says |
| Umalloc.Allocator.Free | user/umalloc.c:24-44 | exactly that block is no longer allocated; every unit is still accounted for |
| Umalloc.Allocator.Morecore | user/umalloc.c:46-61 | exactly the new units are obtained, no allocated block changes, and a free block of the wanted size exists |
| Umalloc.Allocator.Take | user/umalloc.c:75-85 | a new allocated block of exactly n units |
| Umalloc.Allocator.Start | user/umalloc.c:70-73 | base is the only node |
| Umalloc.Allocator.Malloc | user/umalloc.c:63-90 | the search ends; 0 only when no free block is large enough and sbrk() fails, else exactly one new block of the units asked for; memory is obtained only when no free block is large enough |
| ShellPrint.LineRound | user/sh.c:562-577 | wherever a printing stands before the end or a closing parenthesis, parseline() reads exactly it and gives its tree |
| ShellPrint.RoundTrip | user/sh.c:545-560 | for every command tree with at most nine legal words per exec, parsing its parenthesised printing gives the tree back |
| ShellPrint.ArgsTooMany | user/sh.c:656-658 | the tenth word is refused, wherever it comes |
| ShellPrint.TenWords | user/sh.c:656-658 | a line of ten words or more is an error |
| ShellCode.Parser.SkipSpaces | user/sh.c:490-491 | the loop over whitespace |
| ShellCode.Parser.NextToken | user/sh.c:483-526 | gettoken(): token, its slice and the new cursor |
| ShellCode.Parser.PeekToken | user/sh.c:528-538 | peek(): the cursor past the spaces, and whether one of the characters is there |
| ShellCode.Parser.Redirs | user/sh.c:592-615 | parseredirs(): all redirections, in order, or the missing file |
| ShellCode.Parser.Exec | user/sh.c:633-664 | parseexec() |
| ShellCode.Parser.Words | user/sh.c:647-660 | its loop over words and redirections |
| ShellCode.Parser.Block | user/sh.c:617-631 | parseblock(): which it can only enter at a parenthesis |
| ShellCode.Parser.Pipe | user/sh.c:579-590 | parsepipe() |
| ShellCode.Parser.Line | user/sh.c:562-577 | parseline(): it and the functions it calls end on every line |
| ShellCode.Parser.Backs | user/sh.c:568-571 | its loop over ampersands |
| ShellCode.Parser.Parse | user/sh.c:545-560 | parsecmd(): the tree, or the error, with leftovers an error |
| ShellCode.LineWords | user/sh.c:562-577 | every argument and file name of a parsed line is a whole word of it |
| ShellCode.ParsedIsLegal | user/sh.c:545-560 | whatever parses is a tree of legal words, at most nine per command |
| ShellCode.ParsePrintParse | user/sh.c:545-560 | so parsing, printing and parsing again gives the same tree |
| ShellCode.NulTerminate | user/sh.c:667-711 | a NUL at the end of every argument and file name, and nowhere else |
| ShellCode.WordsKept | user/sh.c:667-711 | after that each of them is the C string of the characters it had, none clobbered by another's NUL |
| ShellCode.ParseCommand | user/sh.c:545-560 | parsecmd() in place on the buffer: the tree of the line, its words now C strings; on an error the buffer is untouched |
| Grep.HereMeans | user/grep.c:84-96 | matchhere() is true exactly when the declarative meaning of the pattern holds at that position |
| Grep.StarMeans | user/grep.c:98-106 | matchstar() is true exactly when some run of the character can be followed by the rest |
| Grep.MatchMeans | user/grep.c:72-82 | match() is true exactly when the meaning holds at the start after ^, at some position without |
| Grep.MatchHere | user/grep.c:84-96 | matchhere() as it runs; it ends on every pattern and text |
| Grep.MatchStar | user/grep.c:98-106 | matchstar() as it runs |
| Grep.MatchText | user/grep.c:72-82 | match() as it runs decides the meaning |
| Grep.StrchrPrefix | user/grep.c:22 | a line complete in the buffer is the stream's first line |
| Grep.FilterLine | user/grep.c:22-29 | one line dealt with |
| Grep.FilterStuck | user/grep.c:18-34 | with no line in a full buffer, or at the end, nothing more is written |
| Grep.FindNewline | user/grep.c:22 | strchr() from a position |
| Grep.DoLine | user/grep.c:22-29 | one turn of the inner loop writes the line exactly if it matches |
| Grep.Lines | user/grep.c:21-29 | the inner loop deals with every complete line and leaves the rest |
| Grep.ReadLines | user/grep.c:18-34 | one turn of the outer loop, memmove() included |
| Grep.GrepStream | user/grep.c:11-35 | however read() splits the stream, the same bytes are written |
| Grep.TailDropped | user/grep.c:22-34 | what follows the last newline is never written |
| Grep.UnfitStops | user/grep.c:18-34 | a line that does not fit, or holds a NUL, ends the output |
| Grep.FitAllPrinted | user/grep.c:11-35 | if every line ends in a newline, fits with it and holds no NUL, all matching lines are written |
| Grep.UnfitLost | user/grep.c:11-35 | otherwise the empty pattern misses a line |
| Grep.PrintsAllIffLinesFit | user/grep.c:11-35 | all matching lines are written for every pattern if and only if every line ends, fits and holds no NUL |
| Grep.LongLineLost | user/grep.c:11-35 | a line of 1023 characters is lost although it matches |
| Grep.LastLineLost | user/grep.c:11-35 | the last line of a file without a final newline is lost although it matches |

## Left out

- Weak memory ordering and the inside of spinlocks: acquire and release are atomic steps.
- Boot, traps, interrupt routing, the UART, device registers, kexec, ELF loading, console editing, printf, string routines, argument fetching and mkfs: input and output, or easier than what is here.
- Running out of buffers in bget(): the log machine assumes a buffer can always be recycled or added, `Bcache.Cache.BGet` returns "none" where the code panics.
- The log machine has one device, and takes it that a file-system call changes blocks only inside a transaction and logs what it changed before it ends.
- The space reservation is a machine of its own: it has the counts and the list of log.c but no block contents, and begin_op() goes ahead or waits as one step.
- The encoding of inodes in their blocks and iupdate(): the model's inodes are the in-memory ones, and only the fact that the inode's block is logged is kept.
- A user copy that fails partway through a block in writei(): either_copyin() is all or nothing for each block.
- Directories, path names, link counts, the inode cache and file descriptor tables.
- Fs.FileSystem.BMap: takes a block number below MAXFILE, since bmap() panics on any other and its callers never pass one.
- Vm.Memory.MapPages: takes an aligned, nonempty and unmapped range, since mappages() panics on any other; the physical pages of a range below the trapframe must be allocated and unmapped, which keeps user pages unshared.
- VmCopy.VmFault: takes the current process's page table to be the one passed in and its size to be at most TRAPFRAME, which sbrk()'s lazy branch does not check.
- copyinstr(), uvmclear() and the kernel's own page table.
- Physical addresses are page numbers and a page is either bytes or 512 entries, never read as the other.
- Sleeping in begin_op(), in pipes and in the disk driver: only the data of those modules is modelled; the wakeup argument is made once, for sleep locks and for kwait().
- In the process machine the only sleep is kwait()'s, memory failure in kfork() and a failing copyout() in kwait() are arbitrary choices, and open files and working directories are absent.
- Pipe.Ring.Write: one stay inside pipewrite() between two sleeps, without the wakeups; a killed writer's missing wakeup is not judged. After both ends are closed the pipe's page is gone, and so are the calls on it.
- Sector numbers and the direction of a disk transfer.
- Umalloc.Allocator.Malloc: takes requests whose units fit sbrk()'s int argument, which `Umalloc.LargestRequest` gives in bytes, and a system break that only grows, in units of a header.
- Umalloc.Allocator.Morecore: takes the same sizes, since a larger one makes sbrk() shrink the process or return memory that is not there.
- Shell history, `!!`, built-in commands, runcmd() and the allocation of command nodes.
- Grep.GrepStream: a read() that fails ends the stream, as it does in the code, so it is not told apart from the end of the file; output is the bytes written, whatever write() does with them.
