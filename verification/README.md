# mkros in Dafny

mkros is an xv6-derived RISC-V kernel with a vendored libfdt. This project models the parts of it whose
correctness is not visible in any one function, and proves what they promise together.

**Storage** (`Blocks`, `LruList`, `BufferCache`, `RedoLog`, `LogDevice`, `Transactions`, `Bitmap`, `Inodes`,
`Files`, `FileSystem`, `CrashSafety`). The disk is a sequence of blocks that are written atomically. The buffer cache
is a class over the doubly linked LRU list; commit and recovery are methods over the cache whose block writes are
recorded, so that a crash can be placed between any two of them. `Transactions` is the same log under concurrency:
operations, buffer locks, evictions, group commits written one block at a time, crashes and recoveries interleave, and
every run refines a block store whose contents become durable all at once. `FileSystem` works on the current contents
of such a store, on the set of blocks given to `log_write` and on the list of these sets by operation; it has the
bitmap allocator, `bmap`, `itrunc`, `readi`, `writei` and the chunk loop of `filewrite` as methods, proved against
files as byte sequences that are read off the disk alone. `CrashSafety` joins the two: if no commit begins while the
current blocks are not a file system, the blocks that come back after any crash are one. `Paths` has path elements, the
inode table and `namex`.

**Processes** (`SleepWakeup`, `Pipe`, `Virtqueue`). `SleepWakeup` is a state machine of harts that run the scheduler,
`sleep`, `wakeup`, `fork`, `exit`, `wait` and `kill` one lock-protected step at a time, with client code that protects
conditions by locks, and with interrupts, which may wake processes up and take the hart away, wherever no lock is held.
The fields `swept`, `owed`, `forker`, `died` and `reaped` of its state are history: how far a `wakeup` has got, which
conditions have become true since their lock was taken, whose `fork` a process is still in, and how often a process
died and was reaped. `Pipe` is a class whose methods are the stretches of `pipewrite` and `piperead` between two
sleeps. `Virtqueue` adds the device as a second party that takes no lock.

**Memory** (`PageTable`, `VirtualMemory`, `UserCopy`). Page tables are pages of 512 entries that form a four-level
tree; the tree is proved to be a finite map, and mapping, unmapping, growing, forking, copying and taking apart are
proved on that map. A page is in one use only: every method keeps the pages of tables, the data pages and what is left
to `alloc_pages` and to `kalloc` apart, and the union of the four unchanged. Addresses the source keeps page-aligned
are counted in pages.

**Device trees** (`FdtBlob`, `FdtRecords`, `FdtWriter`, `FdtEdit`, `FdtTree`). The reader works on the bytes of a blob.
The sequential writer and the splicing editor are classes over a byte buffer. What they do is stated in terms of the
items that the reader finds: node begin with name, property with name and value, node end, NOP. `FdtTree` says when
such a list is a tree, and that the edits keep it one.

`Common` holds what several modules use.

Where a promise does not hold as the source's comments put it, the project says so with a lemma or method that reaches
the failing state, and with the exact condition.

- `log_write` tests for a full log before it looks whether the block is absorbed, so operations that add exactly
  `MAXOPBLOCKS` blocks each can panic (`Transactions.FullLogPanics`); `Transactions.PanicIff` gives the exact bound.
- The test for room in `fdt_add_string_` subtracts unsigned numbers, so that a name longer than the buffer is copied to
  an address in front of it (`FdtWriter.OverrunReached`); `FdtWriter.OverrunIff` says for which names.
- When `either_copyin` fails inside a block, `writei` releases the block without `log_write`, although the part that
  could be copied is in it: a write that reports no byte changes the file, outside of any transaction
  (`FileSystem.TornWrite`). `Files.CoveringIff` and `FileSystem.SpiltIff` say exactly when this does no harm, and
  `FileSystem.StopsWhole` how many bytes are concerned.
- The Makefile builds `walk` for the four levels of Sv48, while `MAKE_SATP` selects Sv39, with which the hardware walks
  three (`PageTable.ModeIff`); the model follows `walk`.

## Model

| member | source | states |
|---|---|---|
| LruList.UnlinkKeepsRing | kernel/bio.c:117-118 | taking a buffer out leaves one circular list of all other buffers, forwards and backwards |
| LruList.LinkFrontKeepsRing | kernel/bio.c:119-122 | putting a buffer behind the head leaves one circular list with that buffer first |
| LruList.MoveStamped | kernel/bio.c:115-123 | moving a buffer to the front keeps the list sorted by the time of the last such move |
| BufferCache.SameView | kernel/bio.c:55-84 | recycling or referencing a buffer changes the current value of no block |
| BufferCache.RefsUpdate | kernel/bio.c:62-77 | the references of each block change by the change of one buffer's count, and of no other block |
| BufferCache.FillBuffer | kernel/bio.c:91-94 | filling an invalid buffer from disk changes the value of no block |
| BufferCache.OverwriteBuffer | kernel/bio.c:99-103 | overwriting a valid buffer changes the value of exactly its block |
| BufferCache.Cache.Binit | kernel/bio.c:35-50 | the links form one ring of all NBUF buffers, all free, and every block has its disk value |
| BufferCache.Cache.FindCached | kernel/bio.c:61-68 | finds the buffer of the block, or there is none |
| BufferCache.Cache.FindFree | kernel/bio.c:72-82 | finds the unreferenced buffer that went to the front of the list longest ago, or all are referenced |
| BufferCache.Cache.Bget | kernel/bio.c:55-84 | one more reference on the block's only buffer, recycled in LRU order if it was not cached; no block's value changes |
| BufferCache.Cache.Bread | kernel/bio.c:87-96 | the buffer returned holds the block's current value |
| BufferCache.Cache.Bwrite | kernel/bio.c:99-103 | exactly one block write reaches the disk, with the buffer's data |
| BufferCache.Cache.MoveToFront | kernel/bio.c:117-122 | the list is still one ring of all buffers, sorted by the time each last came to the front, and this buffer is the latest |
| BufferCache.Cache.Brelse | kernel/bio.c:107-126 | one reference less; the last one makes the buffer the most recent of the list; no block's value changes |
| BufferCache.Cache.Bpin | kernel/bio.c:128-132 | one reference more and nothing else |
| BufferCache.Cache.Bunpin | kernel/bio.c:134-138 | one reference less and nothing else; the buffer keeps its place in the list also when it was the last |
| RedoLog.RecoveryRestarts | kernel/log.c:110-115 | recovery interrupted after any write and started over ends as if never interrupted |
| RedoLog.ChainConverges | kernel/log.c:67-115 | any number of interrupted recoveries leaves what one recovery leaves |
| RedoLog.CommittedReaches | kernel/log.c:67-81 | once the header is written, recovery makes every home block equal to the cache's view |
| RedoLog.CommitSwitchesAtHeader | kernel/log.c:169-190 | a crash before the first header write leaves all home blocks old, from it on all new |
| RedoLog.CrashAtomicity | kernel/log.c:67-190 | crash after any of the 2n+2 writes of a commit, then any number of crashes in recovery: all old or all new, switching at the header write |
| LogDevice.CommitIsAtomic | kernel/log.c:182-190 | the same for the disk states that the code of commit passes through over the cache |
| LogDevice.CommitCompletes | kernel/log.c:182-190 | a commit that finishes leaves every home block with the cache's value, the log empty and each pin dropped once |
| LogDevice.RecoverRunRecovers | kernel/log.c:110-115 | recovery leaves the recovered disk, in one write per listed block and one of the header |
| LogDevice.RecoverIsRestartable | kernel/log.c:110-115 | the code of recovery stopped after any of its writes, and later recoveries after any of theirs: in the end the disk is as if nothing had been interrupted |
| LogDevice.LogRunTrace | kernel/log.c:169-180 | write_log passes through the states of copying the listed blocks one by one |
| LogDevice.InstallRunTrace | kernel/log.c:67-81 | install_trans passes through the states of installing the listed blocks one by one |
| LogDevice.InstallRunUnpins | kernel/log.c:76-79 | install_trans drops exactly one reference of each listed block |
| LogDevice.Log.WriteHead | kernel/log.c:98-108 | one write of the header block, listing exactly the in-memory list |
| LogDevice.Log.WriteLog | kernel/log.c:169-180 | the cache and disk end up as the specified copy run |
| LogDevice.Log.InstallTrans | kernel/log.c:67-81 | the cache and disk end up as the specified install run |
| LogDevice.Log.Commit | kernel/log.c:182-190 | the cache and the sequence of disk states are those of the commit that CommitIsAtomic is about |
| LogDevice.Log.ReadHead | kernel/log.c:84-93 | the in-memory list is the one in the header on disk |
| LogDevice.Log.Recover | kernel/log.c:110-115 | the cache and the sequence of disk states are those of the recovery that RecoverRunRecovers is about |
| Transactions.ReservedBegin | kernel/log.c:124-129 | admission by begin_op leaves room for everything the running operations may still add |
| Transactions.KeepBegin | kernel/log.c:118-134 | begin_op keeps the invariant |
| Transactions.KeepEnd | kernel/log.c:138-166 | end_op, also when it starts a commit, keeps the invariant |
| Transactions.KeepGetFresh | kernel/bio.c:70-82 | recycling any unreferenced buffer keeps the invariant |
| Transactions.KeepLogWrite | kernel/log.c:201-220 | log_write, absorbed or not, keeps the invariant |
| Transactions.KeepCopyToLog | kernel/log.c:172-179 | a block copied to the log keeps the invariant |
| Transactions.KeepInstallHome | kernel/log.c:70-80 | a block installed at home and unpinned keeps the invariant |
| Transactions.KeepCrash | kernel/log.c:55-64 | a crash at any moment keeps the invariant |
| Transactions.KeepRecoverWrite | kernel/log.c:110-115 | a block write of recovery keeps the invariant |
| Transactions.KeepNext | kernel/log.c:55-220 | every step of every process, of commits, crashes and recoveries keeps the invariant |
| Transactions.ReachableInv | kernel/log.c:55-220 | in every run refcnt is holders and waiters plus one per log entry not yet installed, and list plus unused reservations fit the log |
| Transactions.ReadsLastValue | kernel/bio.c:87-96 | whoever holds a buffer sees the last value given to its block, whatever was evicted meanwhile |
| Transactions.CrashBringsBackDurable | kernel/log.c:110-115 | a crash at any moment followed by recovery brings back exactly what is durable |
| Transactions.Refines | kernel/log.c:118-220 | every step is a step of a block store whose commits make all current values durable at once, and only when no operation is open |
| Transactions.QuietCommit | kernel/log.c:143-148 | no operation is open while a commit or a recovery is under way |
| Transactions.NoLogPanic | kernel/log.c:143-208 | with fewer than MAXOPBLOCKS blocks per operation no panic of the log is reachable |
| Transactions.FullLogPanics | kernel/log.c:205-213 | with MAXOPBLOCKS blocks per operation a run reaches a panic on an absorbed write |
| Transactions.PanicIff | kernel/log.c:118-220 | such a run exists if and only if operations may add MAXOPBLOCKS blocks or more |
| Bitmap.BitOr | kernel/fs.c:68-70 | setting a bit of a byte sets that bit and no other |
| Bitmap.BitClear | kernel/fs.c:90-93 | clearing a bit of a byte clears that bit and no other |
| Bitmap.MarkUsed | kernel/fs.c:84-96 | marking a block in the free map changes the mark of that block only |
| Inodes.PutGet | kernel/fs.c:216-223 | an inode written to its slot reads back, and the other inodes of the block stay |
| Inodes.AddBlock | kernel/fs.c:359-377 | a fresh block in an empty direct or indirect slot keeps every block referenced once |
| Inodes.AddEntry | kernel/fs.c:378-387 | a fresh block in an empty entry of the indirect block keeps every block referenced once |
| Inodes.DropBlock | kernel/fs.c:401-406 | a direct reference given up leaves the others referenced once |
| Inodes.DropEntry | kernel/fs.c:411-414 | an entry of the indirect block given up leaves the others referenced once |
| Inodes.DropIndirect | kernel/fs.c:416-417 | the indirect block given up last leaves the inode without references |
| Files.EachOnce | kernel/fs.c:355-422 | the set bits are exactly the metadata blocks and the referenced blocks, and no block is referenced twice |
| Files.WriteData | kernel/fs.c:483-489 | bytes put into a data block change exactly those positions of that file |
| Files.WriteFinish | kernel/fs.c:493-501 | after writei the disk alone denotes the file with the bytes put over it, cut at the size that is set, and all other files unchanged |
| Files.CoveringIff | kernel/fs.c:465-502 | a short write leaves the file with exactly the reported bytes put over it if and only if the bytes behind them that were copied are the old ones |
| Files.TruncFinish | kernel/fs.c:420-421 | after itrunc exactly the file's blocks are free, the file is empty and all others are unchanged |
| Files.OtherBytes | kernel/fs.c:470-502 | work on one inode changes no byte of another file |
| FileSystem.Fs.Balloc | kernel/fs.c:60-81 | the first free block, marked and zeroed, or 0 exactly when none is free |
| FileSystem.Fs.Bfree | kernel/fs.c:84-96 | the mark of a block in use, and no other, is cleared, in one logged block |
| FileSystem.Fs.Bmap | kernel/fs.c:355-392 | the block of that file position, allocated if need be; existing references, data and other files stay, also when space runs out |
| FileSystem.Fs.Iupdate | kernel/fs.c:212-226 | the inode's slot on disk gets the inode, in one logged block |
| FileSystem.Fs.Readi | kernel/fs.c:438-461 | exactly the requested slice of the file, cut at its end, with 32-bit overflow refused; nothing is allocated |
| FileSystem.Fs.Writei | kernel/fs.c:470-502 | the r bytes reported go over the file at off, growing it, and of a chunk that could not be copied its readable part without growing it; other files stay; stops early only for want of a block or for a failed copy; -1 exactly for the refused cases; what is changed is logged, but for that part |
| FileSystem.StopsWhole | kernel/fs.c:479-491 | with a readable source all is written; else whole blocks are, and the readable rest of the last block is the part not reported |
| FileSystem.SpiltIff | kernel/fs.c:484-488 | after a failed copy every changed block is logged if and only if the block is new or the bytes were there before |
| FileSystem.TornWrite | kernel/fs.c:484-488 | over any non-empty file: a write that reports no byte changes its first byte, in a block that is not logged |
| FileSystem.Fs.Itrunc | kernel/fs.c:396-422 | exactly the file's blocks are freed, the file is empty and the others stay; only bitmap blocks and the inode's block are changed, and all that are changed are logged |
| FileSystem.DirectUsed | kernel/fs.c:401-417 | the "freeing free block" panic is unreachable for direct and indirect blocks |
| FileSystem.EntryUsed | kernel/fs.c:411-414 | the panic is unreachable for entries of the indirect block |
| FileSystem.ChunkFits | kernel/file.c:144-156 | a chunk of filewrite gives at most 7 distinct blocks to log_write when the bitmap fits in one block |
| FileSystem.Fs.Filewrite | kernel/file.c:137-165 | the bytes written are a prefix of the request, put at the offset; success exactly when all were written, and an error for a negative length; every block changed was given to log_write in one of the operations begun, but for one when a copy fails; with a bitmap of one block each of these operations has at most 7 blocks |
| CrashSafety.ValidSame | include/fs.h:11-28 | whether blocks are a file system does not depend on the boot block, the superblock and the log |
| CrashSafety.FilesSurvive | kernel/log.c:110-166 | in every run of operations, commits, crashes and recoveries in which operations add fewer than MAXOPBLOCKS blocks and each commit begins with a file system, what recovery brings back at any moment is a file system with the files of the last commit |
| Paths.SkipElem | kernel/fs.c:577-598 | the next path element, cut to DIRSIZ, and the rest; iterating gives exactly the non-empty parts between slashes |
| Paths.SlashesFirst | kernel/fs.c:581-582 | leading slashes do not change the elements of a path |
| Paths.ElementFirst | kernel/fs.c:585-597 | the elements of a path are its first element and the elements of the rest |
| Paths.EntryChange | kernel/fs.c:237-259 | one change of a table entry changes the references of one inode only |
| Paths.Namespace.Iget | kernel/fs.c:231-260 | one reference more for the inode, and at most one entry in use per inode |
| Paths.Namespace.Idup | kernel/fs.c:264-269 | one reference more for the entry's inode |
| Paths.Namespace.Iput | kernel/fs.c:313-337 | one reference less for the entry's inode |
| Paths.Namespace.Descend | kernel/fs.c:614-628 | from a locked directory to the named entry, with the lock and the reference to the directory given up |
| Paths.Namespace.Namex | kernel/fs.c:604-635 | resolves the path as its elements say; no lock stays taken; one reference to the inode returned, none otherwise |
| SleepWakeup.SchedKeeps | kernel/proc.c:394-445 | the scheduler and the switch to it keep the invariant |
| SleepWakeup.WakeKeeps | kernel/proc.c:506-518 | every step of wakeup keeps the invariant |
| SleepWakeup.TrapKeeps | kernel/trap.c:125-152 | an interrupt taken wherever no lock is held, its return, and its yield, which resumes where the interrupt was taken, keep the invariant |
| SleepWakeup.SleepKeeps | kernel/proc.c:448-502 | every step of sleep keeps the invariant |
| SleepWakeup.ForkKeeps | kernel/proc.c:236-281 | fork, also where it fails and frees the process, keeps the invariant |
| SleepWakeup.ReparentKeeps | kernel/proc.c:285-325 | giving the children away and waking init and the parent keeps the invariant |
| SleepWakeup.ExitKeeps | kernel/proc.c:327-337 | becoming a zombie and leaving keeps the invariant |
| SleepWakeup.ScanKeeps | kernel/proc.c:346-374 | the scan of wait keeps the invariant |
| SleepWakeup.WaitKeeps | kernel/proc.c:356-385 | reaping, giving up and sleeping in wait keep the invariant |
| SleepWakeup.ClientKeeps | kernel/spinlock.c:19-76 | acquire, release and kill, and clients that wake before they release, keep the invariant |
| SleepWakeup.KeepNext | kernel/proc.c:236-540 | every step of every hart, with interrupts between steps without a lock, keeps the invariant |
| SleepWakeup.ReachableInv | kernel/proc.c:236-540 | the invariant holds in every interleaving from boot on |
| SleepWakeup.NoLostWakeup | kernel/proc.c:477-518 | while a process sleeps on c although its condition holds, a hart holds c's lock and owes a whole wakeup(c) before it may release it: it is inside wakeup(c) and has not visited the process, or in client code or another wakeup of that code; with wait_lock held by reparent or exit it is inside wakeup(c) |
| SleepWakeup.WaitMissesNoZombie | kernel/proc.c:285-385 | whenever wait_lock is free, no process asleep in wait has a zombie child, also across reparent |
| SleepWakeup.OneHart | kernel/proc.c:394-445 | at most one hart has c->proc == p, and with p->lock free p is RUNNING exactly when one has |
| SleepWakeup.ReapedOffStack | kernel/proc.c:354-372 | wait finds a zombie only after its hart has left its stack |
| SleepWakeup.ReapedOnce | kernel/proc.c:327-372 | a process has been reaped as often as it died, or once less while it is a zombie |
| SleepWakeup.NoSchedPanic | kernel/proc.c:429-445 | a process that switches away holds its own p->lock, no other p->lock and no condition lock, and is not RUNNING; an exited one is never switched to: sched's panics on these and exit's are unreachable |
| Pipe.Occupancy | kernel/pipe.c:84-117 | the 32-bit counters tell full, empty and the number of bytes in the ring, also after they wrap |
| Pipe.HoldsMore | kernel/pipe.c:92 | one more byte in the ring overwrites none that is still to be read |
| Pipe.Pipe.Write | kernel/pipe.c:74-100 | a consecutive part of the source goes in behind all bytes written before; stops only when done, full, unreadable or broken |
| Pipe.Pipe.Read | kernel/pipe.c:102-125 | the oldest bytes come out in order; only a failed copy loses one byte |
| Pipe.Pipe.Close | kernel/pipe.c:56-72 | one end closes, and the pipe is freed exactly when both are |
| Pipe.Pipe.Used | kernel/pipe.c:84-117 | the wrapped difference of the counters is the number of bytes in the ring, at most 512 |
| Virtqueue.AllocDesc | kernel/virtio_disk.c:154-162 | takes the first free descriptor, or there is none |
| Virtqueue.Alloc3 | kernel/virtio_disk.c:193-203 | takes three free descriptors, or none when there are fewer |
| Virtqueue.FreeChain | kernel/virtio_disk.c:179-189 | frees exactly the three descriptors of a chain and ends |
| Virtqueue.TwoRequests | kernel/virtio_disk.c:193-203 | chains of three that share no descriptor: at most two requests are outstanding |
| Virtqueue.ShortQueue | kernel/virtio_disk.c:259-265 | at most two entries of a ring are pending, far fewer than its eight places |
| Virtqueue.WrapIs | kernel/virtio_disk.c:298-309 | 16-bit indices at most two apart are equal exactly when the true counts are |
| Virtqueue.KeepNext | kernel/virtio_disk.c:205-313 | every step of requests, interrupt handler and device keeps the invariant |
| Virtqueue.ReachableInv | kernel/virtio_disk.c:205-313 | the invariant holds in every interleaving, also after the indices wrap |
| Virtqueue.Partition | kernel/virtio_disk.c:154-203 | free descriptors and whole chains of three partition the eight descriptors |
| Virtqueue.UsedNames | kernel/virtio_disk.c:298-306 | every used entry not yet looked at names the chain of a buffer with disk == 1 and a good status |
| Virtqueue.ReportedOnce | kernel/virtio_disk.c:256-307 | each request is reported exactly once |
| Virtqueue.NoFreePanic | kernel/virtio_disk.c:165-189 | the panics of free_desc are unreachable |
| Virtqueue.NothingLost | kernel/virtio_disk.c:298-309 | the handler always finds a running request with a good status, the device a whole chain |
| Virtqueue.StillUnderWay | kernel/virtio_disk.c:256-274 | a published request with disk == 1 is in the available ring, with the device or in the used ring |
| PageTable.TranslateIsLeaf | kernel/vm.c:85-115 | a walk over all levels finds the entry of the finite map the tree stands for |
| PageTable.ShortWalk | include/riscv.h:316-319 | a walk over fewer levels than the tree has never arrives at the entry of a page |
| PageTable.ModeIff | include/riscv.h:316-319 | once a page is mapped, the hardware finds what the kernel mapped if and only if its mode has as many levels as the tree |
| PageTable.LinkedShape | kernel/vm.c:107-112 | a new zeroed table linked in keeps the tree a tree |
| PageTable.LinkedLeaf | kernel/vm.c:107-112 | and changes no translation |
| PageTable.StoredShape | kernel/vm.c:166 | writing a leaf entry changes the translation of that page only and keeps the tree |
| VirtualMemory.Memory.Walk | kernel/vm.c:85-115 | the place of the page's entry; with alloc fails only out of memory and changes no translation |
| VirtualMemory.Memory.Mappages | kernel/vm.c:151-173 | the k-th page from va goes to frame pa + k with the flags and V, no other translation changes; on failure a prefix is mapped |
| VirtualMemory.Memory.Uvmunmap | kernel/vm.c:178-201 | exactly the pages of the range are unmapped, and each of their frames is freed once |
| VirtualMemory.Memory.Uvmcreate | kernel/vm.c:205-212 | a tree of one zeroed page, taken from kalloc and in no other use, that maps nothing; fails only out of memory |
| VirtualMemory.Memory.Uvmalloc | kernel/vm.c:232-255 | zeroed pages on fresh frames from the old to the new size; on failure all is taken back |
| VirtualMemory.Memory.Uvmdealloc | kernel/vm.c:261-271 | exactly the pages between the sizes are unmapped and freed |
| VirtualMemory.Memory.Uvmcopy | kernel/vm.c:306-332 | the child gets the parent's bytes and flags on fresh frames; on failure no frame is missing and no page mapped; the parent's table is untouched; no page gets a second use |
| VirtualMemory.Memory.Freewalk | kernel/vm.c:275-290 | below a node under which nothing is mapped, exactly the pages of the subtree are given to kfree, each once; the panic for a leaf is unreachable |
| VirtualMemory.Memory.Uvmfree | kernel/vm.c:294-298 | exactly the frames of the memory and the pages of the table are freed, and nothing else changes |
| VirtualMemory.Memory.ProcPagetable | kernel/proc.c:143-170 | a table with only the trampoline and the trapframe; when memory runs out no page stays in use |
| VirtualMemory.Memory.ProcFreepagetable | kernel/proc.c:175-179 | the memory and the whole table are freed, the trampoline and the trapframe are not |
| VirtualMemory.Memory.ForkMemory | kernel/proc.c:236-250 | proc_pagetable and uvmcopy together: the child's table maps copies of the parent's pages on frames of its own, and the two pages at the top; when memory runs out at any point no page is in use that was not before |
| VirtualMemory.FilledUndone | kernel/vm.c:329-331 | rolling back returns every frame taken, once, and restores what is mapped |
| VirtualMemory.ForkApart | kernel/vm.c:306-332 | after a fork the two memories have equal bytes and flags and no frame in common |
| UserCopy.WalkAddr | kernel/vm.c:120-136 | a frame exactly for pages that are valid and for the user |
| UserCopy.Copyin | kernel/vm.c:371-389 | succeeds exactly when the whole range is user memory; copies its bytes up to the first that is not |
| UserCopy.Copyout | kernel/vm.c:348-366 | succeeds exactly when the whole range is user memory; changes no byte outside the range; with distinct frames the range holds the source |
| UserCopy.RoundTrip | kernel/vm.c:348-389 | copyout then copyin over distinct frames returns the same bytes |
| UserCopy.Copyinstr | kernel/vm.c:395-432 | returns the string exactly when a NUL lies within max bytes and all pages up to it are user memory |
| UserCopy.OneString | kernel/vm.c:395-432 | at an address there is at most one such string |
| FdtBlob.SkipName | lib/libfdt/fdt.c:181-188 | stops behind the first NUL, with no NUL before it; fails exactly when the readable bytes or the range of int end without one |
| FdtBlob.ReadsUnique | lib/libfdt/fdt.c:165-217 | a walk with fdt_next_tag gives one item list only |
| FdtRecords.NameEndIs | lib/libfdt/fdt.c:181-188 | a node name inside the block is skipped with its NUL |
| FdtRecords.TagIs | lib/libfdt/fdt.c:165-217 | at a record fdt_next_tag returns its tag and the offset of the next record, whatever the padding holds |
| FdtRecords.ReadsFrom | lib/libfdt/fdt.c:165-217 | records closed by FDT_END read back as exactly their items |
| FdtWriter.Writer.Create | lib/libfdt/fdt_sw.c:109-141 | the error for a short buffer or unknown flags, else a zeroed buffer in the reserve-map state |
| FdtWriter.Writer.AddReserve | lib/libfdt/fdt_sw.c:188-206 | the entry is written and the structure starts behind it, exactly when there is room in that state |
| FdtWriter.Writer.FinishReserve | lib/libfdt/fdt_sw.c:208-217 | the writer is ready for nodes with an empty item list |
| FdtWriter.Writer.GrabSpace | lib/libfdt/fdt_sw.c:94-107 | structure grows exactly when it stays below the strings |
| FdtWriter.Writer.BeginNode | lib/libfdt/fdt_sw.c:219-234 | the item list grows by the node, exactly when there is room; on an error nothing changes |
| FdtWriter.Writer.CloseNode | lib/libfdt/fdt_sw.c:236-248 | the item list grows by the node end, exactly when there is room; on an error nothing changes |
| FdtWriter.FindString | lib/libfdt/fdt.c:311-321 | finds an occurrence of the name with its NUL, also as a suffix, or there is none |
| FdtWriter.Writer.AddString | lib/libfdt/fdt_sw.c:250-265 | the string goes in front of the others, which keep their distance from the end, exactly when there is room; an overrun is due exactly for strings too long for the buffer |
| FdtWriter.RoomTest | lib/libfdt/fdt_sw.c:257-260 | the exact condition under which the unsigned test for room is right |
| FdtWriter.OverrunIff | lib/libfdt/fdt_sw.c:254-264 | in any state of the writer, the test lets a name through for which there is no room, with a copy that starts in front of the buffer, if and only if the strings with it are longer than the buffer |
| FdtWriter.OverrunReached | lib/libfdt/fdt_sw.c:254-264 | calls on a buffer of 100 bytes that reach it with a name of 199 |
| FdtWriter.Writer.Property | lib/libfdt/fdt_sw.c:293-335 | the item list grows by the property, exactly when there is room counting shared names; an overrun exactly for a new name too long for the buffer; on an error the string is rolled back |
| FdtWriter.Relocate | lib/libfdt/fdt_sw.c:347-357 | moving the strings behind the structure keeps every name at its distance from their end |
| FdtWriter.MovedNext | lib/libfdt/fdt_sw.c:361-372 | correcting one string offset leaves all other records and names alone |
| FdtWriter.Writer.CorrectOffsets | lib/libfdt/fdt_sw.c:359-374 | the loop reaches FDT_END with every string offset corrected once |
| FdtWriter.Writer.Finish | lib/libfdt/fdt_sw.c:337-384 | fails exactly for lack of room and then changes nothing; the finished blob, if smaller than INT_MAX, reads back as exactly the items written |
| FdtWriter.WriteAll | lib/libfdt/fdt_sw.c:219-384 | every successful sequence of calls reads back as itself, with and without sharing of names |
| FdtEdit.FinishedComplete | lib/libfdt/fdt_sw.c:376-383 | what the sequential writer leaves behind can be edited |
| FdtEdit.CompleteReads | lib/libfdt/fdt_ro.c:34-98 | a complete blob reads back as its items |
| FdtEdit.CompleteSpliced | lib/libfdt/fdt_rw.c:54-95 | replacing records by splicing leaves every other record and every name as it was |
| FdtEdit.CompleteString | lib/libfdt/fdt_rw.c:105-116 | a string behind the others changes no record and no name |
| FdtEdit.Editor.SpliceBytes | lib/libfdt/fdt_rw.c:54-68 | what follows moves exactly when the offsets are inside and there is room |
| FdtEdit.Editor.GetProperty | lib/libfdt/fdt_ro.c:394-422 | the first property of that name of that node, or none and how its list ends; refused exactly when the offset, whatever number it is, is no node |
| FdtEdit.Editor.FindAddString | lib/libfdt/fdt_rw.c:127-153 | the name's place in the strings, shared or added |
| FdtEdit.Editor.ResizeProperty | lib/libfdt/fdt_rw.c:184-200 | the property has the new value and nothing else changes, exactly when there is room |
| FdtEdit.Editor.AddProperty | lib/libfdt/fdt_rw.c:202-233 | a new first property of the node, exactly when there is room for it and its name; refused exactly when the offset is no node |
| FdtEdit.Editor.Setprop | lib/libfdt/fdt_rw.c:258-289 | exactly the named edit on the item list; refused exactly when the offset is no node; on an error the list is as before |
| FdtEdit.Editor.Delprop | lib/libfdt/fdt_rw.c:318-331 | exactly that property is gone; refused exactly when the offset is no node |
| FdtEdit.NextNodeEnd | lib/libfdt/fdt_wip.c:73-81 | stepping from node to node until the depth is negative ends behind the matching node end |
| FdtEdit.NextNodeChild | lib/libfdt/fdt_ro.c:225-242 | stepping from node to node meets exactly the children at depth 1 |
| FdtEdit.Editor.NextNode | lib/libfdt/fdt.c:243-281 | the next node and its depth, or the end of the node left; a negative offset starts at the front, any other is refused exactly when it is no node |
| FdtEdit.Editor.NodeEndOffset | lib/libfdt/fdt_wip.c:73-81 | the offset behind the matching node end; fails exactly when there is none or the offset is no node, and passes a negative one on |
| FdtEdit.Editor.SubnodeOffset | lib/libfdt/fdt_ro.c:225-242 | the first child whose name matches, with or without a unit address; fails exactly when there is none or the offset is no node, and passes a negative one on |
| FdtEdit.Editor.AddSubnode | lib/libfdt/fdt_rw.c:333-375 | an empty node behind the parent's properties and nothing else; EXISTS exactly when a child matches; refused exactly when the offset is no node; on an error the items are as before |
| FdtEdit.Editor.DelNode | lib/libfdt/fdt_rw.c:382-394 | exactly the items of the node are gone; fails exactly when the offset is no node or the node has no end, and then changes nothing |
| FdtEdit.Editor.NopRegion | lib/libfdt/fdt_wip.c:51-57 | exactly the words of the region become NOP tags |
| FdtEdit.Editor.NopProperty | lib/libfdt/fdt_wip.c:59-71 | denotes the same tree as deleting the property; refused exactly when the offset is no node |
| FdtEdit.Editor.NopNode | lib/libfdt/fdt_wip.c:83-94 | denotes the same tree as deleting the node; fails exactly when the offset is no node or the node has no end |
| FdtEdit.NopIsDelete | lib/libfdt/fdt_wip.c:51-94 | items overwritten with NOPs denote the same tree as items deleted |
| FdtTree.TreeIff | lib/libfdt/fdt.c:243-281 | counting depth from front to back accepts exactly the lists that are one node laid flat: its properties, then its children |
| FdtTree.SameLive | lib/libfdt/fdt_wip.c:51-57 | NOPs do not decide whether a list is a tree |
| FdtTree.PropsClosed | lib/libfdt/fdt_ro.c:201-223 | in a tree the properties of a node end before the structure does, so the editor's BADSTRUCTURE is out of reach |
| FdtTree.SetPropKeeps | lib/libfdt/fdt_rw.c:258-289 | setting a property leaves a tree |
| FdtTree.DelPropKeeps | lib/libfdt/fdt_rw.c:318-331 | deleting a property leaves a tree |
| FdtTree.AddNodeKeeps | lib/libfdt/fdt_rw.c:333-375 | adding a node behind the properties leaves a tree |
| FdtTree.DelNodeKeeps | lib/libfdt/fdt_rw.c:382-394 | in a tree every node has its end; deleting any node but the root leaves a tree, deleting the root leaves nothing |

## Left out

- FileSystem.Fs.Writei: when the operation has logged blocks before, nothing is claimed about which blocks a failed copy leaves unlogged.
- FileSystem.Fs.Filewrite: nobody else changes the file between two chunks.
- Paths.Namespace.Iput: models the reference count, not the truncation of an inode without links (FileSystem.Fs.Itrunc has that).
- Paths.Namespace.Descend: directories are given as a map from names to inodes; reading them with readi is not part of it.
- Paths.Namespace.Namex: the same, and no other process acts in between.
- FileSystem.Fs.Bfree: the panic for a block that is not marked is a precondition; FileSystem.DirectUsed and FileSystem.EntryUsed show that itrunc meets it.
- FileSystem.Fs.Bmap: the panic for a block number beyond MAXFILE is a precondition.
- VirtualMemory.Memory.Mappages: the panics for an empty range and for a page mapped before are preconditions.
- VirtualMemory.Memory.Uvmunmap: the panics for a page that is not mapped or not a leaf are preconditions, as is uvmcopy's for a page of the parent that is not mapped.
- VirtualMemory.Memory.Uvmfree: asks that nothing be mapped behind the memory, where freewalk would panic.
- VirtualMemory.Memory.Uvmalloc: takes the flags PTE_R | PTE_U | xperm as one number.
- BufferCache.Cache.Brelse: asks that the last holder leave the buffer as the disk has it, which callers meet by calling log_write between changing and releasing a buffer; writei does not when a copy fails (FileSystem.TornWrite).
- BufferCache.Cache.Bunpin: asks the same of the last pin, which install_trans meets by writing the block home first.
- LogDevice.Log.ReadHead: asks that the header on disk list at most LOGSIZE home blocks, as every commit leaves it.
- LogDevice.Log.Recover: asks the same.
- FdtEdit.Editor.Setprop: asks that value lengths stay 15 below INT_MAX, where the source's int arithmetic would overflow, and that bytes of a value which look like a node tag not be taken for one.
- FdtEdit.Editor.ResizeProperty: asks the same of value lengths, and so do AddProperty and, for names, AddSubnode.
- CrashSafety.FilesSurvive: that each operation of the system calls ends with a file system is its hypothesis; FileSystem.Fs.Writei and FileSystem.Fs.Itrunc show it for writing and truncating.
- The panics of bget and iget for exhausted tables, and of initlog for a short log, are taken as preconditions or outcomes.
- Clients of the log and of sleep are assumed to follow the rules: in Transactions a changed buffer goes through log_write before it is released, and only inside an operation; in SleepWakeup a condition becomes true only under its lock, with a wakeup before that lock is released.
- Memory ordering and fences: lock-protected steps are sequentially consistent.
- Liveness: that a sleeper is scheduled again, that the device answers, that a waiting begin_op gets in.
- Interrupt enabling and its nesting count (push_off, pop_off), and the device registers of virtio; an interrupt is taken only where no lock of the model is held.
- ialloc, dirlookup, dirlink, sysfile.c, exec.c, the system calls, traps from user space, boot code and the consoles.
- The page allocators: alloc_pages and kalloc are two sets of pages to take from, which are disjoint to begin with.
- The allocation of pids, the files of a process and its trap frame in fork, exit and wait.
- fdt_resize, fdt_set_name, fdt_appendprop, fdt_open_into, fdt_pack, memory reservations of complete blobs, overlays, and blobs of versions below 17.
- Walking malformed blobs: nothing is claimed about progress where a property length wraps the offset.
