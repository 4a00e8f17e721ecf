# xv6 in Dafny: storage, page tables, allocation and blocking

This project models the parts of an xv6 kernel for RISC-V that are hardest to get
right, and proves what they promise.

* **Storage.** A redo log with group commit over a buffer cache over an inode
  layer. A transaction survives a crash whole or not at all, whatever the
  interleaving and however often recovery itself is interrupted. The cache
  behaves like a plain disk. Files behave like byte sequences and directories
  like finite maps, while every data block belongs to one place of one inode.
  Put together, a write that reports success is found whole or not at all after
  a crash, in a sound file system; and a `filewrite` of many transactions, cut by a
  crash at any step of any run of the log, is found up to the end of one of them.
* **Memory.** The physical page allocator and the three-level page tables of
  section 4.4 (Sv39) of the RISC-V Privileged Architecture, version 1.12: the
  tree in memory is a flat map, and no page is lost or shared when memory runs
  out half way. Page by page, what `allocproc`, `fork` and `freeproc` take and give
  back. The user-level `malloc` and `free` of Kernighan and Ritchie.
* **Blocking.** `sleep` and `wakeup` for any channel and lock, the sleep lock,
  `exit` and `wait`, the virtio disk driver against a device that follows sections
  2.6 and 5.2 of VirtIO 1.1, and pipes.
* **Matching.** The regular expressions of `grep`.

`dafny verify dfyconfig.toml` checks everything.

## How it is modelled

Code that changes state step by step is a class with the same fields and loops
(`LogDriver`, `BufferRing`, `FileLayer`, `FileWrite`, `Directory`, `Vm`, `AllocProc`,
`Umalloc`, `VirtioDescs`, `Pipe`); each method is proved against functions and
predicates on values, and the promises are lemmas about those. Protocols that
several processes take part in are step systems (`GroupCommit`, `BufferCache`, `InodeTable`,
`SleepWakeup`, `SleepLock`, `ExitWait`, `Virtio`): an invariant holds initially,
every step keeps it, and the results are stated for every state of every run.
`CrashWrite` joins the write path of the file layer to one commit, `CrashHistory`
to whole runs of the log.

A step of a step system is one access to shared state or one section under a
spin-lock. A condition under which the kernel panics is either a result of the
operation or a precondition of the method, so that every caller is shown not to
reach it. The address `sbrk` returns, the bytes a faulting copy can move, the
sizes `read` returns, the moment a process is killed and what other processes do
during a sleep are parameters.

| files | what they model |
|---|---|
| `DiskBlock`, `Common` | blocks as bytes and words; what several modules need |
| `RedoLog`, `GroupCommit`, `LogReservation`, `LogDriver` | `kernel/log.c` |
| `BufferCache`, `BufferRing` | `kernel/bio.c` |
| `FsLayout`, `BlockBudget`, `FileLayer`, `Directory`, `InodeTable` | `kernel/fs.c`, with `sys_unlink` |
| `FileWrite` | `filewrite` of `kernel/file.c` |
| `CrashWrite`, `CrashHistory` | `writei` and `filewrite` committed by `kernel/log.c` |
| `PageState`, `PageSteps`, `PageRuns`, `PageBudget`, `PagePrune`, `Vm` | `kernel/vm.c`, `kernel/kalloc.c` |
| `PageHands`, `AllocProc` | `allocproc`, `freeproc`, `proc_pagetable` and `fork`'s memory in `kernel/proc.c` |
| `HeapList`, `Umalloc` | `user/umalloc.c` |
| `SleepWakeup`, `SleepLock`, `ExitWait` | `kernel/sleeplock.c`, `kernel/proc.c` |
| `Virtio`, `VirtioDescs` | `kernel/virtio_disk.c` |
| `Pipe` | `kernel/pipe.c` |
| `Grep` | `user/grep.c` |

## Where the code does not keep a promise

* The reservation in `begin_op` does not cover operations that log MAXOPBLOCKS
  blocks: `log_write` tests `log.size - 1` before it looks for a block to absorb
  into. `LogReservation.ReservationExact` gives the exact limit; on the log that
  `mkfs` builds it is MAXOPBLOCKS - 1, and every transaction of `filewrite` is
  well within it.
* `iput` is documented to free an inode when both counts have fallen to zero
  (`kernel/fs.c:128-130`). `InodeTable.OrphanReachable` is a run in which it does
  not: `create` re-allocates the number, finds no room for the name and gives it
  up unlinked while another process is still on its way out of `iput`.
  `InodeTable.OrphanedExactly` says which steps leave such an inode, and that no
  others do.
* `ilock` takes an inode without a type to be impossible and panics
  (`kernel/fs.c:313-314`). But the entry ".." of a removed directory still has its
  parent's number (`Directory.DotDotStays`). `InodeTable.PanicReachable` is a run
  in which that number is looked up after the parent is freed, and the kernel
  panics. `InodeTable.IlockPanicsExactly` says when: if and only if the inode was
  free or being freed when the reference was taken, and `ialloc` has not taken the
  number since. `InodeTable.LinkedNotDoomed`: a name that counts among the links
  never leads there.
* `morecore` passes a 64-bit byte count to `sbrk(int)`. From 2^27 units on the
  count wraps, and `malloc` records more memory than it obtained, or gives memory
  back. `Umalloc.Allocator.Malloc` states the exact request size, 2147483616 bytes,
  up to which the heap stays within what `sbrk` gave; `Umalloc.WrapExample` has two
  requests beyond it.
* `uvmdealloc` is documented to accept an old size beyond the process's actual
  size (`kernel/vm.c:251-254`). `Vm.DeallocTooLarge` is a process of one page for
  which the kernel panics instead; `Vm.DeallocSafe` says exactly how much larger
  the old size may be: not by another page, unless no page is given up.
* `writei` can leave bytes of a failed user copy in a cached block that it does not
  log (`kernel/fs.c:522-524`). `FileLayer.TornExactly` says when: the source becomes
  unreadable inside it and inside a block. `FileLayer.TornByte` is such a call.
  What follows if the operation then ends is stated by `GroupCommit.UnloggedEnd`
  and `BufferCache.RecycleForgets`: the block stays out of the commit, and is
  forgotten when its buffer is recycled.
* `dirlink` reports success for any inode number. `Directory.LinkBindsIt` says that
  the name is then bound to it exactly when the number fits the entry's 16 bits
  and is not 0; `Directory.LinkLost` is number 65536.
* `allocproc` is to return 0 or a filled slot (`kernel/proc.c:125-128`). Without
  memory for the trapframe's copy it returns 0 and leaves the slot in state USED
  (`kernel/proc.c:189-192`). `AllocProc.Table.Allocproc` says when: if and only if
  exactly four pages are free. With five or more the slot is filled; with fewer it
  is emptied again, if its pointer to a trapframe copy is null. `AllocProc.SlotLost`
  is a machine with four pages. `ExitWait.LostReachable` is a run with such a fork,
  and `ExitWait.LostForever` says that the slot is never used again.
* `freeproc` is to free the process's data (`kernel/proc.c:201-203`). It gives back
  the address space and the trapframe's copy but not the trapframe, so a process
  that is allocated and freed costs one page (`AllocProc.AllocThenFree`). It leaves
  the pointer to the copy as it is (`kernel/proc.c:207-208`), so a later `allocproc`
  with fewer than four pages calls `kfree` for a page that is not the slot's, if and
  only if that pointer is not null; `AllocProc.CopyFreedAgain` is such a machine.
* `kill` is to kill the process with the given pid (`kernel/proc.c:1107-1109`). Free
  slots have pid 0, so `kill(0)` succeeds and marks one of them; `allocproc` does
  not clear the mark. `ExitWait.KillFinds` says that this is the only pid for which
  `kill` finds no process, and `ExitWait.BornKilled` is a run in which the next child
  is killed from the start.
* `grep` looks at all the lines of a file exactly if each has fewer than 1023
  characters, none has a NUL and the last ends in a newline
  (`Grep.LooksAtAll`); `Grep.LongLine`, `Grep.NulLine` and `Grep.LastLine` are
  files in which it does not.

## Model

| member | source | states |
|---|---|---|
| RedoLog.HeadRoundTrip | kernel/log.c:87-115 | reading the header that write_head made gives back the logged block numbers |
| RedoLog.ReinstallSame | kernel/log.c:69-84 | installing again after any number of installs gives the same home blocks |
| RedoLog.RecoveryCrash | kernel/log.c:68-123 | after any prefix of recovery's writes the disk still recovers to the same file system |
| RedoLog.RecoveryDone | kernel/log.c:117-123 | a finished recovery leaves an empty log and the redone blocks |
| RedoLog.RepeatedCrashes | kernel/log.c:68-123 | any number of recoveries, each cut off anywhere, recover to the same file system |
| RedoLog.CommitDiskStep | kernel/log.c:178-203 | the disk after k + 1 writes of a commit is the disk after k with write k applied |
| RedoLog.CommitCrash | kernel/log.c:178-203 | a crash after any write of a commit recovers to the old file system before the header write and to the new one from it on |
| RedoLog.CommitLogged | kernel/log.c:178-203 | whatever the cache holds, from the header write on a crash recovers to the old disk with exactly the logged blocks replaced |
| RedoLog.DurableIfLogged | kernel/log.c:205-214 | so a commit makes the cached file system durable if and only if every block that differs was logged |
| RedoLog.CommitDone | kernel/log.c:193-203 | a finished commit leaves the cached blocks at home and an empty log |
| RedoLog.InstalledIsCached | kernel/log.c:69-84 | what install_trans copies to a home block is what the cache holds for it |
| GroupCommit.NextInv | kernel/log.c:126-235 | every step of any process, of a commit, of a crash or of recovery keeps the invariant |
| GroupCommit.RunInv | kernel/log.c:126-235 | the invariant holds in every state of every run |
| GroupCommit.CrashAtomicity | kernel/log.c:68-235 | in every state of every run, recovery would produce exactly the first `done` changes, and no operation is split by them |
| GroupCommit.CommitPoint | kernel/log.c:193-203 | what recovery would produce changes at the header write and at no other step; it then becomes the cached file system, with no operation in progress |
| GroupCommit.BootShowsCommitted | kernel/log.c:117-123 | after recovery the disk and the cache show the committed file system |
| GroupCommit.CommitIsolation | kernel/log.c:146-203 | during a commit no operation is in progress, nothing enters the log, no cached block changes, and what reaches home is what was logged |
| GroupCommit.BracketsHold | kernel/log.c:146-235 | inside an operation the panics of end_op and log_write cannot happen, and logged block numbers are distinct |
| GroupCommit.DirtyExactly | kernel/log.c:205-235 | in every run what an operation has yet to log is exactly what it has changed since it last logged it |
| GroupCommit.UnloggedEnd | kernel/fs.c:522-524 | an operation that ended with a changed block not logged would be split by a crash: its logged blocks survive, that one does not |
| LogReservation.NeverTooBig | kernel/log.c:127-141 | if operations log at most `limit` blocks and the peak is below capacity, no log_write of any run panics |
| LogReservation.TooBigReachable | kernel/log.c:215-235 | otherwise some run makes log_write panic |
| LogReservation.ReservationExact | kernel/log.c:133 | no run panics if and only if LOGSIZE + 2 * (limit - MAXOPBLOCKS) is below the log's capacity |
| LogReservation.MkfsLimit | mkfs/mkfs.c:25 | on the log mkfs builds that is limit <= MAXOPBLOCKS - 1 |
| LogDriver.Log.WriteHead | kernel/log.c:103-115 | the header block becomes the encoded list of logged blocks, in one write |
| LogDriver.Log.ReadHead | kernel/log.c:87-98 | the in-memory list becomes the one on disk |
| LogDriver.Log.WriteLog | kernel/log.c:179-191 | the log slots become the cached blocks, one write each |
| LogDriver.Log.InstallTrans | kernel/log.c:69-84 | the home blocks become the log slots, and the cache follows |
| LogDriver.Log.RecoverFromLog | kernel/log.c:117-123 | the disk becomes the redone one with an empty log, by exactly the writes of recovery in their order, and every disk state on the way recovers to the same |
| LogDriver.Log.Commit | kernel/log.c:194-203 | the disk shows the cache, after exactly the writes of a commit in their order, and every disk state on the way recovers to the old or the new file system as CommitCrash says |
| LogDriver.Log.LogWrite | kernel/log.c:215-235 | panics exactly when the protocol's log_write does, with the log full or outside an operation; otherwise absorbs or appends the block, and for a process inside an operation takes the protocol's steps |
| LogDriver.Log.BeginOp | kernel/log.c:127-141 | takes the begin step of the protocol of GroupCommit, or sleeps because that step is not enabled; once inside, every operation in progress has room for MAXOPBLOCKS blocks |
| LogDriver.Log.EndOp | kernel/log.c:147-175 | panics exactly during a commit; otherwise it is the end step of the protocol of GroupCommit and, for the last operation out, every block write of the commit and the finishing step: on disk exactly the writes of a commit, in their order, and none for the others |
| LogDriver.Log.LeaveOp | kernel/log.c:151-166 | the section under log.lock is the end step of the protocol: the last operation out, and no other, is to commit, and until it has nobody begins |
| LogDriver.HalfwayStep | kernel/log.c:193-203 | each block write of the driver's commit is the block write of the protocol at that point |
| LogDriver.CommitRunOk | kernel/log.c:147-175 | so ending the last operation, all block writes of the commit and its end are a run of the protocol |
| LogDriver.LastOut | kernel/log.c:147-175 | in every state of the protocol with one operation in progress, the log and the cache are as end_op needs them |
| BufferCache.LookupMeaning | kernel/bio.c:66-73 | the first scan finds a buffer of the block exactly when there is one |
| BufferCache.VictimMeaning | kernel/bio.c:77-88 | the second scan finds the unused buffer nearest the old end, or there is none |
| BufferCache.VictimIsLru | kernel/bio.c:77-88 | a recycled buffer is unreferenced, unpinned, clean, and the least recently released of those |
| BufferCache.NextInv | kernel/bio.c:36-151 | every step keeps: the order lists every buffer once, one buffer per block, reference counts exact, unmodified buffers equal to their block |
| BufferCache.Refines | kernel/bio.c:59-151 | what a block shows changes only when the holder of its buffer changes it |
| BufferCache.RunRefines | kernel/bio.c:59-151 | in every run a block shows its last modification, or the initial disk |
| BufferCache.BreadIsLastWrite | kernel/bio.c:93-103 | a valid buffer holds the last modification of its block in the whole run |
| BufferCache.DiskIsLastBwrite | kernel/bio.c:107-112 | in every run the disk holds of each block what its last bwrite wrote |
| BufferCache.FillReads | kernel/bio.c:93-103 | bread of a buffer that was not valid leaves it valid with what the disk holds, which is the last modification of its block |
| BufferCache.OwnerExactly | kernel/bio.c:59-137 | in every run a buffer is locked by the process that has locked it and not released it since |
| BufferCache.RecycleForgets | kernel/bio.c:77-88 | recycling a buffer keeps what its block shows if and only if the buffer is clean |
| BufferRing.UnlinkOk | kernel/bio.c:127-128 | the two assignments take one buffer out of the doubly linked ring |
| BufferRing.LinkOk | kernel/bio.c:129-132 | the four assignments put a buffer behind the head |
| BufferRing.Ring.constructor | kernel/bio.c:37-55 | the ring built by binit holds every buffer once |
| BufferRing.Ring.MoveToFront | kernel/bio.c:117-137 | the next and prev links stay one cycle through head and all buffers, the released one first |
| BufferRing.Ring.Search | kernel/bio.c:59-89 | following the links finds what the two scans of the order find |
| FsLayout.SetBitOk | kernel/fs.c:66-88 | setting a bit changes that bit of a bitmap block and no other |
| FsLayout.ClearBitOk | kernel/fs.c:92-105 | clearing a bit changes that bit and no other |
| DiskBlock.WordSet | kernel/fs.c:400-418 | storing an address in an indirect block changes that address and no other |
| BlockBudget.BlocksTaken | kernel/fs.c:66-88 | between two sound states of a growing file every block that left the free ones went into one slot of the file |
| BlockBudget.Enough | kernel/fs.c:383-421 | if a range lacks nothing afterwards, there were as many free blocks as empty slots it needed |
| BlockBudget.TooFew | kernel/fs.c:383-421 | if something is lacking and no block is free, there were fewer |
| FileLayer.ScanBits | kernel/fs.c:72-86 | the first clear bit of a bitmap block |
| FileLayer.FileSystem.Balloc | kernel/fs.c:66-88 | the lowest free block, zeroed and marked, never block 0; on failure every block is in use |
| FileLayer.FileSystem.Bfree | kernel/fs.c:92-105 | clears the bit, or panics exactly when it is clear already |
| FileLayer.FileSystem.Bmap | kernel/fs.c:383-421 | the block of the file's block bn, allocated if missing; bits stay set exactly for metadata and for blocks that one slot of one inode names; no byte of any file changes |
| FileLayer.FileSystem.Writei | kernel/fs.c:506-539 | -1 exactly when the offset is beyond the end or the range beyond the largest file, also across 32-bit wrap; otherwise it stops where the source ends or faults or the disk is full, the bytes written are in place, all other bytes of all files unchanged, ownership kept, the inode on disk as in memory, every block that changed logged but for a torn one, and nothing changed or logged but the inode's block, bitmap blocks, the indirect block and data blocks of the range |
| FileLayer.WriteExactly | kernel/fs.c:506-539 | a write that is not refused is complete if and only if its source can be read and the free blocks cover the data blocks missing in its range and a missing indirect block |
| FileLayer.TornExactly | kernel/fs.c:516-528 | with the range mapped, bytes are left in a block that is not logged if and only if the source faults inside it and inside a block |
| FileLayer.TornByte | kernel/fs.c:522-524 | a call that reports nothing written, has written a byte, and has not logged its block |
| FileLayer.WriteMeaning | kernel/fs.c:506-539 | a complete write turns content c into c[..off] + d + c[off + n..] and leaves other files alone |
| FileLayer.FileSystem.Readi | kernel/fs.c:472-496 | exactly the bytes of the content from the offset, clipped at the size; nothing changes |
| FileLayer.FileSystem.Itrunc | kernel/fs.c:426-453 | never frees a free block, leaves the file empty with no blocks and other files unchanged; the inode on disk is as in memory, every block that changed is logged, and nothing but bitmap blocks and the inode's |
| FileWrite.WriteOnce | kernel/file.c:162-167 | one transaction of filewrite logs at most seven blocks, among them every block it changed but a torn one, and changes nothing but blocks of the range, its bitmap and indirect blocks; the inode on disk is as in memory and its block logged, or, refused, nothing is; the offset advances by what was written |
| FileWrite.Filewrite | kernel/file.c:135-181 | the bytes arrive in order; the number of transactions is exact, each logs at most seven blocks and together they log every block changed but a torn one; of the inodes on disk the file's, and no other, becomes the one in memory, or nothing changes when the first transaction is refused; the result is n if and only if the offset and the largest file allow it, the source can be read, and the free blocks cover what the whole range lacks; otherwise -1 |
| FileWrite.Decided | kernel/file.c:155-175 | that condition is the one of a single write of the whole range, however many transactions it is cut into |
| FileWrite.ChunkFitsLog | kernel/file.c:155 | seven blocks are within the exact limit of the log |
| FileWrite.FilewriteMeaning | kernel/file.c:135-181 | a complete filewrite is one splice of the content |
| CrashWrite.SameFilesHere | kernel/fs.c:372-380 | a file system is its inodes, bitmap blocks and data blocks: equal ones give equal files and soundness |
| CrashWrite.CommitSurvives | kernel/log.c:193-203 | for any operation that logs what it changes, a crash at any point of the commit recovers, sound, the files from before or those from after |
| CrashWrite.WriteCommitted | kernel/fs.c:506-539 | a write that reports all of its bytes is, after a crash at any point of any commit of it with the inodes as iupdate left them, in the file whole or not at all, with every other file as it was and the file system sound |
| CrashHistory.BoundaryCut | kernel/log.c:145-176 | where operations follow one another, a point that splits none of them is the end of one |
| CrashHistory.TurnEffect | kernel/file.c:162-173 | a transaction of filewrite that was not torn leads from a sound file system to a sound one and splices its bytes into the file |
| CrashHistory.CrashAnywhere | kernel/file.c:155-175 | for a filewrite among operations of other processes, grouped into commits in any way: a crash at any step of any run recovers a sound file system in which the file has all the bytes of the transactions up to some point, and none of the next |
| Directory.Strncmp | kernel/string.c:61-68 | zero exactly when the first n characters spell the same string; otherwise the difference at the first place where they differ |
| Directory.Strncpy | kernel/string.c:71-81 | the first n characters of the string, and zeros after its end |
| Directory.DecodeEncode | kernel/fs.c:580-606 | an entry written is the entry read |
| Directory.BindsUnique | kernel/fs.c:552-575 | a directory binds a name to one inode number |
| Directory.Dirlookup | kernel/fs.c:552-575 | finds the live entry with the name, or there is none |
| Directory.Dirlink | kernel/fs.c:580-606 | fails without any change on a present name; otherwise adds one entry, in the first free place, with the name padded by zeros and the low 16 bits of the number, if and only if the place is within the largest file and the free blocks cover what it lacks; the directory keeps its type and links, its inode on disk is as in memory, and every block that changed is logged |
| Directory.LinkBinds | kernel/fs.c:580-606 | after dirlink the name is bound to those bits unless they are 0, and every other name as before |
| Directory.LinkBindsIt | kernel/fs.c:600-603 | the name is bound to the number if and only if it is not 0 and below 2^16 |
| Directory.LinkLost | kernel/fs.c:600-603 | inode number 65536 is linked with success and bound to nothing |
| Directory.PutUnique | kernel/fs.c:580-606 | names stay distinct |
| Directory.Isdirempty | kernel/sysfile.c:173-186 | true exactly when no entry after the first two is live |
| Directory.Unlink | kernel/sysfile.c:205-242 | refuses exactly a dot name, an absent name and a directory with entries, and panics exactly on a link count below 1, without any change; otherwise zeroes the entry of that name, takes one link from the file and, for a directory, one from the parent, on disk as in memory with every block that changed logged, and changes nothing else |
| Directory.DotDotStays | kernel/sysfile.c:222-233 | after a directory is removed its ".." still binds the parent's number, although the parent has one link less |
| Directory.ZeroBinds | kernel/sysfile.c:222-224 | zeroing a live entry removes its binding and no other, and names stay distinct |
| InodeTable.NextInv | kernel/fs.c:199-362 | every step of ialloc, iget of any number, idup, ilock, iunlock and iput keeps the invariant |
| InodeTable.TableSound | kernel/fs.c:247-277 | in every run: one entry per inode number, reference counts exact, one holder per lock |
| InodeTable.IlockFresh | kernel/fs.c:293-317 | in every run whoever completes ilock, even on a number just re-allocated while another process is inside iput, or looked up while it was free, sees the fields on disk of an allocated inode |
| InodeTable.AllocShowsEmpty | kernel/fs.c:199-219 | in every run whoever locks a number that ialloc has taken sees an empty inode of that type, without links, unless it was written since |
| InodeTable.IlockPanicsExactly | kernel/fs.c:303-315 | in every run ilock finds no type if and only if the inode was free or being freed when the reference was taken and ialloc has not taken the number since |
| InodeTable.StepDoomed | kernel/fs.c:199-362 | while a reference is in use, no step but ialloc changes whether its inode is free or being freed |
| InodeTable.LinkedNotDoomed | kernel/fs.c:661-683 | an inode that has links is neither free nor being freed |
| InodeTable.PanicReachable | kernel/fs.c:313-314 | a run that reaches the panic |
| InodeTable.IputNeverBlocks | kernel/fs.c:337-362 | iput's acquiresleep finds the lock free |
| InodeTable.LastPutOrphans | kernel/fs.c:337-362 | giving up the last reference leaves an allocated, unlinked inode exactly when iput had already freed the number or the entry was never read |
| InodeTable.OrphanedExactly | kernel/fs.c:337-362 | and these are all the steps that leave such an inode |
| InodeTable.OrphanReachable | kernel/fs.c:128-130 | a run, through the failure path of create, that ends with such an inode |
| PageState.HomeUnique | kernel/riscv.h:354-363 | below MAXVA the three indices identify a page |
| PageState.MmuReadsSlot | kernel/vm.c:86-103 | in every state kept by the invariant, the address translation walk over the words in memory finds the entry the tree holds for the page |
| PageSteps.PopOk | kernel/kalloc.c:69-82 | taking a page off the free list keeps the list, the trees and every entry |
| PageSteps.PushOk | kernel/kalloc.c:47-63 | so does putting one back |
| PageSteps.AddTableOk | kernel/vm.c:97-100 | hooking an empty table into a tree changes no entry of any tree |
| PageSteps.LeafOk | kernel/vm.c:158 | writing one bottom-level entry changes that entry and no other |
| PageRuns.RolledBack | kernel/vm.c:226-249 | filling part of a range and then freeing it leaves every mapping, frame and page as it was |
| PageRuns.Pigeonhole | kernel/vm.c:226-249 | a process never has more pages than there is physical memory |
| PageBudget.CostBound | kernel/vm.c:226-249 | three free pages for each page to be mapped are always enough |
| PageBudget.GrownShort | kernel/vm.c:226-333 | memory that does not suffice for the next page of a range does not suffice for the range: its price is one page for each page and each missing table |
| PagePrune.ReleasedAll | kernel/vm.c:292-297 | unmapping a tree and taking its tables apart frees every page it had and no other |
| Vm.EntryRoundTrip | kernel/riscv.h:348-352 | an entry made of an aligned address and flags gives both back |
| Vm.AddressRoundTrip | kernel/riscv.h:348-350 | the other way round exactly when the two top bits are clear |
| Vm.PxIndex | kernel/riscv.h:354-357 | PX on addresses is the index on page numbers |
| Vm.Memory.constructor | kernel/kalloc.c:26-40 | kinit and freerange put every page from the kernel's end to PHYSTOP on the list |
| Vm.Memory.Kalloc | kernel/kalloc.c:69-82 | pops the head, or fails exactly when the list is empty |
| Vm.Memory.Kfree | kernel/kalloc.c:47-63 | pushes the page |
| Vm.Memory.Walk | kernel/vm.c:86-103 | finds the entry; with alloc it changes no entry of any tree, and succeeds if and only if there are as many free pages as missing tables |
| Vm.Memory.Mappages | kernel/vm.c:143-165 | maps the pages of the range in order until done, out of memory for the tables of the next, or at a page that is mapped already or outside the address space, where it panics; done if and only if the range is open and the memory suffices |
| Vm.Memory.Uvmunmap | kernel/vm.c:171-192 | panics if and only if the address is not aligned or some page of the range is not mapped; clears exactly the pages before the first such one, and frees exactly their frames |
| Vm.Memory.Uvmcreate | kernel/vm.c:196-205 | a new tree that maps nothing |
| Vm.Memory.Uvmalloc | kernel/vm.c:226-249 | for any new size and without panic: succeeds if and only if there is a free page for each new page and each missing table, and then has fresh zeroed frames for exactly the new pages; on failure every mapping and frame is as before, and tables were added to its tree alone |
| Vm.Memory.Uvmdealloc | kernel/vm.c:256-267 | unmaps and frees exactly the pages between the sizes, or panics if and only if one of them is not mapped |
| Vm.DeallocSafe | kernel/vm.c:251-267 | for a process of n pages it does not panic if and only if no page is given up or the old size is at most n pages |
| Vm.DeallocTooLarge | kernel/vm.c:251-254 | a process of one page, shrunk with an old size of two, panics |
| Vm.Memory.Freewalk | kernel/vm.c:272-287 | frees every table below exactly once and meets no leaf |
| Vm.Memory.Uvmfree | kernel/vm.c:292-297 | every table and frame of the tree is free, every other page and tree as before |
| Vm.Memory.Uvmcopy | kernel/vm.c:306-333 | succeeds if and only if there is a free page for each page and each table the child lacks, and then has fresh frames with the parent's flags and bytes; on failure every mapping and frame is as before |
| Vm.MmuSame | kernel/vm.c:86-103 | a walk changes no translation |
| Vm.MmuMaps | kernel/vm.c:143-165 | after mappages the MMU finds the range at the requested pages and every other page of every tree where it was |
| Vm.MmuUnmaps | kernel/vm.c:171-192 | after uvmunmap it finds nothing in the range and every other page where it was |
| Vm.MmuCopies | kernel/vm.c:306-333 | after uvmcopy it finds parent and child with equal flags and bytes in different frames, the parent's unchanged |
| Vm.Partition | kernel/vm.c:226-333 | free list, tables and frames share no page; each is in one place |
| HeapList.InsertOk | user/umalloc.c:29-44 | inserting at the spot keeps the circular address-ordered list |
| HeapList.JoinOk | user/umalloc.c:33-42 | joining touching blocks keeps list, other blocks and units |
| HeapList.StopsAtSpot | user/umalloc.c:30-32 | free's loop stops at the place of the block and nowhere else |
| HeapList.FreeIsFreed | user/umalloc.c:33-42 | free's assignments insert the block and join it to the neighbours it touches |
| HeapList.FreedOk | user/umalloc.c:25-44 | afterwards no two free blocks touch, blocks in use are as before but for this one, no unit is lost |
| HeapList.TakeOk | user/umalloc.c:76-77 | taking a whole block keeps list and gaps |
| HeapList.SplitOk | user/umalloc.c:79-81 | cutting the tail of a block keeps list, gaps and units |
| Umalloc.SbrkExact | user/umalloc.c:54 | sbrk is asked for the bytes of nu units exactly when nu < 2^27 |
| Umalloc.NunitsFits | user/umalloc.c:69 | the units of a request hold its bytes, and stay below 2^27 exactly up to 2147483616 bytes |
| Umalloc.Allocator.Free | user/umalloc.c:25-44 | ends; the block goes to its place by address and is joined to the neighbours it touches; nothing else changes |
| Umalloc.Allocator.Morecore | user/umalloc.c:47-61 | adds the units asked for to the free list; all of it is memory obtained exactly below 2^27 units; a count that wraps to a negative one gives memory back |
| Umalloc.Allocator.Malloc | user/umalloc.c:64-90 | ends with at most one call of sbrk; the block is cut from the end of the first one after freep that is big enough, in the list as it was or, if none was, with what sbrk gave put in its place; it was not in use, others unchanged; fails only when no free block is big enough and sbrk fails; the heap stays within the memory obtained exactly up to 2147483616 bytes |
| Umalloc.BlocksDisjoint | user/umalloc.c:25-90 | any two blocks are disjoint and free blocks do not touch |
| Umalloc.FreeUndoesMalloc | user/umalloc.c:25-90 | freeing what malloc returned leaves in use what was in use before, the list sound and no unit lost |
| Umalloc.SizesFit | user/umalloc.c:11-18 | within 64 GiB no block's size outgrows its 32-bit field |
| Umalloc.WrapExample | user/umalloc.c:54 | two requests whose counts wrap: 2^28 + 1 units recorded and 16 bytes asked for, 2^27 + 1 recorded and almost 2 GiB given back |
| SleepWakeup.NextInv | kernel/proc.c:1061-1129 | every step of any processes that lock, sleep, wake and kill as they like keeps the invariant |
| SleepWakeup.NoLostWakeup | kernel/proc.c:1061-1105 | in every run, for any channel and lock: a process that has given its lock up inside sleep is made runnable before a wakeup of the channel has come past it |
| SleepWakeup.WakeupUnderLock | kernel/proc.c:1058-1105 | whoever is inside sleep when a process that holds the same lock begins wakeup is roused before that wakeup ends |
| SleepWakeup.HoldsExactly | kernel/proc.c:1061-1089 | in every run a process holds a lock exactly when it has taken it, itself or at the end of a sleep, and neither released it nor slept with it since |
| SleepWakeup.SleepKeepsLock | kernel/proc.c:1061-1089 | sleep gives its lock up before the process sleeps and returns with it held |
| SleepLock.NextInv | kernel/proc.c:1061-1129 | every step of sleep, wakeup, kill, acquiresleep and releasesleep keeps the invariant, whatever processes outside it and its holder do elsewhere |
| SleepLock.RunInv | kernel/sleeplock.c:22-41 | it holds in every state of every run |
| SleepLock.Exclusion | kernel/sleeplock.c:22-52 | at most one process holds the lock, and holdingsleep is true for that one |
| SleepLock.NoSleeperOnFree | kernel/sleeplock.c:22-41 | nobody sleeps on a free lock, unless the releaser is inside wakeup and has yet to come to them |
| SleepLock.NoLostWakeup | kernel/proc.c:1061-1105 | in every run a process that has released lk inside sleep is made runnable before a wakeup then begun under lk has ended |
| SleepLock.KilledExactly | kernel/proc.c:1110-1129 | in every run a process is marked killed exactly when some kill has named it, and right after it does not sleep |
| ExitWait.NextInv | kernel/proc.c:326-487 | every step of fork, with all ways to fail, exit, wait and kill keeps the invariant |
| ExitWait.RunInv | kernel/proc.c:369-487 | it holds in every state of every run |
| ExitWait.Handshake | kernel/proc.c:399-487 | whenever wait_lock is free, no parent of a zombie sleeps in wait or is about to |
| ExitWait.ParentsLive | kernel/proc.c:382-393 | in every run the parent of a process is alive |
| ExitWait.ParentChanges | kernel/proc.c:369-393 | a parent is set by fork, changed only to init by the parent's exit, cleared only by the parent's wait |
| ExitWait.OrphansAreInits | kernel/proc.c:382-393 | in every run the parent is the forking process or, once that has exited, init |
| ExitWait.ReapedByParent | kernel/proc.c:455-472 | a zombie is freed only by its current parent, under wait_lock |
| ExitWait.ReapedOnce | kernel/proc.c:443-487 | in every run wait returns each pid once, and no live process has a returned pid |
| ExitWait.ReapedOnceInts | kernel/proc.c:112-123 | the same of the 32-bit pids, as long as not more than 2^32 have been given out |
| AllocProc.ProcPagetable | kernel/proc.c:226-255 | a new tree with trampoline and trapframe, if and only if three pages are free; otherwise all is given back |
| AllocProc.SharedFlags | kernel/proc.c:237-250 | the MMU finds the trampoline executable and not writable, the trapframe writable and not executable, and neither open to user code |
| AllocProc.AllocSlot | kernel/proc.c:144-199 | filled with five pages or more, left in state USED with four, emptied with fewer or, with a stale pointer, freeing a page again; and exactly which pages are taken and what the slot holds in each case |
| AllocProc.Table.Allocproc | kernel/proc.c:129-199 | the same for the first unused slot; without one nothing changes |
| AllocProc.Freeproc | kernel/proc.c:204-221 | the copy and every table and frame of the address space are free; every other page, the trapframe among them, and every other tree are as before |
| AllocProc.GaveCount | kernel/proc.c:204-221 | the free list grows by exactly the tables and frames of the address space and the copy |
| AllocProc.ProcFreepagetable | kernel/proc.c:257-265 | unmaps the two shared pages without freeing them, and frees the rest |
| AllocProc.AllocThenFree | kernel/proc.c:201-221 | a slot filled and freed costs exactly its trapframe |
| AllocProc.NeededCount | kernel/vm.c:86-103 | n pages from address 0 need a bottom table for each 512 and a table above for each 262144 |
| AllocProc.Fork | kernel/proc.c:334-355 | for a parent of n pages the child is a copy if and only if 5 + n + n/512 + n/262144 pages, rounded up, are free: same pages and registers but 0 in a0, its own trapframe mapped, every other page and tree as before; otherwise, with five or more, all but the trapframe is given back |
| AllocProc.SlotLost | kernel/proc.c:189-192 | a machine with four pages loses the slot |
| AllocProc.CopyFreedAgain | kernel/proc.c:207-208 | a machine with five pages on which the copy is freed a second time |
| PageHands.FreeCount | kernel/kalloc.c:47-82 | the free list holds each free page once |
| PageHands.TookBack | kernel/proc.c:226-255 | taking pages for a new tree and freeing the tree leaves only the pages taken for other uses |
| ExitWait.LostForever | kernel/proc.c:189-192 | a slot that allocproc left in state USED stays so in every run |
| ExitWait.LostReachable | kernel/proc.c:189-192 | a run that loses a slot |
| ExitWait.WaitFails | kernel/proc.c:463-482 | wait returns -1 only without children, when killed, or when the status cannot be copied |
| ExitWait.KillMarks | kernel/proc.c:1110-1129 | kill marks its victim and leaves it not asleep, and changes nothing else of it |
| ExitWait.KilledStays | kernel/proc.c:1110-1129 | a mark is set by kill alone, and stays until the slot is freed |
| ExitWait.KilledExactly | kernel/proc.c:1110-1129 | in every run a slot is marked exactly when a kill has named it and it has not been freed since |
| ExitWait.KillFinds | kernel/proc.c:1110-1129 | in every run kill finds the one process with the pid, except that kill(0) finds a free slot |
| ExitWait.BornKilled | kernel/proc.c:1115-1124 | a run in which kill(0) marks a free slot and the process then made in it is marked from the start |
| ExitWait.KilledReturns | kernel/proc.c:476-480 | a process that finds itself killed at the end of a scan does not go to sleep: its wait returns |
| ExitWait.KilledDozes | kernel/proc.c:476-484 | a killed process goes to sleep in wait only if the kill came between the end of its scan and sleep's acquire of p->lock |
| ExitWait.ForkedChild | kernel/proc.c:334-381 | in every run fork ends with a runnable child whose parent is the process that forked and whose pid is no other's and was never returned by wait |
| Virtio.WrapHarmless | kernel/virtio_disk.c:272-324 | comparing the 16-bit indices tells exactly whether there is work, and they select the right ring places, across wrap |
| Virtio.AvailRoom | kernel/virtio_disk.c:272 | filling the next avail place overwrites no entry the device has not consumed |
| Virtio.UsedRoom | kernel/virtio_disk.c:312-323 | the used ring has room for every request with the device |
| Virtio.NextInv | kernel/virtio_disk.c:216-327 | every step of the driver, of the device and of buffer holders between requests keeps the invariant |
| Virtio.RunInv | kernel/virtio_disk.c:216-327 | it holds in every state of every run |
| Virtio.Partition | kernel/virtio_disk.c:156-213 | every descriptor is free or in exactly one three-element chain |
| Virtio.FetchMeaning | kernel/virtio_disk.c:272-277 | the device finds requests in order, each once |
| Virtio.DeviceReads | kernel/virtio_disk.c:247-265 | it finds the chain as the driver filled it, with the data writable by the device exactly for a read |
| Virtio.CompleteMeaning | kernel/virtio_disk.c:238-265 | a completion moves data between the request's own buffer and sectors, in its direction, and nothing else; one that fails changes at most where it was to write |
| Virtio.HandleMeaning | kernel/virtio_disk.c:312-324 | the handler clears the flag of the buffer whose request was reported, and reads the status the device wrote for it |
| Virtio.HandlerPanics | kernel/virtio_disk.c:316-317 | in every run the handler panics over a request if and only if the device reported an error for it |
| Virtio.ReturnsServed | kernel/virtio_disk.c:216-292 | in every run, when virtio_disk_rw returns its transfer has been done exactly once, without error |
| Virtio.SectorExact | kernel/virtio_disk.c:218 | the 32-bit sector number is exact for block numbers below 2^31 |
| VirtioDescs.Descriptors.AllocDesc | kernel/virtio_disk.c:157-166 | claims the lowest free descriptor, or there is none |
| VirtioDescs.Descriptors.FreeDesc | kernel/virtio_disk.c:170-182 | frees and clears one descriptor |
| VirtioDescs.ChainLinked | kernel/virtio_disk.c:186-197 | in every state the invariant keeps, the descriptors of a request are linked as free_chain needs them |
| VirtioDescs.Descriptors.FreeChain | kernel/virtio_disk.c:186-197 | ends, having freed exactly the descriptors of its chain |
| VirtioDescs.Descriptors.Alloc3Desc | kernel/virtio_disk.c:202-213 | claims the three lowest free descriptors and changes no other, or none exactly when fewer than three are free, and then those that are free are cleared |
| Pipe.WordDistance | kernel/pipe.c:88-121 | the difference of the counters modulo 2^32 is the number of bytes held, so the tests for full and empty are exact across wrap |
| Pipe.HoldsPut | kernel/pipe.c:95 | storing a byte at its ring place disturbs no byte still held |
| Pipe.Ring.Pipeclose | kernel/pipe.c:59-74 | the pipe is given up exactly when both ends are closed |
| Pipe.Ring.Fill | kernel/pipe.c:83-98 | puts in exactly the bytes up to the first of: done, full, read end closed or killed, fault |
| Pipe.Ring.Drain | kernel/pipe.c:120-126 | takes out exactly the next bytes of the stream until done, empty or a failed copyout, which loses one |
| Pipe.Ring.Others | kernel/pipe.c:58-130 | any sequence of writes, reads and closes of other processes acts on the ring as on a first-in first-out queue of at most PIPESIZE bytes |
| Pipe.Ring.Pipewrite | kernel/pipe.c:77-103 | whatever others do during its sleeps, the queue and the result are exactly those of WriteFrom: fill, sleep while others act, and so on until done, broken or faulted |
| Pipe.WriteShuffles | kernel/pipe.c:77-103 | the stream after a pipewrite is what was put in by others and the bytes it reports, shuffled: both in their order, nothing lost and nothing added |
| Pipe.WriteAlone | kernel/pipe.c:77-103 | a write that never sleeps puts its bytes into the stream one after another, and changes nothing else |
| Pipe.WriteEnds | kernel/pipe.c:77-103 | it stops before its last byte exactly at a closed read end, at the byte at which it is killed or at the one that faults; or it still sleeps, on a full pipe |
| Pipe.Ring.Piperead | kernel/pipe.c:106-130 | whatever others do, it waits exactly until there are bytes, the write end is closed or it is killed, and then takes exactly the next bytes of the stream |
| Pipe.WaitEnds | kernel/pipe.c:112-118 | a read waits for exactly as long as there is nothing to read, the write end is open and it is not killed; the queue is then what the others made of it |
| Grep.Match | user/grep.c:72-81 | true exactly when the pattern has a reading somewhere in the text, or at its beginning after ^ |
| Grep.MatchHere | user/grep.c:84-95 | true exactly when some split of a beginning of the text reads as the items of the pattern, all of the text before a final $ |
| Grep.MatchStar | user/grep.c:98-105 | true exactly when covered characters and then a reading of the rest begin the text |
| Grep.Append | user/grep.c:17-33 | reading on from the kept rest selects the same lines as reading all at once |
| Grep.TailEmpty | user/grep.c:20-27 | nothing is left over exactly when every line is complete and free of NULs |
| Grep.StuckLines | user/grep.c:17 | in such a text the buffer fills up exactly when a line has 1023 characters or more |
| Grep.LooksAtAll | user/grep.c:11-34 | the lines looked at are the first lines of the file, and all of them if and only if the file has no NUL, ends in a newline and has no line of 1023 characters or more |
| Grep.LongLine | user/grep.c:17 | a file that is not looked at for a line of 1023 characters |
| Grep.NulLine | user/grep.c:21 | one that is not for a NUL |
| Grep.LastLine | user/grep.c:21 | one whose only line lacks its newline |
| Grep.GrepFile | user/grep.c:11-34 | however the file is cut into reads, the output is those of the lines looked at that match |

## Left out

- GroupCommit.NextInv: an operation ends with every block it changed logged. Runs in which `writei` is torn (FileLayer.TornExactly) and its operation then ends are no steps; GroupCommit.UnloggedEnd says what they break.
- BufferCache.NextInv: a changed buffer is released written or pinned. The release of a torn block is no step; BufferCache.RecycleForgets says what it breaks.
- CrashWrite.WriteCommitted: speaks of one commit of a write that was not torn; how the inode's fields are laid out in its block is a parameter.
- CrashHistory.CrashAnywhere: operations of different processes follow one another in the history of changes; that interleaved ones have the effect of such an order is not shown.
- FileLayer.FileSystem.Writei: the bound on logged blocks is stated for a bitmap of one block, as `mkfs` builds it.
- FileWrite.Filewrite: what other processes write to the file between two transactions is not modelled; the bound on logged blocks is for a bitmap of one block.
- Directory.Unlink: `iput` of the file is the subject of InodeTable, freeing its blocks of FileLayer; the entry is taken to name an inode, and a directory to be one.
- Vm.Memory.Mappages: permissions include R, W or X, as in every call; without them the entry would be a pointer to a table.
- Vm.Memory.Uvmunmap: a mapped page that is to be freed is a frame of the tree, as in every call.
- Vm.Memory.Uvmdealloc: page counts are below 2^31, where `int npages` is exact.
- Vm.EntryRoundTrip: machine words and the numbers that stand for entries elsewhere (Mk, Ppn, Flags) are not tied to each other.
- Vm.Memory.Uvmalloc: pointers to physical pages are page numbers, so `kfree`'s alignment test has no counterpart; `copyin`, `copyout`, `uvmclear`, `uvmfirst` and the kernel's own mappings are not modelled.
- Umalloc.Allocator.Malloc: a block's unit count is unbounded; Umalloc.SizesFit says how far its 32-bit field reaches.
- InodeTable.NextInv: file contents are one opaque field; `itrunc` is the subject of FileLayer. A change that is not written by `iupdate` before `iunlock` is no step.
- AllocProc.AllocSlot: scheduler fields and the context are left out; what follows a second `kfree` of a page is not modelled.
- AllocProc.Fork: open files, the name and the trace mask are left out.
- SleepWakeup.NextInv: the mark that `kill` leaves is the subject of SleepLock and ExitWait; a process inside `wakeup` is not preempted.
- SleepLock.NoLostWakeup: speaks of the sleep lock's own channel; SleepWakeup.NoLostWakeup of every channel.
- ExitWait.NextInv: `waitx`, which repeats `wait`, and the timing it reports are not modelled. Whether fork finds the memory it needs is a choice here; AllocProc says what decides it.
- ExitWait.ReapedOnce: pids are unbounded; after 2^32 of them the kernel's repeat.
- Pipe.Ring.Pipewrite: `killed` is read under its own lock, so the byte at which a writer finds itself killed is a parameter.
- The scheduler and its variants, fairness and liveness: any runnable process may run.
- Global link counts, path lookup, `create`, `exec` and argument passing.
- Assembly, registers, interrupt routing, the UART, boot, memory fences and `mkfs` itself.
