# Verified models of the xv6 kernel with lazy mmap, 2 MiB pages and copy-on-write fork

This project models the parts of the kernel whose correctness depends on many steps together: the
crash-safe log, the block layer and byte files, the buffer cache, physical memory, copy-on-write
sharing, page tables, the scheduler and sleep protocol, exit and wait, the virtio queue, pipes, the
user-level allocator and the regular-expression matcher. Code that changes fields in place is a
class with `modifies` clauses; protocols that interleave are state machines over atomic steps, and
the theorems about them hold for every run. `dafny verify dfyconfig.toml` checks everything.

| files | component |
|---|---|
| `LogMachine`, `LogSafety`, `LogRuns`, `LogFailedCopy`, `LogCode` | redo log: step machine with crashes, its invariant, theorems over runs, a run with a failed copy, the code |
| `FsDisk`, `FsOwner`, `FsFile`, `FsJournal`, `FsCode`, `FsContent` | blocks, ownership of blocks, byte files, what the log holds of them, the code, what a write means for the content |
| `FsRuns`, `FsCrash` | any sequence of operations, and what a crash of the log leaves of them |
| `Bio` | buffer cache and its recency list |
| `Kalloc` | two-level page allocator |
| `Cow`, `CowRuns`, `CowLeaks`, `CowCode` | memory promised to user programs, its refinement over runs, runs that break the promise, the loops of the code |
| `PageTable`, `VmCode`, `VmCopy` | three-level page table as a flat map, the code of `vm.c`, user memory through it |
| `Sched`, `SchedRuns` | scheduler, sleep, and wakeup from processes and interrupt handlers |
| `ExitWait`, `ExitWaitRuns` | fork, exit, reparent and wait |
| `Virtio`, `VirtioRuns`, `VirtioCode` | split queue: rings and chains, step machine with the device, the driver |
| `Pipe`, `Umalloc`, `Grep` | pipe buffer, `malloc` and `free`, matcher |
| `FiniteSets`, `Options`, `Zeros`, `Wrapping`, `MemLayout` | finite sets, an option type, sequences of zeros, counters that wrap, shared constants |

## Assumptions

- A write of one block is atomic. After a crash the cache is empty. A critical section under a
  lock is one step.
- Where the code calls `panic`, the method either returns a value for it or takes the opposite as its
  precondition, which every modelled caller is shown to meet.
- `sbrk`, the readable part of user buffers, the `killed` flag and the frame that `kalloc` hands to
  `pagefault` are parameters.
- The log's header block holds a block count and block numbers that `write_head` could have written.
- Where `commit` has to wait in `bread` for a logged block, its holder releases it.
- A process holds at most one condition lock when it calls `sleep` or `wakeup`; which lock belongs to
  which channel is arbitrary.
- The operations of the block and inode layer run one at a time. When the log commits, the logged
  blocks that were changed again are among those these operations leave unlogged (`FsCrash.Tidy`).
- The disk completes requests without an error: the status it stores is 0.
- Methods carry the abstract view they maintain as ghost parameters and results where it is large
  (`Space`, `Flight`, `Tab`).

## Where the code does not meet the expected property

- The log reservation is only enough when the log has LOGSIZE data blocks besides its header
  (`LogRuns.ReservationExact`). `mkfs` makes a log of LOGSIZE blocks in all, so 29 data blocks, and
  three concurrent operations within their reservations can reach the panic in `log_write`.
- `log_write` tests for a full log before it looks for absorption, so even a block that is already
  logged can panic (`LogRuns.AbsorbingCanPanic`).
- `writei` whose copy fails in the middle of a block leaves the copied bytes in the cached block and
  releases it without `log_write`. The file differs from what the return value says exactly when a
  readable byte after the last whole chunk differs from the one in the file before the old end
  (`FsContent.WriteExactness`, on the call in `FsContent.CheckedWrite`, with an instance in
  `FsContent.FailedCopyShows`).
- If such a block was logged earlier in the same group, `write_log` copies the bytes as they are then. A
  crash leaves exactly the durable operations just when no commit copied bytes other than the logged
  ones (`LogRuns.CrashExact`; `LogFailedCopy.FailedCopyCommitted` is a run that does). If it was not
  logged, the bytes are lost when the buffer is recycled (`Bio.RecycleLoses`).
- A fault on a shared page that waits for its first touch connects every entry waiting at that address in
  any process. `sys_munmap` leaves such entries behind. A run keeps the memory it promises exactly when
  every such fault connects pages that may share: the same object, or all read-only, and all still mapped
  (`CowRuns.RunExact`, for one fault `CowRuns.SharedExact`). `CowLeaks` has runs from empty memory in which
  an unrelated process reads a byte stored by another, a private store shows in another process, and a
  page appears at an unmapped address, so that the exit of its process panics in `freewalk`.
- `morecore` passes a byte count to `sbrk` as an `int`. Free and live blocks are the memory obtained
  exactly when the count is below 2^31, unless no growth was needed or it failed
  (`Umalloc.Heap.Malloc`, with an instance in `Umalloc.HugeRequest`).
- `sys_mmap` without a free slot returns the address although nothing is mapped (`CowCode.Memory.Mmap`).
- `freemem` is 512 more than the pages that can still be handed out (`Kalloc.FreememMeaning`), as
  `kinit` adds 512.
- The 8-bit reference count of a page stays right under an increment exactly for 1 to 254
  (`Kalloc.Kmem.IncrPaRef`); user pages never get beyond NPROC (`CowRuns.RefsBounded`).
- `kill(0)` finds a free slot, whose process id is 0, and marks it. A process never starts out killed on
  account of an earlier call exactly when nobody calls `kill(0)` (`ExitWaitRuns.KillExact`, with an
  instance in `ExitWaitRuns.KillZeroMarksChild`).
- `copyout` through two pages that share a frame stores over its own bytes: what is read back is what was
  stored exactly when bytes stored in one place are equal (`VmCopy.ReadBack`).
- `piperead` loses one byte when the destination faults (`Pipe.Channel.Read`).

## Model

| member | source | states |
|---|---|---|
| `LogSafety.InvStep` | kernel/log.c:68-235 | every step (operations, buffer use, release of changed buffers, eviction, commit writes, crash, recovery) keeps: the disk recovers to the durable history, the cache holds the volatile history, each up to bytes that were never logged, which are tracked per block; pins, locks and reservations are right |
| `LogRuns.InvRun` | kernel/log.c:68-235 | the invariant holds after every legal run with any interleaving and any number of crashes |
| `LogRuns.InvStart` | kernel/log.c:54-65 | power-on with any recoverable disk satisfies the invariant |
| `LogRuns.FateRun` | kernel/log.c:178-235 | the labels of a run alone tell, for each block, whether its current and its durable bytes were ever logged, and else what they are |
| `LogRuns.CrashAtomic` | kernel/log.c:68-203 | at every point of every run a crash would leave the durable prefix of the history, which ends between operations, except for blocks whose bytes were changed after `log_write` and committed: these hold exactly those bytes |
| `LogRuns.CrashExact` | kernel/log.c:178-203 | a crash leaves exactly the durable operations if and only if no commit copied bytes other than those logged |
| `LogRuns.ReadsCurrent` | kernel/log.c:205-235 | while operations run, `bread` delivers the bytes logged last, or the ones stored since without logging; the disk likewise with the durable ones |
| `LogFailedCopy.FailedCopyCommitted` | kernel/fs.c:521-525 | a legal run of one process after which the disk recovers to bytes of a failed copy instead of the logged ones |
| `LogRuns.RecoveredUnique` | kernel/log.c:68-123 | what recovery yields is a function of the disk, so crashes during recovery change nothing |
| `LogRuns.DurableGrows` | kernel/log.c:193-203 | durable operations stay durable; only the write of a non-empty header adds to them |
| `LogRuns.OperationsWhole` | kernel/log.c:126-203 | a durable write belongs to an operation whose end is durable too: no commit holds part of an operation |
| `LogRuns.BracketedRun` | kernel/log.c:126-235 | in every run each logged write lies between begin and end of its operation |
| `LogRuns.CachePinned` | kernel/log.c:68-83 | in every reachable state, also during commit, a logged block not yet installed is cached under exactly one pin and nothing else is pinned; any other buffer equals the disk if and only if its unlogged bytes, if any, are those committed |
| `LogRuns.CopiesLastLogged` | kernel/log.c:178-191 | `write_log` copies, at a time when no operation is open, the bytes logged last if and only if the buffer was not changed since, or changed back |
| `LogRuns.ReservationHolds` | kernel/log.c:126-142 | log entries plus unused reservations never exceed LOGSIZE, `outstanding` counts the active operations, entries are distinct |
| `LogRuns.ReservedNeverPanics` | kernel/log.c:214-235 | with LOGSIZE data blocks an operation within its reservation never makes `log_write` panic |
| `LogRuns.ReservationExact` | kernel/log.c:130-141 | an operation within its reservation can be refused if and only if the log has fewer than LOGSIZE data blocks |
| `LogRuns.AbsorbingCanPanic` | kernel/log.c:219-233 | a reachable state in which a write that would be absorbed panics |
| `LogCode.SplitSlot` | kernel/log.c:178-191 | writing a log data block on the device changes that slot of the log and nothing else |
| `LogCode.SplitHead` | kernel/log.c:102-114 | writing the header block changes the committed entries and nothing else |
| `LogCode.SplitHome` | kernel/log.c:68-83 | writing a home block changes that block and nothing else |
| `LogCode.Log.constructor` | kernel/log.c:54-65 | power-on is the start state of the step machine for that disk |
| `LogCode.Log.WriteHead` | kernel/log.c:102-114 | the device's header block then decodes to the in-memory header; its other words and all other blocks stay |
| `LogCode.Log.WriteLog` | kernel/log.c:178-191 | the loop is a legal run of one log-block step per entry, with the releases of held blocks it waits for and nothing else |
| `LogCode.Log.InstallTrans` | kernel/log.c:68-83 | the loop is a legal run of one install step per entry, likewise, unpinning unless recovering |
| `LogCode.Log.Commit` | kernel/log.c:193-203 | the commit sequence is a legal run: log blocks, header, installs, cleared header, with releases waited for in between and none if no logged block is held; nothing for an empty header |
| `LogCode.Log.ReadHead` | kernel/log.c:86-97 | the in-memory header becomes the entries on disk, one step of the machine |
| `LogCode.Log.RecoverFromLog` | kernel/log.c:116-123 | recovery is a legal run of the machine that ends ready to run with an empty log |
| `LogCode.Log.BeginOp` | kernel/log.c:126-142 | starts the operation exactly when the machine allows it, otherwise changes nothing and asks to sleep |
| `LogCode.Log.LogWrite` | kernel/log.c:214-235 | absorbs or appends and pins as the machine's step does; refuses exactly in the panic states |
| `LogCode.Log.EndOp` | kernel/log.c:146-175 | ends the operation, and the last one to end commits: the whole call is a legal run of the machine, likewise |
| `FsDisk.PutGet` | kernel/fs.c:407-413 | storing a block number in an indirect block changes that entry and no other |
| `FsOwner.OwnershipExact` | kernel/fs.c:382-453 | under the invariant no block is referenced twice, referenced blocks are marked, and every marked data block is referenced |
| `FsOwner.LinkSlots` | kernel/fs.c:382-421 | linking a zeroed free block sets one slot; a new indirect block brings no stale entry back |
| `FsOwner.LinkOwned` | kernel/fs.c:65-88 | linking a free block keeps ownership |
| `FsOwner.LinkBlocks` | kernel/fs.c:65-88 | linking changes the bytes of no existing block of any file |
| `FsOwner.WriteBlock` | kernel/fs.c:520-526 | new contents for a data block change no slot of any file and keep ownership |
| `FsOwner.WriteBlockContents` | kernel/fs.c:520-526 | they change that block of that file and no block of any other |
| `FsOwner.FreeNext` | kernel/fs.c:425-453 | in the truncation loops the next block is still marked, so freeing a free block cannot happen |
| `FsOwner.EmptiedOwned` | kernel/fs.c:425-453 | after truncation the other files keep their slots and ownership holds without the file |
| `FsFile.PatchSplices` | kernel/fs.c:520-526 | bytes patched into one block are bytes spliced into that file at that offset, nowhere else |
| `FsFile.SetSize` | kernel/fs.c:530-536 | a new size up to which all blocks exist keeps the file hole-free and moves no byte |
| `FsFile.StopsAtWhole` | kernel/fs.c:516-528 | with a partly readable source the count stops at the last whole chunk |
| `FsCode.FileSystem.constructor` | mkfs/mkfs.c:92-108 | a fresh file system satisfies the invariant with empty files, and the log holds it |
| `FsCode.FileSystem.Mount` | kernel/fs.c:42-49 | any sound state that recovery leaves satisfies the invariant, with nothing unlogged |
| `FsCode.FileSystem.Balloc` | kernel/fs.c:65-88 | the lowest free block, zeroed and marked; 0 only when every block is in use, and then nothing changes |
| `FsCode.FileSystem.Bmap` | kernel/fs.c:382-421 | the block's slot after the call, allocating what is missing; all other slots, bytes and sizes stay; 0 only when the disk is full; at most one bitmap block logged per new block; every changed block is logged after its change |
| `FsCode.FileSystem.Itrunc` | kernel/fs.c:425-453 | frees exactly the file's blocks, leaves every byte and slot of the others, keeps the invariant; the log then holds all of it |
| `FsCode.FileSystem.Readi` | kernel/fs.c:471-496 | the requested slice of the content cut at the end, -1 when the destination faults, 0 past the end or on 32-bit overflow; never allocates |
| `FsCode.FileSystem.Writei` | kernel/fs.c:505-539 | -1 exactly for bad ranges; otherwise a prefix of the source is spliced in, the size is the maximum, other files and hole-freedom stay, the stop has its reason (full disk or fault), the logged blocks are bounded, and the log holds every change but that of a failed copy |
| `FsCode.FileSystem.WriteOp` | kernel/file.c:158-173 | one chunk of at most 3072 bytes logs at most MAXOPBLOCKS blocks, in all outcomes; other files keep their bytes and sizes; the operation starts and ends with the log holding the whole state but failed copies |
| `FsCode.FileSystem.TruncOp` | kernel/sysfile.c:363-365 | the same for a truncation: the file is empty, exactly its blocks are free |
| `FsCode.FileSystem.Recycle` | kernel/bio.c:77-87 | recycling the buffer of a block that was changed and not logged puts other bytes there, moves no pointer and keeps the invariant; any other buffer changes nothing |
| `FsCode.FileSystem.FileWrite` | kernel/file.c:149-175 | chunks splice consecutive bytes of the source and move the offset; every transaction fits its reservation; the request's length is returned exactly when all of it was written; other files keep their bytes and sizes |
| `FsCode.TxFits` | kernel/file.c:149-155 | whatever the offset and the bitmap, a chunk on a hole-free file logs at most MAXOPBLOCKS distinct blocks |
| `FsJournal.FollowsLink` | kernel/fs.c:382-421 | allocating a block for a slot logs each block it changes, after the change |
| `FsJournal.FollowsUpdate` | kernel/fs.c:225-241 | after `iupdate` the inodes in the log are the ones in memory |
| `FsJournal.ImageSound` | kernel/fs.c:505-539 | the state in the log between operations is sound too, although failed copies are missing in it: they only touch file data |
| `FsJournal.LooseSound` | kernel/fs.c:521-525 | a sound state stays sound with any other bytes in blocks that hold no pointers |
| `FsRuns.Session` | kernel/file.c:149-175 | after any sequence of chunk writes, truncations and recycled buffers, the log has gone from state to state by one block per `log_write`, every state between operations is sound, and what is then not logged is file data |
| `FsCrash.FilesSurvive` | kernel/log.c:10-18 | for every run of the log that carries out such operations, possibly overlapping in groups, with crashes anywhere, a crash leaves a sound file system: ownership of blocks exact and no holes. It is a state between two groups, with other bytes at most in data blocks that the operations left unlogged |
| `FsCrash.SpoilsRun` | kernel/log.c:178-203 | over every run, durable bytes that were never logged lie only in blocks that the durable operations left unlogged |
| `FsCrash.ReadBack` | kernel/log.c:116-123 | a file system is what the recovered blocks hold if and only if its bitmap, inodes and data blocks are those of the one that was left |
| `FsCrash.HomeExact` | kernel/fs.h:44-51 | home blocks are equal if and only if bitmap, inodes and data blocks are |
| `FsCrash.Boundary` | kernel/log.c:10-18 | a part of the history without open operations ends between two groups of overlapping operations |
| `FsCrash.SerialGroup` | kernel/log.c:126-175 | the events of one operation by itself are such a group |
| `FsCrash.EncodeExact` | kernel/fs.h:28-51 | there is a block encoding as these results assume |
| `FsContent.WrittenContent` | kernel/fs.c:505-539 | the content after a write is the old one with the stored bytes in place cut at the new size; other contents are equal |
| `FsContent.WriteExactness` | kernel/fs.c:521-525 | a write replaces exactly the reported bytes if and only if, before the call, each readable byte of the source after its last whole chunk that falls before the end of the file equals the byte there |
| `FsContent.CheckedWrite` | kernel/fs.c:505-539 | the same on the call of `writei`, with other contents equal and -1 exactly for bad ranges |
| `FsContent.FailedCopyShows` | kernel/fs.c:521-525 | a write that reports 0 and changes the file |
| `Bio.Unlink` | kernel/bio.c:128-129 | joining the neighbours of a node takes exactly it out of the doubly linked ring |
| `Bio.LinkFront` | kernel/bio.c:130-133 | the four assignments put a node right behind the head |
| `Bio.RecycleLoses` | kernel/bio.c:77-87 | recycling a buffer loses contents if and only if it differs from the disk, and then exactly those |
| `Bio.Bcache.constructor` | kernel/bio.c:36-53 | all buffers on the ring, none caching a block, views equal to the disk |
| `Bio.Bcache.Find` | kernel/bio.c:65-73 | the buffer of a cached block, and none exactly when it is not cached |
| `Bio.Bcache.FindUnused` | kernel/bio.c:77-87 | the unused buffer furthest from the front, and none only when all are in use |
| `Bio.Bcache.Bget` | kernel/bio.c:58-89 | one reference more on the cached buffer or the least recently released unused one; panics exactly when uncached and all in use; only a change held by the recycled buffer alone is lost; one buffer per block and coherence stay |
| `Bio.Bcache.Bread` | kernel/bio.c:92-103 | a held valid buffer with the current contents of the block, no other buffer changed; only a change held by a recycled buffer alone is lost |
| `Bio.Bcache.Modify` | kernel/log.c:205-213 | a holder's change makes the block's contents that value and the buffer ahead of the disk |
| `Bio.Bcache.Bwrite` | kernel/bio.c:106-112 | brings the disk up to date for that block |
| `Bio.Bcache.Brelse` | kernel/bio.c:116-137 | one reference less, whether or not the contents were written or logged, which stay; the last release moves the buffer to the front of the recency order |
| `Bio.Bcache.ToFront` | kernel/bio.c:128-133 | relinking keeps the ring and moves exactly this buffer to the front |
| `Bio.Bcache.Bpin` | kernel/bio.c:139-144 | one reference more, coherence kept |
| `Bio.Bcache.Bunpin` | kernel/bio.c:146-151 | one reference less, coherence kept |
| `Kalloc.PageFlip` | kernel/kalloc.c:189-336 | allocating or freeing a page of a non-huge region with its counter keeps every region's count right |
| `Kalloc.RegionFlip` | kernel/kalloc.c:338-404 | taking or giving back a whole empty region keeps the two levels consistent and counts one huge page |
| `Kalloc.FreememMeaning` | kernel/kalloc.c:93-112 | `freemem` is 512 plus the pages that can still be handed out |
| `Kalloc.NoOverlap` | kernel/kalloc.c:249-372 | no allocated 4K page lies in a live 2M page |
| `Kalloc.NothingLeft` | kernel/kalloc.c:249-336 | if no region qualifies, no page outside huge pages is free |
| `Kalloc.AddressIndex` | kernel/kalloc.c:29-44 | page addresses and indices are inverse on managed memory and agree on regions |
| `Kalloc.Kmem.ChooseRegion` | kernel/kalloc.c:249-336 | the first partly used region, an empty one only when there is none, nothing only when both are missing |
| `Kalloc.Kmem.ScanRegion` | kernel/kalloc.c:249-336 | the scan of a chosen region always ends at its lowest free page |
| `Kalloc.Kmem.Kalloc` | kernel/kalloc.c:249-336 | fails exactly when no page outside huge pages is free; otherwise the lowest free page of the chosen region with count 1; totals and levels stay consistent |
| `Kalloc.Kmem.Kfree` | kernel/kalloc.c:189-244 | drops a reference and frees the page exactly with the last one; refuses a free page; levels and totals stay consistent |
| `Kalloc.Kmem.KallocHuge` | kernel/kalloc.c:338-372 | the first empty region, failing only when there is none; `freemem` falls by 512 |
| `Kalloc.Kmem.KfreeHuge` | kernel/kalloc.c:374-404 | refuses a region that is not huge; frees it exactly with the last reference |
| `Kalloc.Kmem.IncrPaRef` | kernel/kalloc.c:148-163 | the 8-bit increment, which keeps the invariant exactly for counts 1 to 254 |
| `Kalloc.Kmem.IncrHugePaRef` | kernel/kalloc.c:131-146 | likewise, exactly for a live huge page with a count below 255 |
| `Kalloc.Kmem.Kinit` | kernel/kalloc.c:93-129 | afterwards every page is free, no region is counted as used and the totals are those of the invariant |
| `Cow.StoreRefines` | kernel/proc.c:603-749 | a store through a writable entry is a write of the promised memory: no page that must not see it does |
| `Cow.FreshRefines` | kernel/proc.c:1455-1461 | first touch of a page keeps the promise |
| `Cow.CowRefines` | kernel/proc.c:1381-1396 | copying on a store to a copy-on-write page keeps the promise, also for a last reference |
| `Cow.SharedRefines` | kernel/proc.c:1408-1449 | connecting the pages that wait at an address keeps the promise if they may share: one object, or all read-only, and all mapped |
| `Cow.ForkRefines` | kernel/proc.c:603-749 | fork of a page gives the child an independent copy or the same shared page |
| `Cow.UnmapRefines` | kernel/sysproc.c:303-330 | releasing a page, with a waiting entry left in the page table as the code does, takes it from its process and from nobody else, and frees the frame exactly with its last entry |
| `Cow.ExitRefines` | kernel/proc.c:217-288 | exit takes all pages and left entries of one process and changes what nobody else reads |
| `Cow.MapRefines` | kernel/sysproc.c:215-232 | a new lazy page keeps the promise, also over an entry left by an earlier mapping |
| `Cow.ForkContents` | kernel/proc.c:603-749 | the child reads what the parent reads and nothing else changes |
| `Cow.MapContents` | kernel/sysproc.c:125-233 | a new page reads as zeros and nothing else changes |
| `CowRuns.PagefaultRefines` | kernel/proc.c:1342-1469 | every outcome of a fault leaves the promised memory as it was |
| `CowRuns.PagefaultServes` | kernel/proc.c:1342-1469 | killed exactly outside every mapping or on a store to a present read-only page; otherwise the page is present and readable afterwards, and writable after a store exactly if its mapping is |
| `CowRuns.SecondFaultKills` | kernel/proc.c:1342-1469 | if a store is still impossible after its fault, the mapping is read-only and the next fault kills |
| `CowRuns.LoadRefines` | kernel/proc.c:1342-1469 | a load through a valid entry reads the promised data |
| `CowRuns.SimulatesHonest` | kernel/proc.c:1342-1469 | under the refinement every present page of a mapping reads as promised, permits only what the mapping does, and a store to it shows exactly where promised |
| `CowRuns.WriteSeen` | kernel/proc.c:603-749 | a store is seen by the page itself and the views of the same shared page, by nobody else |
| `CowRuns.RefsBounded` | kernel/kalloc.c:148-163 | after every run from empty memory, also one that breaks the promise, a page's count is the number of valid entries for it, at least 1 and at most NPROC, so the byte never wraps |
| `CowRuns.ExitNeverPanics` | kernel/vm.c:387-411 | while the promise is kept, exit finds no page outside the regions, on which `freewalk` panics |
| `CowRuns.StepRefines` | kernel/proc.c:603-749 | every store, fault, fork, map, unmap and exit step refines the promised memory, a fault on a waiting page if the pages waiting there may share |
| `CowRuns.RunRefines` | kernel/proc.c:603-749 | so does every run of such steps |
| `CowRuns.RunExact` | kernel/proc.c:1342-1469 | for every run: what programs can observe is as promised throughout if and only if each fault on a waiting page connects only pages that may share |
| `CowRuns.BootExact` | kernel/proc.c:603-749 | both, for every run from empty memory |
| `CowRuns.SharedExact` | kernel/proc.c:1416-1446 | after a fault on a waiting page, what programs can observe is as promised if and only if the pages waiting at the address may share |
| `CowLeaks.UnrelatedShareMemory` | kernel/proc.c:1416-1446 | a legal run from empty memory in which a process reads a byte that only an unrelated one stored |
| `CowLeaks.PrivateStoreShows` | kernel/sysproc.c:313-318 | one in which a store to a private page, mapped over an entry that munmap left, is read by the child |
| `CowLeaks.UnmappedPageAppears` | kernel/sysproc.c:313-318 | one after which a process has a present writable page at an address it has unmapped, so that its exit panics |
| `CowCode.FlagBits` | kernel/proc.c:351-389 | the sums of `create_pte_flag` set exactly the bits meant, and the masks tested by `pagefault` recognise exactly copy-on-write and waiting entries |
| `CowCode.Memory.constructor` | kernel/proc.c:115-156 | no mappings at first |
| `CowCode.Memory.Fork` | kernel/proc.c:422-749 | the child has the parent's slots and pages with equal bytes; everything else is as before and the promise holds |
| `CowCode.Memory.Munmap` | kernel/sysproc.c:235-345 | -1 exactly without a region there; otherwise exactly that region goes, its valid entries are cleared and its waiting ones stay, counts and frames stay right, and the promise holds |
| `CowCode.Memory.Exit` | kernel/proc.c:217-288 | all regions and all entries of the process go, also those munmap left behind; all other processes keep their memory, no frame is lost or kept |
| `CowCode.Memory.Mmap` | kernel/sysproc.c:125-233 | 0 exactly for bad arguments or an overlap; the region reads as zeros if a slot was free, else nothing changes |
| `CowCode.Memory.Overlaps` | kernel/sysproc.c:189-211 | true exactly when some page of the request is mapped |
| `CowCode.Memory.Enter` | kernel/sysproc.c:215-227 | the first free slot takes the region, nothing changes without one |
| `CowCode.Memory.FindSlot` | kernel/proc.c:1158-1175 | the slot that covers a page, none exactly when it is unmapped |
| `CowCode.Memory.Pagefault` | kernel/proc.c:1342-1469 | the promised memory does not change; killed exactly as above and then nothing changes; otherwise the page is present, and writable after a store exactly if its mapping is; what programs can observe is as promised if and only if the pages it connects may share |
| `CowCode.Memory.ConnectAll` | kernel/proc.c:1408-1449 | exactly the waiting entries at the address get the zeroed page, whose count is their number |
| `CowCode.Memory.Release` | kernel/sysproc.c:303-330 | the loop takes out exactly the region; valid entries are cleared, others stay |
| `PageTable.PathChild` | kernel/vm.c:94-120 | each level of the walk goes to the child on the path of the page |
| `PageTable.SlotUnique` | kernel/vm.c:94-120 | two pages share an entry if and only if they are the same page |
| `PageTable.GrowOk` | kernel/vm.c:108-116 | adding a zeroed table page keeps the tree a tree |
| `PageTable.GrowFlat` | kernel/vm.c:108-116 | and changes no mapping |
| `PageTable.WriteOk` | kernel/vm.c:215-239 | writing a leaf entry changes the flat map at that page only |
| `PageTable.OtherTable` | kernel/vm.c:429-457 | work on one table leaves another with its own pages alone |
| `PageTable.PruneOk` | kernel/vm.c:387-411 | with a released subtree cut off, the rest is a page table again |
| `VmCode.Vm.Walk` | kernel/vm.c:94-120 | finds the page's entry; with alloc adds only table pages and changes no mapping; fails only for lack of frames, without alloc only where no entry exists |
| `VmCode.Vm.Walkaddr` | kernel/vm.c:181-199 | the mapped frame exactly for valid user pages below MAXVA; changes nothing |
| `VmCode.Vm.Mappages` | kernel/vm.c:215-239 | maps consecutive frames over all pages touched by the range, or a prefix of them when frames run out |
| `VmCode.Vm.Uvmunmap` | kernel/vm.c:244-267 | removes exactly the given mappings, freeing exactly their frames when asked |
| `VmCode.Vm.Uvmalloc` | kernel/vm.c:341-365 | new zeroed pages up to the new size, or 0 with all mappings as before and all frames but table pages returned |
| `VmCode.Vm.Uvmdealloc` | kernel/vm.c:371-383 | the pages above the new size go with their frames, nothing for growth |
| `VmCode.Vm.Uvmcopy` | kernel/vm.c:429-457 | equal bytes and permissions on new frames, or -1 with the mappings as before; the parent is untouched |
| `VmCode.ExtendedUndone` | kernel/vm.c:371-383 | unmapping what was added restores the mappings and returns the frames |
| `VmCode.Vm.Freewalk` | kernel/vm.c:387-411 | frees exactly the table pages of the subtree, each once |
| `VmCopy.ReadBack` | kernel/vm.c:474-520 | what is read back after a store through the page table is what was stored, if and only if no byte was stored over a different one |
| `VmCopy.User.Copyin` | kernel/vm.c:499-520 | the bytes of the longest present part of the range; -1 exactly when that is not all of it |
| `VmCopy.User.Copyout` | kernel/vm.c:474-494 | stores exactly the longest part for which pages are present, byte after byte; -1 exactly when that is not all of it |
| `SchedRuns.UnlockedIsOut` | kernel/proc.c:903-958 | a process whose lock is free and that is not running is on no CPU |
| `SchedRuns.StepInv` | kernel/proc.c:903-1039 | every step of scheduler, sched, yield, sleep, wakeup, exit, reap, spawn and of interrupt handlers keeps the invariant |
| `SchedRuns.RunInv` | kernel/proc.c:903-1039 | so does every run |
| `SchedRuns.BootInv` | kernel/proc.c:903-931 | the state after boot satisfies it |
| `SchedRuns.OneCpu` | kernel/proc.c:903-958 | in every run no two CPUs use the same process's kernel stack |
| `SchedRuns.StackLeft` | kernel/proc.c:903-958 | a slot is reaped, reused or chosen only when no CPU is on its stack |
| `SchedRuns.SchedNeverPanics` | kernel/proc.c:940-958 | a process that enters sched holds exactly its own lock on its CPU, neither it nor a handler there holds a condition lock, and it is not RUNNING; an exited one never resumes |
| `SchedRuns.NoLostWakeup` | kernel/proc.c:994-1039 | when a wakeup under the lock of the channel's condition ends, in a process or in an interrupt handler on an idle or busy CPU, nobody who went to sleep on the channel before is still asleep, for any assignment of locks to channels |
| `SchedRuns.WakeDoneNext` | kernel/proc.c:1025-1039 | the processes a wakeup has passed are not asleep on its channel |
| `SchedRuns.IrqDoneNext` | kernel/trap.c:168-174 | the processes that a wakeup in a handler has passed are not asleep on its channel |
| `ExitWaitRuns.StepInv` | kernel/proc.c:784-894 | every step of fork, exit, reparent and wait keeps the invariant |
| `ExitWaitRuns.RunInv` | kernel/proc.c:784-894 | so does every run from boot |
| `ExitWaitRuns.ReapedOnce` | kernel/proc.c:847-894 | every reap is of a process off its stack, never reaped before, with the status it exited with |
| `ExitWaitRuns.ReapInv` | kernel/proc.c:161-178 | reaping a slot keeps parents, pids and pending exits right |
| `ExitWaitRuns.ParentsLive` | kernel/proc.c:784-845 | parent pointers name live processes, and no parent sleeps in wait while a child is a zombie |
| `ExitWaitRuns.WaitSleepsRight` | kernel/proc.c:847-894 | wait reports no children only when there is none and sleeps only when none has exited |
| `ExitWaitRuns.KillExact` | kernel/proc.c:1044-1063 | in every run, no free slot carries a kill if and only if nobody called kill with 0 |
| `ExitWaitRuns.KillZeroMarksChild` | kernel/proc.c:1044-1063 | a run in which a child is killed from its start |
| `Virtio.RingPush` | kernel/virtio_disk.c:271-277 | publishing overwrites no unread entry, across 16-bit wrap |
| `Virtio.RingPop` | kernel/virtio_disk.c:312-323 | the reader finds the oldest entry, and equal indices mean empty |
| `Virtio.FewRequests` | kernel/virtio_disk.c:201-213 | at most NUM/3 requests are in flight |
| `Virtio.ChainsDisjoint` | kernel/virtio_disk.c:201-213 | different chains share no descriptor, and none of theirs is free |
| `Virtio.ChainsAdd` | kernel/virtio_disk.c:201-213 | three free descriptors become a new chain beside the others |
| `Virtio.ChainsDrop` | kernel/virtio_disk.c:185-197 | freeing a chain leaves the others and complements `free` again |
| `VirtioRuns.StepInv` | kernel/virtio_disk.c:215-327 | every step of submitters, device, interrupt and finish keeps the invariant and meets no panic |
| `VirtioRuns.RunInv` | kernel/virtio_disk.c:215-327 | so does every run, with at most NUM/3 requests in flight throughout |
| `VirtioRuns.IdleInv` | kernel/virtio_disk.c:61-152 | the initialised queue satisfies it |
| `VirtioRuns.DeviceDoesRequest` | kernel/virtio_disk.c:235-277 | a device that reads only descriptors and rings does exactly the request submitted under that head |
| `VirtioRuns.InterruptFindsOwn` | kernel/virtio_disk.c:312-323 | a completion's status is 0, as the device stored it, and the buffer found is that of its own request, still busy |
| `VirtioRuns.FinishFreesOwn` | kernel/virtio_disk.c:288-289 | the links from the head lead to the request's own three descriptors, none already free |
| `VirtioRuns.FinishedData` | kernel/virtio_disk.c:283-291 | when the waiter goes on, its buffer holds what the device fetched or what was submitted |
| `VirtioCode.Disk.constructor` | kernel/virtio_disk.c:61-152 | the initialised queue with nothing in flight |
| `VirtioCode.Disk.AllocDesc` | kernel/virtio_disk.c:156-166 | the lowest free descriptor, -1 exactly when none is free |
| `VirtioCode.Disk.Alloc3Desc` | kernel/virtio_disk.c:201-213 | three free descriptors, or none taken because fewer than three are free |
| `VirtioCode.Disk.Start` | kernel/virtio_disk.c:215-281 | a submit step of the machine, or a sleep because descriptors are missing |
| `VirtioCode.Disk.FreeChain` | kernel/virtio_disk.c:185-197 | following the links frees the three descriptors of the chain |
| `VirtioCode.Disk.End` | kernel/virtio_disk.c:283-291 | the finish step of the machine; the buffer holds the request's data |
| `VirtioCode.Disk.Intr` | kernel/virtio_disk.c:294-327 | releases exactly the buffers of all reported requests and consumes all reports |
| `VirtioCode.ReleaseExact` | kernel/virtio_disk.c:312-324 | releasing makes exactly the listed buffers idle and touches no data |
| `VirtioCode.UnusedCleared` | kernel/virtio_disk.c:201-213 | clearing entries of free descriptors, as the failure path does, keeps the invariant |
| `Pipe.FullEmpty` | kernel/pipe.c:88-121 | the tests on wrapped 32-bit counters mean full and empty |
| `Pipe.Push` | kernel/pipe.c:92-96 | a stored byte is appended and overwrites no unread one |
| `Pipe.Pop` | kernel/pipe.c:120-123 | the byte read is the oldest |
| `Pipe.Channel.Write` | kernel/pipe.c:76-103 | bytes are appended in order; -1 exactly for a closed reader or kill before all is written; sleeps only when full |
| `Pipe.Channel.Read` | kernel/pipe.c:105-130 | delivers the oldest bytes in order; sleeps only when empty and open; one byte is lost exactly when the destination faults |
| `Pipe.CloseThenRead` | kernel/pipe.c:58-74 | closing the writing end frees the pipe exactly when the other is closed; otherwise a large enough read gets exactly the bytes left and the next one end of file, without sleeping |
| `Pipe.CloseThenWrite` | kernel/pipe.c:58-74 | closing the reading end frees the pipe exactly when the other is closed; otherwise a write fails and stores nothing |
| `Umalloc.InsertSeparated` | user/umalloc.c:33-43 | inserting with both merges keeps the list ordered with no two blocks touching |
| `Umalloc.InsertCovers` | user/umalloc.c:33-43 | the free units are the old ones and those of the block |
| `Umalloc.TakenCovers` | user/umalloc.c:75-82 | taking a block or its tail removes exactly those units |
| `Umalloc.PartitionFree` | user/umalloc.c:24-44 | free moves units from live to free: both still partition the arena |
| `Umalloc.PartitionTake` | user/umalloc.c:75-82 | malloc moves units from free to live |
| `Umalloc.PartitionGrow` | user/umalloc.c:46-61 | new units from sbrk extend the partition |
| `Umalloc.MovedExact` | user/umalloc.c:46-61 | the block added is the memory the break moved over if and only if its size in bytes is below 2^31 |
| `Umalloc.FreeStep` | user/umalloc.c:33-43 | the pointer updates of free realise the insertion in the circular list |
| `Umalloc.TakeWhole` | user/umalloc.c:75-77 | unlinking an exact fit realises its removal |
| `Umalloc.TakeTail` | user/umalloc.c:78-82 | cutting off the tail realises the removal of its units |
| `Umalloc.Heap.constructor` | user/umalloc.c:21-22 | an empty heap |
| `Umalloc.Heap.FindSlot` | user/umalloc.c:29-32 | the loop ends, at the free block that precedes the freed one |
| `Umalloc.Heap.Free` | user/umalloc.c:24-44 | the block leaves the live set; list, partition and arena hold; a free block at least that large exists |
| `Umalloc.Heap.Morecore` | user/umalloc.c:46-61 | a block of the wanted size is free and the list holds; all of it is memory obtained if and only if its size in bytes is below 2^31; nothing changes on failure |
| `Umalloc.Heap.Search` | user/umalloc.c:74-89 | one pass around the cycle ends and misses no block that is large enough |
| `Umalloc.Heap.Take` | user/umalloc.c:75-84 | a block that was not live becomes live with the wanted size |
| `Umalloc.Heap.Malloc` | user/umalloc.c:63-90 | 0 exactly when no free block is large enough and sbrk fails, changing nothing; otherwise a new live block with room for the bytes, after at most one morecore; all blocks are memory obtained if and only if a block was large enough, sbrk failed, or the request is below 2^31 bytes |
| `Umalloc.HugeRequest` | user/umalloc.c:46-61 | a request of 4 GiB less a byte grows the heap by 16 bytes and returns a block of 4 GiB |
| `Grep.Match` | user/grep.c:71-81 | true if and only if a substring (a prefix after a caret, a suffix before a dollar) is in the pattern's language |
| `Grep.MatchHere` | user/grep.c:84-95 | true if and only if a prefix (all, before a dollar) is in the language of the items |
| `Grep.MatchStar` | user/grep.c:98-105 | likewise for a starred item and the rest |
| `Grep.ConsLanguage` | user/grep.c:84-95 | the language of a pattern is the concatenation of its first item's and the rest's |
| `Grep.HereCons` | user/grep.c:98-105 | a match here is a match of the first item and of the rest after it |
| `Grep.HereOne` | user/grep.c:92-93 | for a single character, one accepted character and a match of the rest |
| `Grep.StartAnchored` | user/grep.c:74-75 | anchored at the start, only the text's own prefixes count |
| `Grep.Anywhere` | user/grep.c:76-79 | a match at any position is a match |
| `Grep.NotAnywhere` | user/grep.c:76-80 | a match at no position is none |

## Left out

- CowCode.Memory.Pagefault: the frame from `kalloc` is a parameter that exists, because the code uses the result of `kalloc` unchecked.
- CowCode.Memory.Mmap: base pages only; its precondition leaves out the two flag words that ask for 2 MiB pages.
- FsCode.FileSystem.Writei: the bytes of a failed copy that lie past the new size are described (`Spliced`) but no later read of them is, since reads stop at the size.
- FsCode.FileSystem.Balloc: the bitmap is a sequence of booleans with its block numbers, not bits in bytes; the byte layout of on-disk inodes is not modelled, `FsCrash` holds for any encoding that tells different contents apart.
- FsCrash.FilesSurvive: overlapping operations are taken as groups whose writes lead from one sound state to another; `FsRuns.Session` shows this for operations that follow one another, not for interleaved ones.
- SchedRuns.SchedNeverPanics: the interrupt flag and `noff` are not fields; both tests follow from exactly one lock being held.
- VirtioCode.Disk.Start: one try for descriptors; the retry after sleeping is another call.
- Pipe.Channel.Write: up to its return or sleep; wakeups and the lock are not part of it.
- 2 MiB branches of `fork`, `pagefault` and `munmap` repeat the base-page branches; only the allocator of 2 MiB pages is modelled.
- `copyinstr`; elsewhere `copyin` and `copyout` appear as the readable or writable length of a user buffer.
- Directories, link counts, path names, `exec`, the file table and the system-call wrappers.
- Console, UART, PLIC, traps, boot code and assembly; the context switch is one step.
- Fences, TLB flushes and the spinlock implementation; critical sections are atomic steps.
- Fairness: a wakeup makes a process runnable, nothing says when it runs. The disk's sleepers are not part of the queue model; its handler is one of those in `Sched`.
- `mkfs`, the RAM disk and the other user programs; `grep`'s line buffering.
