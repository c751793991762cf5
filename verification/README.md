# xv6 kernel and user algorithms, modelled and proved in Dafny

The system is xv6 for RISC-V with copy-on-write fork, a priority scheduler and `waitx`. This
project models the parts of it whose correctness spans several functions, every interleaving or
every crash point, and proves what they promise. `dafny verify dfyconfig.toml` verifies all of it.

| files | what they model |
|---|---|
| Common | constants, options and set facts the other files share |
| Sectors, LruRing, BufferCache, LogSpec, Log | the buffer cache (`bio.c`) and the write-ahead log (`log.c`) |
| CowMachine, CowSafety, CowWindow, CowRefinement, CowWitness, CowIsolation, CowKernel | copy-on-write memory and page reference counts (`vm.c`, `kalloc.c`, `trap.c`) |
| PageTree, PageTable | the three-level page table as a tree in memory (`vm.c`, `riscv.h`) |
| FsDisk, FsState, FsSlots, FsContent, FsGrow, FsTrunc, FsWrite, FileSystem | block allocation, file contents and write chunking (`fs.c`, `file.c`) |
| Mkfs | the image that `mkfs` builds |
| ProcMachine, ProcSafety, ProcRuns, ProcFork | fork, exit, wait, sleep and wakeup (`proc.c`) |
| Pbs | the choice of the priority scheduler (`proc.c`) |
| VirtioQueue, VirtioSafety, VirtioRuns, VirtioDriver | the disk driver and the device over a virtqueue (`virtio_disk.c`) |
| Pipe | pipes (`pipe.c`) |
| FreeList, Malloc | the user-level allocator (`umalloc.c`) |
| ShellSyntax, ShellLexer, ShellParser | the shell's parser (`sh.c`) |
| Regex | the matcher of `grep.c` |

How concurrency is treated:

- The copy-on-write memory, the process table and the disk queue are machines of atomic steps. A
  step is what happens between two points where another thread, another process or the device can
  intervene, so the runs of the machine are all interleavings. Invariants are proved step by step
  and then for whole runs.
- `CowKernel.Kernel` gives the kernel's own functions as methods over that machine. Between any two
  of its steps other threads run, and the method knows about them only what
  `CowIsolation.OthersRun` proves of any number of steps of other threads.
- `BufferCache.Cache` and `Log.Log` give one method per locked section. A process that waits for a
  buffer knows of the others only what every such section is proved to leave alone
  (`BufferCache.Cache.Section`). During a commit no operation is open, so other processes only read;
  the methods named `...InCommit` rely on that. The disk is a sequence of sectors, each `bwrite` is
  one atomic write, and the cache keeps the history of disk states, so a crash is a point in that
  history.
- These methods take a ghost argument `alone`, which says that nobody else runs in between. What a
  method computes for its caller is stated whoever runs. Only counts that everybody shares, such as
  how many pages or buffers are left, and the success that depends on them, are stated for `alone`.
- `VirtioDriver.Disk` gives the driver's functions. While the interrupt handler runs, the device
  works on, and the handler relies only on `VirtioDriver.DeviceRespects`.
- `Pipes.Pipe` gives one method per stretch from taking the pipe's lock to giving it up.

Where the code and its documentation differ, the code is followed:

- `log_write` checks for room before it looks for the block in the log, and stops one block short of
  the log. It can therefore panic within the reservation that `begin_op` makes, against the comment
  on `begin_op`. `Log.ReservationAllowsPanic` drives three operations into that panic on the log
  `mkfs` makes. `Log.Log.LogWrite` states exactly when the panic happens, and that it does not if the
  log is larger than LOGSIZE, or as long as no operation has used all ten of its blocks.
- `uvmunmap` calls `kfree` on a page before it zeroes the entry (`vm.c:188-192`). In between, the page
  can be on the free list, or another process's, while it is still in the page table
  (`CowWitness.FreedWhileInTable`). The safety results are stated for the entries that are not in
  that window. `CowWindow.StaleExactly` says when an entry is in it, and `CowWindow.StaleUnseen` that
  no step goes through one.
- The error path of `uvmcopy` keeps the reference it counted for the page whose mapping failed
  (`CowWitness.ForkCanFail`). Counts are exact if and only if no fork has failed that way
  (`CowRefinement.ExactUnlessLeaked`).
- `mkfs` rounds the root directory's size up even when it is a whole number of blocks already. The
  last block is then missing. `Mkfs.MakeImage` states that the image is sound if and only if this does
  not happen, and `Mkfs.SixtyTwoFiles` gives such an image.
- The scheduler and `set_priority` group the terms of the recent behaviour index differently. In the
  scheduler's grouping waiting plays no part (`Pbs.ChoiceIgnoresWaiting`). `Pbs.GroupingsAgree` states
  exactly when the two agree. The model follows the scheduler.

## Model

| member | source | states |
|---|---|---|
| `LruRing.UnlinkKeepsCycle` | src/kernel/bio.c:116-137 | taking a buffer out of the doubly linked list leaves the others in one cycle, in the same order, in both directions |
| `LruRing.PushKeepsCycle` | src/kernel/bio.c:116-137 | linking a buffer in behind the head gives one cycle with that buffer first |
| `LruRing.MoveToFrontKeeps` | src/kernel/bio.c:116-137 | moving a buffer to the front keeps all buffers listed, in order of when they were last released |
| `BufferCache.SameBuffer` | src/kernel/bio.c:58-89 | two buffers that hold the same block are the same buffer |
| `BufferCache.UpdateKeeps` | src/kernel/bio.c:58-151 | changing one buffer without changing its block keeps the cache coherent with the disk and the latest contents |
| `BufferCache.RecycleKeeps` | src/kernel/bio.c:75-86 | reusing an unreferenced buffer for a block no buffer holds keeps the cache coherent: nothing pinned or unwritten is lost |
| `BufferCache.Cache.constructor` | src/kernel/bio.c:36-53 | the cache at boot is one cycle of all buffers and shows the disk |
| `BufferCache.Cache.Find` | src/kernel/bio.c:64-72 | the first scan finds the block's buffer, or there is none |
| `BufferCache.Cache.LeastRecentlyUsed` | src/kernel/bio.c:75-86 | the second scan finds the unreferenced buffer released longest ago, or every buffer is referenced |
| `BufferCache.Cache.Ref` | src/kernel/bio.c:58-89 | the locked part of bget returns the one buffer for the block; it recycles only an unreferenced one, the least recently used; it panics exactly when all are referenced and none holds the block |
| `BufferCache.Cache.Fill` | src/kernel/bio.c:92-103 | whether read from disk or found in the cache, the caller sees the latest contents of the block |
| `BufferCache.Cache.Bread` | src/kernel/bio.c:92-103 | bread returns the block's buffer, locked and unmodified, with the latest contents of the block as they are then, whatever other processes read, modify, log or write meanwhile; buffers the caller holds stay as they were; it fails, changing nothing, exactly when all buffers are referenced and none holds the block |
| `BufferCache.SparedTrans` | src/kernel/bio.c:58-151 | what one section of another process leaves alone, any number of them leave alone |
| `BufferCache.Cache.AwaitUnlocked` | src/kernel/sleeplock.c:21-31 | while a process waits for a buffer, the buffer keeps its block and the process's own buffers are left alone |
| `BufferCache.Cache.BreadInCommit` | src/kernel/bio.c:92-103 | during a commit, in addition, the disk, the latest contents and the pins stay as they are; it fails only when all buffers are referenced |
| `BufferCache.Cache.Bwrite` | src/kernel/bio.c:106-112 | one atomic write of the held buffer's block, recorded in the history of disk states |
| `BufferCache.Cache.Brelse` | src/kernel/bio.c:116-137 | the lock and then the reference are given up, with other processes running in between; the cache stays coherent and other buffers the caller holds stay as they were; if nobody else runs, the buffer has one reference less and is unlocked, and no other buffer changes |
| `BufferCache.Cache.OneFree` | src/kernel/bio.c:75-88 | while fewer buffers than there are in all are held or pinned, bget finds one for every block |
| `BufferCache.Cache.ReleaseSleep` | src/kernel/bio.c:116-122 | giving up the lock keeps the reference, so the buffer cannot be recycled yet |
| `BufferCache.Cache.DropReference` | src/kernel/bio.c:124-137 | the reference goes; an unreferenced buffer becomes the most recent one; the cycle is kept |
| `BufferCache.Cache.Bpin` | src/kernel/bio.c:139-144 | a logged block's buffer cannot be recycled until it is unpinned |
| `BufferCache.Cache.Bunpin` | src/kernel/bio.c:146-151 | a buffer is unpinned only once the disk has its contents, so the block's latest contents survive recycling |
| `LogSpec.InterruptedRecoverySame` | src/kernel/log.c:68-123 | recovery cut off after any write leaves a log that a later recovery can use, with the same result |
| `LogSpec.RecoverySurvivesCrashes` | src/kernel/log.c:116-123 | however often and wherever recovery crashes, completing it once gives the same home blocks as never crashing in it |
| `LogSpec.RecoveredTransaction` | src/kernel/log.c:68-123 | recovering from a committed log installs the whole transaction and nothing else |
| `LogSpec.CommittingRecovers` | src/kernel/log.c:178-203 | every disk state during commit recovers to the old home blocks before the header write and to the new ones after |
| `LogSpec.CrashAtomicity` | src/kernel/log.c:193-203 | crash commit after any number of writes and recovery any number of times: the home blocks end up all old if the header write had not happened and all new if it had |
| `LogSpec.EveryCrashPoint` | src/kernel/log.c:178-203 | the same for every state in the history that commit leaves on disk |
| `LogSpec.EveryRunAtomic` | src/kernel/log.c:68-203 | any sequence of transactions, with crashes in any of their commits and in the recoveries: the home blocks are those of a plain store that saw exactly the transactions whose header was written, in order |
| `Log.UnusedBound` | src/kernel/log.c:126-142 | the unused allowance of the open operations is at most MAXOPBLOCKS for each |
| `Log.Admitting` | src/kernel/log.c:126-142 | begin_op's test promises no log space twice, and leaves two blocks to spare as long as no operation has added ten |
| `Log.RoomLeft` | src/kernel/log.c:214-235 | an operation within its allowance finds room in the header, and in the log mkfs makes as long as no operation has added ten |
| `Log.ReservationAllowsPanic` | src/kernel/log.c:126-142 | from boot with the log size mkfs writes, three operations admitted together that log no more than ten blocks each reach the panic at the thirtieth block |
| `Log.Log.BeginOp` | src/kernel/log.c:126-142 | an operation is admitted exactly when no commit runs and the reservation fits; one that waits has an open operation or a commit to wait for |
| `Log.Log.LogWrite` | src/kernel/log.c:214-235 | the panic exactly when the log is full or no operation is open, and not at all for an operation within its allowance if the log is larger than LOGSIZE or, at LOGSIZE, if no operation has used its whole allowance; otherwise the block is in the log once, its contents become the latest, its buffer is pinned, and logged blocks plus unused allowances stay within LOGSIZE |
| `Log.Log.Leave` | src/kernel/log.c:146-165 | commit is decided exactly by the last open operation, so no operation is open while a commit runs |
| `Log.Log.WriteLog` | src/kernel/log.c:178-191 | one disk write for each logged block, from the cache to the log, in order; home blocks unchanged |
| `Log.Log.WriteHead` | src/kernel/log.c:102-114 | one disk write of the header with the logged block numbers |
| `Log.Log.InstallTrans` | src/kernel/log.c:68-83 | one disk write for each logged block, from the log to its home; every pin is gone afterwards |
| `Log.Log.Commit` | src/kernel/log.c:193-203 | the disk passes through exactly the commit states, one for each write; when it completes, the home blocks are the latest contents and the log is empty; it stops early only when every buffer is referenced, and not at all if nobody else runs, no buffer is held and the transaction is smaller than the cache |
| `Log.Log.ReadHead` | src/kernel/log.c:86-97 | the header read at boot is the one on disk |
| `Log.Log.RecoverFromLog` | src/kernel/log.c:116-123 | the disk passes through exactly the recovery states and ends recovered with an empty log; it stops early only when every buffer is referenced, and not at all if no buffer is held and nobody else runs, as at boot |
| `Log.Log.EndOp` | src/kernel/log.c:146-175 | the last operation of a transaction commits it: its writes, all in one transaction, are on disk at their homes; any other operation leaves cache and log as they are; it fails only as the last one, when every buffer is referenced |
| `CowMachine.BootInv` | src/kernel/kalloc.c:33-52 | the machine at boot, with all pages free and uncounted, satisfies the invariant |
| `CowSafety.LastReference` | src/kernel/kalloc.c:57-89 | a count of 1 means no other reference to the page, counted or leaked |
| `CowSafety.WriterAlone` | src/kernel/vm.c:307-316 | a page writable through one entry is referred to by nobody else |
| `CowSafety.StepKeepsInv` | src/kernel/kalloc.c:57-112 | whatever thread takes whatever step, in the order the code takes them: counts cover all references, free pages are listed once and referred to by nobody, writers are alone, and a thread that has read a count of 1 is still the only owner |
| `CowWindow.StaleExactly` | src/kernel/vm.c:180-193 | in every run a thread has an entry in the window of uvmunmap exactly between its call of kfree on the page and its zeroing of the entry |
| `CowWindow.StaleUnseen` | src/kernel/vm.c:180-193 | no step goes through an entry in that window: code that looks entries up in the page tables can do the same as code that sees only the others |
| `CowWindow.LooksLive` | src/kernel/vm.c:180-193 | what a step looks at is not in the window |
| `CowWindow.WindowOrder` | src/kernel/vm.c:180-193 | in the window the thread only gives the page back, and it zeroes the entry only after that |
| `CowWitness.FreedWhileInTable` | src/kernel/vm.c:188-192 | a run from boot to a state in which a page is on the free list and still in a page table |
| `CowRefinement.StepRefines` | src/kernel/vm.c:307-339 | each step shows the processes exactly what a kernel that copied at fork would show |
| `CowRefinement.CowRefinesEager` | src/kernel/vm.c:307-417 | in every run, whatever the interleaving, every process's memory is what it would be had fork copied every page |
| `CowRefinement.LoadsEager` | src/kernel/vm.c:307-417 | after any run, what a process loads through its page table, as it is in memory, is what the eager kernel would give it |
| `CowRefinement.EveryRunSafe` | src/kernel/kalloc.c:57-112 | in every run no count is below the number of mappings, no free page is mapped or listed twice, and a page writable through one entry is mapped by no other; only an entry in uvmunmap's window, whose thread is in it, is excepted |
| `CowRefinement.FailedForkLeaks` | src/kernel/vm.c:328-337 | the error path of uvmcopy leaves the count of one page above its references |
| `CowRefinement.LeakIsForever` | src/kernel/vm.c:328-337 | from then on the count stays too high and the page never becomes free again |
| `CowRefinement.ExactUnlessLeaked` | src/kernel/vm.c:317-339 | in every run from exact counts, every count equals the number of references if and only if no fork has failed in mappages |
| `CowRefinement.ExactMappings` | src/kernel/kalloc.c:57-112 | exact counts are the numbers of mappings when no reference is on its way |
| `CowWitness.ForkCanFail` | src/kernel/vm.c:328-337 | a run from boot in which a fork fails that way and the counts are no longer exact |
| `CowIsolation.OthersRespect` | src/kernel/kalloc.c:57-112 | no step of another thread takes a thread's references, changes the pages it alone may write or reads through, ends its being a page's only owner, or changes how many references it has lost |
| `CowIsolation.OthersRun` | src/kernel/kalloc.c:57-112 | nor does any run of other threads |
| `CowIsolation.OwnStepKeeps` | src/kernel/vm.c:172-251 | a thread's own step touches only the references it names |
| `CowIsolation.StepLoses` | src/kernel/vm.c:328-337 | a thread loses a reference in the error path of its own uvmcopy and in no other step |
| `CowKernel.Kernel.Kalloc` | src/kernel/kalloc.c:94-112 | a page nobody else refers to, counted once; or none, which if nobody else runs happens exactly when no page is free |
| `CowKernel.Kernel.Kfree` | src/kernel/kalloc.c:57-89 | the reference is given back, whether or not it was the last, and no other; if nobody else runs, the count is one less and the page is free exactly if that was the last |
| `CowKernel.Kernel.CopyPage` | src/kernel/vm.c:357-379 | the process gets its own writable copy showing the same bytes, and gives its reference to the shared page back; or it is killed with its entry unchanged, exactly for want of a free page if nobody else runs |
| `CowKernel.Kernel.TestThenClaim` | src/kernel/trap.c:28-51 | after the unlocked test of the count, whatever others do, the count stays 1 and making the page writable is safe |
| `CowKernel.Kernel.UnmarkThenClaim` | src/kernel/trap.c:28-51 | the same after the thread has cleared the copy-on-write bit and before it sets the write bit |
| `CowKernel.Kernel.ClaimPage` | src/kernel/trap.c:28-51 | the sole owner's entry becomes writable and shows the same bytes |
| `CowKernel.Kernel.HandleTrapCow` | src/kernel/trap.c:23-52 | the process sees the same memory afterwards and loses no reference; a copy-on-write page is then its own and writable, the same page if its count was 1, unless the process is killed for want of memory, which a count of 1 or a free page rules out |
| `CowKernel.Kernel.UnmapPage` | src/kernel/vm.c:183-193 | the page is given to kfree first and the entry zeroed after it; then the mapping is gone and its reference given back, one off the count if nobody else runs |
| `CowKernel.Kernel.Uvmunmap` | src/kernel/vm.c:172-194 | the mappings of exactly the given range are gone and no reference is lost |
| `CowKernel.Kernel.Declarations` | src/kernel/vm.c:307-316 | the page is marked copy-on-write and counted once more before anyone else can refer to it |
| `CowKernel.Kernel.SharePage` | src/kernel/vm.c:317-339 | parent and child have the same entry, the parent's old one without W and with the copy-on-write bit; or the child has none, the page's leaked count is above zero, and the thread has lost exactly one reference |
| `CowKernel.Kernel.Uvmcopy` | src/kernel/vm.c:317-339 | it succeeds exactly if no mapping fails; the child's memory is then a copy of the parent's with the same entries, each as the parent's was but copy-on-write; on failure the child has none of it and exactly one reference is lost; the parent sees what it saw |
| `CowKernel.Kernel.Uvmalloc` | src/kernel/vm.c:227-251 | all the pages, zeroed, the user's, not copy-on-write and writable as asked, or none; all, if nobody else runs, there are as many free pages and no mapping fails; no reference is lost |
| `CowKernel.Kernel.CopyoutPage` | src/kernel/vm.c:380-417 | on one page copy-on-write is broken before the bytes are written; no reference is lost |
| `CowKernel.Kernel.Copyout` | src/kernel/vm.c:380-417 | the bytes land at the destination and nowhere else in the process's memory, and no reference is lost; if it fails and the process lives, a prefix has landed and the next address is on page 0, past MAXVA, unmapped or not the user's; the process lives if nobody else runs and there are more free pages than the range crosses page boundaries |
| `CowKernel.Kernel.Store` | src/kernel/trap.c:101-112 | a user store changes exactly that byte of that process's memory, after the fault is handled; it loses no reference, and with a free page and nobody else running the process lives |
| `PageTree.PxIndex` | src/kernel/riscv.h:349-364 | PX, the level's nine bits of the address, is the index the model uses for the virtual page number |
| `PageTree.SlotsDistinct` | src/kernel/vm.c:87-105 | different virtual pages below MAXVA have their entries in different places |
| `PageTree.Graft` | src/kernel/vm.c:87-105 | a new table anywhere in the tree keeps it a tree with one table more |
| `PageTree.GraftTranslate` | src/kernel/vm.c:87-105 | walk's allocations change no translation |
| `PageTree.SetEntry` | src/kernel/vm.c:144-194 | writing one page's entry changes that page's translation and no other, and no table |
| `PageTable.PageTables.Walk` | src/kernel/vm.c:87-105 | the place of the page's entry; it fails without allocation exactly when a table is missing, and with it only when memory is out; every page is a table of the tree or free as before, none lost |
| `PageTable.PageTables.Mappages` | src/kernel/vm.c:144-167 | exactly the pages that the range touches are mapped, to consecutive physical pages, by valid entries with the bits of perm; out of memory, exactly the first k of them; no page is lost |
| `PageTable.PageTables.Uvmunmap` | src/kernel/vm.c:172-194 | exactly the range is cleared and its physical pages are handed to kfree once each, in order |
| `PageTable.PageTables.Freewalk` | src/kernel/vm.c:273-289 | every table of the tree goes to the free list exactly once and no other page changes |
| `FsDisk.SetBit` | src/kernel/fs.c:75-77 | marking a bit of a free-map byte changes that bit and no other |
| `FsDisk.ClearBit` | src/kernel/fs.c:98-102 | clearing a bit changes that bit and no other |
| `FsDisk.WithWordOther` | src/kernel/fs.c:408-413 | writing one 32-bit address of an indirect block changes no other address in it |
| `FsState.SlotsDistinct` | src/kernel/fs.c:382-421 | no block is in two slots of any inodes or indirect blocks |
| `FsState.RewriteKeeps` | src/kernel/fs.c:505-539 | rewriting a data block keeps the partition of blocks |
| `FsSlots.AllocKeeps` | src/kernel/fs.c:65-88 | setting a clear bit allocates exactly that block, which is a data block nobody owns |
| `FsSlots.FreeKeeps` | src/kernel/fs.c:91-105 | clearing the bit of a block in no slot frees exactly that block |
| `FsSlots.StoredKeeps` | src/kernel/fs.c:382-421 | storing a fresh block in an empty slot makes the slot its one owner |
| `FsContent.WrittenByte` | src/kernel/fs.c:516-528 | copying bytes into one block of one file changes those positions of that file and nothing else in any file |
| `FsGrow.FillDirect` | src/kernel/fs.c:388-396 | a fresh block in a direct slot keeps the partition and every byte of every file |
| `FsGrow.FillIndirect` | src/kernel/fs.c:399-406 | so does a fresh indirect block |
| `FsGrow.FillEntry` | src/kernel/fs.c:407-415 | so does a fresh block in an indirect block's entry |
| `FsGrow.SparesFile` | src/kernel/fs.c:382-453 | files that are left alone and have no holes keep their contents |
| `FsTrunc.TruncatedFrees` | src/kernel/fs.c:425-453 | after truncation a bit is clear that was set exactly if the block was the file's |
| `FsTrunc.TruncatedSpares` | src/kernel/fs.c:425-453 | truncation leaves every byte and the size of every other file, with holes or without, as they were |
| `FsWrite.WroteMore` | src/kernel/fs.c:516-528 | a piece written at the end of what was written so far extends it and changes nothing else |
| `FsWrite.FileWritten` | src/kernel/fs.c:530-538 | with the size covering the reported bytes the file has no holes, and its contents are the old ones with the data written over them |
| `FsWrite.WroteSpares` | src/kernel/fs.c:505-539 | every byte and the size of every other file, with holes or without, are as they were |
| `FsWrite.BudgetTotal` | src/kernel/file.c:149-160 | a write that touches k blocks, some of them new, changes and logs at most those, an indirect block, a free-map block for each new block, and the inode |
| `FsWrite.SmallSpan` | src/kernel/file.c:155-160 | the chunk size keeps that within MAXOPBLOCKS at every offset and alignment |
| `FsWrite.FirstBlockThere` | src/kernel/fs.c:505-539 | the block a write starts inside is allocated already |
| `FsWrite.PatchedTwice` | src/kernel/file.c:157-174 | two writes one after the other are one write |
| `FileSystem.Volume.Balloc` | src/kernel/fs.c:65-88 | the lowest free block, marked, zeroed and logged; 0 exactly when the disk is full |
| `FileSystem.Volume.Bfree` | src/kernel/fs.c:91-105 | exactly that block's bit is cleared |
| `FileSystem.Volume.Bmap` | src/kernel/fs.c:382-421 | the address in the block's slot, allocated if needed: no byte of any file changes, a new block is zero, an existing one costs nothing, 0 only when the disk is full; every block that changes is logged, and at most the block, the indirect block and a free-map block for each new one are |
| `FileSystem.Volume.Itrunc` | src/kernel/fs.c:425-453 | the file is empty, exactly its blocks are freed, every other file, with holes or without, is untouched; every bfree finds its block in use; every block that changes is logged, and besides the inode's only free-map blocks are |
| `FileSystem.Volume.Readi` | src/kernel/fs.c:471-496 | of a file without holes, a slice of the contents, never past the end, and -1 exactly when the destination is too small; nothing on disk or in the log changes, so reading never allocates |
| `FileSystem.Volume.Writei` | src/kernel/fs.c:505-539 | on a file without holes, -1 exactly for a bad range; otherwise the contents are the old ones with the bytes written over them, cut at the new size, every other file untouched; it stops early only where the position has no block and the disk is full, or in the block in which the source faults; every block that changes is logged, but for the one such a fault left half written; a chunk-sized write changes and logs at most MAXOPBLOCKS blocks |
| `FileSystem.CommitChanges` | src/kernel/log.c:178-203 | of the blocks an operation changed, exactly those that were logged reach the disk |
| `FileSystem.Volume.Filewrite` | src/kernel/file.c:134-181 | on a file without holes, the states the transactions leave on disk start at the old one; each differs from the one before in at most MAXOPBLOCKS blocks, counting the inode's, and before the j-th chunk exactly the first j chunks are in the file; on success all the data is written at the offset, and on failure a prefix of it, which ends where there is no room, at a source fault, or at the chunk that would pass the largest file size; no other file changes |
| `Mkfs.BitsBelow` | src/mkfs/mkfs.c:234-248 | the free-map block balloc writes has exactly the bits below the count |
| `Mkfs.DrawNext` | src/mkfs/mkfs.c:252-294 | taking the next block is allocating it, zeroed, in the file system to be |
| `Mkfs.Image.Iappend` | src/mkfs/mkfs.c:252-294 | the file grows by exactly the data and every other file is as it was; it ends early exactly when the files would not fit, each below the largest size and together in the data area |
| `Mkfs.Image.Balloc` | src/mkfs/mkfs.c:234-248 | the free map written has the bits of exactly the metadata and the blocks handed out |
| `Mkfs.GrowthNeeds` | src/mkfs/mkfs.c:252-294 | an append takes exactly the blocks by which the new size needs more than the old, the indirect block included |
| `Mkfs.RoundedSound` | src/mkfs/mkfs.c:163-168 | rounding the root directory's size keeps the partition, and leaves no hole exactly when the block after the last full one is allocated |
| `Mkfs.LastBlockThere` | src/mkfs/mkfs.c:163-168 | that block is allocated exactly when the size is not a whole number of blocks |
| `Mkfs.MakeImage` | src/mkfs/mkfs.c:68-173 | it succeeds exactly when the files and the directory fit; every file then holds exactly its bytes, the root directory's entries are in place and the blocks are partitioned; the image is sound if and only if the root directory does not fill its blocks exactly |
| `Mkfs.SixtyTwoFiles` | src/mkfs/mkfs.c:163-168 | with 62 empty files mkfs succeeds and the image is not sound |
| `ProcSafety.StepKeepsInv` | src/kernel/proc.c:296-461 | every step of fork, exit, reparent, wait, sleep, wakeup and kill keeps the locks, the parent links, the pids and who may be asleep in order |
| `ProcSafety.DiesNoticed` | src/kernel/proc.c:386-401 | a process becomes a zombie only when its parent is neither asleep in wait nor on its way to sleep, and it has no children left |
| `ProcSafety.PassedAwake` | src/kernel/proc.c:712-731 | once the wakeup in exit, or that in reparent, has passed the slot it is for, the process there is neither asleep in wait nor on its way to sleep |
| `ProcSafety.ReapPair` | src/kernel/proc.c:424-447 | freeing a zombie child leaves every other process's view of its children intact |
| `ProcRuns.EveryRun` | src/kernel/proc.c:296-461 | in every run, when wait_lock is free no process asleep in wait has a zombie child; parents are always alive and live pids distinct |
| `ProcRuns.ReapedOnce` | src/kernel/proc.c:411-461 | in every run no pid is returned by wait twice |
| `ProcRuns.WaitDecides` | src/kernel/proc.c:449-459 | wait returns -1 at the end of its scan only without children or when killed, and sleeps only when no child is a zombie |
| `ProcFork.ChildBecomesRunnable` | src/kernel/proc.c:296-344 | whatever other processes do meanwhile, the child fork allocated becomes runnable when the fork ends, with the pid it was given and the forking process as its parent; only a failed copy of memory ends the fork otherwise, and the slot is then free again |
| `ProcFork.LastStepEnabled` | src/kernel/proc.c:339-341 | nobody else can be holding the child's lock when fork takes it again |
| `ProcFork.NoneLeftBehind` | src/kernel/proc.c:296-344 | in every run a slot that is in use but not yet runnable belongs to a fork under way |
| `Pbs.Priority` | src/kernel/proc.c:557-569 | the dynamic priority is between 0 and 100 for all 32-bit field values |
| `Pbs.BestUnique` | src/kernel/proc.c:571-591 | the preference order has one best process |
| `Pbs.Select` | src/kernel/proc.c:546-596 | the runnable process that is least by priority, most often scheduled, earliest created and first in the table; none exactly when nothing is runnable |
| `Pbs.WaitingIgnored` | src/kernel/proc.c:558-568 | unless the sum of the times wraps, the scheduler's index and priority do not depend on how long the process has waited |
| `Pbs.ChoiceIgnoresWaiting` | src/kernel/proc.c:546-596 | so the process chosen does not depend on how long any process has waited |
| `Pbs.RbiValue` | src/kernel/proc.c:558-567 | the scheduler's index where nothing wraps: 25 for a process that has neither run nor slept, otherwise 50 times three times its running time less its sleeping time, or 0 |
| `Pbs.PriorityValue` | src/kernel/proc.c:557-569 | the dynamic priority where nothing wraps: the static priority plus that index, or 100 if that is less |
| `Pbs.BaseIgnored` | src/kernel/proc.c:557-569 | whatever the static priority, the dynamic one is 100 if and only if three times the running time is at least 2 ticks above the sleeping time |
| `Pbs.GroupingsAgree` | src/kernel/proc.c:478 | where neither grouping wraps, the scheduler's index and that of set_priority agree if and only if the process has neither run nor slept, or has slept three times as long as it ran |
| `Pbs.GroupingsDiffer` | src/kernel/proc.c:478 | a process that ran and waited for one tick each, for which the scheduler's index is 150 and that of set_priority is 0 |
| `VirtioSafety.StepKeepsInv` | src/kernel/virtio_disk.c:156-327 | every step of the driver or the device keeps descriptors, rings, statuses and buffers in order |
| `VirtioSafety.WriteRingKeeps` | src/kernel/virtio_disk.c:271-277 | the avail slot the driver writes is none of those the device has still to read |
| `VirtioSafety.AnswerKeeps` | src/kernel/virtio_disk.c:294-327 | the used slot the device writes is none of those the driver has still to read |
| `VirtioSafety.UsedEntry` | src/kernel/virtio_disk.c:312-324 | what the interrupt handler reads is a request the device has completed, with its status written and its buffer not given back |
| `VirtioSafety.WrapPosition` | src/kernel/virtio_disk.c:272-277 | the 16-bit index wraps without a jump in ring positions |
| `VirtioRuns.EveryRun` | src/kernel/virtio_disk.c:156-327 | in every run each descriptor is free or in exactly one request, whose links lead through its three descriptors and stop; entries read are the right ones, and the panics are out of reach |
| `VirtioRuns.ReleasedOnce` | src/kernel/virtio_disk.c:294-327 | in every run a request's buffer is given back at most once, and only after the device completed it |
| `VirtioRuns.FinishMeansReleased` | src/kernel/virtio_disk.c:284-289 | descriptors are freed only after the buffer was given back |
| `VirtioDriver.Disk.AllocDesc` | src/kernel/virtio_disk.c:156-166 | the lowest free descriptor, or -1 exactly when none is free |
| `VirtioDriver.Disk.Alloc3Desc` | src/kernel/virtio_disk.c:201-213 | three distinct free descriptors; or none, with everything as it was, exactly when fewer than three are free |
| `VirtioDriver.Disk.FreeChain` | src/kernel/virtio_disk.c:185-197 | following the links frees exactly the descriptors on the path |
| `VirtioDriver.Disk.Submit` | src/kernel/virtio_disk.c:215-269 | sets up one request, the step of the queue |
| `VirtioDriver.Disk.Intr` | src/kernel/virtio_disk.c:294-327 | while the device goes on completing requests: the buffers of all requests completed before it and of those found on the way are given back, each once, in order of completion; no status panic; it ends |
| `VirtioDriver.DeviceRespects` | src/kernel/virtio_disk.c:294-327 | no step of the device touches what the driver owns, and it only adds to what is completed |
| `VirtioDriver.DeviceRanTrans` | src/kernel/virtio_disk.c:294-327 | nor does any number of its steps |
| `VirtioDriver.Disk.Finish` | src/kernel/virtio_disk.c:288-291 | exactly the request's three descriptors are freed |
| `Pipes.FullOrEmpty` | src/kernel/pipe.c:76-130 | the tests for a full and an empty pipe are right for wrapped counters |
| `Pipes.Pipe.Write` | src/kernel/pipe.c:76-103 | the bytes join the written stream in order; with bytes left it fails exactly when the reader is gone or the writer was killed, and otherwise sleeps exactly when 512 bytes are held; it returns the count only at the end or where the source faults |
| `Pipes.Pipe.Read` | src/kernel/pipe.c:105-130 | the oldest bytes are delivered in order, as many as there are and fit; only a byte whose copy fails is lost; it sleeps only on an empty pipe with a writer |
| `Pipes.Pipe.Close` | src/kernel/pipe.c:58-74 | the pipe is freed exactly when both ends are closed |
| `FreeList.InsertedSorted` | src/user/umalloc.c:24-44 | a freed block keeps the list in address order with no two adjacent blocks |
| `FreeList.InsertedCovers` | src/user/umalloc.c:24-44 | merging adds exactly the freed block's units |
| `FreeList.InsertedLinked` | src/user/umalloc.c:24-44 | the pointer and size updates of free make exactly that list |
| `Malloc.Conservation` | src/user/umalloc.c:24-90 | units obtained from sbrk are the free ones plus the live ones, none lost or counted twice |
| `Malloc.FreedHeap` | src/user/umalloc.c:24-44 | freeing a live block leaves a sound heap: one ordered cycle, live blocks disjoint from it and from each other |
| `Malloc.Heap.FindSpot` | src/user/umalloc.c:24-36 | the search loop of free ends at the neighbour the block belongs behind |
| `Malloc.Heap.Free` | src/user/umalloc.c:24-44 | the block leaves the live ones and joins the free list, merged with the neighbours it touches |
| `Malloc.Heap.Morecore` | src/user/umalloc.c:46-61 | the units sbrk grants join the free list, which then has a large enough block |
| `Malloc.Heap.Search` | src/user/umalloc.c:72-89 | the circular search ends and finds a large enough block exactly when there is one, the first after where the last search ended |
| `Malloc.Heap.Malloc` | src/user/umalloc.c:63-90 | a block of its own whose units behind the header hold the bytes asked for with less than a unit to spare; if a free block is large enough, the end of the first such after where the last search ended, and sbrk is not asked; none only when no free block is large enough and sbrk refuses |
| `ShellSyntax.LineRound` | src/user/sh.c:345-447 | parsing the printed tokens of any command gives the command back, at every level of the grammar |
| `ShellSyntax.LineSized` | src/user/sh.c:416-447 | no command the parser accepts has more words than argv holds |
| `ShellSyntax.Reparses` | src/user/sh.c:345-447 | parsing, printing and parsing again gives what the first parse gave |
| `ShellSyntax.LineMap` | src/user/sh.c:345-447 | the parser treats all words alike |
| `ShellLexer.LexRender` | src/user/sh.c:266-309 | lexing written-out tokens gives the tokens back |
| `ShellLexer.TokensWords` | src/user/sh.c:266-309 | a word token is a longest run of word characters |
| `ShellParser.RoundTrip` | src/user/sh.c:328-447 | writing out any command with good words, at most nine for each program, and parsing the text gives the command back |
| `ShellParser.GetToken` | src/user/sh.c:266-309 | the first token and the cursor after it; none only at the end |
| `ShellParser.Peek` | src/user/sh.c:311-321 | only white space is skipped, and the next character decides |
| `ShellParser.ParseRedirs` | src/user/sh.c:375-398 | each redirection wraps what came before it; ends, with the cursor where the grammar says |
| `ShellParser.ParseExec` | src/user/sh.c:416-447 | agrees with the grammar on the command, the cursor and every panic |
| `ShellParser.ParseBlock` | src/user/sh.c:400-414 | agrees with the grammar |
| `ShellParser.ParsePipe` | src/user/sh.c:362-373 | agrees with the grammar |
| `ShellParser.ParseLine` | src/user/sh.c:345-360 | agrees with the grammar, and ends on every text |
| `ShellParser.ParsedWords` | src/user/sh.c:416-447 | every argument and file of a parsed command is a whole word of the line |
| `ShellParser.NulTerminate` | src/user/sh.c:450-494 | a NUL at the end of every word and no other change to the buffer |
| `ShellParser.ParseCmd` | src/user/sh.c:328-343 | the command exactly when the grammar takes the whole line, with no more words than argv holds, and then every argument and file string in the buffer is exactly its token |
| `Regex.WriteParse` | src/user/grep.c:84-95 | every string is the written form of the pattern it is read as: a star behind what repeats, a $ at the end for the anchor |
| `Regex.ReadsBack` | src/user/grep.c:84-95 | reading a written-out pattern gives the pattern back if and only if no literal character in it comes before a star character and, without the anchor, the last is not a literal $ |
| `Regex.MatchHere` | src/user/grep.c:84-95 | 1 exactly when some prefix of the text is in the pattern's language, all of it under a final $ |
| `Regex.MatchStar` | src/user/grep.c:98-105 | 1 exactly when the repeated character covers some prefix and the rest of the pattern occurs after it |
| `Regex.Match` | src/user/grep.c:71-81 | 1 exactly when some stretch of the text is in the pattern's language, from the start under ^ and to the end under $ |

## Left out

- Boot, traps other than copy-on-write faults, the console, devices other than the disk, `exec`, system call glue, user programs other than the shell's parser and `grep`: plumbing, or the same shapes again.
- Directories, path lookup, link counts, and the inode cache; the inodes of `FileSystem` are the in-memory ones, and their encoding in inode blocks is not modelled.
- More than one device in the buffer cache: all blocks are on the root device.
- Log.Log.Commit: a panic of the cache for want of buffers is treated as a crash at that point; that a commit succeeds is stated only if nobody else runs, since others may hold every buffer.
- CowKernel.Kernel.Uvmcopy: page tables are flat maps here, and running out of page-table pages is an input; the tree is in PageTable.
- Store faults on pages that are unmapped or not copy-on-write.
- FileSystem.Volume.Writei: how much of a faulting copy reaches the buffer is an input; for a file with holes only the layers below (`Bmap`, `WriteBlock`) say what a write does.
- FileSystem.Volume.Readi: a file with holes, in which reading allocates.
- FileSystem.Volume.Filewrite: a negative byte count, for which the source returns -1 at once.
- FileSystem.Volume.Itrunc: a bound on the blocks it logs when the free map has several blocks.
- Mkfs.MakeImage: more files than inodes, which `mkfs` does not check; and the bytes between the root directory's true size and its rounded size.
- ProcMachine and VirtioQueue model their code as steps on values rather than as classes, since the properties are about interleavings; a wrap of the 32-bit pid counter, file descriptors and the scheduler's choice are not part of the process machine.
- The data path of a disk request, and a device that reports an error, on which the driver panics.
- Malloc.Heap.Morecore: the truncation of huge requests to sbrk's int argument and sizes beyond 32 bits; sbrk is taken to grant addresses above earlier ones.
- Pbs.GroupingsAgree: differences that are negative in set_priority, which wrap before the division.
- Pbs.Select: one snapshot of the table; the locks taken and released between rows are not modelled.
- The order in which parseexec fills the argument vector through a second pointer; arguments are added at the bottom of the redirections.
- Liveness: that a process made runnable runs, or that a waiting operation is admitted.
