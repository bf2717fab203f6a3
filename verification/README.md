# Verified model of the xv6 kernel with MLFQ scheduling and swap

This project models, in Dafny, the parts of an xv6-riscv kernel (with a multi-level feedback queue
scheduler and clock/swap demand paging added to it) whose correctness is a property of whole runs,
and proves those properties. `dafny verify dfyconfig.toml` checks everything.

| file | what it is about |
|---|---|
| `CrashRecovery.dfy`, `Disks.dfy` | the redo log as a sequence of block writes, crashes between any two of them, recovery |
| `BufferCache.dfy` | the LRU buffer cache: the doubly linked ring, block tags, reference counts |
| `Log.dfy` | the log layer as code over the buffer cache; it issues exactly the writes that `CrashRecovery` reasons about |
| `LogClient.dfy` | clients of that log and that cache: what they read is what was last written, through every commit |
| `LogProtocol.dfy` | the log and cache shared by many processes, step by step, with crashes |
| `LogRefinement.dfy` | the calls of those clients are runs of the protocol, power failures and reboots included |
| `PageTable.dfy`, `TableCost.dfy` | Sv39 page tables in memory, the finite map they denote, and the pages they cost |
| `FrameTable.dfy` | the frame table and the scheduler-aware clock |
| `Paging.dfy` | faults, evictions, swap slots and the page allocator: paging is invisible |
| `PagingTables.dfy` | the maps of `Paging` are three-level tables whose pages come from the same allocator |
| `FileSystem.dfy` | block bitmap, block map, truncation, and files as byte sequences |
| `Umalloc.dfy` | the user-level allocator over the kernel's sbrk: the circular free list and the tiling of the heap |
| `SleepLock.dfy` | sleep, wakeup, kill and sleep locks, one shared access at a time |
| `Scheduler.dfy` | tick accounting and the per-CPU round robin |
| `TickRace.dfy` | a timer tick and a boost on another CPU, one access to the shared fields at a time |
| `Virtqueue.dfy` | the disk driver against a device that finishes requests in any order |
| `Pipe.dfy` | the pipe's ring buffer, with counters that wrap around |
| `Grep.dfy` | the regular expression matcher against the language of a pattern |
| `Counting.dfy`, `Wrapping.dfy`, `Memory.dfy` | counting arguments, counters that wrap around and address space sizes, shared by the others |

## How to read the model

* Code that holds a lock from one point to another is one step. Where the interleaving is the point
  (`LogProtocol`, `SleepLock`, `Virtqueue`, `TickRace`), the state machine has one step per spinlock operation,
  disk write or shared access; where calls sleep in the middle (`Pipe`), one method call is one
  stretch between two sleeps.
* The disk answers one block write at a time, and a crash can come between any two. A device write
  is atomic.
* What the code cannot control is a parameter: whether the kernel has the memory for
  an `sbrk` (`room`), the status a disk reports, the first user byte
  that cannot be copied (`bad`), when a process is seen to be killed (`alive`), what a scan of the
  process table sees (`seen`).
* `panic` is either shown unreachable by a proved precondition or an outcome with an exact condition.
* Constants such as NBUF, LOGBLOCKS, MAXFRAMES and NPROC are parameters, except where the code's
  arithmetic depends on them (NUM, PIPESIZE, the block map, page sizes).
* Predicates of the form `forall z :: Inside(z) ==> P`, with `Inside` or another predicate that is
  always true, say `P`; they keep `P` folded until a proof mentions `Inside`.

## Where the code does not do what one might expect

* README_PA3.md promises that the clock evicts, among frames with a clear reference bit, one of the
  lowest-priority process. The code can evict a referenced frame instead. `HotVictim` shows a table
  where it does; `VictimIsColdIff` says exactly when it does not. The same file speaks of 256 frames
  and 128 swap slots; the code has 128 and 512, and the model takes both as parameters.
* `malloc` passes a byte count to `sbrk(int)`. From 2^31 - 31 bytes on the count does not fit: it
  turns negative, or at the very end 0 or 16, and `malloc` hands out a block of memory it never
  obtained, if the process survives. `HugeMalloc` shows the largest request, after which the next
  `sbrk` answers with an address inside the block. `Malloc` says that blocks go on tiling the memory
  obtained if and only if a free block fits, or the request is refused, or it fits an int; `Run` is
  about every sequence of calls that do.
* The cache and the log have the same number of blocks, so a completely full log leaves no buffer for
  `commit` to work with. `StarvedCommit` is a run of the cache and the log into that panic, at every
  log of three times the budget of one operation; `Log.Commit` says exactly when it gets through.
* `log_write` checks for room before it looks for the block in the log, so an operation within its
  budget can meet the panic on a block it has already logged. `AbsorptionCanPanic` is a run to there
  for every budget and every log that is a multiple of it. For a block not yet logged there is always
  room (`LogNeverOverflows`).
* A failed `uvmalloc` unmaps the pages it had mapped. If one of them was swapped out before, its entry
  is lost, and its swap slot with it: `LostSwapEntry` shows such a call. The map is as it was if and only
  if the pages that memory sufficed for were vacant (`UvmAlloc`). `growproc` and `exec` only pass ranges
  without entries, so the kernel itself does not meet the loss.
* The boost in `clockintr` holds the lock of the process and the timer branch of `usertrap` does not. A
  boost that comes while another CPU is adding one to the level is undone: `LostBoost` leads every process
  about to sink for want of system calls to such a point, and `BoostInTick` says exactly at which points a boost
  fails to leave the process at level 0. The accounting stays right all the same (`AccountedInRaces`).
* The disk driver computes sector numbers as 32-bit products, so they are right if and only if the block
  number is below 2^31 (`SectorIff`).
* A writer that is killed in the middle of `pipewrite` returns without a wakeup, so a reader can stay
  asleep beside bytes it was waiting for (`StrandedReader`). The contract of `Pipe.Write` says exactly
  which calls do this; no other operation does.

## Model

| member | source | states |
|---|---|---|
| `CrashRecovery.EncodedHead` | kernel/log.c:87-115 | a header block holds the number of blocks and then their numbers, and reading it gives back the list written into it, whatever the block held before |
| `CrashRecovery.CommitOrder` | kernel/log.c:179-204 | the writes of commit one by one: the new contents to the log blocks in order, a header listing them, the contents to their homes, a header listing nothing; no write at all for an empty log |
| `CrashRecovery.RecoverOrder` | kernel/log.c:117-124 | the writes of recovery one by one: each logged block to the home the header lists for it, then a header listing nothing |
| `CrashRecovery.DuringLogging` | kernel/log.c:179-192 | copying any number of blocks into the log leaves the meaning of the disk and its empty header alone |
| `CrashRecovery.CommitPoint` | kernel/log.c:103-115 | the single header write switches the meaning of the disk from before the transaction to after it |
| `CrashRecovery.DuringInstall` | kernel/log.c:66-84 | installing any number of logged blocks changes no meaning; installing all makes the home blocks themselves right |
| `CrashRecovery.ClearHead` | kernel/log.c:103-115 | once the home blocks are right, clearing the header keeps the meaning and leaves the log empty |
| `CrashRecovery.CrashInCommit` | kernel/log.c:179-204 | after any number of commit's writes the disk means exactly the state before, or exactly the state after if and only if the header write is among them |
| `CrashRecovery.CrashInRecovery` | kernel/log.c:117-124 | recovery can stop after any of its own writes without changing the meaning; complete recovery puts the meaning into the home blocks |
| `CrashRecovery.RebootsConverge` | kernel/log.c:117-124 | after any number of recoveries that crash anywhere, one that completes restores the meaning |
| `CrashRecovery.EventIsAtomic` | kernel/log.c:66-204 | one transaction, committed or crashed at any write and rebooted any number of times, happened entirely or not at all |
| `CrashRecovery.CrashAtomicity` | kernel/log.c:66-204 | over any sequence of transactions, crashes and reboots the home blocks are as if exactly the transactions that reached their commit point had been applied in order |
| `BufferCaches.WalksAreReverses` | kernel/bio.c:39-56 | the links are one ring: both walks meet every buffer once and return to the head, and one is the reverse of the other |
| `BufferCaches.RingUnlink` | kernel/bio.c:132-133 | unlinking a buffer leaves a ring of the others in the same order |
| `BufferCaches.RingPush` | kernel/bio.c:134-137 | linking a buffer behind the head puts it first in the ring |
| `BufferCaches.RecencyRelease` | kernel/bio.c:129-138 | releasing the last reference keeps the ring sorted by time of release, with this buffer newest |
| `BufferCaches.BufferCache.constructor` | kernel/bio.c:39-56 | a ring of all buffers, none of them valid or referenced; the first to be recycled is buffer 0, then 1 and so on |
| `BufferCaches.BufferCache.Find` | kernel/bio.c:69-77 | the forward walk finds the block if and only if some buffer has its tag |
| `BufferCaches.BufferCache.Oldest` | kernel/bio.c:79-92 | the backward walk finds the unreferenced buffer that was released longest ago, or none if and only if all are referenced |
| `BufferCaches.BufferCache.Bget` | kernel/bio.c:61-93 | a hit returns the one buffer with the tag, a miss recycles the least recently released free buffer, and failure means neither exists; at most one buffer per block of a non-zero device; a hit adds one reference, a miss leaves one reference, the new tag and no valid data |
| `BufferCaches.BufferCache.Bread` | kernel/bio.c:96-107 | the buffer has the cached contents on a hit of a valid buffer and the disk's contents otherwise; nothing else changes; every field of the buffer is given outright |
| `BufferCaches.BufferCache.Bwrite` | kernel/bio.c:110-116 | exactly one block write, of this buffer's contents to its block |
| `BufferCaches.BufferCache.Brelse` | kernel/bio.c:120-141 | one reference less; the last one makes the buffer the most recently released, and the order of the others stays |
| `BufferCaches.BufferCache.Bpin` | kernel/bio.c:143-148 | one reference more, ring and other buffers unchanged |
| `BufferCaches.BufferCache.Bunpin` | kernel/bio.c:150-155 | one reference less while the buffer is held, ring and other buffers unchanged |
| `Logs.Log.constructor` | kernel/log.c:53-63 | an empty log over a cache that agrees with the disk, in which nobody uses the blocks of the log |
| `Logs.Log.WriteLog` | kernel/log.c:179-192 | the disk sees exactly the writes that copy the pinned contents into the log; possible if and only if the log is empty or a buffer is free |
| `Logs.FillHead` | kernel/log.c:103-115 | the loop produces the encoding that `read_head` undoes |
| `Logs.ParseHead` | kernel/log.c:87-98 | the loop reads the list that the header encodes |
| `Logs.Log.WriteHead` | kernel/log.c:103-115 | one write, of the encoded header; cache and pins stay coherent |
| `Logs.Log.ReadHead` | kernel/log.c:87-98 | the in-memory list is the decoded header and the disk is untouched |
| `Logs.Log.InstallTrans` | kernel/log.c:66-84 | exactly the install writes of the pending transaction; every pin is dropped once, and nothing is logged any more |
| `Logs.Log.RecoverTrans` | kernel/log.c:66-84 | exactly the install writes of the transaction found in the log |
| `Logs.Log.Commit` | kernel/log.c:194-204 | gets through if and only if the log is empty or a buffer is free; then exactly the commit writes, an empty log and no pins |
| `Logs.Log.Recover` | kernel/log.c:117-124 | always completes, with exactly the recovery writes, and leaves an empty log |
| `Logs.Log.LogWrite` | kernel/log.c:215-236 | panics if and only if the log is full or no operation is outstanding; absorbs a logged block, pins a new one, and hands its contents to the log |
| `Logs.Log.BeginOp` | kernel/log.c:127-143 | admits if and only if there is no commit and the reservation of every admitted operation fits |
| `Logs.Log.EndOp` | kernel/log.c:147-176 | the last operation, and only it, commits everything logged; exact condition for getting through, while other operations may hold changed buffers |
| `Logs.FullLogStarvesCommit` | kernel/log.c:179-192 | when every buffer pins a logged block no buffer is free, so commit cannot proceed |
| `Logs.PinsDistinct` | kernel/log.c:215-236 | distinct logged blocks are pinned by distinct buffers |
| `LogClients.OpenKeeps` | kernel/bio.c:61-107 | a hit or a recycled buffer has the contents last given to the block, and every reference is still a client's or one pin of the log |
| `LogClients.ChangeKeeps` | kernel/log.c:206-214 | changing a held buffer of a home block keeps log, pins and every other block's last contents |
| `LogClients.LogWriteKeeps` | kernel/log.c:215-236 | handing a changed block to the log keeps the same, with the pin as a reference of its own |
| `LogClients.CloseKeeps` | kernel/bio.c:120-141 | releasing a buffer that is not being changed keeps the same: a logged block stays pinned |
| `LogClients.CommitKeeps` | kernel/log.c:179-204 | a commit drops every pin and puts everything the clients wrote on the disk, and they cannot tell |
| `LogClients.Clients.constructor` | kernel/log.c:53-63 | clients of an empty log, for whom the disk is what was last written |
| `LogClients.Clients.Open` | kernel/bio.c:61-107 | the buffer has the contents last given to the block; none if and only if the block is not cached and no buffer is free |
| `LogClients.Clients.Log` | kernel/log.c:215-236 | absorbs or appends and pins, panics if and only if the log is full or no operation is outstanding |
| `LogClients.Clients.Close` | kernel/bio.c:120-141 | one client reference less, and nothing written is lost |
| `LogClients.Clients.End` | kernel/log.c:147-176 | after the last operation every home block on the disk is what was last written; exact condition for getting through |
| `LogClients.Clients.FreeWhileShort` | kernel/log.c:179-192 | with a log shorter than the cache and no client holding a buffer, some buffer is free |
| `LogClients.StarvedCommit` | kernel/log.c:147-192 | from a fresh cache and log of the same size, three operations fill the log and the last end_op cannot commit |
| `LogProtocol.EvictsClean` | kernel/bio.c:61-93 | whatever a miss recycles equals the disk and the last contents given to it, so no eviction loses a write |
| `LogProtocol.LogSpace` | kernel/log.c:127-143 | a new block takes a place that was reserved for its operation |
| `LogProtocol.RunInv` | kernel/log.c:127-236 | every step of every interleaving, crashes included, keeps the invariant |
| `LogProtocol.ReadersSeeLastContents` | kernel/log.c:215-236 | in every run a cached block holds the last contents given to it, and an unheld, unlogged one also equals the disk |
| `LogProtocol.LogNeverOverflows` | kernel/log.c:127-176 | in every run the log fits, its entries are distinct, commit overlaps no operation, and a block not yet logged finds room |
| `LogProtocol.RecoveryRestoresDurable` | kernel/log.c:117-124 | however often power fails, recovery that completes gives back what was durable at the first crash |
| `LogProtocol.DurableOnlyAtCommit` | kernel/log.c:194-204 | what is durable changes only at a header write, with no operation in progress, and becomes everything written so far |
| `LogProtocol.DurableKept` | kernel/log.c:117-124 | crashes and recovery steps never change what is durable |
| `LogProtocol.AbsorptionCanPanic` | kernel/log.c:215-236 | for every budget and every log that is a multiple of it, a run in which an operation within its budget panics on a block it logged before |
| `LogRefinements.CommitRun` | kernel/log.c:147-204 | the last end_op of the protocol runs through copying, the header write, every install and the erasure, whatever was logged |
| `LogRefinements.Machine.constructor` | kernel/log.c:53-63 | after boot the code is in an initial state of the protocol |
| `LogRefinements.Machine.Begin` | kernel/log.c:127-143 | begin_op admits if and only if the protocol's step is enabled, and is that step |
| `LogRefinements.Machine.Open` | kernel/bio.c:61-107 | bread on the real cache is the protocol's reference, lock and, if need be, fill, or the reference alone when another has the lock; the buffer has the last contents |
| `LogRefinements.Machine.Resume` | kernel/bio.c:61-93 | a waiting process that gets the buffer's lock is the protocol's lock step |
| `LogRefinements.Machine.Change` | kernel/log.c:206-214 | a change of a held buffer inside an operation is the protocol's step |
| `LogRefinements.Machine.LogWrite` | kernel/log.c:215-236 | log_write panics if and only if the protocol's step is not enabled, and otherwise is that step |
| `LogRefinements.Machine.Close` | kernel/bio.c:120-141 | brelse of a logged or unchanged buffer is the protocol's release |
| `LogRefinements.Machine.End` | kernel/log.c:147-204 | end_op is the protocol's step, and the last one the steps of a whole commit; exact condition for getting through |
| `LogRefinements.PowerFails` | kernel/log.c:179-204 | after any number of the writes of the last end_op the disk means what the clients wrote if the header write is among them, and otherwise what it meant before |
| `LogRefinements.Reboot` | kernel/log.c:53-63 | a crash anywhere and a reboot that recovers are steps of the protocol, and the new clients see exactly what was durable |
| `PageTables.PteRoundTrip` | kernel/riscv.h:366-371 | a PTE is a quarter of the page address plus the flags, and gives back both |
| `PageTables.PteForMeans` | kernel/vm.c:169 | a leaf made for a page leads back to it and has the permissions asked for, and PTE_V besides |
| `PageTables.SwapRoundTrip` | kernel/riscv.h:363-364 | a swapped-out PTE gives back its slot and flags |
| `PageTables.PxOfPage` | kernel/riscv.h:373-382 | the three indices of an address below MAXVA spell its page number |
| `PageTables.AddMidKeeps` | kernel/vm.c:105-115 | a new middle page keeps the tree well formed and changes no translation |
| `PageTables.AddLowKeeps` | kernel/vm.c:105-115 | a new page of leaves keeps the tree well formed and changes no translation |
| `PageTables.SetLeafKeeps` | kernel/vm.c:169 | writing a leaf changes that translation and no other: no two paths share a page |
| `PageTables.RangeMeans` | kernel/vm.c:162-173 | in a mapped range each page leads to its own frame, at the same distance, with the permissions given; every other leaf is as before |
| `PageTables.PagesMean` | kernel/vm.c:247-260 | the same for frames that are not neighbours: page by page, in the order they were allocated |
| `PageTables.SlotsMean` | kernel/vm.c:208-214 | the swap slots handed back are those of exactly the swapped-out pages of the range |
| `PageTables.PagesOfMean` | kernel/vm.c:224-228 | the physical pages given back are those of exactly the valid leaves of the range |
| `PageTables.AddressSpace.constructor` | kernel/vm.c:180-189 | a zeroed root denotes the empty map |
| `PageTables.AddressSpace.Denotation` | kernel/vm.c:99-117 | the three-level table denotes exactly the map that the operations have built |
| `PageTables.AddressSpace.Walk` | kernel/vm.c:99-117 | finds the place of the leaf; an allocating walk changes no translation, takes exactly the missing tables from the free list, and fails if and only if there are not that many free pages |
| `PageTables.AddressSpace.MapPages` | kernel/vm.c:147-176 | the map gains exactly the first `n` pages of the range; of the pages there is memory for tables for, it panics if and only if one is valid, and else runs out of memory if and only if they are too few; each new leaf leads to its frame with exactly the permissions asked for and PTE_V |
| `PageTables.AddressSpace.UvmUnmap` | kernel/vm.c:194-234 | the map loses exactly the range; swap slots and, on request, physical pages are handed back in full; it panics if and only if some PTE in the range is malformed |
| `PageTables.AddressSpace.UvmAlloc` | kernel/vm.c:238-262 | success, failure and the remap panic, each if and only if: by the number of pages that memory suffices for, tables included, and whether one of them is valid; failure gives every page back and leaves the map as it was if and only if those pages were vacant; on success the new pages are, one for each page between the two sizes, different pages taken from the free list, mapped readable for the user with the permissions asked for |
| `PageTables.LostSwapEntry` | kernel/vm.c:249-259 | a call that fails and loses the entry of a swapped-out page |
| `TableCosts.AffordableIff` | kernel/vm.c:99-117 | that many pages can be mapped if and only if the free pages cover them and the tables missing above them, each counted once |
| `PageTables.AddressSpace.UvmDealloc` | kernel/vm.c:268-280 | the map loses exactly the pages between the two rounded sizes, whose physical pages return to the free list |
| `PageTables.GrownUndone` | kernel/vm.c:249-259 | unmapping what a failed growth has mapped leaves the map without exactly those pages, and gives every physical page back |
| `PageTables.UnchangedIff` | kernel/vm.c:249-259 | removing a range from the map changes nothing if and only if the range was vacant |
| `PageTables.ChildMeans` | kernel/vm.c:288-297 | a valid entry above the leaves links to the page below it and an invalid one has nothing below it, so the leaf panic is unreachable |
| `PageTables.AddressSpace.FreeWalk` | kernel/vm.c:284-300 | every page of the subtree reaches the free list exactly once and no other page changes |
| `PageTables.AddressSpace.UvmFree` | kernel/vm.c:304-310 | user pages and all page-table pages are given back, each once |
| `FrameTables.ChosenMeans` | kernel/frametable.c:122-163 | the choice is unique; no frame with a clear bit has a higher level than the victim; if all bits were set the victim is the first used frame from the hand |
| `FrameTables.VictimMeans` | kernel/frametable.c:122-163 | the victim, by the levels and the hand alone: which frame it is when no bit is clear, when the first used frame outranks the clear ones, and otherwise |
| `FrameTables.VictimIsColdIff` | README_PA3.md:24-27 | the victim's bit was clear if and only if some clear frame has at least the level of the first used one |
| `FrameTables.HotVictim` | README_PA3.md:24-27 | a table on which a referenced frame is evicted although another has its bit clear |
| `FrameTables.CountFull` | kernel/frametable.c:103-112 | the count reaches the table's size if and only if no entry is unused |
| `FrameTables.FrameTable.constructor` | kernel/frametable.c:29-42 | every entry unused, the hand at the start |
| `FrameTables.FrameTable.Add` | kernel/frametable.c:45-64 | the first unused entry, and no other, is filled; a full table is left alone |
| `FrameTables.FrameTable.Remove` | kernel/frametable.c:67-85 | the first entry for the page, and no other, is cleared, if there is one |
| `FrameTables.FrameTable.Used` | kernel/frametable.c:103-112 | the number of used entries, as the size of the set of them |
| `FrameTables.FrameTable.Scan` | kernel/frametable.c:122-163 | two laps suffice, so the fallback is dead: a victim is found if and only if the table is not empty, it is the specified one, all bits end clear, and the hand stands behind the first used frame |
| `Paging.EvictKeeps` | kernel/frametable.c:165-199 | moving a page to swap keeps frames, slots and PTEs matched one to one and changes no page's contents |
| `Paging.LoadKeeps` | kernel/vm.c:515-571 | bringing a page in keeps the same matching and changes at most that page |
| `Paging.DropKeeps` | kernel/vm.c:194-234 | unmapping a page keeps the matching and touches no other page |
| `Paging.Pager.SwapOut` | kernel/swap.c:22-38 | the first free slot gets the page; failure if and only if every slot is used |
| `Paging.Pager.SwapIn` | kernel/swap.c:41-54 | the slot's page, refused if and only if the slot is out of range or unused |
| `Paging.Pager.SwapFree` | kernel/swap.c:57-66 | that slot becomes free and no other changes |
| `Paging.Pager.Kalloc` | kernel/kalloc.c:73-87 | pops the free list, filling the page with junk |
| `Paging.Pager.Kfree` | kernel/kalloc.c:51-68 | pushes the page on the free list, filling it with junk |
| `Paging.Pager.ClockEvict` | kernel/frametable.c:122-199 | the chosen frame's page goes to swap and its frame to the free list, unnoticed by any process; none if and only if no frame is used, the panic if and only if some frame and every slot is used; the slot, the PTE and the page that goes out are those of the chosen frame |
| `Paging.Pager.KallocOrEvict` | kernel/vm.c:470-485 | a page that serves nothing and room to track it, unnoticed by any process; exact conditions for having none and for the panic; no other page changes its use |
| `Paging.Pager.WalkAlloc` | kernel/vm.c:99-117 | the page-table pages of an address, unnoticed by any process; fails if and only if more are missing than pages are free |
| `Paging.Pager.VmFault` | kernel/vm.c:515-571 | a swapped page comes back unchanged, an untouched page appears as zeroes, and no other page changes; refusal, the eviction panic and the remap panic each have an exact condition; the page is in the frame table afterwards, and no physical page is lost |
| `Paging.Pager.SwapInPage` | kernel/vm.c:530-555 | the page returns with its contents, and neither reading the slot nor mapping can fail here |
| `Paging.Pager.AllocEager` | kernel/vm.c:238-262 | an eagerly mapped zero page, which the clock never takes; or no change, if and only if there are too few free pages for it and its page-table pages |
| `Paging.Pager.UvmUnmap` | kernel/vm.c:194-234 | exactly the range disappears from the process's memory; without do_free frames and pages stay matched if and only if no page of the range is in the frame table; with it every physical page of the range is free again |
| `Paging.Pager.Run` | kernel/vm.c:470-571 | over any run of faults, evictions, allocations, unmappings and stores the logical memory is what a machine without paging would hold; a step is refused or panics if and only if the state at that moment calls for it; and every physical page is still free, mapped, or part of the page tables if it was |
| `PagedTables.SoundTables` | kernel/vm.c:99-117 | between any two steps of paging the three-level tables of every process are well formed and hold exactly its map, and none of their pages is free, mapped, or in another process's tables |
| `PagedTables.LeafMeans` | kernel/riscv.h:363-371 | a leaf in memory tells the frame and its permissions or the swap slot, and is 0 if and only if the page is absent |
| `PagedTables.NewMid` | kernel/vm.c:99-117 | a new middle page is one link in the root and a page of zeroes |
| `PagedTables.NewLow` | kernel/vm.c:99-117 | a new page of leaves is one link in a middle page and a page of zeroes |
| `PagedTables.EvictStores` | kernel/frametable.c:182-190 | an eviction stores the swap entry in one leaf and changes no other table |
| `PagedTables.LoadStores` | kernel/vm.c:547-571 | bringing a page in stores a PTE for its frame in one leaf |
| `PagedTables.UntrackedStores` | kernel/vm.c:253-254 | so does an eager allocation, with the permissions it was given |
| `PagedTables.DropStores` | kernel/vm.c:206-231 | unmapping stores 0 in one leaf |
| `PagedTables.OtherTree` | kernel/vm.c:99-117 | none of these stores touches the tables of another process |
| `FileSystem.EntryRoundTrip` | kernel/fs.c:431-440 | a stored indirect entry reads back, and no other entry changes |
| `FileSystem.ContentsAt` | kernel/fs.c:406-520 | each byte of a file is found by its block number in the inode or the indirect block, and by its offset in that block |
| `FileSystem.OwnedMeans` | kernel/fs.c:406-477 | set bits are exactly metadata plus blocks owned by inodes, and no block is owned twice |
| `FileSystem.EntryStillUsed` | kernel/fs.c:463-472 | freeing an indirect block's entries in order never frees a free block |
| `FileSystem.FileStore.constructor` | kernel/fs.h:8-13 | metadata blocks in use, every inode empty |
| `FileSystem.FileStore.Balloc` | kernel/fs.c:67-90 | the first free block, zeroed and now in use; none if and only if the disk is full |
| `FileSystem.FileStore.Bfree` | kernel/fs.c:93-107 | clears the bit of a block in use; the panic is excluded by a proved precondition |
| `FileSystem.FileStore.Bmap` | kernel/fs.c:406-445 | the address of the block, allocated if need be; a stored address never changes, no file's bytes change, and failure means a full disk; the address is the one that the inode, for the first 12 blocks, or else the four bytes of the indirect block hold for it |
| `FileSystem.FileStore.Itrunc` | kernel/fs.c:449-477 | the file is empty, its blocks are free, every other file is untouched, and no free block is freed |
| `FileSystem.FileStore.Readi` | kernel/fs.c:495-520 | exactly the clipped slice of the file, or -1 when copying fails; nothing is ever allocated; each byte is the one at its place in the block that the inode or the indirect block names |
| `FileSystem.FileStore.Writei` | kernel/fs.c:529-563 | the file is its old contents with the accepted bytes spliced in, no other file changes, rejection has an exact condition, and a short count has a cause; the limit is 274432 bytes |
| `FileSystem.FileStore.Run` | kernel/fs.c:406-563 | over any run of writes, reads and truncations, with failures anywhere, every file is the byte sequence the answers account for, reads return it, and a write falls short only at a byte that cannot be copied or on a full disk |
| `Umalloc.TilesMeans` | user/umalloc.c:24-90 | the memory obtained from sbrk is the disjoint union of free and live blocks |
| `Umalloc.SearchStep` | user/umalloc.c:29-32 | the search of free stops exactly at the block's place in the address order |
| `Umalloc.UnitsMean` | user/umalloc.c:68 | one unit for the header and just enough for the bytes asked for: less than a unit is wasted |
| `Umalloc.FreeKeeps` | user/umalloc.c:24-44 | freeing keeps one address-ordered cycle without adjacent free blocks that, with the live blocks, tiles the heap |
| `Umalloc.TakeWhole` | user/umalloc.c:76-77 | handing out a whole block keeps list and tiling |
| `Umalloc.TakeTail` | user/umalloc.c:78-82 | cutting the end off a block keeps list and tiling, and the piece was not live |
| `Umalloc.Grow` | user/umalloc.c:46-61 | memory from sbrk joins the tiling as a live block |
| `Umalloc.RequestMeans` | user/umalloc.c:46-54 | the number sbrk receives is the size asked for if and only if that fits an int; otherwise it is at most one unit |
| `Umalloc.BackedIff` | user/umalloc.c:52-60 | counting the size asked for as obtained is right if and only if it fits an int |
| `Umalloc.Allocator.Sbrk` | kernel/sysproc.c:41-64 | the break before the call, moved as growproc or the lazy branch moves it, or -1 with an exact condition |
| `Umalloc.Allocator.FindPlace` | user/umalloc.c:29-32 | the loop terminates within one lap at the block's place |
| `Umalloc.Allocator.Free` | user/umalloc.c:24-44 | exactly this block stops being live; the list stays ordered and coalesced; freep is the nearest free block below it, and a block of its size is found there or right behind |
| `Umalloc.Allocator.Morecore` | user/umalloc.c:46-61 | new memory of the size asked for, at least 4096 units, becomes one free block; blocks tile the memory obtained afterwards if and only if the request fitted an int; a refusal changes nothing |
| `Umalloc.Allocator.Malloc` | user/umalloc.c:63-90 | a new live block disjoint from all others, with room for the bytes and less than a unit to spare, cut from the end of the first block that fits after freep; sbrk is asked exactly when nothing fits, NULL if and only if it then refuses; blocks tile the memory obtained if and only if sbrk was not asked or the request fitted an int |
| `Umalloc.Run` | user/umalloc.c:24-90 | after any sequence of malloc and free, with refusals anywhere, the list is one ordered cycle and free and live blocks are disjoint and make up the memory obtained, if every request fits an int, and every block held has room for the bytes it was asked for and less than a unit to spare |
| `Umalloc.HugeMalloc` | user/umalloc.c:46-90 | the largest malloc gets a block of 2^28 + 1 units after obtaining one, and the next sbrk answers inside it |
| `SleepLocks.StepKeeps` | kernel/proc.c:560-629 | every step of every process keeps the invariant: who holds which spinlock, and that a sleeper finds the lock taken or a wakeup still ahead of it |
| `SleepLocks.Guaranteed` | kernel/proc.c:560-629 | a process changes only what it has locked, and wakes a sleeper only while holding its lock |
| `SleepLocks.NoLostWakeup` | kernel/proc.c:560-605 | after any run, a sleep lock that is free with its spinlock free has nobody asleep on it or on the way to sleep |
| `SleepLocks.MutualExclusion` | kernel/sleeplock.c:21-41 | after any run at most one process holds a sleep lock, and the lock's pid names it; it is marked exactly while one does |
| `SleepLocks.FreeNamesNobody` | kernel/sleeplock.c:33-41 | after any run a lock that nobody holds is not marked and names nobody |
| `SleepLocks.ReturnsHolding` | kernel/sleeplock.c:21-31 | after any run whoever returns from acquiresleep, having slept or not, is the one holder of the lock, with its spinlock free and no channel left |
| `SleepLocks.KeepsHolding` | kernel/sleeplock.c:33-41 | a holder stays one through every step of every process until its own releasesleep clears the lock |
| `SleepLocks.ReturnsReleased` | kernel/sleeplock.c:33-41 | whoever returns from releasesleep leaves the lock free and nobody asleep on it |
| `SleepLocks.ReturnsKilled` | kernel/proc.c:610-629 | whoever returns from kkill has reached its victim, which is not asleep |
| `SleepLocks.WakesOnly` | kernel/proc.c:591-629 | a step wakes another process only by a wakeup on the channel it sleeps on, or by killing it |
| `SleepLocks.LetsGo` | kernel/sleeplock.c:33-41 | a holder can always give the lock back by its own steps, which make exactly the sleepers on that lock runnable |
| `SleepLocks.PassedOn` | kernel/sleeplock.c:21-41 | a process that asks for a lock held by another has a run in which it sleeps, is woken by the release, and gets the lock |
| `SleepLocks.KilledSleepsAgain` | kernel/proc.c:560-629 | a process killed while it sleeps on a held lock has a run that wakes it and takes it back to where it was |
| `SleepLocks.Paused` | kernel/proc.c:511-519 | preempting a process and dispatching it again changes nothing |
| `SleepLocks.NoSpinDeadlock` | kernel/proc.c:560-629 | after any run, if a spinlock is held then some holder can take its next step |
| `Scheduling.NextAccounted` | kernel/trap.c:95-111 | one event keeps the level in range, the quantum not used up, and the per-level ticks summing to the ticks charged |
| `Scheduling.AccountedAlways` | kernel/trap.c:95-111 | so does any run of ticks, schedulings, boosts, system calls and state changes |
| `Scheduling.CpuBoundSinks` | kernel/trap.c:95-111 | a process scheduled at level 0 that makes no system call and is not boosted is at level 0, 1, 2, 3 after fewer than 2, 6, 14 and at least 14 ticks |
| `Scheduling.SinksFromPick` | kernel/proc.c:456-462 | the same from the moment the scheduler picks a process at the start of a quantum, whatever its counts were |
| `Scheduling.KeepsLevelIff` | kernel/trap.c:100-108 | a process picked at the start of a quantum of 2, 4, 8 or 16 ticks keeps its level at the end of it if and only if it has made at least that many system calls meanwhile, or is at level 3; otherwise it is one level down |
| `Scheduling.TickMeans` | kernel/trap.c:95-111 | one tick, field by field |
| `Scheduling.OnlyBoostsRaise` | kernel/trap.c:200-210 | without a boost the level number never falls |
| `Scheduling.Process.constructor` | kernel/proc.c:126-134 | a fresh process at level 0 with nothing charged |
| `Scheduling.Process.TimerTick` | kernel/trap.c:95-111 | the in-place update is the specified one, and the process yields exactly when its quantum is used up; every field is given outright |
| `Scheduling.BoostAll` | kernel/trap.c:200-210 | exactly the runnable and running processes move to level 0 with a fresh quantum |
| `Scheduling.ClockIntr` | kernel/trap.c:190-211 | only CPU 0 counts ticks; the table is boosted exactly on non-zero multiples of 128 |
| `Scheduling.BoostComes` | kernel/trap.c:196 | the next boost comes within 128 ticks unless the 32-bit counter wraps first, and within 256 in any case |
| `Scheduling.PickCloser` | kernel/proc.c:449-476 | passing over a ready process brings the scan strictly closer to it |
| `Scheduling.Cpu.ScanLevel` | kernel/proc.c:449-476 | the pick is the first ready slot in cyclic order after the last pick, none if and only if none is ready; the process runs with one more scheduling counted and its system calls counted from here, and nothing else about it changes |
| `Scheduling.Cpu.Pass` | kernel/proc.c:444-480 | one pass makes one round-robin choice per level, and levels do not disturb each other |
| `Scheduling.BoundedBypass` | kernel/proc.c:436-481 | a process ready whenever its level is scanned is picked after at most its cyclic distance in passes, so within NPROC |
| `TickRaces.MoveKeeps` | kernel/trap.c:95-111 | each access of the timer branch and each write of the boost keeps the invariant of the race |
| `TickRaces.AccountedInRaces` | kernel/trap.c:95-111 | however ticks and boosts interleave, when neither is under way the level exists, its quantum is not used up and every tick is charged once |
| `TickRaces.TickAlone` | kernel/trap.c:95-111 | undisturbed, the accesses of the timer branch amount to the specified tick |
| `TickRaces.BoostAlone` | kernel/trap.c:200-210 | undisturbed, the writes of the boost amount to the specified boost |
| `TickRaces.BoostInTick` | kernel/trap.c:95-111 | a boost in the middle of a tick leaves the process at level 0 after the tick if and only if it does not come at one of four kinds of points |
| `TickRaces.LostBoost` | kernel/trap.c:95-111 | every process that has used up its quantum reaches a point where a whole boost leaves it to sink all the same |
| `Virtqueues.Conservation` | kernel/virtio_disk.c:156-213 | free descriptors plus three per unreleased request equal NUM |
| `Virtqueues.RingsHaveRoom` | kernel/virtio_disk.c:271-277 | unread entries are at most a third of each ring, so posting and reporting overwrite none |
| `Virtqueues.IndicesMeet` | kernel/virtio_disk.c:312-324 | comparing the wrapped 16-bit indices compares the true counts |
| `Virtqueues.PostKeeps` | kernel/virtio_disk.c:235-279 | posting a request keeps every other chain and every unread entry |
| `Virtqueues.ReportKeeps` | kernel/virtio_disk.c:309-314 | a completion with any status, in whatever order, keeps them too |
| `Virtqueues.RunIsSafe` | kernel/virtio_disk.c:156-327 | over every interleaving: conservation, disjoint chains, no unread ring entry overwritten |
| `Virtqueues.Driver.constructor` | kernel/virtio_disk.c:120-146 | empty rings and all descriptors free |
| `Virtqueues.Driver.AllocDesc` | kernel/virtio_disk.c:155-166 | the first free descriptor, or none if and only if none is free |
| `Virtqueues.Driver.FreeDesc` | kernel/virtio_disk.c:168-182 | the descriptor is cleared and free; the double-free panic is excluded by a proved precondition |
| `Virtqueues.Driver.FreeChain` | kernel/virtio_disk.c:184-197 | following the links frees exactly the three descriptors of the chain |
| `Virtqueues.Driver.Alloc3` | kernel/virtio_disk.c:199-213 | three distinct free descriptors, or none taken and fewer than three free |
| `Virtqueues.Driver.Submit` | kernel/virtio_disk.c:215-281 | the request is encoded in a fresh chain and posted, its buffer marked busy; or it waits because fewer than three descriptors are free; header, three descriptors, bookkeeping and ring entry are given outright |
| `Virtqueues.Driver.DeviceTake` | kernel/virtio_disk.c:235-272 | what the device decodes from the ring and the chain is the request that was submitted, the oldest not yet taken, at its 32-bit sector number |
| `Virtqueues.SectorIff` | kernel/virtio_disk.c:218 | the sector number is twice the block number if and only if that is below 2^31; otherwise it is that of the block 2^31 lower |
| `Virtqueues.Driver.DeviceReport` | kernel/virtio_disk.c:309-314 | the device's completion, with the status it chooses, adds one entry to the used ring |
| `Virtqueues.Driver.SeeOne` | kernel/virtio_disk.c:312-324 | a panic if and only if the oldest unseen completion has a non-zero status; otherwise exactly its buffer is marked done |
| `Virtqueues.Driver.Intr` | kernel/virtio_disk.c:294-327 | completions are seen in order up to the first with a non-zero status, which panics, or all of them; exactly the buffers of those seen are marked done |
| `Virtqueues.Driver.Finish` | kernel/virtio_disk.c:283-291 | a request whose buffer is done was finished by the device; its chain is freed without a panic |
| `Pipes.EmptyAndFull` | kernel/pipe.c:88 | on wrapped counters equality still means empty and equality plus PIPESIZE still means full |
| `Pipes.Pipe.constructor` | kernel/pipe.c:33-36 | an empty pipe with both ends open |
| `Pipes.Pipe.Level` | kernel/pipe.c:15-18 | the wrapped difference of the counters is the number of buffered bytes, at most PIPESIZE |
| `Pipes.Pipe.Write` | kernel/pipe.c:76-103 | accepts exactly a stretch of the source and stops for the stated reason; leaves a reader stranded if and only if the writer is killed after its first byte while one waits |
| `Pipes.Pipe.Read` | kernel/pipe.c:105-134 | delivers the oldest bytes in order, as many as asked for, present and writable; sleeps if and only if the pipe is empty and the write end open; strands nobody |
| `Pipes.Pipe.Close` | kernel/pipe.c:58-74 | the end is closed and its waiters are woken; the page is freed exactly when both ends are closed, with nobody asleep |
| `Pipes.Pipe.Kill` | kernel/proc.c:610-629 | a killed process is no longer asleep on the pipe |
| `Pipes.Pipe.Run` | kernel/pipe.c:76-134 | over any interleaving of readers and writers, what was buffered plus what was put in is what was got plus what is buffered, in order; nobody is stranded unless some call met the stranding condition, which takes a writer cut short |
| `Pipes.StrandedReader` | kernel/pipe.c:84-87 | a reader asleep beside a buffered byte, after its writer was killed |
| `Grep.MatchHere` | user/grep.c:84-96 | true if and only if some prefix of the text is in the language of the pattern |
| `Grep.MatchStar` | user/grep.c:98-106 | true if and only if some run of the starred character is followed by a match of the rest |
| `Grep.Match` | user/grep.c:72-82 | true if and only if the pattern's language has a word at some position of the text, at the first one under `^` |
| `Grep.PlainIsSubstring` | user/grep.c:72-96 | a pattern without special characters is found exactly if it is a substring of the text |
| `Grep.Starred` | user/grep.c:98-106 | a starred character takes any number of itself, or of any characters if it is `.`, before the rest matches |
| `Grep.Dot` | user/grep.c:93-94 | `.` takes any one character |
| `Grep.Caret` | user/grep.c:75-76 | `^` at the start ties the match to the start of the text |

## Left out

- Memory ordering, fences, the TLB, context switches and interrupts enabling: lock-protected regions and device writes are atomic.
- The log and cache together with the file layer: `FileSystem` works on a plain array of blocks, which is what the log and cache are shown to provide.
- The allocation of root page tables in `Paging`: a root is any page outside the memory it manages.
- Faults on pages that a fault brought in: they have all permissions, so hardware takes none.
- uvmcopy, vmfault_alloc and copyin/copyout, which treat a swapped-out page as absent.
- The resident page count, whose increment on swap-in is commented out.
- Strict priority between scheduler levels, which the code does not have: a pass goes on to the next level after running a process.
- Contents of a chunk of `writei` whose copy fails half way; a chunk is copied entirely or not at all.
- Inode allocation, link counts, directories and path names; mkfs, whose result is where `FileStore` starts.
- What malloc and free do after a request whose size did not fit an int: the list then claims memory of others.
- Addresses in `Umalloc` count units of 16 bytes, so the program's own sbrk calls are for multiples of 16; the 32-bit size field of a header wraps only beyond 64 GB.
- In `LogRefinement` a commit that would have to wait for the lock of a logged buffer, which some reader holds; in `LogProtocol` it waits.
- 32-bit wrap-around of the per-process syscall and tick counters; the global tick counter does wrap.
- The alignment and range panics of kfree in `Paging`, where pages are names; in `PageTable` they are the condition `GoodPage`.
- frametable_set_ref, which nothing calls: reference bits are set when a frame is added and cleared by the clock.
- The log protocol and sleep locks as objects: they are state machines over values, because what is proved is about interleavings; each round of the loops of wakeup and kkill is a step.
- Pids: in `SleepLock` a process is named by its index in the process table, and kkill's search by pid is a search for an index.
- Device negotiation, notification registers, and the data the disk transfers; `Virtqueue` follows requests, not bytes.
- Waiters for free descriptors in the disk driver; `Submit` returns where the code sleeps.
- The read loop of grep, system calls, ELF loading, UART, console and boot: input and output only.
