# JOS and lwIP, verified models

JOS is a small teaching kernel with a user library, a file server and part of the lwIP network stack. This project
models its hardest parts in Dafny and proves what they promise. Values (page tables, heaps, block maps, queues) are
described by functions and relations. The code that changes them in place is written as methods on arrays, fields and
loops, proved against those descriptions. What holds over whole runs is proved as lemmas about the descriptions.

| part | modules |
|---|---|
| physical pages, page tables, page system calls | `Counting`, `Vm`, `VmFacts`, `EnvFacts`, `Syscalls`, `AddressMap`, `Pmap`, `RefLimit` |
| copy-on-write fork | `CowFork`, `CowInvariant`, `CowSteps`, `CowForkSteps`, `CowTheorem`, `ForkCode` |
| lwIP heap | `HeapModel`, `Heap` |
| file system, block cache, image builder | `Blocks`, `FsModel`, `FsFacts`, `FileServer`, `Cache`, `Format` |
| scheduler, kernel lock, IPC | `Sched`, `SchedSafety`, `SchedRuns`, `SchedWaiting`, `SchedCode` |
| packet buffers | `PbufModel`, `PbufData`, `PbufCut`, `PbufCode`, `PbufCopy` |
| pipes | `PipeEof`, `PipeRing`, `PipeJoint` |
| DNS query table | `Dns`, `DnsFacts`, `DnsCode` |

`dafny verify dfyconfig.toml` checks everything.

## Where the code does less than it says

Each of these is proved with its exact condition; the code is modelled as it is.

- Reference counts of pages are 16 bits wide and wrap (`VmFacts.AddRef`, `RefLimit.CountWraps`); in runs of fork they cannot get there (`CowTheorem.RefBound`).
- `page_free` does not recognise the last page of the free list as free already (`Pmap.DoubleFreeDetected`, `Pmap.DoubleFreeCycles`).
- `sys_page_alloc` takes its page before it looks the environment up, so a bad id strands the page (`Syscalls.SysPageAllocFacts`).
- The indirect block is allocated into an unsigned variable: on a full disk the error code becomes a block number and the server stops (`FileServer.Server.FileBlockWalk`).
- `file_set_size` accepts a negative size and one whose block count overflows (`FileServer.Server.FileSetSize`).
- `fsformat` with no files gives the root directory a block that is marked free (`Format.Image.Build`).
- `env_destroy` frees an environment that is already dying on another CPU; `sys_env_set_status` accepts any status for any environment (`SchedSafety.StepInv`).
- fork maps descriptor pages before data pages, so a pipe can report its end too early while a fork is under way (`PipeEof.HalfForkEndsEarly`, `PipeEof.EqualCountsMean`).
- A read can report the end of a pipe with bytes unread, if they were stored after it found the ring empty (`PipeJoint.EndOfStream`, `PipeJoint.EndsTooEarly`).
- pbuf totals and counts are 16 bits wide (`PbufData.CatTotals`, `PbufData.CatTotalsFails`, `PbufData.RefOk`, `PbufCode.RefWraps`).
- `pbuf_dechain` looks at a freed count of 8 bits and can return a freed pbuf (`PbufCode.Pool.Dechain`, `PbufCode.DechainDangles`); `pbuf_chain` without a chain counts a reference nobody holds (`PbufCode.Pool.ChainTo`).
- `dns_enqueue` compares 8-bit numbers without wrap-around and can refuse a query although an entry could be reused (`DnsFacts.ChosenFacts`, `DnsFacts.WrappedRefuses`).
- An answer with a time to live of 0 is kept for 2^32 ticks (`DnsFacts.CacheLife`).

Two smaller differences are simply followed: `sys_page_map` reports an unmapped source page as out of memory, where its
comment promises an invalid argument, and new data blocks are not cleared.

## Model

| member | source | states |
|---|---|---|
| VmFacts.AddRef | code/kern/pmap.c:547-551 | Storing a reference to a page in an empty slot and raising `pp_ref` keeps every count exact if and only if the 16-bit count does not wrap. |
| VmFacts.DropRef | code/kern/pmap.c:407-411 | Clearing a slot and calling `page_decref` keeps every count exact and strands no page: the page is freed with its last reference. |
| VmFacts.PageAllocFacts | code/kern/pmap.c:371-383 | A page taken from the free list had count 0, stands in no table of any environment, and taking it changes no translation. |
| VmFacts.PgdirWalkFacts | code/kern/pmap.c:436-467 | `pgdir_walk` with `create` fails exactly if the table is missing and no page is free, and then changes nothing; otherwise the directory names the table returned. |
| VmFacts.PageRemoveFacts | code/kern/pmap.c:603-616 | `page_remove` clears one translation, keeps all others, all directory entries, all contents and all counts exact. |
| VmFacts.PageInsertFacts | code/kern/pmap.c:531-553 | `page_insert` fails exactly if it needs a page table and no page is free, changing nothing; otherwise it maps exactly that page, and the counts stay exact if and only if it re-inserts the same page or the 16-bit count does not wrap. |
| AddressMap.PageInsertRefines | code/kern/pmap.c:531-553 | The two-level tables as a finite map: whatever the counts are, `page_insert` updates one key, or fails and leaves the whole state alone; the counts stay exact if and only if it does not wrap one. |
| AddressMap.PageRemoveRefines | code/kern/pmap.c:603-616 | `page_remove` deletes one key of that map. |
| AddressMap.PgdirWalkRefines | code/kern/pmap.c:436-467 | Creating a page table changes no key of that map. |
| AddressMap.EnvFreeRefines | code/kern/env.c:419-466 | `env_free` deletes exactly the keys of its environment and keeps the counts exact. |
| EnvFacts.EnvSetupVmFacts | code/kern/env.c:165-200 | A new address space is empty, its directory is counted, no other translation and no page in use changes; it fails exactly if no page is free. |
| EnvFacts.EnvFreeFacts | code/kern/env.c:419-466 | `env_free`, loop by loop, leaves no reference of its environment, every other slot and all contents as they were, and the counts exact. |
| EnvFacts.EnvFreeReleases | code/kern/env.c:419-466 | `env_free` lowers each page's count by the number of references that environment held, and frees exactly the pages nobody else references. |
| Syscalls.SysPageAllocFacts | code/kern/syscall.c:194-226 | `sys_page_alloc` maps a zeroed page nobody else maps, or changes no translation; exactly the bad-environment failure strands the page it took. |
| Syscalls.SysPageMapFacts | code/kern/syscall.c:245-279 | `sys_page_map` aliases the source page at the target, or changes nothing; when the target is mapped already it succeeds exactly if the source is mapped. |
| Syscalls.ApplyKeepsValid | code/kern/syscall.c:194-304 | A call keeps counts and free list exact if and only if it wraps no count, and strands exactly the page of a bad-environment allocation. |
| Syscalls.RunKeepsValid | code/kern/syscall.c:194-304 | Over every run of page calls, stores, address-space creations and removals: counts stay exact, the free list duplicate-free, and the pages lost are one per bad-environment allocation. |
| RefLimit.CountWraps | code/kern/pmap.c:531-553 | A run from a booted kernel after which a page with 65536 mappings has the count 0; up to the last call all counts are exact. |
| Pmap.DoubleFreeDetected | code/kern/pmap.c:390-400 | `page_free` recognises a page that is on the free list, unless it is the last one there. |
| Pmap.DoubleFreeCycles | code/kern/pmap.c:390-400 | Freeing that last page again makes a free list that never ends. |
| Pmap.BootValid | code/kern/pmap.c:305-356 | A kernel without environments starts with exact counts and no stranded page. |
| Pmap.Kernel.PageInit | code/kern/pmap.c:305-356 | The free list holds exactly the pages that are not page 0, the start-up page, the I/O hole or kernel memory, and the invariant holds. |
| Pmap.Kernel.PageAlloc | code/kern/pmap.c:371-383 | Takes the front page or fails on an empty list; with `ALLOC_ZERO` the new state is the one `PageAllocFacts` is about. |
| Pmap.Kernel.PageFree | code/kern/pmap.c:390-400 | Panics exactly on a linked or referenced page; otherwise pushes it, and makes the list endless exactly if the page was on it. |
| Pmap.Kernel.PageDecref | code/kern/pmap.c:407-411 | Lowers the count in 16 bits and frees at zero, on the linked free list. |
| Pmap.Kernel.PgdirWalk | code/kern/pmap.c:436-467 | The table or NULL; with `create` the new state is that of `PgdirWalkFacts`, without it nothing changes. |
| Pmap.Kernel.PageLookup | code/kern/pmap.c:567-585 | Returns the translation of the page and changes nothing. |
| Pmap.Kernel.PageRemove | code/kern/pmap.c:603-616 | In place, the state change that `PageRemoveRefines` shows to be a deletion. |
| Pmap.Kernel.PageInsert | code/kern/pmap.c:531-553 | In place, the state change that `PageInsertFacts` is about, the same-page case included. |
| Pmap.Kernel.EnvSetupVm | code/kern/env.c:165-200 | In place, the state change of `EnvSetupVmFacts`. |
| Pmap.Kernel.EnvFree | code/kern/env.c:419-466 | The two nested loops on the arrays are the `env_free` of `EnvFreeFacts`, `EnvFreeReleases` and `EnvFreeRefines`. |
| Pmap.Kernel.SysPageAlloc | code/kern/syscall.c:194-226 | In place, the call of `SysPageAllocFacts`; the invariant is kept. |
| Pmap.Kernel.SysPageMap | code/kern/syscall.c:245-279 | In place, the call of `SysPageMapFacts`. |
| Pmap.Kernel.SysPageUnmap | code/kern/syscall.c:289-304 | In place, `page_remove` for a valid target; the invariant is kept. |
| CowInvariant.StoreIsPrivate | code/lib/fork.c:16-90 | The key of the refinement: a page an environment stores to privately has no other mapping that anyone looks at. |
| CowTheorem.RefBound | code/lib/fork.c:65-90 | In a run of fork no reference count comes near 16 bits, because a page stands at most once in each environment. |
| CowTheorem.StepSim | code/lib/fork.c:16-149 | Each store, fault step, fork step, allocation, unmapping or exit of the copy-on-write system is a step of the eager one, or none. |
| CowTheorem.RunSim | code/lib/fork.c:16-149 | The same over every interleaved run. |
| CowTheorem.CowRefinesEager | code/lib/fork.c:16-149 | After every run each running environment sees, on every page from UTEXT to USTACKTOP, the bytes it would see if fork had copied every page that is not shared. |
| CowTheorem.ForkAlone | code/lib/fork.c:109-149 | A fork nobody interrupts: once the child runs, it and the parent see the bytes the parent saw before. |
| CowTheorem.BootedSim | code/lib/fork.c:109-149 | Every booted system is a starting point of the refinement. |
| ForkCode.Duppage | code/lib/fork.c:65-90 | The two system calls of `duppage`, on the page tables in place, are one or two steps of the refinement, the child mapped before the parent is re-marked. |
| ForkCode.ForkPage | code/lib/fork.c:128-136 | One round of fork's loop, an unmapped page included. |
| ForkCode.ForkLoop | code/lib/fork.c:128-136 | The loop hands over every page from UTEXT to USTACKTOP or abandons the child. |
| ForkCode.ForkCall | code/lib/fork.c:109-149 | `fork()` is a complete run of fork steps, so it succeeds just where that run does; then the child runs and every byte it sees is the parent's from before. |
| HeapModel.RoundedCovers | code/net/lwip/core/mem.c:484-497 | The working size covers the request exactly if aligning it does not wrap. |
| HeapModel.AllFreeIsWhole | code/net/lwip/core/mem.c:222-340 | Once every allocation is freed, one free struct spans the whole heap and `lfree` is 0. |
| Heap.LwipHeap.constructor | code/net/lwip/core/mem.c:260-286 | One free struct and the end marker, in order. |
| Heap.LwipHeap.PlugHoles | code/net/lwip/core/mem.c:222-254 | Merges the freed struct with exactly its free neighbours; other structs keep their payload bytes and state, and `lfree` becomes the lowest free struct. |
| Heap.LwipHeap.MemFree | code/net/lwip/core/mem.c:295-340 | NULL and foreign pointers are ignored; an allocation becomes free and merged, every other payload is untouched, and the heap is well-formed. |
| Heap.LwipHeap.FindFit | code/net/lwip/core/mem.c:518-534 | The scan from `lfree` finds the lowest free struct that fits, or shows there is none, though it stops early. |
| Heap.LwipHeap.MemMalloc | code/net/lwip/core/mem.c:480-605 | NULL exactly if the size is 0 or no free struct holds the rounded size; otherwise the lowest fitting struct is taken, split exactly where the rest can hold a struct, aligned, and nothing else changes. |
| Heap.LwipHeap.MemRealloc | code/net/lwip/core/mem.c:355-468 | Refuses exactly if the size grows; otherwise shrinks in place, keeping the kept bytes and all other payloads, and the rest becomes or joins a free struct. |
| Blocks.WordStored | code/fs/fs.c:168-168 | A block number stored in an indirect block is read back, and no other entry changes. |
| FsModel.AddOwner | code/fs/fs.c:182-199 | Giving a free block to an empty pointer keeps ownership single and leak-free if and only if the file's size needs that pointer. |
| FsModel.DropOwner | code/fs/fs.c:419-431 | Freeing an owned block and clearing its pointer keeps ownership single and leak-free. |
| FsFacts.ClaimTableOk | code/fs/fs.c:158-167 | A new indirect block disturbs no data of any file. |
| FsFacts.SetSizeOk | code/fs/fs.c:462-469 | A size is right exactly if it is not negative and the file owns nothing beyond it. |
| FileServer.Server.BlockIsFree | code/fs/fs.c:30-37 | Reads the bitmap; blocks beyond the disk are not free. |
| FileServer.Server.FreeBlock | code/fs/fs.c:41-47 | Panics on block 0, else sets that bit and no other. |
| FileServer.Server.AllocBlock | code/fs/fs.c:58-76 | Takes the lowest free block, or fails exactly if there is none. |
| FileServer.Server.FileBlockWalk | code/fs/fs.c:144-171 | All five outcomes by their exact conditions; when the disk is full the error is taken for a block number and the server stops. |
| FileServer.Server.FileGetBlock | code/fs/fs.c:182-199 | The block behind an entry, claimed if missing: it succeeds if and only if enough blocks are free for it and its indirect block, takes just those, and no other entry and no byte already there changes. |
| FileServer.Server.FileRead | code/fs/fs.c:364-385 | Returns the bytes from `offset` up to the end of the file; a backed range reads its old bytes, always succeeds and changes nothing. |
| FileServer.BackedAffordable | code/fs/fs.c:393-414 | A write to a range that is there costs no block and succeeds. |
| FileServer.Server.FileWrite | code/fs/fs.c:393-414 | Every byte of the file afterwards is the buffer's inside the range and the old one outside, across block and direct/indirect boundaries; other files are untouched; it succeeds if and only if the file can be that long and the free blocks cover the holes in the range and a missing indirect block. |
| FileServer.Server.FileFreeBlock | code/fs/fs.c:419-431 | Releases the block of one entry and keeps all other data; a missing indirect block is reported. |
| FileServer.Server.FileTruncateBlocks | code/fs/fs.c:443-458 | Releases exactly the blocks from the new end on, and the indirect block once no entry needs it. |
| FileServer.Server.FileSetSize | code/fs/fs.c:462-469 | For every size: the file system stays valid if and only if the size is not negative and its block count fits in an `off_t`; the kept blocks keep their data and other files keep theirs. |
| Cache.StepTransparent | code/fs/bc.c:30-98 | Faults, flushes and evictions of clean blocks cannot be seen; a store is seen as a store; a clean mapped block equals the disk's. |
| Cache.RunTransparent | code/fs/bc.c:30-98 | In every run the server sees what it would see without a cache. |
| Cache.FlushDurable | code/fs/bc.c:79-98 | A flush changes nothing to the eye, makes its block safe and leaves every safe block safe. |
| Cache.CrashLosesNothing | code/fs/fs.c:495-500 | If every block is safe, dropping the cache changes nothing. |
| Cache.BlockCache.PageFault | code/fs/bc.c:30-69 | Reads a block in; panics exactly on a block beyond the disk or a free one. |
| Cache.BlockCache.FlushBlock | code/fs/bc.c:79-98 | Writes exactly a mapped dirty block and clears its dirty bit. |
| Cache.BlockCache.FsSync | code/fs/fs.c:495-500 | After it, dropping the whole cache changes nothing the server sees. |
| Cache.BlockCache.FileFlush | code/fs/fs.c:476-490 | Every block of the file, its indirect block and the block of its inode would survive losing the cache; nothing visible changes. |
| Format.Image.Alloc | code/fs/fsformat.c:82-89 | Moves the disk position by whole blocks and panics exactly if it reaches the end. |
| Format.Image.OpenDisk | code/fs/fsformat.c:92-120 | Block 0, super block and bitmap; every block marked free. |
| Format.Image.FinishFile | code/fs/fsformat.c:135-148 | The inode names the run of blocks, direct and indirect; other files and the data are untouched. |
| Format.Image.WriteFile | code/fs/fsformat.c:181-209 | The file's bytes read back; earlier files are untouched; panics exactly if it does not fit. |
| Format.Image.FinishDir | code/fs/fsformat.c:170-178 | The directory's own blocks; an empty directory is given a block nobody allocated. |
| Format.Image.FinishDisk | code/fs/fsformat.c:123-132 | Marks exactly the blocks below the disk position in use. |
| Format.Image.Build | code/fs/fsformat.c:219-243 | Succeeds exactly if everything fits; marks exactly the used blocks; every file reads back; and the image satisfies the server's ownership invariant if and only if there was at least one file. |
| Format.FormatThenRead | code/fs/fsformat.c:219-243 | The server's `file_read` on a built image returns each file's original bytes. |
| SchedSafety.StepInv | code/kern/trap.c:289-347 | A step of any CPU (a trap, each of the two tests of `trap`, a turn of `lock_kernel`, the work, the way out) keeps the kernel in order if and only if it is no second destroy of a dying environment and no `set_status` that contradicts a CPU or a receive. In order: no second attempt on a held lock, no work without it, each running or dying environment on exactly one CPU, receivers not runnable. |
| SchedSafety.OneTest | code/kern/trap.c:302-317 | Of the two tests of `trap`, halted CPU and user mode, exactly one finds that the lock must be taken. |
| SchedSafety.EnvRunOk | code/kern/env.c:523-553 | Letting an environment run that is on no other CPU puts the kernel in order. |
| SchedSafety.SetStatusInv | code/kern/syscall.c:105-124 | Exactly which uses of `sys_env_set_status` are safe. |
| SchedRuns.RunInv | code/kern/trap.c:289-347 | Over every run on any number of CPUs, the kernel stays in order throughout exactly if each step is safe. |
| SchedRuns.LockedOnce | code/kern/trap.c:302-317 | In every safe run, whenever a CPU is in user code or halted it has taken the lock once for each entry, released it once for each exit, and left as often as it entered. |
| SchedRuns.BootedInv | code/kern/env.c:119-131 | A booted machine is in order. |
| SchedRuns.OneCpuEach | code/kern/env.c:523-553 | A running or dying environment is current on exactly one CPU. |
| SchedRuns.SecondDestroyFails | code/kern/env.c:473-489 | Two CPUs where a second destroy of a dying environment frees it under the CPU that still runs it. |
| SchedRuns.RestartFails | code/kern/syscall.c:105-124 | Two CPUs where `set_status` makes a running environment runnable. |
| SchedRuns.StartChildSafe | code/kern/syscall.c:105-124 | As fork uses it, `set_status` is safe. |
| SchedRuns.RunIpc | code/kern/syscall.c:345-421 | Over every run: between two receives at most one send succeeds, and the sender and value found on waking are that send's. |
| SchedRuns.ReceivedOnce | code/kern/syscall.c:345-421 | From start-up on, between two messages an environment gets it has asked to receive. |
| SchedRuns.FailedSendKeeps | code/kern/syscall.c:345-393 | A send that fails leaves a waiting environment entirely as it was. |
| SchedWaiting.WorkLeaves | code/kern/trap.c:319-347 | A CPU that holds the lock comes to the end of its work without a panic: it has given the lock up, or is in the monitor. |
| SchedWaiting.ChosenRuns | code/kern/sched.c:12-48 | If any environment is runnable, `sched_yield` lets a runnable one run. |
| SchedWaiting.DecisionNearer | code/kern/sched.c:33-45 | A scheduling decision of a run that passes over a runnable environment brings the CPU's search strictly nearer to it. |
| SchedWaiting.PassedOver | code/kern/sched.c:33-45 | In every run, a CPU whose own environments do not end makes at most as many decisions as a runnable environment is far, while it stays runnable. |
| SchedWaiting.BoundedWaiting | code/kern/sched.c:12-48 | From start-up on, from any point of a run: fewer than NENV decisions while an environment stays runnable, whatever the other CPUs do. |
| SchedCode.Machine.SpinLock | code/kern/spinlock.c:61-79 | One exchange: takes the lock exactly if it is free; the machine stays in order, so it never finds the lock its own. |
| SchedCode.Machine.Test | code/kern/trap.c:302-317 | The two conditionals of `trap` on the CPU's fields: the one of a halted CPU fires for an interrupt in the halt loop, the other for a trap from user code. |
| SchedCode.Machine.Out | code/kern/sched.c:84-96 | The switch to user mode or the halt loop; the machine stays in order. |
| SchedCode.Machine.SchedYield | code/kern/sched.c:12-48 | The circular search in place, as the decision `DecisionNearer` is about. |
| SchedCode.Machine.SchedHalt | code/kern/sched.c:54-96 | The halt, which gives up environment and lock. |
| SchedCode.Machine.EnvRun | code/kern/env.c:523-553 | If the environment may run, it runs as the CPU's own, the lock is free and the machine is in order. |
| SchedCode.Machine.EnvDestroy | code/kern/env.c:473-489 | Returns exactly if the environment is not the CPU's own; a running one elsewhere becomes dying. |
| SchedCode.Machine.Envid2Env | code/kern/env.c:77-110 | Finds the one environment in use with that id, if the caller may touch it, and fails exactly if there is none; ids are unique. |
| SchedCode.Machine.SysExofork | code/kern/syscall.c:76-95 | The new id names a child of the caller that is not runnable and not receiving; each error by its exact condition. |
| SchedCode.Machine.SysEnvSetStatus | code/kern/syscall.c:105-124 | The caller or a child of it gets any status from 0 to 4 and nothing else changes; both errors by their exact conditions. |
| SchedCode.Machine.SysIpcTrySend | code/kern/syscall.c:345-393 | Succeeds exactly if the target is receiving and the page part can be done; otherwise nothing changes. |
| SchedCode.Machine.SysIpcRecv | code/kern/syscall.c:407-421 | The caller waits with an empty mailbox, its CPU has left for another environment, and machine and mailboxes stay in order. |
| SchedCode.Machine.Trap | code/kern/trap.c:319-347 | Everything between taking the lock and giving it up: the machine stays in order if and only if the trap is safe; the mailboxes always do, the lock is given up and nothing panics. |
| SchedCode.Machine.constructor | code/kern/env.c:119-131 | The start-up state, in order. |
| PbufModel.LiveReachable | code/net/lwip/core/pbuf.c:457-522 | Nothing leaks: every pbuf in use is reachable from a handle. |
| PbufModel.FreeOk | code/net/lwip/core/pbuf.c:457-522 | Giving up a handle keeps every count equal to handles plus incoming links. |
| PbufModel.FreedExactly | code/net/lwip/core/pbuf.c:457-522 | A pbuf goes if and only if no remaining handle leads to it. |
| PbufCode.FreedIsLone | code/net/lwip/core/pbuf.c:457-522 | What `pbuf_free` frees is the front of the chain that nobody else refers to. |
| PbufData.TotIsLength | code/net/lwip/core/pbuf.c:269-327 | `tot_len` is the number of bytes from there to the end of the chain. |
| PbufData.CatConcatenates | code/net/lwip/core/pbuf.c:573-595 | The bytes of the joined chain are the one's followed by the other's. |
| PbufData.CatTotals | code/net/lwip/core/pbuf.c:573-595 | On unshared chains all totals stay right if and only if the sum fits in 16 bits. |
| PbufData.CatTotalsFails | code/net/lwip/core/pbuf.c:573-595 | Two chains of 32768 bytes whose joint total is recorded as 0. |
| PbufData.RefOk | code/net/lwip/core/pbuf.c:551-560 | Counts stay right if and only if the 16-bit count does not wrap. |
| PbufCode.RefWraps | code/net/lwip/core/pbuf.c:551-560 | A pbuf with 65535 references whose count one more reference makes 0. |
| PbufCut.FreeWhole | code/net/lwip/core/pbuf.c:457-522 | A chain of pbufs with one reference each is freed as a whole. |
| PbufCode.Pool.Free | code/net/lwip/core/pbuf.c:457-522 | The loop frees the pbufs of `FreedExactly` and returns their number in 8 bits; the pool gets exactly the pool pbufs back. |
| PbufCode.Pool.Ref | code/net/lwip/core/pbuf.c:551-560 | One more reference; the state is in order exactly if the count does not wrap. |
| PbufCode.Pool.Cat | code/net/lwip/core/pbuf.c:573-595 | The loop joins two separate chains; the bytes concatenate and the tail's handle passes to the chain. |
| PbufCode.Pool.ChainTo | code/net/lwip/core/pbuf.c:614-620 | As `pbuf_cat`, but the caller keeps its reference; in order exactly if there is nothing to append, or a chain to append to and the count does not wrap: without such a chain the reference is still counted. |
| PbufCode.Pool.Dechain | code/net/lwip/core/pbuf.c:631-659 | Cuts the first pbuf off; frees as many as stand at the front of the rest with no other reference; the result is NULL or in use if and only if that number is 0 or no multiple of 256; the rest keeps its bytes if it stays. |
| PbufCode.DechainDangles | code/net/lwip/core/pbuf.c:631-659 | For every n, a chain whose other n pbufs all go: with n a multiple of 256 a freed pbuf is returned. |
| PbufCode.Pool.Realloc | code/net/lwip/core/pbuf.c:269-327 | Keeps exactly the first `new_len` bytes of an unshared chain, with right totals; never lengthens; leaves every pbuf off the chain alone. |
| PbufCode.Pool.Alloc | code/net/lwip/core/pbuf.c:113-207 | A chain of exactly `length` bytes made of new pbufs, or NULL exactly if the pool is too small, and then the pool holds what it held. |
| PbufCopy.CopyPartial | code/net/lwip/core/pbuf.c:744-779 | Returns exactly the clamped slice of the chain's bytes. |
| PbufCopy.Copy | code/net/lwip/core/pbuf.c:680-732 | Across different fragmentations the source's bytes replace the first bytes of the target and nothing else; refused exactly if a chain is missing or the target too short; with no empty pbuf it succeeds, with one it may be refused or stop, how much was copied being stated. |
| PipeEof.StepInv | code/lib/fd.c:175-202 | Every step of dup, close, fork, exit and of a check keeps the invariant: a descriptor is mapped only where its data page is. |
| PipeEof.RefsBound | code/lib/pipe.c:76-89 | The pipe page has at least as many references as both descriptors together. |
| PipeEof.ClosedMeansGone | code/lib/pipe.c:76-89 | When the check says closed, nobody holds the other end. |
| PipeEof.QuietExact | code/lib/pipe.c:76-89 | With no dup or close under way, the check says closed if and only if nobody holds the other end. |
| PipeEof.RunInv | code/lib/pipe.c:76-89 | The invariant over every run. |
| PipeEof.EofIsFinal | code/lib/pipe.c:105-137 | In every run, once the pipe is reported closed, nobody holds the other end then or ever after. |
| PipeEof.Created | code/lib/pipe.c:29-73 | `pipe()` starts in order. |
| PipeEof.HalfForkEndsEarly | code/lib/fork.c:65-90 | A run from the creation of the pipe with a fork that maps descriptor pages before data pages: in its middle a reader is told of an end that has not come. |
| PipeEof.EqualCountsMean | code/lib/pipe.c:76-89 | Exactly when the two counts agree, in every state, the middle of a fork included. |
| PipeEof.AskRun | code/lib/pipe.c:76-89 | An undisturbed check compares the counts of that very state. |
| PipeRing.Fifo | code/lib/pipe.c:105-172 | In every interleaving the reader has received a prefix of what was sent, in order. |
| PipeJoint.StepInv | code/lib/pipe.c:75-190 | Holders and ring together: every step of dup, close, fork, exit, write, read and of `_pipeisclosed` keeps them consistent. |
| PipeJoint.EndOfStream | code/lib/pipe.c:105-137 | In every run in which a read returns 0, the stream is complete whatever follows; the reader has received all of it if and only if no byte was stored between its finding the ring empty and the beginning of `_pipeisclosed`. |
| PipeJoint.EndsTooEarly | code/lib/pipe.c:118-124 | A run in which read returns 0 with a byte unread: it was stored, and the pipe closed, after the ring had been found empty. |
| PipeRing.Ring.Read | code/lib/pipe.c:105-137 | Takes the next bytes of the stream, as many as asked for or there, and asks whether the pipe is closed exactly if there were none. |
| PipeRing.Ring.Write | code/lib/pipe.c:140-172 | Appends to the stream until the data is out or the ring is full, and asks whether the pipe is closed exactly in the second case. |
| DnsFacts.StepOk | code/net/lwip/core/dns.c:478-764 | A tick, a reply, a query or a change of servers keeps: each accepted query is pending in one entry and not called, or not pending and called once. |
| DnsFacts.RunOk | code/net/lwip/core/dns.c:478-764 | The same over every run. |
| DnsFacts.NeverTwice | code/net/lwip/core/dns.c:566-702 | No callback is called twice in any run. |
| DnsFacts.CalledInTime | code/net/lwip/core/dns.c:478-558 | An accepted query's callback has been called exactly once after 7 * DNS_MAX_SERVERS ticks, whatever else happens. |
| DnsFacts.SilentTimeout | code/net/lwip/core/dns.c:478-545 | Without a reply the query waits exactly 7 ticks at each configured server: the bound is sharp. |
| DnsFacts.ChosenFacts | code/net/lwip/core/dns.c:713-752 | An unanswered query is never replaced, an unused entry is preferred, and the query is refused exactly if there is none, no completed entry has a number below the next one and entry 0 is not completed. |
| DnsFacts.OldestReplaced | code/net/lwip/core/dns.c:721-748 | Of the completed entries with a number below the next one, the oldest is replaced. |
| DnsFacts.WrappedRefuses | code/net/lwip/core/dns.c:721-748 | After the 8-bit number wraps, with query 255 answered and 257 being asked, a query is refused although a completed entry could be reused. |
| DnsFacts.LookupAnswered | code/net/lwip/core/dns.c:305-321 | A cached address is one that a query of that name was answered with, and its callback was given it. |
| DnsFacts.CacheLife | code/net/lwip/core/dns.c:528-537 | A cached answer expires at exactly the tick its time to live promises, if that is not 0; one with 0 is kept for 2^32 ticks. |
| DnsCode.Resolver.constructor | code/net/lwip/core/dns.c:217-244 | The empty table with the default server first is in order. |
| DnsCode.Resolver.CheckEntry | code/net/lwip/core/dns.c:478-545 | The counters of an entry in place, as the tick that `CalledInTime` is about. |
| DnsCode.Resolver.CheckEntries | code/net/lwip/core/dns.c:551-558 | The loop over the table is one tick; the invariant is kept. |
| DnsCode.Resolver.Recv | code/net/lwip/core/dns.c:566-702 | A reply completes or fails the entry its 8-bit identifier names, if that one waits; the invariant is kept. |
| DnsCode.Resolver.Enqueue | code/net/lwip/core/dns.c:713-764 | Accepts by the exact condition of `ChosenFacts`, leaves every unanswered query's entry alone and keeps the invariant. |
| DnsCode.Resolver.Lookup | code/net/lwip/core/dns.c:305-321 | The search that `LookupAnswered` is about. |

## Left out

- VmFacts.PageInsertFacts: for pages that serve as data; mapping the kernel's own or a table's page is not described.
- Pmap.Kernel.EnvFree: the CPU's `cr3` and the environment's entry in the environment table are in `SchedCode`, not here.
- PbufData.CatTotals: for unshared chains, as the totals of a pbuf shared by two chains cannot both be right.
- PbufCopy.Copy: for chains without a common pbuf; which empty pbufs bring a refusal and which a stop is not said.
- PbufCode.Pool.Alloc: PBUF_POOL only; PBUF_RAM, PBUF_ROM and PBUF_REF make one pbuf and no loop.
- PbufCode.Pool.Realloc: the memory that a shortened PBUF_RAM pbuf gives back to the heap is not described.
- FileServer.Server.FileWrite: for ends of at most 0x7FFFF000 bytes; offsets that overflow 32 bits are not described.
- FileServer.Server.FileRead: a hole on the way is given a block whose bytes are whatever the block held, as in the code.
- Format.Image.Build: the layout of directory entries and the names in them are given as bytes.
- PipeRing.Ring.Read: positions do not wrap at 32 bits.
- SchedCode.Machine.SysIpcTrySend: whether the page part of a send can be done is an input; page transfer and its error codes are not described.
- PipeJoint.EndOfStream: one environment reads, and writers do not interleave within a byte.
- SchedWaiting.BoundedWaiting: for a CPU whose own environments do not end meanwhile, as its search then starts over.
- DnsCode.Resolver.Recv: works on a decoded message; name compression and the bytes of a message are not described.
- DnsFacts.CalledInTime: callbacks do not call back into the resolver.
- `env_runs` does not wrap in the pipe model, and a check on another CPU is not part of it.
- Kernel half of the address space, `boot_map_region`, MMIO, TLB and `user_mem_check`.
- Trap frames, registers, exceptions other than system call, timer and destroying faults.
- The retry loops of `ipc_send` and `ipc_recv` in the user library, which repeat the calls modelled here.
- Directories, path lookup, `file_create`, the serving loop of the file server and its descriptors.
- Port I/O, the disk driver, console, network card, sockets, netconn, DHCP.
- `lib/malloc.c`, the shell, user programs, the kernel monitor and the consistency tests of the kernel.
