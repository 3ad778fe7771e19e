# Verified models of an xv6-style kernel

This project models the parts of a RISC-V/LoongArch teaching kernel that are hardest to get
right, and proves what they are for. `dafny verify dfyconfig.toml` checks everything.

- **Paged memory.** `Sv39` has page-table entries, the hardware's three-level walk, and the tree of
  table pages that a walk sees (no table page shared). `PhysicalMemory` is RAM plus the page allocator, whose
  `blk` maps each allocated page to the first page of its block. `PageTables` has the class `PageTable` with walk
  and freewalk; `VirtualMemory` maps and unmaps; `AddressSpace` grows and shrinks; `Heap` is brk; `UserCopy` copies
  between kernel and user; `Fork` duplicates address spaces; `Isolation` says what running processes share; `Lifecycle`
  keeps page accounts over runs of steps, and `ProcessLife` follows a process from alloc_proc to freeproc.
  Translations are stated with `HwPte`, the hardware walk over raw memory bytes, not with the code's own walk.
- **Processes.** `SleepWakeup`, `WaitExit`, `SpinLocks`, `ContextSwitch` and `Scheduler` are state machines over
  atomic steps. Their theorems quantify over all runs, all interleavings and any number of processes or CPUs.
- **Buffer cache.** `Bitmaps`, `BufferBlocks` (one set, with the pointer-linked LRU ring), `BufferCache` (the manager) and
  `CacheClients` (clients with any number of handles). The reference is a plain disk without a cache.
- **Program start.** `UserStack` is the descending stream over stack pages, `ExecStack` what execve writes through it
  and a decoder that reads it back as a program's start code does (System V ABI process initialisation).
- **Console.** `Console` is the line discipline over a ring with wrapping indices; the reference is an edit line.

A call of `log_panic`, which never returns, is the outcome `Panic`; error returns are `Failed`. `refused` counts the requests that the
page allocator has turned down, so that contracts can say what happens when it turns down none.

Findings, each kept as the code has it and stated as a theorem:

- A failed `vm_alloc` that runs into an already mapped page restores every translation exactly if that page begins a
  block of its power-of-two decomposition (`RestoredExactly`); otherwise entries to freed pages stay behind
  (`ResidueExample`). Over an unmapped range it is all or nothing (`AtomicWhenUnmapped`).
- The cache keeps 32 bits of the tag, so addresses 2^41 sectors apart are the same to it (`Aliases`); splitting and
  rebuilding an address agrees exactly below 2^41 (`LbaRoundTrip`), and a set stays in step with the disk exactly if
  what was read belongs to the new tag (`Refill`). The header's comment describes a 39-bit tag field; the mask is 45 bits wide.
- The stack pointer that execve hands over is 16-byte aligned exactly if the numbers of arguments and environment
  strings add up to an odd number (`FinalAlignment`).
- Exactly 32 argument or environment strings make execve store one pointer past the end of its array (outcome `Overrun`).
- `kill` takes a pid for a slot number and does not ask whether the slot is in use; a new process inherits the flag (`KilledAtBirth`).
- Tasks with a priority value above 19 are never dispatched (`BelowLowestNeverRuns`), although the header allows 0 to 20.
- Freeing a page inside an allocator block does nothing; freeing the first page frees the whole block. Heap shrinking is safe
  because blocks start at or below the pages they back (`HeapShape`). A freeing unmap keeps ownership exactly if it tears no
  block apart (`VmUnmap`); `TornBlock` and `StolenPage` show how a torn block ends in freeing a page under its new owner.
- After a failed brk the mapped heap pages are still exact if and only if memory ran out or the first foreign page above the
  heap begins a block of the decomposition (`GrowTo`, `Brk`). `BrkOverMmap` is the case in which they are not: memory-mapped areas
  are placed at the sum of the segment sizes, which may lie just above the heap.
- All processes share the trampoline's frame, mapped for the kernel only. Stores into one process never change a translation or a
  user-visible byte of another (`StoresAreInvisible`); they change none of its frames if and only if they avoid shared pages
  (`ForkIsolation`). copyout tests neither bound nor user bit, so it can write the trampoline (`TrampolineStore`).

## Model

| member | source | states |
|---|---|---|
| Sv39.PteRoundTrip | hal/riscv/page.cc:34-47 | set_data on an aligned address with ten flag bits gives an entry from which to_pa, get_flags and the predicates (valid, directory, user, readable, writable, executable) recover exactly address and flags |
| Sv39.HardwareSeesTree | kernel/mm/page_table.cc:28-82 | the hardware walk over raw bytes agrees with the tree of table pages for every virtual page |
| Sv39.SlotsAreDistinct | kernel/mm/page_table.cc:28-82 | different virtual pages have different leaf slots |
| PhysicalMemory.Memory.AllocPages | kernel/mm/buddy_algorithmn/buddy_allocator.cc:71-132 | a block of the next power of two of contiguous pages that were free, the requested ones zero-filled, or nothing changes; never for zero pages; a single page is refused exactly if none is free |
| PhysicalMemory.Memory.FreePages | kernel/mm/buddy_algorithmn/buddy_allocator.cc:134-206 | frees exactly the block that starts on the page; nothing for a page inside a block |
| PageTables.PageTable.NextLevel | kernel/mm/page_table.cc:213-235 | follows or allocates one level; no leaf entry changes, and nothing at all changes without alloc; fails exactly if the level is absent and may not be, or cannot be, allocated |
| PageTables.PageTable.Walk | kernel/mm/page_table.cc:28-82 | for every address, returns the slot that the hardware would read, ignoring bits above the indices; changes no translation, grows the tree on free pages only; without alloc succeeds exactly if the directories exist, with alloc fails only if they do not and no page is left |
| PageTables.PageTable.FreeTable | kernel/mm/page_table.cc:120-154 | frees exactly the table pages of the subtree, each once, touches no other page, and leaves no directory entry in the table |
| PageTables.PageTable.FreeWalk | kernel/mm/page_table.cc:120-154 | the allocation state loses exactly the table pages of the tree |
| VirtualMemory.MapPages | kernel/mm/virtual_memory_manager.cc:54-84 | maps exactly the requested pages, in order, and nothing else, whoever owns the frames; returns false exactly if it meets a page that was mapped before, and then at the first; panics only when no page is left for a table |
| VirtualMemory.VmUnmap | kernel/mm/virtual_memory_manager.cc:393-414 | clears exactly the requested entries, frees exactly the blocks starting there, panics exactly at the first unmapped page; ownership survives if and only if no block is torn apart |
| AddressSpace.VmAlloc | kernel/mm/virtual_memory_manager.cc:86-138 | if the allocator refuses nothing, succeeds exactly if the range from round_up(old) to round_up(new) is unmapped; then exactly its pages are added, fresh, zeroed, distinct, readable, writable unless for code alone, executable only for code, reachable by the user only if asked, one contiguous block per set bit of their number; on failure everything is as before but new table pages and the explained residue, whose entries name consecutive frames that are free |
| AddressSpace.RestoredExactly | kernel/mm/virtual_memory_manager.cc:86-138 | a failure at a mapped page leaves no residue if and only if that page begins a block of the decomposition |
| AddressSpace.AtomicWhenUnmapped | kernel/mm/virtual_memory_manager.cc:86-138 | over an unmapped range a failure can only be memory exhaustion, which restores every translation |
| AddressSpace.ResidueExample | kernel/mm/virtual_memory_manager.cc:86-138 | a growth over an unmapped and a mapped page never succeeds; unless the allocator refuses a request it fails and leaves the first page mapped to a frame that is free |
| AddressSpace.RollBackGrowth | kernel/mm/virtual_memory_manager.cc:104-131 | unmapping the pages added so far gives back the old translations and allocation state, up to table pages |
| AddressSpace.VmDealloc | kernel/mm/virtual_memory_manager.cc:140-155 | unmaps and frees exactly the pages from round_up(new) to round_up(old) |
| Heap.UserHeap.GrowTo | kernel/pm/process_manager.cc:1625-1629 | if the allocator refuses nothing, succeeds exactly if the target lies below the first foreign page; after a failure the heap is still exact if and only if the allocator refused or that page begins a block, else the pages up to it stay mapped to free frames |
| Heap.UserHeap.Brk | kernel/pm/process_manager.cc:1609-1635 | moves the end of the heap, or returns -1 with the heap fields unchanged; all bytes outside the pages between the two ends read as before, added pages read as zeros and may be written but not executed; whether the mapped pages are still exact after a failure is stated as an equivalence |
| Heap.UserHeap.BrkAll | kernel/pm/process_manager.cc:1609-1635 | after any sequence of safe targets, failed ones included, the mapped heap pages are exactly those below the current end, which is the last target that fits unless the allocator refused; an empty heap has given back all its pages |
| Heap.UserHeap.AllGivenBack | kernel/mm/virtual_memory_manager.cc:140-155 | when the heap is empty again the allocation state is that from before it grew, plus table pages |
| Heap.BrkOverMmap | kernel/pm/process_manager.cc:1885-1907 | a memory-mapped area 17 pages above an empty heap: growing by 32 pages never succeeds, and unless the allocator refuses leaves 17 stray entries to free frames |
| UserCopy.CopyOut | kernel/mm/virtual_memory_manager.cc:369-391 | the page-wise copy equals storing byte by byte through the translations, up to the first unmapped page |
| UserCopy.CopyIn | kernel/mm/virtual_memory_manager.cc:189-211 | returns the bytes that user mode reads there, stopping at the first address it may not read |
| UserCopy.WalkAddr | kernel/mm/page_table.cc:84-102 | the physical address of a user-accessible mapped page, else 0 |
| UserCopy.CopyStrIn | kernel/mm/virtual_memory_manager.cc:213-249 | yields exactly the bytes before the first NUL, and succeeds if and only if one lies within max readable bytes; panics exactly if it runs into a page without directories |
| UserCopy.CopyRoundTrip | kernel/mm/virtual_memory_manager.cc:189-391 | bytes stored by copyout over any number of injectively mapped user pages read back equal; all other addresses keep their bytes |
| UserCopy.ThereAndBack | kernel/mm/virtual_memory_manager.cc:189-391 | copyout followed by copy_in both succeed there and return the bytes |
| Fork.VmCopy | kernel/mm/virtual_memory_manager.cc:430-468 | the child gets the parent's flags and contents on fresh pages, or nothing but table pages is left; the parent's translations stay and the two share no page; unless the allocator refuses, the outcome is decided by the first page that the parent does not map (panic) or the child maps already (error) |
| Fork.VerdictMeans | kernel/mm/virtual_memory_manager.cc:430-468 | a copy that the allocator does not refuse succeeds exactly if the parent maps the whole range and the child nothing of it |
| Fork.UndoCopies | kernel/mm/virtual_memory_manager.cc:451-464 | removes exactly the leaf mappings that a failed copy added and frees their pages |
| Fork.ForkedBytes | kernel/mm/virtual_memory_manager.cc:430-468 | every copied address reads in the child what it read in the parent |
| Isolation.MapTrampoline | hal/riscv/qemu/qemu.cc:135-140 | maps the trampoline for the kernel unless its page is taken, and changes no other translation; panics only when no page is left |
| Isolation.ForkMemory | kernel/pm/process_manager.cc:376-455 | after all ranges are copied and proc_init, the child reads the parent's bytes in each range, the parent reads what it read before, and they share the trampoline's frame and nothing else; unless the allocator refuses, this succeeds exactly if every range is aligned, mapped in the parent, and neither mapped in the child nor copied before |
| Isolation.ForkIsolation | kernel/mm/virtual_memory_manager.cc:369-391 | stores into a range of one process can change no frame of the other if and only if no page of the range is a shared one that the other maps |
| Isolation.StoresAreInvisible | kernel/mm/virtual_memory_manager.cc:369-391 | wherever they go, stores into one process change no translation and no user-visible byte of the other, and the two stay isolated |
| Isolation.TrampolineStore | kernel/mm/virtual_memory_manager.cc:369-391 | a copyout to the trampoline's address changes the frame that the other process maps too |
| Lifecycle.VmCreate | kernel/mm/virtual_memory_manager.cc:416-427 | an empty address space on one fresh page, or, exactly if no page is left, a panic with nothing changed |
| Lifecycle.DoMapFresh | kernel/mm/virtual_memory_manager.cc:54-84 | alloc_page and map_pages add one accounted page, or nothing but table pages; an error without a refusal means that the page was mapped |
| Lifecycle.DoAlloc | kernel/mm/virtual_memory_manager.cc:86-138 | vm_alloc adds accounted blocks, or nothing but table pages when no residue threatens; an error without a refusal means that the range was not free |
| Lifecycle.DoDealloc | kernel/mm/virtual_memory_manager.cc:140-155 | vm_dealloc removes and frees exactly its range, and panics exactly if some page of it is unmapped |
| Lifecycle.DoCopy | kernel/mm/virtual_memory_manager.cc:430-468 | vm_copy adds accounted pages to the child, or nothing but table pages; the outcome without a refusal is that of VmCopy |
| Lifecycle.DoMapForeign | hal/riscv/qemu/qemu.cc:135-140 | mapping a page that others own adds nothing but table pages; an error exactly if the virtual page is mapped |
| Lifecycle.DoUnmap | kernel/mm/virtual_memory_manager.cc:393-414 | clears exactly its range, freeing its blocks or not, and panics exactly if some page of it is unmapped |
| Lifecycle.FreedAccounts | kernel/mm/virtual_memory_manager.cc:393-414 | after a freeing unmap accounts and ownership are in order if and only if it tore no block and named no foreign block |
| Lifecycle.DroppedAccounts | kernel/mm/virtual_memory_manager.cc:393-414 | after an unmap without free the accounts are in order if and only if it named no first page of a new block |
| Lifecycle.LentAccounts | kernel/mm/virtual_memory_manager.cc:54-84 | mapping an existing page keeps the accounts if and only if it is foreign or not mapped yet |
| Lifecycle.AddedSegment | kernel/mm/virtual_memory_manager.cc:86-138 | what vm_alloc or vm_copy added may be unmapped and freed as a whole |
| Lifecycle.RunAccounts | kernel/mm/virtual_memory_manager.cc:54-468 | over any run of allowed steps, failed ones included, every new page is a table page or lies in a block whose first page is mapped, and pages in use before keep owner and contents |
| Lifecycle.Teardown | kernel/mm/page_table.cc:120-154 | after freewalk exactly the new blocks whose first page is still mapped stay allocated; with only foreign pages mapped the allocation state is that from before vm_create |
| ProcessLife.Born | kernel/pm/process_manager.cc:102-158 | a new process maps exactly its own trap frame, readable and writable, and the shared trampoline, readable and executable, both out of reach of user mode; only a refusal of the allocator prevents it |
| ProcessLife.WholeLife | kernel/pm/process_manager.cc:102-237 | from alloc_proc with trap frame and trampoline, through any segments, stack and heap, to freeproc: every page comes back and no page in use before has changed; it runs to the end exactly if the allocator refuses nothing |
| ProcessLife.TornBlock | kernel/mm/virtual_memory_manager.cc:393-414 | freeing the first page of a two-page block leaves the second mapped to a free frame, unless the allocator refused the block |
| ProcessLife.StolenPage | kernel/mm/virtual_memory_manager.cc:393-414 | if that frame is handed out again, unmapping the second page frees it under its new owner |
| SleepWakeup.NoLostWakeup | kernel/pm/process_manager.cc:1570-1607 | in every run, whenever the timer lock is free, each process asleep on the tick channel last compared its condition with the current tick count, and fewer than n true ticks, modulo 2^64, have passed since its call |
| SleepWakeup.SleepIsLongEnough | kernel/tm/timer_manager.cc:77-98 | 0 only after at least n true ticks despite 64-bit wrap, -2 only when killed, -1 exactly for negative n |
| SleepWakeup.TimerLockExcludes | kernel/tm/timer_manager.cc:44-98 | processes and clock handler never hold the timer lock together |
| SleepWakeup.WrapIsShort | kernel/tm/timer_manager.cc:86-86 | a loop condition found false in wrapped arithmetic is false in true ticks |
| SleepWakeup.WaitsExactly | kernel/tm/timer_manager.cc:86-86 | while fewer than 2^64 ticks have passed, the wrapped loop condition holds exactly if fewer than n true ticks have |
| SleepWakeup.TestDecides | kernel/tm/timer_manager.cc:77-98 | in every run a process that tests its condition returns 0 if n ticks have passed, else -2 if it is killed, else goes to sleep |
| SleepWakeup.TickAlone | kernel/tm/timer_manager.cc:44-53 | a clock interrupt, run to its end, counts one tick and makes exactly the sleepers on the tick channel runnable |
| SleepWakeup.SleepCompletes | kernel/tm/timer_manager.cc:77-98 | from any quiet state sleep_n_ticks(n) can run to its end with only clock and scheduler acting, and returns 0 exactly n ticks later |
| SleepWakeup.KilledSleepEnds | kernel/tm/timer_manager.cc:86-94 | a killed sleeper is woken by the next tick and then returns -2, or 0 if its time is up |
| WaitExit.NoMissedExit | kernel/pm/process_manager.cc:1376-1497 | in every run no process but init sleeps in wait while a child that it asked for, by pid or by asking for any, is a zombie |
| WaitExit.ReapedOnce | kernel/pm/process_manager.cc:1407-1425 | over all answers that waits give: no pid twice, only pids of exited processes, each with the status of its exit; an exited process whose pid was not returned is still a zombie or is about to be returned |
| WaitExit.AnswerIsChild | kernel/pm/process_manager.cc:1396-1425 | a pid that wait returns belonged to a zombie child of the caller, and is the one asked for if one was named; its slot was wiped |
| WaitExit.StatusHoldsByte | kernel/pm/process_manager.cc:1485-1485 | the status word holds the low byte of the exit argument in bits 8 to 15 and zeros below, whatever its sign |
| WaitExit.NoChildMeansNone | kernel/pm/process_manager.cc:1396-1434 | after a full scan wait returns -ECHILD if and only if the process is killed or has no child that it asked for; else it goes to sleep |
| WaitExit.KilledWaitEnds | kernel/pm/process_manager.cc:1430-1434 | a process killed since it was made does not go to sleep in wait |
| WaitExit.ProcessForest | kernel/pm/process_manager.cc:94-158 | parent links lead to live processes and are acyclic; live pids are distinct and below the counter |
| WaitExit.OrphansGoToInit | kernel/pm/process_manager.cc:1500-1512 | after reparenting exactly the former children of the exiting process have init as parent |
| WaitExit.FamilyStep | kernel/pm/process_manager.cc:1500-1512 | reparenting, linking, reaping and every other step keep parents live and older than their children |
| WaitExit.WaitsStep | kernel/pm/process_manager.cc:1479-1497 | every step keeps: no committed waiter has a matching zombie, and an exiting process past its parent left it awake |
| WaitExit.ForkExitWait | kernel/pm/process_manager.cc:1376-1497 | from any state of a run in which no lock is held: fork, wait and sleep, exit of the child, wakeup, and the return of its pid and status can run to the end, by pid or for any child |
| WaitExit.KilledAtBirth | kernel/pm/process_manager.cc:772-784 | a kill of an empty slot strikes the process that is made there next |
| SpinLocks.VirtualCpu.PushInterruptOff | hsai/virtual_cpu.cc:26-33 | counts, and remembers the interrupt state of the outermost push |
| SpinLocks.VirtualCpu.PopInterruptOff | hsai/virtual_cpu.cc:35-48 | undoes a push, restoring the remembered state at the outermost; refuses exactly in the two panic cases |
| SpinLocks.PushInSteps | hsai/virtual_cpu.cc:26-33 | read, switch off and count, with other CPUs in between, add up to one push |
| SpinLocks.PopInStep | hsai/virtual_cpu.cc:35-48 | the step of release that pops panics exactly where the pop does |
| SpinLocks.MutualExclusion | hsai/smp/spin_lock.cc:27-64 | no two CPUs are between acquire and release of one lock |
| SpinLocks.OffCount | hsai/smp/spin_lock.cc:27-59 | a CPU's off-count is its held locks plus its acquire or release in progress, and interrupts are off while it is positive |
| SpinLocks.ReleaseNeverStalls | hsai/smp/spin_lock.cc:42-59 | release clears the word at the first compare-exchange and the panics of the pop cannot happen |
| SpinLocks.LockOutcome | hsai/smp/spin_lock.cc:27-59 | acquire panics exactly if this CPU holds the lock, takes it exactly if nobody does, and else changes nothing; release panics exactly if this CPU does not hold it, and gives it up otherwise |
| SpinLocks.BalancedRestores | hsai/virtual_cpu.cc:26-48 | once a CPU holds nothing again, after any acquires and releases in any order, its interrupt state is what it was |
| ContextSwitch.CallSchedAsserts | kernel/pm/scheduler.cc:93-105 | the four assertions hold at every call from yield, sleep and exit |
| ContextSwitch.LockAcrossSwitch | kernel/pm/scheduler.cc:66-105 | across every switch exactly the lock of the process concerned is held |
| ContextSwitch.InterruptStateRestored | kernel/pm/process_manager.cc:1587-1607 | yield and sleep return with the interrupt state that they were called with |
| ContextSwitch.Career | kernel/pm/scheduler.cc:40-105 | from any state in which the scheduler looks for work, a new process can be dispatched, yield, sleep, be woken and exit; each call returns where it was made, with the interrupt state of then, and no other process changes |
| Scheduler.BestOf | kernel/pm/scheduler.cc:25-38 | the smallest priority value among runnable tasks, capped at 19, and attained when below 19 |
| Scheduler.GetHighestPriority | kernel/pm/scheduler.cc:25-38 | the loop computes BestOf |
| Scheduler.DispatchedIsBest | kernel/pm/scheduler.cc:40-81 | a dispatched task is runnable and its priority value is no larger than that of any task of value at most 19 that was waiting when the priority was last computed |
| Scheduler.MinimalRunsSoon | kernel/pm/scheduler.cc:40-81 | a runnable task of minimal priority value is dispatched within one sweep, before any slot is dispatched twice |
| Scheduler.SomethingRuns | kernel/pm/scheduler.cc:40-81 | if a task of priority value at most 19 is runnable at any step, some dispatch follows within one sweep |
| Scheduler.BelowLowestNeverRuns | kernel/pm/scheduler.cc:56-64 | a task of priority value above 19 is never dispatched |
| Bitmaps.BitTests | kernel/klib/common.cc:65-90 | bit_set and bit_reset change the one bit they name |
| Bitmaps.BitInByte | kernel/klib/common.cc:65-90 | bit k is bit k % 8 of byte k / 8 |
| BufferBlocks.BufferBlock.constructor | kernel/fs/buffer.cc:47-90 | empty tables, and a complete ring ordered by insertion |
| BufferBlocks.BufferBlock.SearchBuffer | kernel/fs/buffer.cc:92-106 | finds a buffer with that device and tag if and only if there is one |
| BufferBlocks.BufferBlock.AllocBuffer | kernel/fs/buffer.cc:118-139 | the unreferenced buffer whose last final release is oldest; none exactly if all are referenced |
| BufferBlocks.BufferBlock.Release | kernel/fs/buffer_manager.cc:280-304 | drops a handle; the last one moves the buffer to the front and the ring stays complete and ordered by release time |
| BufferBlocks.Unlink | kernel/fs/buffer_manager.cc:296-297 | the two pointer writes take one node out of the ring |
| BufferBlocks.Insert | kernel/fs/buffer.cc:65-72 | the four pointer writes put one node right behind the head |
| BufferCache.LbaRoundTrip | kernel/include/fs/buffer_manager.hh:160-169 | tag, set number and offset rebuild the address, and tag and set number the buffer's address, if and only if it is below 2^41 |
| BufferCache.Aliases | kernel/fs/buffer_manager.cc:170-171 | any two addresses 2^41 sectors apart get the same tag and set |
| BufferCache.WriteBack | kernel/fs/buffer_manager.cc:208-237 | writing a dirty buffer back changes no page's content as seen through the cache |
| BufferCache.Refill | kernel/fs/buffer_manager.cc:239-270 | replacing a clean buffer keeps the set in step with the disk if and only if the page read is that of the new tag; then no content changes |
| BufferCache.BufferManager.GetBuffer | kernel/fs/buffer_manager.cc:159-278 | a hit, a clean miss and a dirty miss leave every page's content and the order of release alone, return the requested page, and rename no buffer in use; it is refused only if the page is not cached and every buffer of the set is referenced |
| BufferCache.BufferManager.Replace | kernel/fs/buffer_manager.cc:199-243 | a miss evicts the least recently released unreferenced buffer, writing it back exactly if dirty |
| BufferCache.BufferManager.DirtBuffer | kernel/fs/buffer_manager.cc:89-97 | -1 and -2 for numbers out of range, else sets that buffer's dirty bit and nothing else |
| BufferCache.BufferManager.Store | kernel/fs/buffer_manager.cc:80-97 | a client's sector store plus dirt_buffer changes the content of its own page only |
| BufferCache.BufferManager.ReleaseBuffer | kernel/fs/buffer_manager.cc:280-304 | changes no page's content; the last handle moves the buffer to the front of its ring with a new time stamp |
| CacheClients.Clients.Serve | kernel/fs/buffer_manager.cc:80-304 | any interleaving of gets, looks, writes and releases with any number of handles out gets the answers of a plain disk; it ends early only at a get whose set has as many open handles as buffers, none of them on the page asked for |
| CacheClients.SectorStore | kernel/fs/buffer_manager.cc:80-97 | the plain disk is a store of sectors: a write replaces the one sector that its handle stands for, and a look shows it |
| CacheClients.Clients.DoGet | kernel/fs/buffer_manager.cc:159-278 | a new handle leaves all open ones good; it is refused only if the set has as many open handles as buffers and none is on that page |
| UserStack.UserstackStream.UpdateCache | kernel/include/mm/userstack_stream.hh:157-173 | the cached page is the one that sp lies in, or the page below when sp is aligned |
| UserStack.UserstackStream.Open | kernel/mm/userstack_stream.cc:22-28 | an empty stream at the top of the stack |
| UserStack.UserstackStream.Push | kernel/mm/userstack_stream.cc:36-80 | memory from the new sp reads as the data followed by all that was there before, over any number of pages; out of room exactly if sp would pass the base, and then nothing changes |
| UserStack.UserstackStream.PushString | kernel/include/mm/userstack_stream.hh:90-100 | the characters and a NUL, in order; refused exactly if they do not fit |
| UserStack.UserstackStream.Retreat | kernel/include/mm/userstack_stream.hh:132-153 | moves sp down, keeps what is above, writes nothing; into the guard page at most |
| ExecStack.PlaceStrings | kernel/pm/process_manager.cc:1051-1118 | every string lies 16-byte aligned at its pointer; complete exactly for fewer than 32 strings that fit |
| ExecStack.BuildTables | kernel/pm/process_manager.cc:1123-1226 | auxiliary vector, pointers and argc lie in order below the strings; refused exactly if they do not fit |
| ExecStack.BuildStack | kernel/pm/process_manager.cc:1029-1226 | succeeds exactly for fewer than 32 strings of each kind that fit, overruns exactly for 32 that fit; on success the start code's decoding of memory from sp yields argc, exactly the arguments, exactly the environment and the auxiliary vector |
| ExecStack.DecodeBuilt | kernel/pm/process_manager.cc:1029-1226 | a frame whose pointers lead to the strings decodes to them |
| ExecStack.FinalAlignment | kernel/pm/process_manager.cc:1120-1226 | the final sp is 16-byte aligned if and only if arguments plus environment strings are odd in number |
| Console.TypedOk | hal/riscv/uart.cc:95-144 | uncommitted input has no newline and a full buffer is always committed |
| Console.LineEnds | hal/riscv/uart.cc:120-140 | RETURN on qemu and newline commit the line with a newline, control-D with itself; RETURN on the board, NUL and input to a full buffer are dropped |
| Console.UartConsole.KillLine | hal/riscv/uart.cc:105-111 | control-U empties the edited line |
| Console.UartConsole.HandleIntr | hal/riscv/uart.cc:95-144 | the ring follows the edit-line reference for every character, across index wrap |
| Console.UartConsole.GetChar | hal/riscv/uart.cc:77-87 | the next committed byte, or nothing exactly when all are read |
| Console.Session | hal/riscv/uart.cc:58-144 | over any session readers get exactly the committed edited input, in order |
| Console.BackspaceUndoes | hal/riscv/uart.cc:112-119 | backspace takes back an uncommitted character |
| Console.TypedLine | hal/riscv/uart.cc:95-144 | text typed, killed with control-U, typed anew and ended with RETURN reaches readers as typed the second time |

## Left out

- Buddy allocator internals: replaced by the contract of AllocPages and FreePages.
- PhysicalMemory.Memory.AllocPages: which runs of several pages the buddy lists offer; it may refuse although enough pages are free.
- PhysicalMemory.Memory.FreePages: a second free of a block; the allocator returns -3, which the caller then takes for a page count and clears memory.
- Mapping, unmapping and copying at virtual addresses from 2^39 on, the four-level LoongArch walk, and translation caches.
- Panics: the message and the machine's state after one.
- Freed pages: the allocator writes list nodes into free pages; the model leaves their contents alone.
- mmap, munmap, shared memory, clone with shared page tables, exit_group, futexes, signals, pipes and file systems: incomplete bookkeeping in the source or thin plumbing.
- vm_copy with a second kernel table, kfreewalk, freewalk_mapped and the stack stream's operator>>: unused or inconsistent paths.
- freeproc after a failed fork: ForkMemory ends with the error.
- copy_str_in into a string object: same scan as the buffer form.
- Heap.UserHeap.Brk: targets below the heap's start, which unmap the program itself.
- Heap.UserHeap.BrkAll: targets that meet a foreign page inside a block; Brk states what they leave behind.
- VirtualMemory.VmUnmap: freeing a physical page that two entries of the range share, which is a second free.
- 32-bit overflow of pids.
- reparent's loop is one step: it runs with the wait lock held and interrupts off on the only dispatching CPU; its start index is re-read in every round, so on several CPUs a concurrent allocation could make it skip a slot.
- A visit of one slot by wait, wakeup or alloc_proc in the wait/exit model is one step that needs the slot's lock free; SleepWakeup takes wakeup apart into its lock operations.
- A wait for a pid that is no child of the caller returns -1 at once and is no step of the wait/exit model.
- init in the wait/exit theorem: reparent does not wake init, so it may sleep while an inherited child is a zombie.
- tick_increase, which advances the clock without a wakeup: it has no caller.
- Memory ordering weaker than sequential consistency, and interrupt handlers that run between reading the interrupt flag and switching it off.
- The wait for a disk-owned buffer, the sleep-lock variants (which panic as unimplemented), pin and unpin, and other callers while the cache's lock is dropped around device I/O: each cache call is one step.
- UserStack.UserstackStream.Retreat: moves past the guard page, where the walk panics.
- UserStack.UserstackStream.Push: data longer than the stack pointer's value, where the unsigned bound check wraps; execve pushes at most 16 bytes at a time.
- ExecStack.DecodeBuilt: strings with an embedded NUL, which cannot come from a user's argument vector.
- execve's loading of the program, console locks and echo, device registers, timers' conversion to wall-clock time.
- Virtio descriptor chains and number formatting.
