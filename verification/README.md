# Verified model of the process and memory core

A Dafny model of the kernel's process table, scheduler, sleep queue, queues, page and slice
allocator and stacks, and of the library routines they lean on (number conversion, block moves,
the scrolling console).  `dafny verify dfyconfig.toml` checks everything.

The model has three layers.

* **What the code means.**  `PageList`, `Slices`, `Regions`, `QueueSpec` and `ProcSpec` say on
  plain values what each operation does: a free list is a sequence of blocks, a queue is a
  sequence, and the whole process core is a state machine whose steps are the system calls and the
  clock interrupt.  A failed assertion or a panic is a halted outcome with its reason.
  `PageText`, `Digits` and `Copy` do the same for the library layer.
* **The code.**  `KMem`, `Queues`, `Kernel`, `StackSetup`, `Console`, `Convert` and `Copy` are
  imperative: linked free blocks and queue nodes, an array of PCBs, loops and in-place updates.
  Every method is proved to do to the abstract value what the first layer says.  `Kernel` runs on
  the real `Queues` and `KMem` objects, from the memory map (`PowerOn`) to whole runs (`Run`).
* **What follows for every run.**  The `Proc*` files prove what all reachable states keep: the
  family tree, no lost wake-up, each PCB in exactly one place, exactly-once reaping, what each call
  answers, who is told what and who runs next (`ProcAnswers`, `ProcTold`, `ProcTurns`), the exact
  length of the zombie queue, bounded waiting, exact sleep, conservation of pages, when stacks are
  disjoint, and exactly when and why the kernel can halt.  `KMem.MapConserved` and `KMem.MapToRun`
  do the same for the allocator.

A reachable state is `ProcBoot.Reachable`: boot with any table size and any sorted free list, then
any events.  `ProcBoot.ReachableSound` turns it into the invariant `ProcInv.Good` (and the rest of
`ProcBoot.Sound`) that the other theorems ask for.  PCBs are table indices and NULL is -1; page
addresses are page numbers and NULL is 0; `N_PROCS` is the length of the table, any number.  The
`hist` part of the state records forks, exits and deliveries; the kernel keeps none of it and no
step reads it.

## Where the code differs from what its comments promise

The model follows the code.

* `cvtoct` takes the two top bits first but then shifts by three, so bit 29 is lost and the lower
  bits move up one place (`lib/cvtoct.c:35-47`).  `cvtoct(1)` writes "2".  The octal round trip
  holds exactly for multiples of 2^30 (`Digits.OctRoundTrip`).
* `sys_wait` leaves the zombie it reaps in the zombie queue.  The queue therefore grows by one for
  each such reap, and no run can make more of them than the pages free at boot have nodes
  (`ProcBoot.ZombieQueueExact`, `ProcBoot.ReapsAreLimited`).  While slots and such reaps together
  do not exceed 512 no step can halt for lack of memory (`ProcRoom.MemorySuffices`).
* `sys_exec` frees the old stack but leaves it in `pcb->stack`, so the next fork shares it and
  returns 0 to the parent too (`ProcStacks.ForkAfterExecSharesStack`).  The stack granted to the
  first exec of a run that is granted one is lost for good (`ProcBoot.FirstExecLoses`); a later one
  may be granted the stack its PCB still names (`ProcLost.SecondExecNotLost`).  After a run every
  stack has exactly one owner if and only if no exec in it was granted a stack
  (`ProcBoot.StacksLawExactly`).
* `carve_slices` counts each slice twice: `n_slices` is the list length plus four for each page
  ever carved (`KMem.KMem.SlicesValid`).
* `add_block` does not merge, so a free list built from touching usable regions is not coalesced
  (`Regions.InitCoalesced`) and a request can be refused although a run of pages exists
  (`Regions.IncompleteWhenTouching`).  Every request of every run is answered rightly if and only if
  no two usable regions of the map, clipped to 1MB and 1GB, touch (`KMem.MapToRun`,
  `Slices.CompleteExactly`).
* A sleep whose wakeup time passes 2^32 ends at the next tick, unless it begins at time 2^32 - 1,
  just before the clock itself wraps (`ProcSleep.SleepLength`).
* The blocking path of `sys_read` asserts the opposite of what it means and halts.
* The constant `REGION_IGNORE` is the ACPI "do not ignore" bit; the test itself is right.

## Model

| member | source | states |
|---|---|---|
| ProcBoot.NobodyWaitsInVain | kernel/syscalls.c:154-237 | in every reachable state a waiting process has a child, none of its children is a zombie, and its parents lead to init: no wake-up is ever lost |
| ProcBoot.EveryoneInPlace | kernel/procs.c:630-685 | in every reachable state a PCB is once in the ready queue of its priority iff READY, once in the sleep queue iff SLEEPING, current iff RUNNING, and nowhere else; the quantum is 1 to 3 |
| ProcBoot.ReapedExactlyOnce | kernel/syscalls.c:194-237 | until next_pid overflows, every exit is still a zombie holding its status or has been delivered once, never both |
| ProcBoot.DeliveredRightly | kernel/syscalls.c:86-111 | every delivered status goes to the process that forked the child, or to init if that one has exited |
| ProcLineage.PidsUnique | kernel/syscalls.c:388-393 | until next_pid overflows, a PID belongs to at most one live process or past exit |
| ProcLineage.LivePidsDiffer | kernel/syscalls.c:388-393 | two different processes that have not exited have different PIDs |
| ProcLineage.StepPids | kernel/syscalls.c:392-392 | every step keeps next_pid and the PIDs handed out as consecutive int32 values from 2 |
| ProcLineage.LineStep | kernel/syscalls.c:143-176 | every step keeps each live process under its original parent, or under init once that parent has exited |
| ProcBoot.ZombieQueueExact | kernel/syscalls.c:318-325 | the zombie queue's length is the zombies plus the reaps done by wait, every zombie is in it, and the dequeue in sys_exit never fails |
| ProcBoot.ReapsAreLimited | kernel/syscalls.c:318-325 | in any run at most 512 reaps by wait per page free at boot are possible |
| ProcBoot.PagesNeverLost | kernel/kmem.c:491-708 | in any run, exec included, the pages free at boot are at all times divided between the free list, the stacks and the queue node pages, and their numbers add up |
| ProcPages.BookedStep | kernel/syscalls.c:818-853 | every step keeps that division; and a stack that no PCB names and the free list does not lead to stays so |
| ProcPages.BookedRun | kernel/syscalls.c:818-853 | so does every run: a lost stack is never granted, freed or named again |
| ProcBoot.StacksNeverShared | kernel/stacks.c:136-197 | as long as no exec has been granted a stack, stacks of live processes and the kernel's are disjoint, none is free, and every stack bought has exactly one owner |
| ProcBoot.StacksLawExactly | kernel/syscalls.c:486-503 | after any run from boot every stack has exactly one owner if and only if no exec of the run was granted a stack |
| ProcLost.MemRunExactly | kernel/syscalls.c:486-503 | the same from any state in which the memory laws hold |
| ProcBoot.FirstExecLoses | kernel/syscalls.c:486-503 | the stack granted to the first exec of a run that is granted one is lost in every later state: in no PCB, not the kernel's, not on the free list |
| ProcLost.ExecLoses | kernel/syscalls.c:486-503 | the same for one exec, in any state in which the memory laws hold |
| ProcLost.SecondExecNotLost | kernel/syscalls.c:486-503 | a second exec by the same process is granted the stack its PCB still names, which then heads the free list: it is not lost |
| ProcStacks.MemStep | kernel/syscalls.c:364-391 | a step, fork failure and both reaping paths included, keeps pages and stacks accounted for if and only if it is not an exec that is granted a stack |
| ProcStacks.StacksDisjoint | kernel/stacks.c:136-197 | what the stack law means page by page |
| ProcStacks.ExecBreaksOwnership | kernel/syscalls.c:486-503 | after exec the stack law holds if and only if exec failed for lack of a stack |
| ProcStacks.ForkAfterExecSharesStack | kernel/syscalls.c:411-450 | a fork right after a successful exec gives parent and child PCB the same stack, and returns 0 to the parent as well |
| ProcRoom.EntriesExactly | kernel/queues.c:144-164 | the queue nodes in use are one for each ready, sleeping and zombie process and one for each reap by wait |
| ProcRoom.EnoughNodes | kernel/queues.c:144-164 | no step halts for lack of memory while slots and reaps by wait do not exceed the nodes of the pages bought |
| ProcRoom.MemorySuffices | kernel/queues.c:144-164 | so in every reachable state 512 less the number of slots reaps by wait are harmless |
| ProcRoom.StackRefused | kernel/stacks.c:136-171 | from a coalesced boot list the free list stays coalesced in every run, and a stack is refused exactly when the free stack list is empty and no run of two free pages exists |
| ProcRoom.RefusedRightly | kernel/syscalls.c:364-391 | so exec fails exactly then, and fork exactly then or when every slot is taken |
| ProcRoom.LastFreedFirst | kernel/stacks.c:136-197 | the stack freed last is granted first, and taking it undoes the release |
| ProcHalt.HaltsExactly | kernel/syscalls.c:818-853 | for every state that keeps the invariant and every event, the step halts exactly for the reason HaltReason gives, and otherwise goes on |
| ProcSteps.StepGood | kernel/syscalls.c:818-853 | every step keeps the whole invariant: family tree, places, zombie law, census, qnode law |
| ProcSteps.RunGood | kernel/syscalls.c:818-853 | so does every run |
| ProcBoot.BootSound | kernel/kernel.c:253-329 | boot establishes the invariant and the memory laws |
| ProcBoot.BootFacts | kernel/kernel.c:253-329 | after boot PID 1 runs alone in slot 0 at level 0 with a quantum of 3, its own parent, at time 0, and the next PID is 2 |
| ProcBoot.RunSound | kernel/syscalls.c:818-853 | and every run keeps all of them |
| ProcBoot.ReachableSound | kernel/kernel.c:253-329 | every reachable state satisfies them |
| ProcExit.ExitGood | kernel/syscalls.c:135-243 | exit keeps the invariant, including reparenting and waking a waiting init |
| ProcAnswers.ForkReplies | kernel/syscalls.c:356-450 | in every state that keeps the invariant fork() answers -1 and changes nothing, or a slot comes alive with the next PID: it gets 0, its parent the PID (0 when the two share pcb->stack), its level is the parent's for PRIO_INHERIT and prio modulo 256 otherwise, and it is last in that queue |
| ProcAnswers.OneBorn | kernel/syscalls.c:376-398 | no other slot comes alive |
| ProcAnswers.WaitAlone | kernel/syscalls.c:330-332 | wait() of a process without children leaves it running and answers -4 |
| ProcAnswers.WaitTold | kernel/syscalls.c:292-325 | wait() of a process with a dead child answers the PID of the first one in the table, gives its status through the pointer if there is one, and frees its slot and stack |
| ProcAnswers.WaitBlocks | kernel/syscalls.c:334-340 | with living children only it waits, and its answer is left open |
| ProcTold.StepNews | kernel/syscalls.c:86-111 | in every step each status delivered is told to the process it goes to, which waited or just called wait(): PID as its return value, status where its pointer says; nobody else's answer changes, nor anybody's PID or level |
| ProcAnswers.ExitRecords | kernel/syscalls.c:135-243 | exit() ends with the low 32 bits of its argument as the status, an invalid call with -3 |
| ProcAnswers.ExecReplies | kernel/syscalls.c:470-515 | exec() answers -1 and changes nothing, or 0, with the stack its PCB names first on the free list |
| ProcAnswers.ValueReplies | kernel/syscalls.c:526-735 | what read, write, getpid and gettime answer, and that they change nothing else |
| ProcAnswers.GetprioReplies | kernel/syscalls.c:753-782 | getprio() answers the level of the caller for 0 and its own PID, else that of the first live process with the PID |
| ProcTurns.TickTurn | kernel/clock.c:117-172 | a tick in full: those due join their levels in the order of the sleep queue, then the caller if its quantum has run out, and only then is the first of the highest level taken, with a quantum of 3; otherwise the caller runs on with one less |
| ProcTurns.SleepTurn | kernel/syscalls.c:670-704 | sleep(0) puts the caller at the end of its level, sleep(n) behind all who are due no later and before all others; then the next one is taken |
| ProcTurns.WaitTurn | kernel/syscalls.c:334-340 | when wait() blocks nobody joins and the next one is taken |
| ProcTurns.ExitTurn | kernel/syscalls.c:178-243 | exit() rouses first a waiting init that inherits a dead child, then a waiting parent that has not just been told, and nobody else; then the next one is taken |
| ProcFair.BoundedWait | kernel/clock.c:164-172 | the k-th process of a level has had the CPU within 3k + quantum ticks, whatever calls are made, while no higher level is served |
| ProcFair.ExactTurn | kernel/procs.c:656-685 | it gets the CPU at exactly the (k+1)-th dispatch and moves up one place for each one before |
| ProcFair.LongestWait | include/procs.h:77-77 | at the highest level nobody waits more than 3 * (N_PROCS - 1) ticks |
| ProcFair.DispatchNeverFails | kernel/procs.c:676-676 | while one process stays runnable the assertion in dispatch never fails in any run |
| ProcFair.StepAdvances | kernel/procs.c:656-685 | one step moves a queued process up exactly when it dispatches |
| ProcSleep.SleepsUntilDue | kernel/clock.c:118-161 | whatever else happens, a sleeper sleeps on and counts down only with ticks |
| ProcSleep.WakesWhenDue | kernel/clock.c:118-161 | at the very tick its time comes it is made ready |
| ProcSleep.SleepLength | kernel/syscalls.c:690-700 | sleep(n) lasts exactly n ticks if and only if the wakeup time does not wrap or the clock is about to; otherwise one tick |
| ProcSleep.TickSleepInv | kernel/clock.c:118-161 | after each tick every remaining sleeper has a later wakeup time |
| ProcSleep.WakeAllPcbs | kernel/clock.c:124-161 | the wake loop wakes exactly the due entries at the head of the queue and nobody else |
| ProcSleep.WakeAllOrder | kernel/clock.c:124-161 | they join their ready queues in the order they had in the sleep queue |
| ProcTies.TieBegins | kernel/queues.c:437-490 | a process that goes to sleep stands behind one that sleeps already with the same wakeup time |
| ProcTies.TieKept | kernel/clock.c:118-161 | of two sleepers with one wakeup time and one level the first stays ahead, whatever happens, until their tick |
| ProcTies.TieWakes | kernel/clock.c:124-172 | that tick puts both on the ready queue of their level in this order, or already runs the first with the second queued |
| ProcReap.ZombieQueueLength | kernel/procs.c:565-580 | the zombie law counts the queue: zombies plus stale entries |
| ProcFamily.FamilyReachesInit | kernel/procs.c:533-551 | following parents from any live process ends at init |
| Kernel.PowerOn | kernel/kernel.c:253-329 | from the memory map to the first dispatched process the code does what Boot says, or stops for the same reason |
| Kernel.Kernel.Start | kernel/kernel.c:253-329 | main() from que_init to the first dispatch is ProcBoot.Boot and establishes every invariant |
| Kernel.Kernel.Run | kernel/syscalls.c:818-853 | over any sequence of events the code and the state machine go through the same states and stop for the same reason |
| Kernel.Kernel.Event | kernel/syscalls.c:818-853 | one interrupt is one step of the state machine and keeps the invariant |
| Kernel.Kernel.SysIsr | kernel/syscalls.c:818-853 | the dispatch of system calls; an invalid code exits with S_BAD_SYSCALL |
| Kernel.Kernel.SysExit | kernel/syscalls.c:135-243 | sys_exit does exactly ProcSpec.Exit to queues, table, memory and history |
| Kernel.Kernel.Reparent | kernel/syscalls.c:152-176 | the loop gives every child to init, terminates, and remembers the last dead one in table order |
| Kernel.Kernel.WakeInit | kernel/syscalls.c:194-209 | one inherited zombie is dequeued, reported to the waiting init, and freed |
| Kernel.Kernel.Finish | kernel/syscalls.c:222-237 | a waiting parent is told and woken and the child freed; otherwise the child becomes a zombie |
| Kernel.Kernel.ReturnStatus | kernel/syscalls.c:86-111 | status_return: PID as the return value, status through a non-NULL pointer |
| Kernel.Kernel.SysWait | kernel/syscalls.c:256-342 | sys_wait does exactly ProcSpec.Wait |
| Kernel.Kernel.ScanChildren | kernel/syscalls.c:292-312 | the scan finds the first dead child, and whether there is any child otherwise |
| Kernel.Kernel.SysFork | kernel/syscalls.c:356-450 | sys_fork fills slot, stack, PID, parent and priority as ProcSpec.DoFork; the parent gets the PID, or 0 when the child is granted the stack pcb->stack names; on failure only the return value changes |
| Kernel.Kernel.SysExec | kernel/syscalls.c:470-515 | sys_exec takes a new stack and frees the old one, leaving pcb->stack alone |
| Kernel.Kernel.SysRead | kernel/syscalls.c:526-598 | the calls that return at once, and the path that halts |
| Kernel.Kernel.SysGetprio | kernel/syscalls.c:753-782 | own priority, another's, or whatever lies behind the null pointer |
| Kernel.Kernel.SysSleep | kernel/syscalls.c:670-704 | yield for 0, otherwise sleep until time + n modulo 2^32 |
| Kernel.Kernel.ClkIsr | kernel/clock.c:117-172 | the clock interrupt is ProcSpec.Tick |
| Kernel.Kernel.WakeSleepers | kernel/clock.c:124-161 | the wake loop terminates and is ProcSpec.WakeAll |
| Kernel.Kernel.CheckQuantum | kernel/clock.c:163-172 | the quantum is used up tick by tick and its end reschedules |
| Kernel.Kernel.Schedule | kernel/procs.c:630-649 | schedule appends to the queue of the priority, or stops on a bad pointer, a bad priority or lack of memory |
| Kernel.Kernel.Dispatch | kernel/procs.c:656-685 | dispatch takes the head of the highest non-empty queue and gives it a fresh quantum |
| Kernel.Kernel.PcbAlloc | kernel/procs.c:452-470 | the first unused slot |
| Kernel.Kernel.PcbFindChildOf | kernel/procs.c:533-551 | the first child in table order, or none at all |
| Kernel.Kernel.PcbFindPid | kernel/procs.c:501-520 | the first live PCB with the PID |
| Kernel.Kernel.PcbZombify | kernel/procs.c:565-587 | the PCB becomes a zombie and joins the zombie queue |
| Kernel.Kernel.PcbCleanup | kernel/procs.c:596-617 | the stack goes to the free list and the slot is free |
| Kernel.Kernel.StkAlloc | kernel/stacks.c:136-171 | reuse of the last freed stack, else two new pages, cleared |
| Kernel.Kernel.StkFree | kernel/stacks.c:182-197 | the stack heads the free list, its first word the link |
| Kernel.Kernel.MakeQueues | kernel/procs.c:425-433 | pcb_init gets queues 0 to 6 in order, the sleep queue ordered by wakeup time |
| QueueSpec.CompWakeup | kernel/procs.c:127-137 | the sign of the comparison of two wakeup times |
| QueueSpec.InsertStable | kernel/queues.c:440-490 | ordered insertion is stable and keeps the queue sorted |
| QueueSpec.InsertOcc | kernel/queues.c:377-494 | insertion adds exactly one occurrence |
| QueueSpec.RemoveFirstSplits | kernel/queues.c:598-657 | removal by value takes out the first match and nothing else |
| QueueSpec.RemoveFirstOcc | kernel/queues.c:598-657 | exactly one occurrence disappears |
| Queues.QueuePool.constructor | kernel/queues.c:227-244 | all queues unallocated and empty, no nodes |
| Queues.QueuePool.QnodeFree | kernel/queues.c:109-115 | the node heads the free list and every queue keeps its contents |
| Queues.QueuePool.QnodeAddPage | kernel/queues.c:123-135 | a page becomes 512 free nodes, disjoint from all others, or none is left |
| Queues.QueuePool.QnodeAlloc | kernel/queues.c:144-164 | a cleared node from the free list, refilled from a page when empty |
| Queues.QueuePool.QueAlloc | kernel/queues.c:255-298 | the first unused queue, empty, with its comparison, or none |
| Queues.QueuePool.QueInsert | kernel/queues.c:377-494 | the linked queue's sequence gains the entry at its place, the others are untouched, and nodes stay 512 per page |
| Queues.QueuePool.FindPlace | kernel/queues.c:437-460 | the insertion loop stops at the first entry the new one precedes |
| Queues.QueuePool.QuePeek | kernel/queues.c:507-529 | the first entry, E_EMPTY, or E_BAD_PARAM for a NULL out-pointer |
| Queues.QueuePool.QueRemove | kernel/queues.c:542-578 | the first entry leaves the sequence and its node goes back to the free list; on E_EMPTY and E_BAD_PARAM nothing changes |
| Queues.QueuePool.QueRemoveBy | kernel/queues.c:598-657 | the first matching entry leaves; bad parameter, empty and not found are told apart |
| PageList.AllocPages | kernel/kmem.c:511-559 | a grant takes exactly its own pages out of the free set |
| PageList.AllocSorted | kernel/kmem.c:511-559 | allocation keeps the list sorted, disjoint and coalesced |
| PageList.AllocComplete | kernel/kmem.c:511-535 | on a coalesced list NULL is returned if and only if no run of that many free pages exists |
| PageList.GrantLowest | kernel/kmem.c:511-559 | the run granted starts no higher than any run of that many free pages |
| PageList.FreePages | kernel/kmem.c:604-708 | release adds exactly its own pages to the free set |
| PageList.FreeSorted | kernel/kmem.c:625-700 | release keeps the list sorted, disjoint and coalesced |
| PageList.Unique | kernel/kmem.c:625-700 | a coalesced list is determined by its set of pages |
| PageList.FreeUndoesAlloc | kernel/kmem.c:491-708 | freeing a block right after allocating it restores the identical list |
| KMem.KMem.PageAlloc | kernel/kmem.c:491-569 | first fit over the linked blocks: the grant and the list that is left, n_pages kept |
| KMem.KMem.FindBlock | kernel/kmem.c:511-535 | the first block that is large enough, and its predecessor |
| KMem.KMem.PageFreeMulti | kernel/kmem.c:604-708 | insertion in address order with merging on both sides, n_pages kept |
| KMem.KMem.FindSpot | kernel/kmem.c:630-640 | the free blocks on either side |
| KMem.KMem.SliceFree | kernel/kmem.c:799-819 | the slice heads the free list and is counted |
| KMem.KMem.CarveSlices | kernel/kmem.c:726-746 | a page becomes its four quarters, last one first, and each is counted twice |
| KMem.KMem.SliceAlloc | kernel/kmem.c:756-787 | the first free slice, from a newly carved page when there is none |
| KMem.KMem.AddBlock | kernel/kmem.c:198-278 | whole pages only, inserted in address order without merging |
| KMem.KMem.KmInit | kernel/kmem.c:290-447 | the list of all usable regions, or an uninitialised allocator for an empty map |
| KMem.KMem.AddRegion | kernel/kmem.c:351-433 | the tests and the clipping of one region, in 64-bit and 32-bit arithmetic |
| KMem.MapConserved | kernel/kmem.c:290-812 | from any valid memory map and over every run of allocator calls pages and slices are conserved |
| KMem.MapToRun | kernel/kmem.c:290-708 | every request of every run from a memory map is answered rightly if and only if no two usable regions of the map, clipped to the limits, touch |
| Regions.IncompleteWhenTouching | kernel/kmem.c:225-535 | two touching one-page regions: the list km_init builds holds a run of two pages and refuses two pages |
| Regions.UsualMapValid | kernel/kmem.c:321-440 | the map of an ordinary PC, with reserved entries that do not start at a page, is among the maps covered |
| Regions.InitSorted | kernel/kmem.c:198-278 | for a map of non-overlapping regions the list is sorted and disjoint |
| Regions.InitCovers | kernel/kmem.c:321-440 | page p is free if and only if it lies between 1MB and 1GB within a region of type 1 whose ACPI bit 0 is set and bit 1 clear |
| Regions.Discarded | kernel/kmem.c:363-372 | a region of another type, or with ACPI bit 0 clear or bit 1 set, might as well not be in the map |
| Regions.UsualMapPages | kernel/kmem.c:321-440 | the pages of the ordinary map are exactly those from 0x100 up to 0x7FE0 |
| Regions.InitCoalesced | kernel/kmem.c:225-277 | it starts out coalesced if and only if no usable region, clipped to the limits, starts where another ends |
| Slices.ApplyConserves | kernel/kmem.c:491-812 | every allocator call keeps free, held and carved pages a partition and slices conserved |
| Slices.RunConserves | kernel/kmem.c:491-812 | so does every run, and a coalesced list stays coalesced |
| Slices.SliceExclusive | kernel/kmem.c:726-812 | a slice held by a caller is held once, is not free, and its page is neither free nor held |
| Slices.SliceOrder | kernel/kmem.c:726-812 | of a carved page the last quarter is granted and the others follow downwards; a slice freed last is granted first |
| Slices.RunComplete | kernel/kmem.c:511-559 | after any run from a coalesced list NULL means there is no long enough run of free pages |
| Slices.CompleteExactly | kernel/kmem.c:511-559 | every request after every run is answered rightly if and only if the list starts out coalesced; otherwise some run of allocations ends in a wrong refusal |
| Slices.RunUnique | kernel/kmem.c:625-700 | after any run the list is the only coalesced list of its pages |
| StackSetup.StkSetup | kernel/stacks.c:208-365 | the finished stack: pointer, string, return address, context fields, and nothing else changed |
| StackSetup.ContextWords | kernel/stacks.c:331-365 | the context of the new process word by word: ss 0x20, ds to gs 0x18, the entry point, cs 0x10, eflags 0x202 and zeros, then the return address, the argument pointer and the text |
| StackSetup.StaysInside | kernel/stacks.c:257-290 | everything written lies inside the stack if and only if the rounded string has at most 8104 bytes |
| StackSetup.PartsApart | kernel/stacks.c:236-291 | the parts are disjoint, the last word is left alone, the argument pointer is 16-aligned |
| StackSetup.SetUpSound | kernel/stacks.c:216-251 | on a cleared stack the last word stays 0 and the copied string is terminated |
| StackSetup.Strlen | lib/strlen.c:23-31 | the distance to the first NUL |
| Console.Screen.Putchar | kernel/cio.c:212-260 | the region goes on showing the last lines of the unbounded page on which the character was typed; in bytes: a plain character stands at the old cursor (after a delayed scroll) with its own attribute byte or 0x70, and a carriage return only goes to the left edge; no cell outside changes; the cursor stays in bounds |
| Console.Screen.Puts | kernel/cio.c:274-280 | so it does for a whole string; and a text put out from the left edge stands there, broken at the margin, over what was there, scrolled up just as far as it does not fit, with the cursor below it |
| Console.Screen.TextShown | kernel/cio.c:212-280 | from the page to the screen: what the region shows of a text typed from the start of any line |
| Console.Screen.TextRead | kernel/cio.c:117-122 | a text that stands on the screen can be read back from it byte by byte |
| Console.Screen.MakeRoom | kernel/cio.c:216-219 | the delayed scroll shows a page with one more, blank, line |
| Console.Screen.NewLine | kernel/cio.c:222-246 | clear to the end of the line and start the next |
| Console.Screen.Scroll | kernel/cio.c:323-357 | the region moves up by the given number of lines, or is cleared with the cursor at home |
| Console.Screen.ClearScroll | kernel/cio.c:298-310 | exactly the region is blank |
| Console.Screen.SetScroll | kernel/cio.c:150-159 | a region clipped to the screen, cursor at its top left, showing what is there |
| Console.Screen.MoveTo | kernel/cio.c:164-168 | the cursor goes to the place asked for, counted from the region's corner in 32 bits, or to the nearest edge |
| Console.Screen.PutcharAt | kernel/cio.c:106-122 | one cell on the screen: the low byte is the character, the high byte its own attributes or 0x70 |
| Console.Screen.LinesShown | kernel/cio.c:212-260 | said of whole lines: each line of the region is a line of the page |
| Console.Bound | lib/bound.c:27-35 | the value itself within the range, the lower end below it, the upper end above |
| PageText.TypeText | kernel/cio.c:212-260 | a text typed from the start of any line leaves exactly its lines' broken forms there, in order, over what was there and then below it |
| PageText.TypeLine | kernel/cio.c:222-258 | a line of any length leaves its broken form: wrapped at the margin, padded with blanks, over what was there |
| PageText.TextInWindow | kernel/cio.c:212-260 | what a window on the last lines shows of it, told from what it showed before |
| Convert.Cvtdec0 | lib/cvtdec0.c:29-42 | the digits of a value that is not negative, and what happens for the others |
| Convert.Cvtdec | lib/cvtdec.c:29-41 | sign, digits and NUL for every int32, nothing else changed |
| Convert.Cvtuns0 | lib/cvtuns0.c:28-37 | the digits of every uint32 |
| Convert.Cvtuns | lib/cvtuns.c:28-35 | digits and NUL, and their number |
| Convert.Cvthex | lib/cvthex.c:33-49 | the shortest hexadecimal numeral and a NUL |
| Convert.Cvtoct | lib/cvtoct.c:30-52 | the shortest octal numeral of OctSeen(value) and a NUL |
| Convert.Str2Int | lib/str2int.c:24-74 | str2int of any NUL-terminated string, in any base, is Digits.StrToInt |
| Convert.FindDigit | lib/strchr.c:24-39 | the position of a character in hexdigits, or none |
| Digits.StrToIntIs | lib/str2int.c:24-74 | sign, prefix, digits, rest: the result is the value of the digits, negated after '-', modulo 2^32 |
| Digits.EveryString | lib/str2int.c:24-74 | every string and base has that form: as much sign, prefix and digits as there are |
| Digits.TakenCodes | lib/str2int.c:54-65 | which characters are digits and what each is worth, cut off at the base |
| Digits.CaseBlind | lib/str2int.c:54-60 | texts that differ only in the case of letters read alike, in every base |
| Digits.NumeralExact | lib/cvtdec0.c:29-42 | a numeral consists of digits, denotes its number and has no leading zero |
| Digits.DigitCodes | lib/cvthex.c:38-44 | the character written for each digit value |
| Digits.NumeralShortest | lib/cvthex.c:38-44 | no digit string of the same value is shorter |
| Digits.DecRoundTrip | lib/cvtdec.c:29-41 | str2int undoes cvtdec on every int32, INT_MIN included |
| Digits.UnsignedRoundTrip | lib/cvthex.c:33-49 | str2int of the numeral of a uint32, as cvtuns and cvthex write it, is the value modulo 2^32 |
| Digits.OctRoundTrip | lib/cvtoct.c:30-52 | str2int undoes cvtoct if and only if the value is a multiple of 2^30 |
| RoundTrips.DecBack | lib/cvtdec.c:29-41 | cvtdec and then str2int on the same 12-byte buffer give every int32 back |
| RoundTrips.UnsBack | lib/cvtuns.c:28-35 | cvtuns and then str2int give the int32 with the same bits |
| RoundTrips.HexBack | lib/cvthex.c:33-49 | so do cvthex and str2int with base 16 |
| RoundTrips.OctBack | lib/cvtoct.c:30-52 | cvtoct and str2int with base 8 do so if and only if the value is a multiple of 2^30 |
| RoundTrips.WroteString | lib/str2int.c:24-74 | a text written with its NUL is what str2int reads |
| Digits.OctOfOne | lib/cvtoct.c:30-52 | 1 is written as "2" |
| Digits.TextsFit | lib/sprint.c:33-33 | every conversion fits the 12-byte buffer with its NUL |
| Copy.Memmove | lib/memmove.c:26-46 | the destination holds the original source bytes for every overlap and length, nothing else changes |
| Copy.Blkmov | lib/blkmov.c:26-56 | the same for every alignment, by words or by bytes |
| Copy.MovedBytes | lib/memmove.c:26-46 | what that means byte by byte |
| Copy.MovedUnique | lib/blkmov.c:26-56 | so the word-copy path and the byte-copy path agree |
| Wrappers.Wrap32 | lib/str2int.c:67-67 | the int32 with the same low 32 bits |

## Left out

- Kernel.Kernel.SysFork: does not model the copying of the stack's contents or the relocation of saved frame pointers (`kernel/syscalls.c:411-446`), which adds the offset to the terminating 0 before testing it; the child's PCB fields and return values are modelled.  The theorems about runs assume that the copy and the relocation write nothing outside the child's stack.  After an exec that need not hold: `pcb->stack` is no longer the stack in use, so the child's context is computed at the wrong distance, or, when the child is granted `pcb->stack` itself, is the parent's; only the return value this leaves the parent is modelled.
- Kernel.Kernel.SysExec: does not model the new stack's contents; StackSetup.StkSetup proves them on its own memory.
- Kernel.Kernel.SysRead: the device's answer is a parameter, and the characters are not modelled.
- Kernel.Kernel.OtherCall: does not model what sys_write writes, only what it returns.
- Kernel.Kernel.SysGetprio: for an unknown PID the code reads through a null pointer; what it finds is a parameter.
- Kernel.Kernel.SysExit: asks that init is its own parent, which every reachable state satisfies; otherwise the reparenting loop would not end.
- KMem.KMem.SliceFree: asks that the slice is not NULL and not already free; the code would write to address 0 or build a cycle.
- KMem.KMem.PageFreeMulti: asks that no page returned is free already, for the same reason, and for a count above 0, which the code does not check.
- KMem.KMem.SliceAlloc: does not model the clearing of the slice's contents.
- KMem.KMem.AddBlock: asks for a base at a whole page, because add_block rounds only lengths.
- KMem.KMem.KmInit: asks that the regions km_init uses do not overlap or pass 2^64 and, above 1MB, start at whole pages; nothing is asked of the regions it discards.
- Kernel.Kernel.StkAlloc: of the cleared stack only the first word, which the free list uses, is modelled.
- StackSetup.StkSetup: asks that the string lies outside the part of the stack that is written.
- `que_free`, `que_length`, `km_page_free` (one page of the multi-page case), `list.c` and the trivial string functions would add easy members.
- The counters `n_pages` and `n_slices`, and queue counts, are unbounded; they cannot reach 2^32 in 1GB except `n_slices`, which only statistics read.
- Memory contents cleared by `memclr` are modelled only where something reads them: the first word of a stack.
- The consistency checks that depend on the debug level DBLV (`assert1` and the like) are modelled as always active.
- `kernel/sio.c`, keyboard input, `do_printf`, cursor port writes, serial echo of the console and `sprint` itself (it walks the raw call stack) are hardware or formatting.
- Interrupt entry, boot code, descriptor tables and timer set-up are assembly or port I/O; an interrupt is one atomic step.
- Dump and trace functions, and the status line of the clock interrupt, change no state that is modelled.
