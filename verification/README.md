# Verification of the kernel and its user library

This project models the hard parts of a small RV32 kernel (Rust) and of the C
library its programs use, and proves what they are for.

* **Address spaces** (`Ram` to `Population`). Physical memory is a map from
  frames to pages of 1024 words; page tables are words in it. `PageTable`,
  `Uvm`, `Kvm` and `Process` are classes that work on that memory in place,
  loop by loop as the kernel does. A table in memory stands for a map from
  virtual pages to frames and permissions (`TableView.View`); every operation
  is proved against that map, and the map against the Sv32 address translation
  process of section 4.3.2 of the RISC-V Privileged Architecture, version
  20211203. The invariant `Spaces.Space` says what makes dropping an address
  space safe and exact: tables never alias, level 1 holds only zero or
  pointers, user leaves lie only in the user part and own distinct frames.
  `Population` has all processes: from `initproc` on their frames stay apart,
  through everything any of them does. `kexec` called by a process runs with
  interrupts on, and it drops the old address space in place before it stores
  the new one; `Slots` and `Dropping` have the memory of a process at every
  moment of that.
* **Processes, locks and scheduling on one hart** (`ProcessTable` to
  `LockLevel`). `Machine` is a state machine whose threads are lists of small
  operations, with a timer interrupt possible between any two of them while
  interrupts are on. Stretches with interrupts off are run as a whole
  (`Regions`, `Protocol`), and from that follow the guarantees over whole runs
  in `Guarantees`: no panic of `sched`, no deadlock, no lost wakeup, a tree of
  processes, every exit status returned once, and a bound on waiting for the
  hart; `Restoring` adds that interrupts come back as they were found.
  `Calls` follows a single system call or timer interrupt along a run: `exit(x)`
  delivers `x` to the parent's `wait`, whoever calls `fork` forks.
  `Interrupts` and `KernelTables` are the same counters, locks and table loops
  as classes that update their fields. `Systems` joins the machine with the
  memory of `Population`, from the end of `main` on: whatever step the machine
  takes, memory can follow.
* **The user allocator** (`FreeLists`, `Umalloc`): the circular, coalescing
  free list in memory, with `free`, `morecore` and `malloc` working on headers.
* **User arithmetic and text** (`Primes`, `Texts`, `Buffers`).

Run `dafny verify dfyconfig.toml` to check everything.

Panics the source provides for are results (`Panic`, `None`, `NoMemory`,
`Halted`); what must never happen is a separate result (`Bad`, the panic of
`Drop`) that is proved unreachable. Arithmetic of type `usize` that overflows
counts as a panic, as in a build with overflow checks. The frame allocator may
refuse at any time.

Where comments and code differ, the model follows the code: `free_req` gives no
level-0 table back although its comment says so; `walk` has no leaf check at
level 1 despite the mention of megapages; `load` copies a whole page even for a
short last chunk; a process preempted in `kexec` between its first `unmap` and
the store of the new page table (process.rs:238) can be runnable without
trampoline and trapframe, and from the moment its root has gone back its
`pagetable.root` names a frame that may be anybody's (`Preemption`, and
`Systems.System.InUseIsReady` for the exact condition); `kexec` writes no terminating zero behind an argument, and it
refuses a first argument without bytes.

## Model

| member | source | states |
|---|---|---|
| Bits.PteFromFields | kernel/src/virtmemory.rs:65-84 | over all 32-bit words, each masked and shifted field of a page-table entry is the quotient or remainder the model uses |
| Bits.VaFromFields | kernel/src/virtmemory.rs:173-181 | likewise for the two halves of a virtual page number |
| Bits.LeafWordBits | kernel/src/virtmemory.rs:326-330 | the or-ed word that `map` writes has frame number, valid bit and permissions in disjoint fields |
| Bits.SatpBits | kernel/src/virtmemory.rs:146-154 | the root's frame number and the mode bit do not overlap in `satp` |
| Bits.AlignDown8Bits | kernel/src/process.rs:216 | the mask rounds the stack pointer down to a multiple of eight |
| TableView.PteRoundTrip | kernel/src/virtmemory.rs:65-98 | decoding what `map` encodes gives back frame, valid bit and permissions |
| TableView.FrameTable | kernel/src/virtmemory.rs:262-301 | a table's meaning depends on nothing but its own frames |
| TableView.SetLeaf | kernel/src/virtmemory.rs:326-330 | writing one level-0 entry changes the abstract map at that page only, because tables never alias |
| TableView.AddTable | kernel/src/virtmemory.rs:282-291 | hanging a fresh zeroed table into an empty root slot leaves the abstract map alone and keeps tables distinct |
| PageTables.PageTable.New | kernel/src/virtmemory.rs:219-227 | a fresh frame becomes a well-formed table that maps nothing; everything else is untouched |
| PageTables.PageTable.Walk | kernel/src/virtmemory.rs:262-301 | finds the leaf entry's place, adding a level-0 table only when asked; never changes the abstract map; fails exactly when there is no table (or no frame for one) |
| PageTables.PageTable.Map | kernel/src/virtmemory.rs:304-339 | the range is mapped on top of what was there and nothing else changes; on failure a prefix is; the panics are exactly misalignment and overflow |
| PageTables.PageTable.UnmapPage | kernel/src/virtmemory.rs:352-366 | one turn: the page leaves the map, its frame goes back exactly if it is a user leaf and freeing was asked for |
| PageTables.PageTable.Unmap | kernel/src/virtmemory.rs:343-371 | exactly the pages of the range leave the map, each owned user frame goes back once, tables stay |
| PageTables.PageTable.FreeReq | kernel/src/virtmemory.rs:238-258 | terminates, panics exactly when a page is still mapped, and gives back nothing |
| Sv32.WalkAddr | kernel/src/virtmemory.rs:626-634 | the kernel's lookup equals looking the address up in the abstract map |
| Sv32.TranslateView | kernel/src/virtmemory.rs:262-301 | the architecture's two-level walk through such a table finds the abstract map's leaf |
| Sv32.WalkAddrIsSv32 | kernel/src/virtmemory.rs:626-634 | kernel lookup and hardware agree on an address if and only if its page is not mapped writable but unreadable |
| Spaces.SpaceBound | kernel/src/virtmemory.rs:530-557 | however it was grown, the user part ends below the trapframe page, since each mapped page holds a frame of RAM |
| Spaces.EndUnmapped | kernel/src/virtmemory.rs:545-549 | the page at `end()` is never mapped, so growing overwrites nothing |
| Spaces.GrowPage | kernel/src/virtmemory.rs:541-556 | a page added at the end keeps the whole invariant and takes exactly its frame and new tables |
| Spaces.CutUser | kernel/src/virtmemory.rs:560-569 | cutting the user part keeps the invariant and returns exactly the frames behind what is cut |
| Spaces.AllUnmapped | kernel/src/virtmemory.rs:497-509 | with the user part cut to nothing and both kernel pages gone, no page is left mapped |
| AddressSpaces.Uvm.New | kernel/src/virtmemory.rs:488-495 | an empty address space in one fresh frame |
| AddressSpaces.Uvm.AllocPage | kernel/src/virtmemory.rs:541-556 | one turn: a page more, or, when `map` fails, memory and allocator exactly as before |
| AddressSpaces.Uvm.Alloc | kernel/src/virtmemory.rs:530-557 | keeps the invariant and everything mapped before; maps each new page with the given permissions, or none for a guard; how far it got on failure |
| AddressSpaces.Uvm.Grow | kernel/src/virtmemory.rs:524-526 | the same for a relative size; panics exactly on overflow |
| AddressSpaces.Uvm.Dealloc | kernel/src/virtmemory.rs:560-569 | errors exactly on a partial page, panics exactly when asked to lengthen, otherwise cuts the user part and returns its frames |
| AddressSpaces.Uvm.InitProc | kernel/src/virtmemory.rs:571-584 | both kernel pages mapped where nothing was mapped, as `kexec` and `kfork` call it, and nothing else changed; or a failure that leaves at most the trampoline mapped |
| AddressSpaces.Uvm.Drop | kernel/src/virtmemory.rs:497-509 | never panics; the user frames and the root go back, each once, trampoline and trapframe never, and the level-0 tables stay outstanding |
| AddressSpaces.Uvm.Load | kernel/src/virtmemory.rs:588-617 | the image's bytes can be read back from the address given; only frames behind user pages changed |
| AddressSpaces.Uvm.ClonePage | kernel/src/virtmemory.rs:462-474 | one turn of the copy keeps it a copy so far |
| AddressSpaces.Uvm.Clone | kernel/src/virtmemory.rs:454-478 | same begin and size, a deep copy in fresh frames; its walk finds no entry exactly when a page of the user part has no level-0 table |
| Isolation.StoreHits | kernel/src/virtmemory.rs:685-693 | a store through an address space changes exactly the addressed byte of it |
| Isolation.StoreIsPrivate | kernel/src/virtmemory.rs:454-478 | a store is invisible in any address space that shares no frame |
| Isolation.CloneIsDeep | kernel/src/virtmemory.rs:454-478 | the clone has the same user pages, permissions and bytes, holes included; the parent is untouched; no frame is shared |
| Isolation.CloneIsIsolated | kernel/src/virtmemory.rs:454-478 | after a clone, stores on either side are invisible on the other |
| KernelSpace.KstackAboveRam | kernel/src/process.rs:38-44 | stack and guard of a slot stay above RAM if and only if the slot number is below the bound |
| KernelSpace.KstacksDisjoint | kernel/src/process.rs:38-44 | stacks with their guards never overlap each other or the trampoline |
| KernelSpace.GuardsUnmapped | kernel/src/virtmemory.rs:380-386 | below every kernel stack lies an unmapped page |
| KernelSpace.InitRanges | kernel/src/virtmemory.rs:394-412 | the four boot ranges are disjoint and make up exactly the kernel's address space |
| KernelSpace.NextStack | kernel/src/virtmemory.rs:418-426 | a further stack is mapped where nothing was mapped |
| KernelSpace.KernelRights | kernel/src/virtmemory.rs:394-423 | no page of the kernel is for user mode; only its text and the trampoline can be executed, and these cannot be written |
| KernelSpace.StacksGrow | kernel/src/virtmemory.rs:418-426 | two fresh frames behind the next two pages keep it that all stack pages have different frames |
| KernelSpace.Kvm.Init | kernel/src/virtmemory.rs:387-415 | the kernel's address space after boot, page by page |
| KernelSpace.Kvm.AddStackPage | kernel/src/virtmemory.rs:419-425 | one turn of the loop: a frame that was free, mapped at that page alone, read and write, and no part of the table |
| KernelSpace.Kvm.AllocKstack | kernel/src/virtmemory.rs:418-426 | adds the next slot's stack to it and nothing else: two different frames, free until now, no part of the table and behind no earlier stack page; touches no frame that is not the kernel's |
| UserCopy.CopyOutBytes | kernel/src/virtmemory.rs:685-693 | writes exactly the bytes given behind the page, or fails exactly when it is not mapped |
| UserCopy.CopyOutWords | kernel/src/virtmemory.rs:685-693 | the same for words |
| UserCopy.CopyInBytes | kernel/src/virtmemory.rs:646-656 | answers the bytes the address space holds there |
| UserCopy.CopiedOut | kernel/src/virtmemory.rs:646-693 | what is copied out is what is copied in, and no other byte of the page changed |
| ArgStack.PushedDown | kernel/src/process.rs:215-216 | each argument moves the stack pointer down by its length rounded up to eight |
| ArgStack.ArgsDisjoint | kernel/src/process.rs:212-232 | argument regions are 8-aligned, pairwise disjoint, inside the stack page and above the pointer array |
| ArgStack.ArgsHeldSnoc | kernel/src/process.rs:220 | writing an argument leaves the earlier ones readable |
| Exec.GuardedHasTables | kernel/src/virtmemory.rs:462-463 | in the address space of a program every page, the guard included, has a level-0 table, so cloning it never fails to find an entry |
| Exec.PushArg | kernel/src/process.rs:215-222 | one argument: exact conditions for each of success, error and underflow, and the page it leaves |
| Exec.PushArgs | kernel/src/process.rs:207-231 | succeeds if and only if the arguments fit (a condition on their lengths); then each is at its address and the pointer array holds these addresses and a zero |
| Exec.ArgvIs | kernel/src/process.rs:207-231 | read through the address space of the process, the words at the stack pointer are the arguments' addresses and a zero, and at each address are that argument's bytes |
| Exec.ProgramSees | kernel/src/process.rs:196-235 | what the program can see: its image from the start address on, readable, writable, executable; a guard; the stack with its arguments, not executable; and no kernel page |
| Exec.PartKept | kernel/src/process.rs:196-231 | how far a program has been built is a fact about the frames of its address space alone |
| Exec.BuildPages | kernel/src/process.rs:197-205 | image, guard and stack pages with their permissions, the image's bytes in place, all in frames fresh since the start |
| Exec.BuildProgram | kernel/src/process.rs:197-231 | the same with arguments |
| Ownership.ConfinedFrame | kernel/src/virtmemory.rs:480-509 | an operation confined to its own frames leaves frames of others with them, unchanged |
| Ownership.OthersKept | kernel/src/virtmemory.rs:480-509 | whatever such an operation does, another address space keeps its map, frames and bytes |
| Ownership.MadeDropped | kernel/src/process.rs:196-232 | an abandoned address space costs exactly its level-0 tables |
| ProcessMemory.Process.New | kernel/src/process.rs:119-134 | an empty address space and a trapframe of its own |
| ProcessMemory.Process.Renew | kernel/src/kernel.rs:85 | the trapframe is replaced, the old frame goes back, the address space is untouched |
| ProcessMemory.Process.Free | kernel/src/process.rs:136-147 | old address space and trapframe are given up for empty ones; nothing of anybody else is touched |
| ProcessMemory.StartRegisters | kernel/src/process.rs:234-242 | `a0` the number of arguments, `a1` and `sp` the pointer to them, `epc` the start address, nothing else |
| ProcessMemory.ForkedRegisters | kernel/src/process.rs:163-175 | the parent's registers but `a0` |
| ProcessMemory.Process.Kexec | kernel/src/process.rs:188-244 | run without interruption, as at boot: all or nothing: on error the old address space, the trapframe and every old frame are as they were; on success, for one stack pointer: the image's bytes and the arguments can be read through the new address space, `a0` is their number, `a1` and `sp` that pointer, `epc` the start, every other register as before; the trapframe page is mapped to this process's own trapframe |
| ProcessMemory.CopySpace | kernel/src/process.rs:168-169 | a copy of the user part with the child's own kernel pages |
| ProcessMemory.Process.Kfork | kernel/src/process.rs:163-175 | the child has a copy of the parent's pages, its own kernel pages and the parent's registers, but `a0`, which is 0 for it and its id for the parent; they share no frame; a missing table is impossible for a program |
| ProcessMemory.CopiedBytes | kernel/src/process.rs:168-170 | such a copy agrees byte for byte and has the same guard page |
| ProcessMemory.ProcessKept | kernel/src/process.rs:136-244 | address space and trapframe of every other process survive all of these operations, so the trapframe page stays mapped to its own trapframe |
| Ownership.AsIfMade | kernel/src/process.rs:196 | whatever others have done since an address space was begun, it could just have been made by the owner of its frames, so its construction can go on |
| Interleaving.NoDifference | kernel/src/process.rs:188-244 | with others taking, returning and writing frames between any two accesses, work on one's own frames finds and leaves at every moment what it would in a machine where nobody else is |
| Dropping.RemainsKept | kernel/src/virtmemory.rs:497-509 | what is left of an address space in the middle of its drop is untouched by others |
| Dropping.DropPart | kernel/src/virtmemory.rs:343-371 | one access to memory of the drop: the trapframe's entry, a user page's frame, then its entry, or the end of the loop; it stays within the frames left |
| Dropping.EndDrop | kernel/src/virtmemory.rs:229-236 | the root goes back last, and only the level-0 tables stay behind |
| Slots.SlotKept | kernel/src/process.rs:188-244 | somebody else's operation keeps a process, also one in the middle of `kexec`: old address space or what is left of it, new one as far as it is built, trapframe |
| Slots.ReadyUnlessReplacing | kernel/src/process.rs:238 | a process in use has its own address space with both kernel pages, its own trapframe and its guard if and only if it is not between the first page unmapped and the store |
| Slots.ReadyWhileBuilding | kernel/src/process.rs:196-232 | at any moment of the building, whole parts or not, the old address space is as it was |
| Population.OneJoins | kernel/src/kernel.rs:70-74 | a process made in fresh frames joins the others: all stay apart and as they were |
| Population.OutsiderActs | kernel/src/virtmemory.rs:418-426 | whoever is no process, the kernel for its stacks, disturbs none of them |
| Population.OneActs | kernel/src/process.rs:136-244 | if one process acts on its own frames only, all processes stay apart and every one in use keeps its own trapframe, the trampoline and a user part without holes but the guard |
| Population.TwoAct | kernel/src/process.rs:163-186 | the same for parent and child of a fork |
| Population.Processes.constructor | kernel/src/kernel.rs:52-57 | the empty table, for which all that holds |
| Population.Processes.AddProcess | kernel/src/kernel.rs:69-75 | one turn of the loop keeps it: one more process, not in use, and its kernel stack where nothing was mapped, in frames of nobody else; still each stack page has a frame of its own, which is the kernel's and no part of its table |
| Population.Processes.InitProc | kernel/src/kernel.rs:66-77 | `n` more processes, from any table, so from the empty one at boot; the earlier ones are as they were |
| Population.Processes.Exec | kernel/src/main.rs:152 | `kexec` without interruption, as at boot, keeps it for all of them, and brings the process into use with that program, those arguments and those registers |
| Population.Processes.NewTree | kernel/src/process.rs:196 | `kexec` with others in between: the new address space is begun beside the old one |
| Population.Processes.BuildPart | kernel/src/process.rs:197-235 | the next of its parts, whatever others have done since the last: kernel pages, image pages, image, guard, stack, arguments with their registers |
| Population.Processes.DropOn | kernel/src/process.rs:238 | the next access to memory in the drop of the old one; each keeps everybody apart, and cannot fail |
| Population.Processes.Store | kernel/src/process.rs:238-243 | in the end the process has the program the call began with, its bytes, rights and arguments as seen through the address space, and its registers, as if nobody had come between |
| Population.Processes.Free | kernel/src/process.rs:136-147 | so does freeing a slot, which goes out of use |
| Population.Processes.Renew | kernel/src/kernel.rs:85 | so does the new trapframe of a slot that is not in use, all of whose registers are zero |
| Population.Processes.CopyStatus | kernel/src/virtmemory.rs:676-682 | a status copied out changes one word of the process's own user part, or panics exactly when the page is not mapped |
| Population.Processes.AnswerCall | kernel/src/kernel/syscall/sys_proc.rs:36-41 | a result in `a0` changes one word of the process's own trapframe |
| Population.Processes.Fork | kernel/src/process.rs:163-175 | a fork keeps everybody apart, makes the child a copy of the parent and brings it into use exactly if it succeeds; the walk in `clone` always finds a table |
| Preemption.WindowIsReached | kernel/src/process.rs:238 | from boot there are runs on which process 0 is runnable with any step of `kexec` as its next, so also with its old address space half dropped |
| Systems.System.InUseIsReady | kernel/src/process.rs:480-523 | whoever is runnable, running, asleep or a zombie has its own address space with kernel pages, trapframe and guard if and only if it has not begun to drop it in `kexec`, or has stored the new one |
| Systems.System.UserIsReady | kernel/src/process.rs:480-523 | whoever enters user mode, or is there, has them |
| Systems.BootIsSane | kernel/src/main.rs:149-154 | the machine at the end of `main` is quiet, and is the one all runs start from |
| Systems.System.Boot | kernel/src/main.rs:141-154 | the rest of `main` ends there, with machine and memory in agreement: a slot has a program exactly if it is not unused, and memory stands where the thread stands in `kexec`; process 0 starts `init` with its arguments, in registers that were all zero before |
| Systems.System.Follow | kernel/src/trap.rs:119-225 | memory can follow every transition of the machine (see `Safety.StepFollows`) and keeps that agreement |
| Systems.System.ExecStep | kernel/src/process.rs:188-244 | so it does a step of `kexec`, which from the drop on cannot fail; the first fixes image and arguments, every other keeps them, and the last leaves that program |
| Systems.System.DropPage | kernel/src/virtmemory.rs:352-368 | and any single access in the loop over the user pages: frame by frame, in order, for the same program |
| Systems.System.Dispatch | kernel/src/process.rs:440-462 | one turn of the scheduler, up to where the chosen process goes on: no other runnable one has been dispatched less often, it runs now, and its count is one more |
| Systems.System.Tick | kernel/src/trap.rs:210-217 | the machine's own timer step, in user mode or in the kernel, also in `kexec`: the process can run, nobody does, and it stays where it was |
| Systems.System.Exit | kernel/src/process.rs:246-268 | an exit with the status called for, whose memory stays until it is waited for; slot by slot, what it means for children, sleepers and parent |
| Systems.System.Wait | kernel/src/process.rs:280-325 | `kwait`: the first zombie child loses its slot and its memory, or the process sleeps if it has a child, or its call answers -1 because it has none |
| Systems.System.CopyOut | kernel/src/process.rs:315-318 | that child's status goes to a word of the process's own memory unless the address is zero, its id to `a0`, and nothing else in memory changes |
| Systems.System.Fork | kernel/src/process.rs:163-186 | a fork: the first unused slot has the child, ready for user mode; the parent's `a0` is the child's id and the child's is 0 |
| Interrupts.Cpu.PushInterruptOff | kernel/src/kernel.rs:31-39 | the counter, the remembered state and the enable bit afterwards |
| Interrupts.Cpu.PopInterruptOff | kernel/src/kernel.rs:40-49 | panics exactly at zero; turns interrupts on exactly at the last pop of a section entered with them on |
| Interrupts.IntMutex.LockManual | kernel/src/lock.rs:14-33 | raises the level, then takes the lock; a holder taking it again would wait forever |
| Interrupts.IntMutex.UnlockManual | kernel/src/lock.rs:35-41 | releases the lock and lowers the level |
| Interrupts.Section | kernel/src/lock.rs:14-66 | a lock whose guard goes out of scope leaves level and interrupts as they were, at any level |
| Interrupts.InterruptsRestored | kernel/src/process.rs:424-426 | for every sequence of locks and unlocks in any order, with other threads running in between under `sched`, the last unlock leaves interrupts as they were at the first lock |
| KernelTables.Kernel.Wakeup | kernel/src/kernel.rs:119-129 | the loop makes runnable exactly the sleepers on the channel |
| KernelTables.Kernel.Reparent | kernel/src/kernel.rs:104-117 | the loop hands over exactly the children, and wakes process 0 exactly if there are any |
| KernelTables.Kernel.AllocProc | kernel/src/kernel.rs:79-102 | the first unused slot gets the next id, or nothing changes |
| KernelTables.Kernel.ScanChildren | kernel/src/process.rs:286-299 | frees exactly the first zombie child and answers its id and status, or says whether there is any child |
| KernelTables.Kernel.PublishSleep | kernel/src/process.rs:301-312 | the slot found by id goes to sleep on that id |
| KernelTables.Kernel.PickNext | kernel/src/process.rs:440-462 | takes the first runnable slot in order and counts the dispatch |
| PickOrder.OrderSorted | kernel/src/process.rs:442-444 | the order is a permutation of the slots, sorted by count, stably |
| ProcessTable.YieldKeeps | kernel/src/process.rs:152-161 | yielding keeps ids, tree, sleepers and history |
| ProcessTable.DispatchKeeps | kernel/src/process.rs:450-463 | so does dispatching, and the dispatched process is the only one running |
| ProcessTable.ExitKeeps | kernel/src/process.rs:252-266 | so does an exit: children move to process 0, nobody sleeps with an exited child although the parent is woken before the state changes |
| ProcessTable.FreeKeeps | kernel/src/process.rs:287-297 | so does returning a zombie's status, which had not been returned |
| ProcessTable.SleepKeeps | kernel/src/process.rs:301-312 | so does going to sleep with a child and no zombie |
| ProcessTable.ForkKeeps | kernel/src/process.rs:163-185 | so does a fork |
| ProcessTable.RootedInInit | kernel/src/kernel.rs:104-117 | the parent relation leads every process through living ones to process 0 |
| Regions.TakeLeads | kernel/src/lock.rs:24-33 | taking a lock with interrupts off, step by step |
| Regions.GiveLeads | kernel/src/lock.rs:35-41 | giving it back |
| Regions.WakeLeads | kernel/src/kernel.rs:119-129 | with the locks it takes slot by slot, the loop computes the same table as without |
| Regions.ReparentLeads | kernel/src/kernel.rs:104-117 | likewise |
| Regions.ScanLeads | kernel/src/process.rs:286-312 | likewise for the scan of `kwait`, in each of its three outcomes |
| Regions.AllocLeads | kernel/src/kernel.rs:79-102 | likewise for `allocproc` |
| Regions.PickLeads | kernel/src/process.rs:446-457 | likewise for the scheduler's loop |
| Regions.LeafSection | kernel/src/allocator.rs:40-58 | the heap allocator's lock taken and given back inside a region changes nothing, as in `kfork`, the scheduler and `yeld` |
| Regions.OuterSection | kernel/src/allocator.rs:40-58 | nor outside one with interrupts off |
| Safety.HeapFollows | kernel/src/allocator.rs:40-58 | nor with interrupts on, as in `kexec`: it is a region of its own |
| Protocol.LeaveLeads | kernel/src/process.rs:411-428 | `sched` and the scheduler's next lines: the lock is given back by the scheduler and interrupts are as the region found them |
| Protocol.YieldLeads | kernel/src/process.rs:152-161 | a timer interrupt ends with the process runnable and the scheduler idle |
| Protocol.ExitLeads | kernel/src/process.rs:252-268 | the whole exit, locks released out of order, as one step on the table |
| Protocol.WaitLeads | kernel/src/process.rs:280-330 | the whole critical section of `kwait`: a status, no child, or asleep |
| Protocol.ForkLeads | kernel/src/process.rs:163-186 | the whole fork as one step, or a full table |
| Protocol.PickRegion | kernel/src/process.rs:439-465 | one turn of the scheduler: the chosen process entered with its own lock held, or none |
| Protocol.ResumeLeads | kernel/src/process.rs:425-426 | coming back restores the remembered interrupt state before the lock is given back |
| Protocol.WakeUpLeads | kernel/src/process.rs:327-331 | coming back from sleep |
| Protocol.StartLeads | kernel/src/process.rs:480-487 | a new process's first steps |
| Fairness.ChoiceIsFirst | kernel/src/process.rs:440-455 | the choice is the runnable slot with the smallest count, the lowest on a tie; there is one if anything can run |
| Fairness.DispatchPays | kernel/src/process.rs:444-462 | dispatching a slot that comes before `p` lowers the sum of what the others may still take by exactly one |
| Safety.StepFollows | kernel/src/trap.rs:119-225 | from any point where interrupts may come, every step (kernel code, timer, system call) leads, in steps nothing can come between, to such a point again; what happens to memory meanwhile is nothing, a fork, the freeing of a zombie, or one step of a `kexec`; and each process either still means to do what it meant, or has done just that |
| Guarantees.NeverBad | kernel/src/process.rs:411-422 | on every run from boot: no deadlock, no unlock without lock, the panics of `sched` and of a continuing zombie unreachable, `sched` entered with just the process's own lock, no process entered while another is current, nothing exits or is returned twice |
| Guarantees.RegionsAtomic | kernel/src/lock.rs:14-66 | on every run, while a lock is held or the level is above zero, only the running code itself can take the next step |
| Guarantees.InterruptsOnIsQuiet | kernel/src/kernel.rs:31-49 | interrupts on implies level zero and no lock held |
| Guarantees.AlwaysSane | kernel/src/process.rs:246-333 | on every run, wherever an interrupt can come: unique ids, the tree, one running process (the current one), no lost wakeup, exact history |
| Guarantees.SwitchSane | kernel/src/process.rs:411-428 | the same on every run right after `sched` has handed over to the scheduler, with nobody running: no wakeup is lost in the switch |
| Guarantees.NoStarvation | kernel/src/process.rs:440-462 | a runnable process waits for at most the sum over the others of max(0, its count, plus one for lower slots, minus theirs) dispatches, whatever they do |
| Guarantees.StatusOnce | kernel/src/process.rs:286-297 | no step loses or changes a status; one that returns a status returns a zombie's, to its recorded parent |
| Guarantees.StatusForever | kernel/src/process.rs:286-297 | over runs, a returned status stays as it was; with `NeverBad`, each is returned at most once |
| Calls.TimerPreempts | kernel/src/trap.rs:146-217 | the timer step in user mode or in the kernel leads to the scheduler: the process is runnable, nobody current, nothing else changed, and what it goes on with is saved |
| Calls.SchedulerResumes | kernel/src/trap.rs:146-161 | a timer interrupt in the scheduler is over with the next step |
| Calls.PreemptedResumes | kernel/src/process.rs:425-463 | dispatched again, it goes on exactly there |
| Calls.ForkForks | kernel/src/kernel/syscall/sys_proc.rs:7-10 | on every run from boot, with interrupts and other processes in between: a process that calls `fork` has forked, once it is back in user mode: a child of its own in the first free slot, and nothing else |
| Calls.WaitWaits | kernel/src/kernel/syscall/sys_proc.rs:36-41 | one that calls `wait` had no child, or has got its first zombie child's status and answers with just that child's id and status |
| Calls.ExecStores | kernel/src/kernel/syscall/sys_proc.rs:12-34 | one that calls `exec` has taken the last of its steps, the store of the new address space |
| Calls.ExitDelivers | kernel/src/kernel/syscall/sys_proc.rs:43-48 | one that calls `exit(x)` never is in user mode again, and nothing but `x` is ever recorded as its exit |
| Calls.ExitStatus | kernel/src/process.rs:257-266 | its zombie slot holds `x`, and `x` is what its parent is given |
| LockLevel.LevelIsLocksHeld | kernel/src/lock.rs:14-66 | on every run the interrupt level is the number of locks held, one more in the middle of taking or giving back |
| Restoring.LastUnlockRestores | kernel/src/process.rs:424-426 | on every run, from a process's first lock to its last unlock, whatever it and others do in between under `sched`, interrupts end as they were found |
| Restoring.ReadStaysTrue | kernel/src/kernel.rs:31-39 | a lock interrupted between reading the enable bit and clearing it still saves what the bit is |
| FreeLists.MergeAscending | user/umalloc.c:33-42 | joining two blocks that touch keeps the list in address order without overlap |
| FreeLists.ListDetermined | user/umalloc.c:24-44 | two coalesced lists with the same free units are the same list, block by block |
| Umalloc.PayloadFits | user/umalloc.c:69 | a block of `nunits` holds the bytes asked for if and only if the rounding sum does not wrap around |
| Umalloc.RequestOk | user/umalloc.c:52-55 | with what `sbrk` is asked for: both are right if and only if at most 2^31 - 16 bytes are asked for |
| Umalloc.StopsAtPlace | user/umalloc.c:30-32 | the loop of `free` stops exactly at the block below the freed one |
| Umalloc.Allocator.FindBelow | user/umalloc.c:30-32 | that loop ends, at that block, from wherever `freep` points |
| Umalloc.FreedList | user/umalloc.c:33-42 | all four ways of joining keep one coalesced ring in address order and add exactly the freed units |
| Umalloc.SpanInBlock | user/umalloc.c:74-88 | contiguous free units lie in one block |
| Umalloc.Allocator.FreeBlock | user/umalloc.c:24-44 | the block's units become free, all else handed out is untouched, the invariant is kept; `freep` ends at the last block of the old list below the freed one |
| Umalloc.Allocator.Morecore | user/umalloc.c:46-61 | exactly the new memory becomes free, `freep` is at the last block below it, and some block is now large enough; or nothing changed |
| Umalloc.Allocator.Take | user/umalloc.c:75-85 | the whole block or its tail leaves the list and becomes a block of exactly the units asked for |
| Umalloc.Allocator.Malloc | user/umalloc.c:63-90 | ends with at most one call of `morecore`, none if a block fits; takes the first block that fits behind `freep`, which after `morecore` is where `free` has left it, and leaves `freep` at the block before; it belonged to nobody, free and handed-out units stay exactly what `sbrk` gave; a null pointer only if nothing fits and `sbrk` refused, and then the list is as it was |
| Primes.Euclid | user/prime.c:22-27 | there is a prime above every number, which is why the main loop ends |
| Primes.TrialDivision | user/prime.c:9-13 | no divisor up to the square root means prime |
| Primes.IsPrime | user/prime.c:3-16 | decides primality; `i * i` leaves the range of `int` if and only if the number is at least 46340 squared and has no divisor up to 46340 |
| Primes.NthPrime | user/prime.c:18-28 | ends, at exactly the n-th prime |
| Texts.NumeralValue | user/printf.c:31-33 | every numeral stands for its number |
| Texts.NumeralDigits | user/printf.c:6-33 | digit by digit: each is that of its power of the base, in upper case beyond nine, and the first is not zero |
| Texts.ShortNumerals | user/ulib.c:95 | 32-bit numbers have at most 10 decimal and 8 hexadecimal digits |
| Texts.Atoi | user/ulib.c:85-92 | the value of the leading digits, in wrapping arithmetic |
| Texts.Itoa | user/ulib.c:94-117 | writes the numeral and a zero within its buffer, never answers -1, touches nothing behind |
| Texts.AtoiOfItoa | user/ulib.c:85-117 | `atoi` undoes `itoa` on every `int` that is not negative |
| Texts.WriteAndRead | user/ulib.c:85-117 | so it does on the buffer itself |
| Texts.PrintInt | user/printf.c:15-39 | prints the sign and the magnitude's numeral, or the unsigned one's, within its buffer of 20, for both bases used |
| Texts.PrintedIsItoa | user/printf.c:15-39 | in base 10 these are the digits `itoa` writes |
| Buffers.Memmove | user/ulib.c:119-135 | the destination gets the old source bytes and nothing else changes, for every overlap |

## Left out

- AddressSpaces.Uvm.Alloc: guard pages take no frame, so the model bounds how many unmapped pages a user part may have (a million; `kexec` makes one); beyond it the user part would run into the kernel's pages.
- AddressSpaces.Uvm.Grow: the same bound for a guard.
- AddressSpaces.Uvm.Load: only for pages that are mapped, as `kexec` calls it; on others the code writes to whatever frame the entry names. Only the image's bytes are stated, not what follows them in the last page.
- UserCopy.CopyOutBytes: only for ranges within one page of the user part; the code translates the first page only. `copy_in_str` and `copy_in` are not modelled.
- UserCopy.CopyOutWords: the same, for aligned words.
- UserCopy.CopyInBytes: the same.
- AddressSpaces.Uvm.InitProc: only where neither kernel page is mapped, as both of its callers have it; the code does not check.
- KernelSpace.Kvm.AllocKstack: only for slots whose stack stays above RAM (`KstackAboveRam`); the code does not check.
- Population.Processes.AddProcess: the same.
- Population.Processes.InitProc: the same.
- Sv32.TranslateView: accessed and dirty bits, the privilege check of step 5 and the TLB are not modelled.
- KernelSpace.Kvm.Init: the linker's symbols are taken to be page-aligned.
- PageTables.PageTable.MapOne: `map` for one page, split off for the callers that can only fail before anything changed.
- Guarantees.NoStarvation: ids and dispatch counts are unbounded; a panic stops the whole machine.
- Umalloc.Allocator.Morecore: for a request `sbrk` cannot express (see `RequestOk`) nothing is claimed.
- Umalloc.Allocator.Malloc: `base` lies below the heap, and `sbrk` gives a fresh contiguous region or an error. For a request it cannot express (see `RequestOk`) the model stops at the answer of `sbrk` and claims nothing.
- Texts.PrintInt: only the bases 10 and 16, which are the ones used.
- Population.Processes.BuildPart: each part of the new address space is one step, and its own loop is verified without others in it. `Interleaving.NoDifference` says that this is no loss for work on one's own frames, and `Slots.ReadyWhileBuilding` that the old address space is whole at every moment inside.
- Systems.System.CopyOut: only for an aligned word of the user part or of a page that is not mapped; the code writes wherever `walkaddr` leads. Ids and statuses are unbounded in the machine and cut to 32 bits here.
- Systems.System.Wait: -1 is in `a0` as soon as the locks are given back, a moment before the code writes it.
- Calls.ExitDelivers: which call a process makes, and with what status, is any; that the number of the call and its arguments are read from the trapframe is not modelled. The machine may also stop in a panic first.
- Guarantees.NeverBad: the heap allocator's lock is taken at every step of `kexec`, in other system calls, in `kfork`, by the scheduler and by `yeld`; its uses elsewhere are the same two operations (`Regions.LeafSection`, `Safety.HeapFollows`).
- Interrupts.InterruptsRestored: here other threads are events that leave this one's saved state alone; `Restoring.LastUnlockRestores` derives that on runs of the machine.
- Naked assembly, trap entry and return below the level of the interrupt-enable bit, timer and other CSR programming, `wfi`, the UART.
- The machine has no memory of its own; `Systems` has both, at the points between critical regions, and there a call that runs out of frames ends in a panic.
- Access to the two program images by name (`kexec`'s `match`), and reading the path and the arguments from user memory.
- System calls without a part in the protocol (`write`, and those not implemented).
- `printptr`, `vprintf`, `memset`, `strcpy`, `strcmp`, `strlen`: easy members.
