# A verified model of the kernel

This project models a small preemptive i386 kernel in Dafny and proves what it is built to guarantee: its round-robin
scheduler with a sleep queue, the reentrant mutex and counting semaphore on top of it, the intrusive lists underneath,
the interrupt-flag protocol around it, its segment descriptor table, its number and string formatting, and the ELF
loader that starts it.

| file | what it holds |
|---|---|
| `Lists.dfy` | the intrusive doubly linked list, over one heap of nodes shared by all lists of the system |
| `Kernel.dfy` | tasks, mutexes, semaphores and the task manager as objects updated in place; each operation is proved to keep the global invariant and to be one step of the transition system in `Sched.dfy` |
| `Sched.dfy` | that transition system: the kernel's lists as sequences, one function per operation, and the global invariant |
| `SchedInvariant.dfy` | every step keeps the invariant; the tick's removing loop equals one simultaneous countdown |
| `SchedRuns.dfy` | whole runs: conservation of tasks, bounded waiting, exact sleep, labels |
| `SyncRuns.dfy` | whole runs: lock accounting, hand-off order, semaphore conservation and order |
| `Interrupts.dfy` | the same kernel at the grain of single updates, with an interrupt flag, saved flags per task, switches in the middle of operations, and timer interrupts wherever the flag is set; it refines `Sched.dfy` |
| `Gdt.dfy` | descriptor encoding and decoding, table setup, first-fit allocation |
| `GdtAlloc.dfy` | allocation by any number of tasks under preemption |
| `TssInit.dfy` | `task_init` as a whole around that allocation: claim and fill a descriptor, check the name, register |
| `Preemption.dfy` | `task_init` as user code of the machine in `Interrupts.dfy`; it refines `TssInit.dfy` |
| `BootUp.dfy` | boot, over the kernel objects and the descriptor table |
| `Klib.dfy`, `Format.dfy` | C strings, number formatting, and the two-state format loop |
| `Loader.dfy` | copying an ELF image's segments into place |
| `ElfImage.dfy` | ELF files written down field by field, and what the loader makes of them |
| `Seqs.dfy` | facts about sequences without repetition |

How the layers meet: a method of `Kernel.Manager` ends with `model == S.Step(old(model), event)`, where `model` is the
sequence-level state that the objects represent. So the laws about `Sched.Run` speak about the object-level kernel, and
`Interrupts.MachineRefines` carries them to every interleaving of single updates with timer interrupts. A task is named
by the address of its struct; `CONTAINER_OF` is the `container` field of a node.

Three laws hold only under a condition, and the model states it exactly.

- The RUNNING label does not always mark the current task. `SchedRuns.RunningLabelExactlyWhen`: after a step the current
  task is labelled RUNNING if and only if the step switched to it, or it was current and labelled already and did not
  use up its slice on this tick. `SchedRuns.RunningLabelHistory` says it of whole runs from boot: some step switched to
  it, and since then no tick used up its slice. `SchedRuns.MainStartsReady` and `SchedRuns.LoneTaskLosesLabel` are the
  two cases in which the label is missing: main from the start, and a lone task from its last tick on.
- A claimed descriptor does not always belong to a registered task, because `task_init` runs `tss_init` before it looks
  at the name. `TssInit.SlotOwnedExactlyWhen`: the slot of a call, one of the first 253, is some registered task's
  selector if and only if this call or a later one for the struct had a good name and no later one was among the first
  253. `TssInit.RefusedCallKeepsSlot` builds the run in which a refused name costs a slot. The other way round, a
  registered task may have no selector, because the result of `tss_init` is ignored. `TssInit.CallSelectorExactlyWhen`:
  a call is given a selector if and only if fewer than 253 calls released the table's lock before it.
  `TssInit.FullTableTask` is a run from boot that registers a task without one.
- `sys_sleep(ms)` computes `ms + 9` in 32 bits. `SchedRuns.SleepIsLongEnough`: the sleep is long enough if and only if
  `ms <= 2^32 - 10`. `SchedRuns.NextTickExactlyWhen` names the requests that wake on the next tick.

## Model

| member | source | states |
|---|---|---|
| Lists.List.constructor | source/kernel/tools/list.c:7-10 | a new list is empty |
| Lists.Node.Init | source/kernel/include/tools/list.h:11-13 | clearing a node that is on no list disturbs no list |
| Lists.List.InsertFirst | source/kernel/tools/list.c:12-23 | prepends: links stay mutual inverses, the count is the length, and every other valid list keeps its contents |
| Lists.List.InsertLast | source/kernel/tools/list.c:25-36 | appends, with the same frame |
| Lists.List.PopFirst | source/kernel/tools/list.c:38-56 | drops and returns the first node with its links nulled, or null on an empty list; no other list changes |
| Lists.List.PopLast | source/kernel/tools/list.c:58-79 | the same at the other end |
| Lists.List.Pop | source/kernel/tools/list.c:81-103 | removes exactly the given member, wherever it stands, and nulls its links; no other list changes |
| Lists.List.NodesDiffer | source/kernel/include/tools/list.h:23-27 | the links of a valid list alone keep a node from being on it twice |
| Lists.List.Bypassed | source/kernel/tools/list.c:81-103 | links that skip one node spell out the sequence without it |
| Kernel.Task.Reset | source/kernel/core/task.c:51-61 | a reset struct has a full slice, no sleep ticks, free nodes, and touches no list |
| Kernel.Manager.constructor | source/kernel/core/task.c:90-97 | three empty lists, no current task, idle known and on no list |
| Kernel.Manager.SetReady | source/kernel/core/task.c:110-113 | appends to the ready list; needs a node on no list, the check the C code leaves out |
| Kernel.Manager.SetBlock | source/kernel/core/task.c:115-118 | takes a ready task off the ready list |
| Kernel.Manager.SetSleep | source/kernel/core/task.c:190-198 | appends to the sleep list with its counter, or does nothing for zero ticks |
| Kernel.Manager.SetWakeup | source/kernel/core/task.c:200-202 | takes a sleeper off the sleep list |
| Kernel.Manager.Dispatch | source/kernel/core/task.c:140-161 | the head of the ready list, or idle, becomes current |
| Kernel.Manager.Yield | source/kernel/core/task.c:124-138 | keeps the whole invariant and is the model's yield step |
| Kernel.Manager.TicksFor | source/kernel/core/task.c:204-210 | the tick count in 32-bit arithmetic covers `ms` if and only if the sum does not wrap, with less than a tick to spare |
| Kernel.Manager.Sleep | source/kernel/core/task.c:204-214 | keeps the invariant and is the model's sleep step, for every 32-bit argument |
| Kernel.Manager.Lock | source/kernel/ipc/mutex.c:9-29 | keeps the invariant and is the model's lock step: free, reentrant and waiting branch; before the first task runs, the null task may take a free mutex |
| Kernel.Manager.WaitForMutex | source/kernel/ipc/mutex.c:21-26 | the caller moves from the ready list to the tail of the wait list, and another task runs |
| Kernel.Manager.Unlock | source/kernel/ipc/mutex.c:31-59 | keeps the invariant and is the model's unlock step, with the two ASSERTs as precondition; the null task may give back what it took |
| Kernel.Manager.HandOver | source/kernel/ipc/mutex.c:44-52 | the first waiter becomes owner at depth 1 and ready |
| Kernel.Manager.Wait | source/kernel/ipc/sem.c:9-23 | keeps the invariant and is the model's wait step |
| Kernel.Manager.Notify | source/kernel/ipc/sem.c:25-40 | keeps the invariant and is the model's notify step |
| Kernel.Manager.Count | source/kernel/ipc/sem.c:42-49 | reads the count of the semaphore and changes nothing |
| Kernel.Manager.ChargeSlice | source/kernel/core/task.c:164-170 | the running task pays a tick; a used-up slice is refilled and the task goes to the tail |
| Kernel.Manager.WakeOne | source/kernel/core/task.c:176-182 | one turn of the tick's loop |
| Kernel.Manager.WakeSleepers | source/kernel/core/task.c:173-185 | the loop that walks the sleep list while removing from it terminates and equals one simultaneous countdown |
| Kernel.Manager.TimeTick | source/kernel/core/task.c:163-188 | keeps the invariant and is the model's tick |
| Kernel.Manager.HandleTimer | source/kernel/dev/timer.c:6-11 | counts the tick modulo 2^32 and does it, in any state between operations |
| Kernel.Manager.TaskInit | source/kernel/core/task.c:46-70 | from the name check on: fails exactly on an empty or too long name and then changes nothing more; else registers and readies the task |
| Kernel.Manager.TaskMainInit | source/kernel/core/task.c:99-104 | main is registered and current, the model is the initial state of the transition system, and mutexes, semaphores and the tick counter are kept |
| BootUp.TssInit | source/kernel/core/task.c:14-22 | during boot, with no current task: lock, allocate, unlock and store leave the kernel as it was and the next slot holding the encoded descriptor |
| BootUp.KernelInit | source/kernel/init/init.c:5-29 | `kernel_init` from an empty heap: table, task manager, idle with selector 24, and two free mutexes |
| BootUp.Boot | source/kernel/init/init.c:5-203 | up to enabling interrupts: exact model state, main with selector 32, the table's contents, every operation's precondition, and the start state of the allocation by preempted tasks |
| BootUp.TableMeans | source/kernel/cpu/cpu.c:81-105 | what the processor reads in boot's table: the kernel segments, and each state segment's base, limit and type |
| Kernel.Manager.NewMutex | source/kernel/ipc/mutex.c:3-7 | one more free mutex, the rest untouched |
| Kernel.Manager.NewSem | source/kernel/ipc/sem.c:3-6 | one more semaphore, the rest untouched |
| SchedInvariant.InitialInv | source/kernel/core/task.c:99-104 | the invariant holds at the start |
| SchedInvariant.YieldKeeps | source/kernel/core/task.c:124-138 | yield keeps the invariant |
| SchedInvariant.SleepTicksRange | source/kernel/core/task.c:190-214 | even where `ms + 9` wraps the count is in 1..2^31-1, so the early return never loses the task |
| SchedInvariant.SleepKeeps | source/kernel/core/task.c:204-214 | sleep keeps the invariant |
| SchedInvariant.LockKeeps | source/kernel/ipc/mutex.c:9-29 | lock keeps the invariant |
| SchedInvariant.UnlockKeeps | source/kernel/ipc/mutex.c:31-59 | unlock keeps the invariant although it readies a task without dispatching |
| SchedInvariant.WaitKeeps | source/kernel/ipc/sem.c:9-23 | wait keeps the invariant |
| SchedInvariant.NotifyKeeps | source/kernel/ipc/sem.c:25-40 | notify keeps the invariant |
| SchedInvariant.SpawnKeeps | source/kernel/core/task.c:63-68 | registering a task keeps the invariant |
| SchedInvariant.TickKeeps | source/kernel/core/task.c:163-188 | the tick keeps the invariant |
| SchedInvariant.DueLaterSplit | source/kernel/core/task.c:173-185 | every sleeper is either woken or kept, once |
| SchedInvariant.LoopWakesSleepers | source/kernel/core/task.c:173-185 | the turns of the loop, one per sleeper at loop entry, add up to waking the due ones in sleep order and keeping the others in order |
| SchedInvariant.SurvivorsCountDown | source/kernel/core/task.c:173-185 | a sleeper that stays has a counter one lower and still at least 1 |
| SchedInvariant.StepKeeps | source/kernel/core/task.c:110-214 | every operation and the tick keep the global invariant |
| SchedInvariant.RunKeeps | source/kernel/core/task.c:110-214 | so does every run |
| SchedRuns.ExactlyOnePlace | source/kernel/core/task.c:43-214 | in every reachable state a registered task is in exactly one of ready list, sleep list or a single wait list; idle and strangers are in none |
| SchedRuns.QueueLengths | source/kernel/core/task.c:43-214 | the lengths of all queues add up to the number of registered tasks |
| SchedRuns.HeadOfReadyRuns | source/kernel/core/task.c:140-161 | in every reachable state the head of the ready list runs, idle exactly when it is empty |
| SchedRuns.LabelsAndCounters | source/kernel/core/task.c:163-202 | in every reachable state SLEEP labels exactly the sleepers, their counters are live, and slices stay in 1..10 |
| SchedRuns.RunningLabelExactlyWhen | source/kernel/core/task.c:110-188 | exactly when the running task carries the RUNNING label, for every step |
| SchedRuns.RunningLabelHistory | source/kernel/core/task.c:110-188 | over whole runs from boot: the current task is labelled RUNNING if and only if some step switched to it and no tick has used up its slice since |
| SchedRuns.MainStartsReady | source/kernel/core/task.c:99-113 | main runs labelled READY |
| SchedRuns.LoneTaskLosesLabel | source/kernel/core/task.c:152-170 | a run from boot in which the lone task is labelled RUNNING up to its last tick and READY after it |
| SchedRuns.TickRotates | source/kernel/core/task.c:163-188 | the exact ready and sleep lists, slice and current task after a tick |
| SchedRuns.IdleTick | source/kernel/core/task.c:163-188 | under idle nobody pays, and the first sleeper to wake runs at once |
| SchedRuns.YieldRotates | source/kernel/core/task.c:124-138 | the caller goes last, the next task runs, no slice is refilled |
| SchedRuns.SpawnJoins | source/kernel/core/task.c:43-70 | a new task joins at the tail with a full slice and at most a full slice of each other task before it |
| SchedRuns.OperationQueues | source/kernel/core/task.c:43-214 | for every operation: the caller leaves the ready list exactly when it blocks or yields, arrivals go to the tail, only a sleep call adds to the sleep list, and the head runs |
| SchedRuns.OperationFields | source/kernel/core/task.c:110-202 | for every operation: exactly which labels and counters of which task change |
| SchedRuns.OperationKeepsSlices | source/kernel/core/task.c:110-214 | no operation touches a slice, but for a new task's |
| SchedRuns.TickKeepsSlices | source/kernel/core/task.c:163-188 | a tick charges the running task only |
| SchedRuns.TickFields | source/kernel/core/task.c:163-188 | a tick leaves all fields of a task alone that neither runs nor sleeps nor is switched to |
| SchedRuns.ReturnsWithSlice | source/kernel/core/task.c:115-214 | over runs: a task that blocks, to sleep or to wait, is ready again with the slice it blocked with |
| SchedRuns.WaitShrinks | source/kernel/core/task.c:163-188 | the unused slice time ahead of a ready task falls by exactly one on a tick and never rises on an operation |
| SchedRuns.RunsInTurn | source/kernel/core/task.c:110-188 | a ready task runs by the time the slices ahead of it are used up, in every run |
| SchedRuns.BoundedWaiting | source/kernel/core/task.c:110-188 | from any reachable state, the task at position k of the ready list runs within 10 * k ticks |
| SchedRuns.SleeperStep | source/kernel/core/task.c:173-185 | only the tick touches a sleeper |
| SchedRuns.SleepsExactly | source/kernel/core/task.c:163-214 | a sleeper leaves the sleep list on exactly the tick its count names, in every run |
| SchedRuns.SleepIsLongEnough | source/kernel/core/task.c:204-211 | the whole ticks slept cover `ms` if and only if `ms <= 2^32 - 10`, and then by less than one tick too much |
| SchedRuns.NextTickExactlyWhen | source/kernel/core/task.c:204-210 | exactly which requests wake at the very next tick: zero, and those within 9 ms of the largest |
| SchedRuns.SleeperRunsAgain | source/kernel/core/task.c:163-214 | a woken sleeper runs within 10 * (n - 1) ticks, n being the tasks registered when it wakes |
| SyncRuns.MutualExclusion | source/kernel/ipc/mutex.c:9-59 | in every run a task's completed locks less its unlocks are the depth if it owns the mutex and zero if not; waiters imply an owner who is not queued |
| SyncRuns.FreshMutualExclusion | source/kernel/ipc/mutex.c:3-59 | the same for a mutex made at any point of a run |
| SyncRuns.BootLockUnlock | source/kernel/ipc/mutex.c:9-59 | before the first task exists, lock and unlock by the null task leave everything as it was |
| SyncRuns.HandOffStep | source/kernel/ipc/mutex.c:9-59 | each step either passes a held mutex to the first waiter or keeps its owner and extends its queue |
| SyncRuns.HandOffOrder | source/kernel/ipc/mutex.c:9-59 | ownership walks down the wait list, one waiter for each full release; no later locker overtakes |
| SyncRuns.WaiterGetsLock | source/kernel/ipc/mutex.c:9-59 | the waiter at position k owns the mutex at depth 1 after exactly k + 1 full releases |
| SyncRuns.SemConserved | source/kernel/ipc/sem.c:3-40 | count less waiters changes by notifies minus waits, in every run |
| SyncRuns.FreshSemConserved | source/kernel/ipc/sem.c:3-40 | from creation: count less waiters is the initial count plus notifies minus waits, and a positive count means no waiters |
| SyncRuns.SemFifo | source/kernel/ipc/sem.c:9-40 | who was waiting and who blocked since is who was released, in that order, and who waits now |
| SyncRuns.SemOrder | source/kernel/ipc/sem.c:9-40 | the k-th task to block is released by the k-th notify that finds a waiter |
| Interrupts.OperationSettles | source/kernel/core/task.c:110-214 | the single updates of each operation add up to its step |
| Interrupts.TickSettles | source/kernel/core/task.c:163-188 | the single updates of the timer handler add up to one tick |
| Interrupts.MoveKeeps | source/kernel/core/task.c:124-161 | every call, update, flag change, switch and interrupt keeps the machine invariant and is one step or none of the operation-level model |
| Interrupts.MachineRefines | source/kernel/core/task.c:110-214 | every run of the machine is a run of the operation-level model |
| Interrupts.InterleavedWaiting | source/kernel/core/task.c:110-188 | bounded waiting for every interleaving: the task at position k of the ready list is chosen within 10 * k timer interrupts, and if the run goes on past them the processor executes it within them |
| Interrupts.FlagMeansConsistent | source/kernel/cpu/irq.c:280-289 | interrupts on means nothing is half done and the current task is on the processor |
| Interrupts.SafeWheneverInterruptible | source/kernel/core/task.c:37-161 | from boot, in every interleaving: the invariant holds whenever interrupts are on, also right after a switch to a fresh task, and pending code is never stuck |
| Interrupts.NeverStuck | source/kernel/core/task.c:140-161 | no flag is restored that was not saved, and a switch always finds its target's context |
| Interrupts.ReturnsWithEntryFlag | source/kernel/cpu/irq.c:280-289 | in every run from boot, an operation returns with the interrupt flag and the saved flags its task had at the call, whatever interrupts and switches came between |
| Interrupts.FlagsSurvive | source/kernel/cpu/irq.c:280-289 | over whole runs, through any operations, interrupts and switches, a task back in its own code has the flag and the saved flags it had |
| Interrupts.FreshTaskInterruptible | source/kernel/core/task.c:25-39 | in every run from boot, a task made by `task_init` first gets the processor with interrupts on, no saved flags and no kernel code to finish |
| Interrupts.IdleInterruptible | source/kernel/core/task.c:8-12 | so does idle |
| Interrupts.NestedProtection | source/kernel/cpu/irq.c:280-289 | properly nested regions of a task's own code run with interrupts off and give the flag back at the end, through operations, interrupts and switches |
| Interrupts.EnableMeans | source/kernel/cpu/irq.c:206-208 | after `irq_enable_global` a timer interrupt can be taken |
| Gdt.BaseComesBack | source/kernel/cpu/cpu.c:66-77 | decoding gives back the base, for every base, limit and attribute word |
| Gdt.FlagsComeBack | source/kernel/cpu/cpu.c:58-74 | decoding gives back the attribute bits, with G exactly when asked for or needed |
| Gdt.RawLimitStored | source/kernel/cpu/cpu.c:58-74 | the 20-bit limit field is the limit in its unit with the caller's bits 8 to 11 or-ed in |
| Gdt.LimitExactlyWhen | source/kernel/cpu/cpu.c:49-78 | the segment is the wanted one if and only if the attributes bring no foreign limit bit and no needless G |
| Gdt.DescriptorRoundTrip | source/kernel/cpu/cpu.c:49-78 | base exact, attributes exact plus G, and the segment covers the limit with less than a page to spare |
| Gdt.Table.SegmentDescSet | source/kernel/cpu/cpu.c:49-78 | the five stores write exactly the encoding into the selector's slot |
| Gdt.Table.GdtInit | source/kernel/cpu/cpu.c:81-105 | slots 1 and 2 hold the kernel segments and all others are empty |
| Gdt.FlatModel | source/kernel/cpu/cpu.c:88-102 | both kernel segments are present, of privilege 0, 32-bit and span 4G; slot 1 is code, slot 2 writable data; exactly two slots are used |
| Gdt.Table.GetAllocDesc | source/kernel/cpu/cpu.c:110-121 | between lock and unlock: claims the first free slot, or returns -1 with nothing changed exactly when there is none; used slots stay a prefix |
| Gdt.PresentIsUsed | source/kernel/cpu/cpu.c:113-114 | a descriptor with the present bit never looks free |
| GdtAlloc.InsideHolds | source/kernel/cpu/cpu.c:108-122 | whoever looks at the table while running owns its mutex |
| GdtAlloc.NeverStuck | source/kernel/ipc/mutex.c:36-38 | the ASSERTs in unlock never fail for the table's mutex |
| GdtAlloc.MoveKeeps | source/kernel/cpu/cpu.c:108-122 | every step of every task, tick and other kernel call keeps the allocation invariant |
| GdtAlloc.SelectorsInOrder | source/kernel/cpu/cpu.c:108-122 | for every interleaving the n-th call to release the lock returns (3 + n) * 8 while n < 253 and -1 from then on, so no selector is handed out twice |
| GdtAlloc.UsedIsPrefix | source/kernel/cpu/cpu.c:108-122 | for every interleaving the used slots are a prefix of the table, as long as calls succeeded |
| GdtAlloc.DescriptorsStay | source/kernel/core/task.c:14-22 | a descriptor filled outside the lock is exactly the encoding of its task's segment, and stays so through any interleaving |
| GdtAlloc.EarlySlotsStay | source/kernel/cpu/cpu.c:108-122 | for every interleaving: the slots in use at the start keep their descriptors, and no later call is given one of them |
| GdtAlloc.CallersSegmentStored | source/kernel/core/task.c:14-22 | for every interleaving: the caller that is given a slot finds its base, its limit and the type of a present 32-bit task state segment there |
| GdtAlloc.ClaimedMeanwhile | source/kernel/cpu/cpu.c:113-114 | a claimed slot is marked by the present bit until its attributes are stored |
| TssInit.MoveKeeps | source/kernel/core/task.c:43-70 | every step of every `task_init` call, tick and other kernel call keeps the invariant on slots, selectors and registered tasks |
| TssInit.SlotsAndTasks | source/kernel/core/task.c:43-70 | for every interleaving: one slot used for each returned call while there is one, whatever its name, and the calls with a good name alone registered their structs, in the order they returned |
| TssInit.SlotOwnedExactlyWhen | source/kernel/core/task.c:43-50 | exactly when the slot of one of the first 253 calls ends up as a registered task's selector |
| TssInit.RefusedCallKeepsSlot | source/kernel/core/task.c:44-50 | a run in which a refused name uses up the next slot, registers nothing, and leaves the slot with no task |
| TssInit.CallSelectorExactlyWhen | source/kernel/core/task.c:14-18 | a call is given a selector if and only if fewer than 253 calls released the table's lock before it, and then the one that goes with its number |
| TssInit.NumbersHaveNoGaps | source/kernel/cpu/cpu.c:108-122 | the calls of a run carry consecutive numbers, each once |
| TssInit.AllSelectedExactlyWhen | source/kernel/core/task.c:14-44 | every call is given a selector if and only if there were at most 253, those of boot included |
| TssInit.SelectorSetExactlyWhen | source/kernel/core/task.c:14-44 | a registered task has a selector if and only if one of its calls was among the first 253 |
| TssInit.FullTableTask | source/kernel/core/task.c:43-70 | a run from boot: the slots are taken one call after the other, and the next call registers its task without a selector |
| TssInit.SelectorsPrivate | source/kernel/core/task.c:14-41 | for every interleaving: no two structs have the same selector, and none has idle's, main's or a kernel segment's, whose descriptors stay |
| TssInit.CallersSegmentStored | source/kernel/core/task.c:14-22 | the same for a whole `task_init` call |
| Preemption.MoveMeans | source/kernel/cpu/irq.c:280-289 | each move of the machine with `task_init` as user code is one move, or none, of the interleaving model |
| Preemption.MachineRunsInterleave | source/kernel/core/task.c:14-70 | every run of that machine is a run of the interleaving model |
| Preemption.SelectorsUnderInterrupts | source/kernel/cpu/cpu.c:108-122 | from boot, for every interleaving with timer interrupts inside and between the steps: the selectors come in order, and no two structs share one |
| Preemption.SegmentStoredUnderInterrupts | source/kernel/core/task.c:14-22 | and for every run of the machine from boot: the stored descriptor has the caller's base and limit |
| Klib.KernelStrlen | source/kernel/tools/klib.c:23-29 | counts the characters before the first NUL |
| Klib.KernelStrcpy | source/kernel/tools/klib.c:3-7 | copies the string and its NUL and nothing else |
| Klib.CStrIsPrefix | source/kernel/tools/klib.c:23-29 | a C string is the longest prefix without a NUL |
| Klib.TruncatedDivision | source/kernel/tools/klib.c:77-78 | C division truncates towards zero, so digits and quotients of a negative number are those of its magnitude |
| Klib.PutDigits | source/kernel/tools/klib.c:76-79 | the do-while loop writes the digits from the lowest up |
| Klib.ReverseSpan | source/kernel/tools/klib.c:82-89 | the two-pointer loop reverses the span in place |
| Klib.KernelItoa | source/kernel/tools/klib.c:57-92 | the text of every 32-bit number, INT_MIN included, and no other buffer cell changes |
| Klib.ItoaRoundTrip | source/kernel/tools/klib.c:57-92 | parsing gives the number back, its magnitude in base 2; no superfluous leading zero |
| Klib.ItoaInjective | source/kernel/tools/klib.c:57-92 | numbers print alike only when equal, or of equal magnitude outside base 10 |
| Klib.DigitsUnique | source/kernel/tools/klib.c:76-89 | the digits are the only canonical numeral of the value |
| Klib.ItoaLength | source/kernel/tools/klib.c:57-92 | at most 11, 32 and 8 characters in bases 10, 2 and 16 |
| Format.KernelVsprintf | source/kernel/tools/klib.c:102-151 | the two-state loop writes exactly what the token-by-token renderer gives, ends it with NUL, and leaves the rest of the buffer alone |
| Format.PutPiece | source/kernel/tools/klib.c:120-146 | one directive's output |
| Format.RenderAppend | source/kernel/tools/klib.c:104-148 | a format consumed in the first state composes with any other, arguments split accordingly |
| Format.SplitInsideDirective | source/kernel/tools/klib.c:104-148 | where the first format stops after a '%', composition fails |
| Format.TrailingPercent | source/kernel/tools/klib.c:112-116 | a trailing lone '%' prints nothing |
| Format.UnknownDirective | source/kernel/tools/klib.c:142-144 | an unknown directive prints '?' and takes no argument |
| Format.EscapedPrintsItself | source/kernel/tools/klib.c:112-141 | text with its percent signs doubled prints as it stands |
| Format.PrintsDecimal | source/kernel/tools/klib.c:128-131 | `%d` prints the decimal numeral of every 32-bit argument |
| Format.PrintsHex | source/kernel/tools/klib.c:132-135 | `%x` prints the hexadecimal numeral of every non-negative argument |
| Format.PrintsString | source/kernel/tools/klib.c:121-127 | `%s` prints the memory up to the first NUL |
| Format.PrintsChar | source/kernel/tools/klib.c:136-139 | `%c` prints the low byte of its argument |
| Format.OneDecimalOneHex | source/kernel/tools/klib.c:128-135 | these numerals are unique, so the laws determine the output |
| Loader.LoadSegment | source/loader/loader32.c:52-65 | the copy and the zero loop write exactly the segment's image |
| Loader.ReloadElfFile | source/loader/loader32.c:34-68 | a bad magic number returns 0 with memory unchanged; else memory is the image loaded segment by segment and e_entry is returned |
| Loader.SegmentsInPlace | source/loader/loader32.c:43-66 | with destinations apart, each loadable segment's memory is its file bytes followed by zeros |
| Loader.SegmentByte | source/loader/loader32.c:43-66 | byte by byte, also where only later segments are apart from it |
| Loader.ElsewhereUnchanged | source/loader/loader32.c:43-66 | all memory outside the destinations is left alone |
| ElfImage.LoadFile | source/loader/loader32.c:34-68 | for every file laid out as elf.h says, little-endian and field by field: the entry point is returned, each loadable segment's bytes and zeros stand at its physical address, and other memory is unchanged |
| ElfImage.FileWellFormed | source/comm/elf.h:42-78 | the loader reads back the header and the program headers that were written |
| ElfImage.MagicExactlyWhen | source/loader/loader32.c:37-41 | exactly the four magic bytes make an ELF file |

## Left out

- Interrupt flag in the object model: the methods of `Kernel.Manager` are the protected regions themselves; the flag, the saved flags and the switch of contexts are modelled on values in `Interrupts.dfy`.
- Interrupts.MoveKeeps: `rein_mutex_init` and `sem_init` are not moves of the fine-grained machine, because they touch an object no other task knows yet; the fields `task_init` fills before its protected region are filled inside it, for the same reason.
- Kernel.Manager.Lock: the depth and the counts of semaphores are unbounded integers; 2^31 nested locks or notifies are not modelled.
- Kernel.Manager.TaskInit: the `tss_init` call at its start is modelled in `TssInit.dfy`, the TSS register values are not.
- TssInit.MoveKeeps: two calls for one struct at the same time, or a call for a registered struct, are excluded, as the code does not handle them. Idle's and main's own `tss_sel` fields are set during boot, before its runs start.
- Kernel.Manager.Unlock: a failing ASSERT prints and halts for good, so both are preconditions. Blocking calls are made by a running task other than idle, which only halts.
- Gdt.Table.GetAllocDesc: the lock and the unlock around it are in `GdtAlloc.dfy`.
- GdtAlloc.SelectorsInOrder: a store to one descriptor field is one step; the fields are written in the order of the code.
- Klib.KernelItoa: an invalid base, or a negative number in base 16, logs and loops for ever, so both are preconditions; the buffer is large enough.
- Format.KernelVsprintf: arguments of the wrong type or too few of them are undefined in C and excluded; a `%s` argument is the memory its pointer points to.
- Loader.LoadSegment: the signed loop counters do not overflow. A memory size below the file size, where the fill count wraps, is excluded as the ELF specification, chapter 5, does. A destination that overlaps the file is excluded because the loop would overwrite headers and bytes it has yet to read; the kernel is linked clear of the address it is read to.
- Raw addresses and the offset arithmetic of `CONTAINER_OF`: object references and the `container` field stand for them.
- `kernel_memset` and `kernel_str_equal` are not modelled, and nothing proved here uses them.
- `kernel_memcpy`, `kernel_mem_equal`, the IDT gates and the TSS constants are not modelled.
- Port I/O, the interrupt controller and timer chips, serial output, disk reads, BIOS memory detection, exception handlers and panic: hardware effects, or printing and halting.
- Freedom from deadlock for arbitrary lock orders: the kernel does not promise it.
