# Verified model of the project-trobbio kernel

A Dafny model of the preemptive core of project-trobbio, a small RISC-V kernel
for the ESP32-C6: the eco-scheduler's task table, the trap entry and exit code,
critical sections, task exit with callbacks, the machine timer behind 32-bit
accesses, and the UART's baud divider. `dafny verify dfyconfig.toml` checks it.

## How it is built

- `Machine.dfy`: words, byte-addressed memory, the instructions of the trap
  handler, and that handler's code as a list of instructions. The code that saves
  28 registers and `mepc` and the code that loads them are proved inverse.
- `Eco.dfy`, `Fairness.dfy`: the scheduler's table as a value, what each
  operation does to it, and whole runs of it: slot reuse, the high-water mark,
  the round-robin search, bounded waiting, heat.
- `Stacks.dfy`, `Sched.dfy`: stack addresses, seeded frames and canaries; then
  `src/arch/sched.rs` as a class over arrays with the source's loops, proved
  against functions on values.
- `Kernel.dfy`: the whole machine as a step relation. A step is one action of the
  running task (any computation, one instruction of `critical_section`, the body
  of `spawn`, one point of `task_exited`) or one trap. A trap executes the
  handler's instructions on the hart and memory.
- `Protocol.dfy`: the control invariant of the machine (interrupt enable,
  nesting, who owns which slot, which callbacks have been called), kept by every
  step.
- `Transparency.dfy`: a machine in which every task has registers and a stack of
  its own, without frames, saved stack pointers or canaries, and the simulation.
- `Guarantees.dfy`: the promises about whole runs.
- `TrapCode.dfy`: `src/boot.s` and `src/arch/trap.rs` as classes, proved to
  compute the steps of `Kernel.dfy`.
- `Clint.dfy`, `Uart.dfy`: the timer and the divider.

Functions (`entry`, callbacks) are represented by their addresses. What a task
computes, which scheduler calls a registered handler or a callback makes, what
other bytes they write, what registers the Rust code leaves, and the temperature
reading of each dispatch are arbitrary values carried by the steps. MTIME is an
arbitrary non-decreasing function of the bus access.

Two assumptions about application code are stated as predicates on runs, never
built in: `Controlled` (nobody yields, or starts the timer, inside a critical
section; the section's exact necessity is `YieldKeepsIff`) and `Contained` (a
task writes common memory and its own stack above the canary word, and leaves
room there for a trap). Each theorem names the ones it needs.

Where the code and its comments differ, the model follows the code:

- `is_alive` is documented to be false for an id that was never spawned
  (src/arch/sched.rs:138-139); the table starts out all true, so it is true
  (`Eco.IsAliveRightIff`).
- The warm and hot thresholds may be in the wrong order; then there is no warm
  band (`Fairness.ThermalBands`).
- `call_registered` lets id 32 through its guard (src/arch/trap.rs:267) and
  panics on the table access (`TrapCode.KernelCode.CallRegistered`).
- The baud-rate assertion is made after the cast to 16 bits
  (`Uart.AssertionRightFrom1221`, `Uart.BogusAt1200`).

## Model

| member | source | states |
|---|---|---|
| Machine.EntrySaves | src/boot.s:86-124 | the entry code stores all 28 registers and the interrupted pc in the 128 bytes below sp, passes that address on, clears MIE, and changes no other byte |
| Machine.ExitRestores | src/boot.s:125-158 | from any frame, the exit code loads exactly its 28 registers, pc and sp; MIE becomes MPIE |
| Eco.SpawnSafe | src/arch/sched.rs:202-230 | spawn takes the lowest slot that is neither live nor executing, sets only that slot's fields, and makes it the one new occupied slot |
| Eco.SpawnFailsIffFull | src/arch/sched.rs:202-208 | spawn fails if and only if the stacks of all 16 spawnable slots are in use |
| Eco.IsAliveRightIff | src/arch/sched.rs:138-145 | over every run, is_alive says whether the id is a live task exactly for slots in use and ids out of range |
| Eco.PeakAfter | src/arch/sched.rs:226-228 | along any run the table grows only to the largest number of stacks in use at once |
| Eco.HighWater | src/arch/sched.rs:112-130 | from init, NUM_TASKS - 1 equals that largest number in every run: exited slots are recycled before the table grows |
| Eco.PickIsFirst | src/arch/sched.rs:373-380 | the search stops at an eligible slot, the first after the current one in cyclic order, and at the current one only if no other is eligible |
| Eco.FirstIsUnique | src/arch/sched.rs:373-380 | no other slot fits that description |
| Fairness.WaitBound | src/arch/sched.rs:359-384 | while an eligible slot is passed over, dispatches are fewer than its distance on the ring of the final table, and each slot ahead of it runs at most once, the others not at all |
| Fairness.BoundedWaiting | src/arch/sched.rs:359-384 | a slot alive and eligible at every dispatch runs within as many calls as the table is long at the end (at most 17), through spawns, exits and heat changes, and no other slot runs twice before it |
| Fairness.ThermalBands | src/arch/sched.rs:307-323 | the exact readings for each state, for thresholds in any order |
| Fairness.HotterReading | src/arch/sched.rs:307-316 | a higher reading or lower thresholds never give a cooler state |
| Fairness.HeatMonotone | src/arch/sched.rs:339-380 | from the same table, a dispatch at a higher reading or with lower thresholds has fewer candidates and never stops earlier in the cyclic order |
| Fairness.DispatchAllowed | src/arch/sched.rs:339-380 | a dispatch moves only the current slot, to the first in cyclic order that may run: main, or a live task that is High if the raw reading has reached the hot threshold and not Low if it has reached the warm one |
| Fairness.HeatExtremes | src/arch/sched.rs:325-353 | each band on its own: below both thresholds a dispatch is round-robin over all live tasks; from warm on never Low, and below hot no other is passed over; from hot on a live High task, or main exactly if it comes before them all |
| Fairness.InitialBands | src/arch/sched.rs:115-125 | after init every band exists: readings 0..109 are Cool, 110..139 Warm, 140..255 Hot |
| Stacks.FrameGeometry | src/arch/sched.rs:68-73 | for every base address: seeded frames are 16-byte aligned, above their canary, at most 15 bytes below their stack top, apart from every other stack |
| Stacks.SeedFrame | src/arch/sched.rs:210-224 | the bytes spawn writes are a frame with ra = task_exited, pc = entry and zeroes, and the canary, all within the slot's stack |
| Sched.SpawnTouchesOnlyItsSlot | src/arch/sched.rs:186-231 | spawn leaves every other slot's saved sp and every byte outside the chosen stack alone, and that stack is nobody's |
| Sched.NextTaskByHeat | src/arch/sched.rs:359-383 | next_sp makes current the first slot in cyclic order that the raw reading allows, and moves nothing else in the table |
| Sched.Scheduler.Init | src/arch/sched.rs:112-131 | resets the table and only the table |
| Sched.Scheduler.IsAlive | src/arch/sched.rs:140-145 | refines the specification |
| Sched.Scheduler.WriteCanary | src/arch/sched.rs:53-58 | stores the canary word at the bottom of the slot's stack |
| Sched.Scheduler.CheckCanary | src/arch/sched.rs:61-66 | tells whether the word at the bottom of the stack is 0xC0FFEE54 |
| Sched.Scheduler.FindSlot | src/arch/sched.rs:202-204 | the loop finds the slot of the specification |
| Sched.Scheduler.SeedStack | src/arch/sched.rs:210-218 | the frame is seeded at the masked stack top |
| Sched.Scheduler.Spawn | src/arch/sched.rs:186-231 | the closure's whole effect on the statics, memory and result is that of the specification |
| Sched.Scheduler.MarkDead | src/arch/sched.rs:256-257 | the slot is dead, its callback taken, nothing else changes |
| Sched.Scheduler.IsEligible | src/arch/sched.rs:339-353 | refines the specification |
| Sched.Scheduler.ScanCanaries | src/arch/sched.rs:366-370 | reports the lowest live task whose bottom word is not 0xC0FFEE54, none exactly if there is none |
| Sched.Scheduler.FindNext | src/arch/sched.rs:373-379 | the loop finds the slot of the specification |
| Sched.Scheduler.NextSp | src/arch/sched.rs:359-384 | saves the outgoing sp; panics exactly if the bottom word of some live task is not 0xC0FFEE54; else makes current the first slot that the raw reading allows and hands over its sp |
| Protocol.SpawnConsistent | src/arch/sched.rs:217-230 | a spawn keeps the ownership of slots, local states and history consistent |
| Protocol.RunOpsKeeps | src/arch/trap.rs:266-273 | scheduler calls of a handler keep the invariant and leave MIE clear and the interrupted task current |
| Protocol.RunOpsExact | src/arch/trap.rs:266-273 | a handler's scheduler calls take effect in order, each with just its own change to the scheduler and none to the processor; no calls, no change |
| Protocol.ExitConsistent | src/arch/sched.rs:241-260 | an exit kills the running task's own slot, never slot 0, and takes its callback once |
| Protocol.TrapEffect | src/arch/trap.rs:223-263 | MIE after a trap is MIE before it, whoever is resumed; the table is that of the dispatch |
| Protocol.StepKeeps | src/arch/trap.rs:127-144 | every step of every task and every trap keeps the control invariant, and its effect on the table is a legal sequence of table events |
| Protocol.RunKeeps | src/arch/trap.rs:127-144 | the same for whole runs |
| Transparency.EnterParks | src/boot.s:86-124 | entering a trap makes the running task's context its frame, disturbing no other task, canary or common byte |
| Transparency.SkipParks | src/arch/trap.rs:300-306 | a yielding task is parked behind its ecall |
| Transparency.SpawnParks | src/arch/sched.rs:210-224 | a spawn parks a fresh task and disturbs nobody, also when called on the stack of a task that has just exited |
| Transparency.SwitchParks | src/arch/sched.rs:359-383 | with all tasks parked, next_sp does not panic and returns the frame of the task it makes current |
| Transparency.TrapImplements | src/boot.s:76-158 | a whole trap does to the tasks what the machine with private contexts does: choose who runs |
| Transparency.RunImplements | src/boot.s:76-158 | every disciplined run is, label for label, a run of that machine, and never panics |
| Guarantees.SpawnIsOneBlock | src/arch/trap.rs:127-144 | csrr, csrc, the closure and the restoring csrs together are one spawn that leaves interrupts and nesting as they were |
| Guarantees.SectionsAreAtomic | src/arch/trap.rs:127-144 | in every run from boot, MIE is set exactly outside critical sections, so interrupts are possible exactly there, and no task is suspended inside one |
| Guarantees.YieldKeepsIff | src/arch/trap.rs:321-323 | a yield keeps that invariant if and only if it is outside all sections or comes straight back |
| Guarantees.YieldInSectionLeaks | src/arch/trap.rs:321-323 | a run in which a yield inside a section leaves another task with interrupts off for good |
| Guarantees.CallbacksOnce | src/arch/sched.rs:241-263 | over every run each spawn's callback is called once if its exit took effect and never otherwise; only returned tasks exit; until then they keep their slot |
| Guarantees.ExitNamesItself | src/arch/sched.rs:242-256 | the id an exit uses is the running task's live slot even after a preemption in between, and holds its own, not yet called callback |
| Guarantees.ExitHappens | src/arch/sched.rs:241-263 | a task that returns can always complete task_exited; then its slot is free, its callback called once, and it yields forever outside all sections with interrupts on |
| Guarantees.NoSlotLeak | src/arch/sched.rs:202-228 | the high-water mark property for every run of the machine |
| Guarantees.NobodyStarves | src/arch/sched.rs:359-384 | bounded waiting for every run of the machine |
| Guarantees.HeatDecidesWhoRuns | src/arch/sched.rs:339-383 | in every reachable state, whom a tick or a yield makes current: the first slot in cyclic order that is main or a live task of a priority the raw reading allows, at the thresholds the handler left |
| Guarantees.OnlyLiveResumed | src/arch/sched.rs:359-383 | after every dispatch the current slot is live, in the table and outside all sections; an exited task is never resumed |
| Guarantees.KernelIsTransparent | src/arch/trap.rs:223-312 | every disciplined run from boot implements the machine with private contexts, does not panic, and leaves all live canaries intact |
| Guarantees.DispatchLoadsOwnFrame | src/arch/sched.rs:364-382 | the sp that a dispatch loads is in the chosen task's own stack and its frame is that task's context |
| Guarantees.ResumedAsTrapped | src/boot.s:86-158 | a trapped task resumes with its registers, sp and stack bytes, at its pc or behind its ecall, whatever ran in between |
| Guarantees.FirstRun | src/arch/sched.rs:210-220 | a spawned task starts at its entry with ra = task_exited, an aligned sp in its own stack, and zeroed registers |
| Guarantees.TickStartsTask | src/arch/trap.rs:199-263 | disciplined runs exist: from every boot state, main can start the timer and spawn, and the next tick starts the task at its entry with interrupts on |
| Guarantees.OverflowStops | src/arch/sched.rs:366-370 | for every state, disciplined or not: a dispatch panics exactly when the bottom word of some live task's stack is not 0xC0FFEE54, and none completes past such a word |
| TrapCode.Hart.Execute | src/boot.s:86-158 | one instruction in place refines its specification |
| TrapCode.Hart.RunCode | src/boot.s:76-158 | so does a sequence |
| TrapCode.KernelCode.constructor | src/boot.s:25-59 | builds the state that the runs start from, with no handler registered and no period |
| TrapCode.KernelCode.Spawn | src/arch/sched.rs:185-232 | spawn with its critical section: the specification's effect, MIE as before |
| TrapCode.KernelCode.Register | src/arch/trap.rs:149-153 | sets one handler, nothing else |
| TrapCode.KernelCode.CallRegistered | src/arch/trap.rs:266-273 | makes the calls of the handler if one is registered for the id, else changes nothing; panics exactly for id 32 |
| TrapCode.KernelCode.HandleMachineTimer | src/arch/trap.rs:250-263 | with a period, the compare register becomes a counter value read meanwhile plus the period, with the three writes in order; without one the timer is untouched; then the registered handler's calls, then the dispatch if the scheduler is on |
| TrapCode.KernelCode.HandleYield | src/arch/trap.rs:300-312 | skips the ecall in the frame, then dispatches if the scheduler is on |
| TrapCode.KernelCode.RustTrapHandler | src/arch/trap.rs:223-293 | by cause: exception 11 skips the ecall and dispatches, every other exception is fatal; interrupt 7 re-arms, makes its handler's calls and dispatches; the others make theirs and resume the interrupted frame, except 32, which panics; only interrupt 7 touches the timer |
| TrapCode.KernelCode.TakeTrapAndReturn | src/boot.s:76-158 | from trap to mret: by cause, exactly the yield, tick or interrupt step of the machine with the registered handler's calls, or no return; and the tick's re-arm, even if the dispatch panics |
| TrapCode.KernelCode.RegisterThenInterrupt | src/arch/trap.rs:149-153 | after a registration, the next interrupt with that id is the step that makes all the handler's calls |
| TrapCode.BootRegisterInterrupt | src/arch/trap.rs:266-273 | from boot, after any registrations, an interrupt makes handler calls if and only if its id is among those registered |
| TrapCode.KernelCode.TaskExited | src/arch/sched.rs:241-260 | the exit sequence computes exactly the machine's steps, with the callback's calls inside the section |
| TrapCode.KernelCode.InitPeriodicTimer | src/arch/trap.rs:199-215 | the compare register becomes a counter value read meanwhile plus the period, with the three writes in order; interrupts are on |
| Clint.RearmNeverEarly | src/arch/trap.rs:178-185 | no compare value during a re-arm makes a tick pending that neither the old nor the new value would |
| Clint.GuardNeededIff | src/arch/trap.rs:41-50 | exactly when writing low half first would pass through a value below both |
| Clint.TargetAheadIff | src/arch/trap.rs:252-254 | the next target is a period ahead if and only if the sum does not overflow |
| Clint.TicksNeverBunch | src/arch/trap.rs:250-254 | however late ticks are handled, the k-th re-arm target is at least k periods after the first |
| Clint.Timer.Now | src/arch/trap.rs:165-176 | the result is the counter at the instant of the last low-half read; the loop ends, within two attempts if they last less than 2^32 ticks |
| Clint.Timer.SetNextTickAt | src/arch/trap.rs:178-185 | the three compare values written, ending in the target |
| Clint.Timer.Rearm | src/arch/trap.rs:252-254 | a tick handled once due moves the target on by at least a period |
| Uart.DividerBracket | src/hal/uart.rs:58-60 | the divider is the largest that does not undershoot the rate |
| Uart.RateError | src/hal/uart.rs:58-60 | the rate is never below the request and above it by less than one part in q |
| Uart.RangeThresholds | src/hal/uart.rs:58-68 | the casts keep the divider exactly from 1221 baud on, the 12-bit field exactly from 19532 baud on |
| Uart.SplitExact | src/hal/uart.rs:59-60 | frag is the remainder by 16, below 16 at every rate; clkdiv is the quotient exactly from 1221 baud on |
| Uart.AssertionRightFrom1221 | src/hal/uart.rs:62-65 | the assertion is exact from 1221 baud on, and never right to accept below |
| Uart.BogusAt1200 | src/hal/uart.rs:62-65 | at 1200 baud it accepts a divider that does not fit |

## Left out

- Fatal reporting (src/arch/trap.rs:325-397): a panic or fatal exception is a state without successor; the emergency stack and the LED loop are not modelled.
- The watchdog feed, GPIO, LED and temperature-sensor registers: register I/O; the sensor is an arbitrary reading per dispatch.
- The registers gp and tp: shared by all tasks, set once at boot and not saved; no claim is made about them.
- When interrupts arrive: a tick or another local interrupt may come at any point where they are enabled; the step machine is not tied to the timer model, which covers when a tick is due.
- The always-zero low bit of mepc: program counters are taken to be even already.
- Memory alignment faults: a word access at any address succeeds.
- Traps inside traps: a handler that yields or faults while MIE is clear is not modelled; its scheduler calls are.
- Register effects of the kernel calls a task makes: a call's effect on its caller's registers is part of the task's own computation steps.
- Liveness of application code: that a task, a callback or a handler ends is not claimed.
- Wrap-around of the 64-bit counter while it is read: excluded by the predicate `Steady`.
- UART FIFO polling, UART1 apart from the same divider formula, SYSTIMER delays, KernelBuilder and the boot macros: straight-line configuration or hardware timing.
- Rust aliasing and memory-ordering rules: every access to a static is one sequential access.
- Uart.RateError: about the divider before the casts; from 19532 baud on it is also what the register holds, by Uart.RangeThresholds.
