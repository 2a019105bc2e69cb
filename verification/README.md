# A verified model of the kernel

This project models the hard core of a small x86_64 microkernel written in Rust and proves properties of the
model with Dafny 4.11. `dafny verify dfyconfig.toml` checks all of it.

What is modelled, file by file:

- **Scheduling, IPC, waiting and interrupts** (`kernel/src/task/scheduler.rs`, `kernel/src/ipc/mod.rs`,
  `kernel/src/task/process.rs`, `kernel/src/task/switch.s`). `KernelState` is the state: every queue a thread can
  be in, the saved states, the frames really lying on the stacks, and STATE_TO_UPDATE. `KernelSteps` gives every
  entry point as a step; interrupts are off inside a call, so a call is one step, except that a blocking call is
  cut at its idle loop, where interrupts (and timer ticks) get in. `Run` and `History` are the state and the visible
  results after any sequence of steps. `SchedulerObject`, `KernelObjects` and `SystemCallObject` are the objects the
  source has: the run queue, the two 256-slot arrays, and endpoints and processes with queues of their own, all
  changed in place; each method is proved to perform exactly the corresponding step, and each blocking call, from
  entry through the idle loop to the switch, to be a legal run. On top:
  `Conservation` (no thread is lost or duplicated), `HandOff` and `HandOffExample` (when a switched-out thread is
  saved right), `Calls` (where a thread inside a blocking call can be), `EndpointLedger` and `Rendezvous` (what passes
  through an endpoint, and who is woken by it), `WaitAndIrq` (process waits and interrupt waits), `BoundedWaiting`
  (round robin), `Authority` (nothing is touched without a capability). `SwitchPoints`, `Outcomes` and `EventStories`
  say what the steps do without their code: from the events of a run, the capabilities named in it and who was running
  they compute where each thread was switched out, what every call answers, and what every process, interrupt and
  thread has come to.
- **Capabilities** (`kernel/src/capability/mod.rs`, `kernel/src/syscall/mod.rs`, `kernel/src/elf/mod.rs`,
  `kernel/src/main.rs`): `Capabilities` and `CapabilityFlow`; mapping granted memory: `MapPhys`; what memory
  capabilities name: `MemoryGrants`.
- **Physical memory** (`kernel/src/memory/frame_allocator.rs`): `FrameAllocator` (bitmap against a set of free
  frames), `BootInit` (the five phases of `init`), `MemoryRuns` (whole runs of the allocator and of the DMA pool).
- **Loaders** (`kernel/src/elf/mod.rs`, `kernel/src/fs/tar.rs`): `ElfLoader` and `Tar`.
- **UDP** (`userspace/src/bin/network_service.rs`): `Checksum` and `Network`.

## What turned out not to hold everywhere

Each of these is proved with its exact condition.

- The saved-state hand-off fails when a tick dispatches out of the idle loop, when a wait for an interrupt pops the
  thread it has just parked (unless the stale saved stack pointer happens to be the right one), and when a thread
  switched out towards a preempted thread is later resumed by `switch_context`; these and no other steps break it
  (`SavedStateHandOff`). `TickOutOfIdleLoop`, `WaitPopsItsCaller` and `YieldToPlainlyResumedThread` are runs from boot,
  one of each kind.
- The DMA pool hands out a region that it cannot hold when the pages of the request alone overflow a machine word, and
  the kernel dies clearing the region when only their sum with the pages in use does (`FaultsOnOverflow`, `FaultExact`,
  with `OversizedRequests` for one input of each). Over a run, up to such a fault, regions are disjoint and inside
  the pool if and only if no request's own pages overflow (`DmaRegionsDisjoint`), and under the same condition the memory
  capabilities of a run name memory of their own (`GrantedMemoryDisjoint`). The boot grant at handle 22 covers the
  whole pool and what is handed out of it (`BootGrantCoversPool`).
- The saturating range check of SYS_MAP_PHYS is exact if and only if the grant ends below the largest address or both
  its base and its length are the largest word (`RangeCheckExact`; for the requests a call can make, `CallCheckExact`);
  `LargestGrantChecked` is a grant on which it is not. Even where it is inexact no frame outside the grant is ever
  mapped, because physical addresses end long before (`MappedFramesGranted`). A window shows the requested bytes if and
  only if the request is page-aligned and the window does not wrap (`TranslationExact`).
- Freeing a frame that the boot code reserved puts it back into circulation (`LiveFramesNeverOverlap`).
- The internet checksum is the one's-complement sum if and only if no carry was lost beyond 32 bits (`ChecksumExact`,
  `LongerDataIsMissummed`).
- The copy of a UDP payload into its frame runs into its own source if and only if the payload has more than 982
  bytes, and reads behind the buffer if and only if it has more than 1024 (`SendingExact`, `FirstOverlap`).
- The copy of a received payload runs past the end of the buffer, which ends the network service, if and only if the
  payload has more than 1024 bytes (`CopyFitsExact`, `UdpDelivered`, `FirstOverrun`).

Where code and documentation differ the model follows the code: `docs/architecture.md` calls scheduling, IPC and
capabilities planned, and the code has them.

## Model

| member | source | states |
|---|---|---|
| `Conservation.StepKeepsSound` | kernel/src/task/scheduler.rs:140-181 | any single step, of any of the twelve kinds, leaves every added thread with exactly one owner, at one position |
| `Conservation.ThreadConservation` | kernel/src/task/scheduler.rs:122-142 | after every run from boot an added thread is in exactly one of current, run queue, one endpoint queue, one process wait queue, one interrupt slot, exited, displaced, and no queue holds it twice |
| `Conservation.DisplacedByStep` | kernel/src/task/scheduler.rs:594-601 | a step displaces a thread if and only if it is a wait for a non-pending interrupt that stores into the slot owning the thread; displacement is never undone |
| `Conservation.DisplacedExactly` | kernel/src/task/scheduler.rs:579-634 | after every run from boot a thread is displaced if and only if some step of the run overwrote its slot |
| `Conservation.ExitQueuesPlaced` | kernel/src/task/scheduler.rs:223-245 | terminating a process and dropping its thread keeps every thread placed |
| `HandOff.HandOffStep` | kernel/src/task/scheduler.rs:210-221 | from a state whose hand-off is complete, a step leads to such a state if and only if it is safe, a condition on the state before the step |
| `HandOff.SavedStateHandOff` | kernel/src/task/scheduler.rs:301-329 | for every run from boot: STATE_TO_UPDATE is null whenever ordinary code runs and every suspended thread is saved at the stack pointer it was switched out at, in all states of the run, if and only if every step is safe |
| `HandOff.SwitchAwayExact` | kernel/src/task/switch.s:1-52 | leaving a parked thread for the head completes its save if and only if the head is another thread that does not resume plainly, or is the thread itself with a coincidentally right saved state |
| `HandOff.TickCompletes` | kernel/src/task/switch.s:120-213 | a tick in ordinary mode leaves nothing to hand off, whichever way the next thread is resumed |
| `HandOff.TickWhileIdle` | kernel/src/task/scheduler.rs:307-312 | a tick in the idle window keeps the hand-off if and only if the run queue is empty |
| `HandOff.JunkIsHarmless` | kernel/src/task/switch.s:184-213 | while the hand-off is complete, the accumulator value that timer and exit resumes pass to `after_switch` has no effect on state or result |
| `SwitchPoints.SavedAtLastSwitchOut` | kernel/src/task/scheduler.rs:162-221 | in every safe run from boot, what is saved for a suspended thread is the stack pointer, and the way, of the event that last switched it out: its creation, a tick, a yield or the end of an idle loop |
| `SwitchPoints.HaltsExactly` | kernel/src/task/scheduler.rs:223-263 | a step halts the kernel if and only if it yields to a head saved by the timer, or exits with nobody runnable and nobody waiting for the process |
| `SwitchPoints.YieldPanics` | kernel/src/task/scheduler.rs:366-374 | in every safe run from boot, a yield panics if and only if the head of the run queue was last switched out by the timer |
| `HandOffExample.YieldToPlainlyResumedThread` | kernel/src/task/scheduler.rs:326-328 | a concrete run from boot after which STATE_TO_UPDATE is set while ordinary code runs and a thread is saved at a stale stack pointer |
| `HandOffExample.TickOutOfIdleLoop` | kernel/src/task/scheduler.rs:307-312 | a concrete run from boot in which a tick between wake-up and the end of the idle loop enters a thread at a stale stack pointer |
| `HandOffExample.WaitPopsItsCaller` | kernel/src/task/scheduler.rs:600-617 | a concrete run from boot in which a wait for an interrupt pops the thread it has just parked and enters it at a stale stack pointer |
| `Calls.StepKeepsCalls` | kernel/src/task/scheduler.rs:378-552 | any single step keeps: a thread inside a blocking call is in the queue the call put it in, or runnable, or displaced from an interrupt slot; a runnable process waiter waits for a terminated process; and every queued thread is inside the matching call |
| `Calls.SelfDispatchConfined` | kernel/src/task/scheduler.rs:307-317 | after every run from boot, only a wait for an interrupt can pop the thread it parked; yield, send, receive and process wait cannot |
| `Authority.EndpointIsolation` | kernel/src/task/scheduler.rs:384-400 | over every run, from any state, the history mentions an endpoint if and only if some step sent or received on it by a handle naming it with the right; an endpoint nobody so used is as it was |
| `Authority.BlockedUnderCapability` | kernel/src/task/scheduler.rs:270-297 | after every run from boot, whatever a thread is blocked on (endpoint, process or interrupt) it asked for, at some step of the run, by a handle naming it with the right |
| `EndpointLedger.StepEntry` | kernel/src/ipc/mod.rs:31-35 | the endpoint's three-way state agrees with the history before a step only if it does after it, and the new entry is lawful |
| `EndpointLedger.FirstReceiver` | kernel/src/task/scheduler.rs:403-414 | the receiver at the head is inside a receive on this endpoint and queued once, so a delivery writes the buffer of a suspended receiver |
| `Rendezvous.EndpointHistory` | kernel/src/task/scheduler.rs:378-552 | for every endpoint, thread and run from boot, told from the history alone: the direction is fixed by the first blocking operation; sender-first, accepted messages are the taken ones followed by the queue, a receive gets the zero message exactly when all accepted ones were taken, and a blocked send returns only for a message of its thread that was taken, once per message; receiver-first, the i-th delivery goes to the i-th blocked receiver, a send is dropped exactly when all were served, and the i-th return of a receiver yields its i-th delivery |
| `Rendezvous.StepSettles` | kernel/src/task/scheduler.rs:494-512 | across any step, what a thread sent stays what was taken from it followed by what it has queued, and what was taken what its sends returned for plus at most one |
| `Rendezvous.WokenForItsReason` | kernel/src/task/scheduler.rs:403-463 | after every run from boot a thread inside a send is runnable if and only if all it sent was taken, and one inside a receive if and only if it was handed a message it has not returned with |
| `Outcomes.SendAnswers` | kernel/src/task/scheduler.rs:378-438 | in every run from boot: which error for which capability, nothing changed; with the right, the answer computed from the history before: the sender blocks with the message of the event as long as no receiver ever blocked there, and from then on that message goes to the first receiver not served, or nowhere; who is parked or woken, and that nothing else moves |
| `Outcomes.RecvAnswers` | kernel/src/task/scheduler.rs:467-524 | the same for receiving: the receiver blocks as long as no sender ever blocked there, and from then on takes the first accepted message not taken, waking its sender, or gets all zeros |
| `Outcomes.CarriedAsSent` | kernel/src/task/scheduler.rs:403-428 | in every run from boot, every history entry that queues, delivers or drops a message stands at a send event and has the message of that event |
| `Outcomes.MessagesInOrder` | kernel/src/task/scheduler.rs:403-512 | after every run from boot the messages an endpoint carried are those of the send events on it, in order; what receivers took from blocked senders followed by what is queued is all of them; what a blocked receiver returned with is, in order, what the send events carried that found it first in line |
| `WaitAndIrq.RunKeepsSettled` | kernel/src/task/process.rs:13-16 | along every run a terminated process has no waiters and stays terminated, and a pending interrupt has no waiter |
| `WaitAndIrq.NoLostWakeUp` | kernel/src/task/scheduler.rs:289-299 | after every run from boot a thread inside a wait for a process is runnable if and only if that process has terminated |
| `WaitAndIrq.ProcessWaitSound` | kernel/src/task/scheduler.rs:265-333 | over every run from boot, a wait for a process ends, at once or later, only if the process has terminated |
| `EventStories.ThreadFollows` | kernel/src/task/scheduler.rs:140-142 | after every run from boot the threads are those that were added, each with the process and capability space it was added with |
| `EventStories.ProcessFollows` | kernel/src/task/process.rs:13-16 | after every run from boot a process is terminated if and only if a thread added for it has exited, and before that its wait queue is those who waited for it under a capability with the right, in order |
| `EventStories.WaitAnswers` | kernel/src/task/scheduler.rs:265-305 | in every run from boot: the answer is "already terminated" if and only if the capability has the right and a thread of the process has exited; the caller is parked inside the wait, last in line, if and only if it has the right and none has; -3 if and only if a process capability lacks the right, -2 if and only if it is none; otherwise nothing changes |
| `EventStories.ExitAnswers` | kernel/src/task/scheduler.rs:223-263 | in every run from boot an exit ends its caller, appends those waiting for its process to the line, in order, and runs the first of the line; the kernel halts if and only if the line is empty |
| `EventStories.CallsEndByRunning` | kernel/src/task/scheduler.rs:307-331 | across any step a blocked thread's call ends if and only if the thread becomes current, and then returns with what its buffer holds |
| `WaitAndIrq.IrqWaits` | kernel/src/task/scheduler.rs:568-603 | after every run from boot no interrupt is both pending and waited for, and while the kernel runs its raises equal the waits it ended plus the waiters it woke that have not run yet plus a set flag plus the raises that found the flag set |
| `WaitAndIrq.RaiseIsNotLost` | kernel/src/task/scheduler.rs:568-603 | a wait issued any number of steps after a raise that nothing consumed returns at once, with its caller still current |
| `EventStories.IrqFollows` | kernel/src/task/scheduler.rs:568-603 | after every run from boot the flag and the waiter of each interrupt are those computed from its raises and from the waits for it alone |
| `EventStories.WaitIrqAnswers` | kernel/src/task/scheduler.rs:579-609 | in every run from boot a wait ends at once, using up the flag, if and only if a raise is remembered; otherwise the caller is parked in the slot and whoever was there is displaced; -2 if and only if no interrupt capability is named, nothing changed |
| `EventStories.RaiseAnswers` | kernel/src/task/scheduler.rs:568-577 | in every run from boot a raise makes the waiter runnable, behind those that are, or else only sets the flag |
| `BoundedWaiting.WaitingIsBounded` | kernel/src/task/scheduler.rs:140-181 | along every run a thread at position i of the run queue moves up one place per dispatch, whatever else happens, and is current after dispatch number i + 1 |
| `BoundedWaiting.WaitersRunInOrder` | kernel/src/task/scheduler.rs:230-245 | when a process ends with n threads runnable, its i-th waiter is current after n + i further dispatches, whatever else happens |
| `BoundedWaiting.RoundRobin` | kernel/src/task/scheduler.rs:162-208 | with n threads queued behind the current one, n + 1 ticks restore all queues, and each thread of the line is current in turn |
| `KernelObjects.Process.Terminate` | kernel/src/task/scheduler.rs:230-239 | the loop that drains the wait queue moves all waiters, in order, to the end of the run queue |
| `KernelObjects.EndpointTable.PushSender` | kernel/src/task/scheduler.rs:422-428 | a sender is queued last at the endpoint referred to, which becomes a sending one on first use; no other endpoint changes |
| `KernelObjects.EndpointTable.PopReceiver` | kernel/src/task/scheduler.rs:404-405 | the first receiver is taken from the endpoint referred to; no other endpoint changes |
| `SchedulerObject.Scheduler.TakeWaiter` | kernel/src/task/scheduler.rs:571 | the array slot is emptied and its thread returned; all other slots keep theirs |
| `SchedulerObject.Scheduler.StoreWaiter` | kernel/src/task/scheduler.rs:600-601 | the array slot holds the new thread; a thread that was there is recorded as displaced |
| `SchedulerObject.Scheduler.UnblockIrq` | kernel/src/task/scheduler.rs:568-577 | the waiter becomes runnable or the flag is set: exactly the interrupt step of the model |
| `SchedulerObject.Scheduler.PickNext` | kernel/src/task/scheduler.rs:162-181 | the current thread is saved and queued last, the old head becomes current, and its saved state is returned; with nothing queued the given state is |
| `SchedulerObject.Scheduler.TimerTick` | kernel/src/task/scheduler.rs:195-208 | exactly the tick step, result included |
| `SchedulerObject.Scheduler.YieldNow` | kernel/src/task/scheduler.rs:336-376 | exactly the yield step, the panic on a preempted head included |
| `SchedulerObject.Scheduler.IdleRound` | kernel/src/task/scheduler.rs:309-310 | what arrives between halt and disable, timer ticks included, is a legal run; a tick that dispatches ends it |
| `SchedulerObject.Scheduler.IdleLoop` | kernel/src/task/scheduler.rs:307-312 | idling is a legal run of arrivals that ends as soon as a look at the run queue finds a thread, or a tick takes the processor away |
| `SchedulerObject.Scheduler.IdleAndSwitch` | kernel/src/task/scheduler.rs:439-461 | arrivals, then at most one switch, are a legal run whose results are returned; the processor idles on only with nobody runnable |
| `SystemCallObject.SystemCalls.LookupEndpoint` | kernel/src/task/scheduler.rs:384-398 | an endpoint is found exactly if the handle names an endpoint capability with the right; otherwise which of the three errors |
| `SystemCallObject.SystemCalls.SysSend` | kernel/src/task/scheduler.rs:378-438 | exactly the send step on the shared endpoint object, errors included; what that step answers and carries is stated without it by `SendAnswers` and `MessagesInOrder` |
| `SystemCallObject.SystemCalls.SysRecv` | kernel/src/task/scheduler.rs:467-524 | exactly the receive step on the shared endpoint object, errors included; stated without it by `RecvAnswers` |
| `SystemCallObject.SystemCalls.SysWait` | kernel/src/task/scheduler.rs:265-305 | exactly the process-wait step on the shared process object, errors included; stated without it by `WaitAnswers` |
| `SystemCallObject.SystemCalls.SysWaitIrq` | kernel/src/task/scheduler.rs:579-609 | exactly the interrupt-wait step on the arrays; stated without it by `WaitIrqAnswers` |
| `SystemCallObject.SystemCalls.ExitCurrentThread` | kernel/src/task/scheduler.rs:223-263 | exactly the exit step, waiters drained in order; stated without it by `ExitAnswers` |
| `SystemCallObject.SystemCalls.SysEndpointCreate` | kernel/src/task/scheduler.rs:554-566 | exactly the create step: a fresh endpoint with all rights at the lowest free handle |
| `EventStories.CreateAnswers` | kernel/src/task/scheduler.rs:554-566 | in every run from boot a new endpoint gets the lowest handle that named nothing, with all three rights, for the threads of the caller's capability space; every other handle of every thread keeps its meaning |
| `SystemCallObject.SystemCalls.SendCall` | kernel/src/task/scheduler.rs:378-465 | the whole call, from entry through the idle loop to the switch, is a legal run beginning with the send, whose results are returned |
| `SystemCallObject.SystemCalls.RecvCall` | kernel/src/task/scheduler.rs:467-552 | the same for receiving |
| `SystemCallObject.SystemCalls.WaitCall` | kernel/src/task/scheduler.rs:265-333 | the same for waiting for a process |
| `SystemCallObject.SystemCalls.WaitIrqCall` | kernel/src/task/scheduler.rs:579-634 | the same for waiting for an interrupt |
| `Capabilities.FirstFree` | kernel/src/capability/mod.rs:36-45 | the slot is empty or one past the end, and every lower slot is taken |
| `Capabilities.InsertedExact` | kernel/src/capability/mod.rs:36-45 | insert hands out the lowest handle that named nothing and changes no other handle |
| `Capabilities.InsertedAtExact` | kernel/src/capability/mod.rs:47-52 | insert_at changes exactly the given handle, also when the table grows |
| `Capabilities.CSpace.Insert` | kernel/src/capability/mod.rs:36-45 | the loop finds the lowest free slot; the table is the one `InsertedExact` is about |
| `Capabilities.CSpace.InsertAt` | kernel/src/capability/mod.rs:47-52 | the table is the one `InsertedAtExact` is about |
| `Capabilities.CSpace.Get` | kernel/src/capability/mod.rs:54-56 | the capability named, or none for empty and out-of-range handles |
| `Capabilities.CSpace.Remove` | kernel/src/capability/mod.rs:58-64 | returns what the handle named, which then names nothing; all other handles keep their meaning |
| `CapabilityFlow.FullCopyExact` | kernel/src/syscall/mod.rs:162-186 | a full-copy spawn gives the child the parent's meaning of every handle; the parent then differs from it in exactly the handle of the new process capability |
| `CapabilityFlow.RestrictedSpawnExact` | kernel/src/syscall/mod.rs:138-153 | any other spawn gives the child at most the one endpoint capability named, at handle 1 |
| `CapabilityFlow.ChildHoldsParents` | kernel/src/elf/mod.rs:144-147 | whatever the handle, each capability of a new process is one its parent holds |
| `CapabilityFlow.SpawnCaps` | kernel/src/syscall/mod.rs:138-186 | the copying loop builds the child's table, and the parent gets a wait-only process capability at its lowest free handle |
| `CapabilityFlow.BootLawful` | kernel/src/main.rs:299-337 | the first process holds only the hardware grants made at boot |
| `CapabilityFlow.BootExact` | kernel/src/main.rs:299-337 | handle by handle, what the first process names after boot, and that it names nothing else |
| `CapabilityFlow.CallExact` | kernel/src/syscall/mod.rs:126-464 | every system call on capability spaces, told by what each handle of each process names after it |
| `CapabilityFlow.CapabilitiesFlowDown` | kernel/src/syscall/mod.rs:126-464 | in every reachable state a held capability was created, exactly as it is, for the holder or an ancestor; endpoint capabilities stay below the one creator of the endpoint, process capabilities below the parent |
| `CapabilityFlow.HandlesAreStable` | kernel/src/capability/mod.rs:36-56 | along every run of system calls a handle that names a capability keeps naming it |
| `MapPhys.RangeCheckExact` | kernel/src/syscall/mod.rs:317-336 | for every grant: the saturating check admits exactly the requests inside it, for all requests, if and only if it ends below the largest address or its base and length are both the largest word |
| `MapPhys.CallCheckExact` | kernel/src/syscall/mod.rs:317-336 | for every grant: the check is exact for all requests a call can make if and only if it ends below the largest address or no call can name a range beyond it |
| `MapPhys.LargestGrantChecked` | kernel/src/syscall/mod.rs:449-457 | on the grant that a DMA request of the largest length leaves, a call for a range beyond the grant passes the check |
| `MapPhys.MappedFramesGranted` | kernel/src/syscall/mod.rs:377-396 | for every grant and every allowed request that maps, every mapped frame contains a granted byte |
| `MapPhys.TranslatesTo` | kernel/src/syscall/mod.rs:377-396 | byte k of the window is byte k of the page containing the requested address |
| `MapPhys.TranslationExact` | kernel/src/syscall/mod.rs:373-402 | every byte k of the window is requested byte k if and only if the request is page-aligned and the window does not wrap |
| `MapPhys.WindowsDisjoint` | kernel/src/syscall/mod.rs:373-375 | windows of two handles share no page if and only if the lower one fits the distance between them or the upper one is empty |
| `MapPhys.WindowExact` | kernel/src/syscall/mod.rs:373-380 | the window of a handle starts at 0x80000000 plus 0x1000000 times the handle, and its pages are exactly those its bytes lie on |
| `MapPhys.MapsExactly` | kernel/src/syscall/mod.rs:377-399 | a request whose window does not wrap is mapped rather than ending in a panic if and only if the window ends a page below the upper half or earlier, no byte of it is mapped, its last page starts below the end of physical memory and page tables can be had |
| `MapPhys.EmptyWindow` | kernel/src/syscall/mod.rs:382-384 | a window of no bytes, or one that wraps, maps nothing and panics if and only if it starts in the upper half of the address space |
| `MapPhys.AddressSpace.MapWindow` | kernel/src/syscall/mod.rs:382-399 | the loop maps consecutive pages to consecutive frames, and fails exactly on a mapped page, an address out of range or missing page tables |
| `MapPhys.AddressSpace.SysMapPhys` | kernel/src/syscall/mod.rs:305-406 | which of denied, panic and mapped, exactly; a denied call changes nothing; a mapped one changes the window's pages only |
| `FrameAllocator.WithBitExact` | kernel/src/memory/frame_allocator.rs:51-61 | the byte-level operation adds or removes exactly one element of the set of free frames |
| `FrameAllocator.ScanCovers` | kernel/src/memory/frame_allocator.rs:80-84 | the modular scan passes every frame, wherever the cursor stands |
| `FrameAllocator.NextFreeIsNextFit` | kernel/src/memory/frame_allocator.rs:75-93 | the scan fails if and only if no frame is free, and otherwise finds the first free frame in cyclic order from the cursor |
| `FrameAllocator.NextAllocation` | kernel/src/memory/frame_allocator.rs:80-89 | of two allocations in a row the second gets the first free frame behind the first, going round |
| `FrameAllocator.BitmapAllocator.SetBit` | kernel/src/memory/frame_allocator.rs:51-61 | only the given frame changes its place in the set of free frames |
| `FrameAllocator.BitmapAllocator.GetBit` | kernel/src/memory/frame_allocator.rs:63-71 | used if and only if the frame is not in the set of free frames |
| `FrameAllocator.BitmapAllocator.AllocateFrame` | kernel/src/memory/frame_allocator.rs:75-93 | none if and only if no frame is free, else the next-fit frame, which leaves the free set, and the cursor stands behind it; the cached count stays the number of clear bits |
| `FrameAllocator.BitmapAllocator.DeallocateFrame` | kernel/src/memory/frame_allocator.rs:97-103 | the frame is free afterwards if it is in range, counted once; nothing else changes |
| `MemoryRuns.LiveFramesNeverOverlap` | kernel/src/memory/frame_allocator.rs:75-103 | over every run, free, handed-out and reserved frames stay a partition and no frame is handed out twice, if and only if no reserved frame is given back |
| `MemoryRuns.AlignedExact` | kernel/src/memory/frame_allocator.rs:20-25 | the rounding is the least covering multiple of the page size, or zero when that does not fit a word |
| `MemoryRuns.BumpExact` | kernel/src/memory/frame_allocator.rs:20-36 | a request is served by whole pages of its own or refused if and only if the new fill level does not overflow a word |
| `MemoryRuns.FaultExact` | kernel/src/memory/frame_allocator.rs:27-29 | for a request that passes the test, there is memory for every byte to be cleared if and only if the rounded request does not exceed the pool; otherwise it exceeds all physical memory |
| `MemoryRuns.FaultsOnOverflow` | kernel/src/memory/frame_allocator.rs:22-29 | clearing faults if and only if the pages of the request fit a word but their sum with the pages in use does not |
| `MemoryRuns.OversizedRequests` | kernel/src/memory/frame_allocator.rs:22-29 | two concrete oversized requests: the pages of one wrap to none and it is granted; the sum of the other with the pages in use wraps and clearing its region faults |
| `MemoryRuns.DmaPool.AllocateDmaFrames` | kernel/src/memory/frame_allocator.rs:20-36 | refused exactly when the rounded request does not fit; faulted exactly when it passes the test and some byte to be cleared has no memory; otherwise the region at the fill level is handed out with every byte of it cleared and no other byte changed |
| `MemoryRuns.DmaRegionsDisjoint` | kernel/src/memory/frame_allocator.rs:20-36 | over every run of requests, up to a fault, the regions handed out are page-aligned, inside the 64 KiB pool and one behind the other if and only if the pages of no request alone overflow a word |
| `MemoryGrants.GrantedMemoryDisjoint` | kernel/src/syscall/mod.rs:422-464 | from the state boot leaves, over every run of requests up to a fault: memory capabilities made by the two system calls are for whole frames outside the pool or ranges inside it, and no two overlap, in every state, if and only if the pages of no DMA request overflow a word |
| `MemoryGrants.BootGrantCoversPool` | kernel/src/main.rs:333-336 | over every such run, handle 22 of the first process still names the whole pool, and every memory capability made since boot lies inside it or is for a whole frame apart from it |
| `BootInit.FindMaxEnd` | kernel/src/memory/frame_allocator.rs:111-130 | the loop finds the largest end of an entry of the five kinds of RAM, or 0 |
| `BootInit.BitmapBytesExact` | kernel/src/memory/frame_allocator.rs:130-131 | one bit for every whole frame below the end of RAM, in no byte more than that takes |
| `BootInit.BitmapBaseExact` | kernel/src/memory/frame_allocator.rs:134-142 | the base is that of the first usable entry that can hold the bitmap, or 0 if there is none |
| `BootInit.FindBitmapBase` | kernel/src/memory/frame_allocator.rs:134-142 | the loop finds the first usable entry that can hold the bitmap, or none |
| `BootInit.FreeUsable` | kernel/src/memory/frame_allocator.rs:164-175 | the free set is exactly the usable frames, all indices in range, each counted once |
| `BootInit.ReserveBitmap` | kernel/src/memory/frame_allocator.rs:177-186 | the free set is the usable frames without those of the bitmap |
| `BootInit.FindWindow` | kernel/src/memory/frame_allocator.rs:192-212 | the start of the lowest run of 16 free frames, or 0 if there is none above frame 0 |
| `BootInit.Init` | kernel/src/memory/frame_allocator.rs:108-223 | succeeds exactly if there is a nonzero bitmap base and a nonzero lowest window; then the free set is the usable frames minus the bitmap's minus that window, and the cached count is its size |
| `BootInit.FreeByAddress` | kernel/src/memory/frame_allocator.rs:164-218 | in addresses: the free set `Init` leaves is the whole pages of usable memory in which no byte of the bitmap lies and which are not in the 65536 bytes of the pool |
| `BootInit.BootReserves` | kernel/src/memory/frame_allocator.rs:177-218 | the frames of the bitmap and of the DMA pool start out reserved, so `LiveFramesNeverOverlap` keeps live frames out of both |
| `ElfLoader.FillPage` | kernel/src/elf/mod.rs:102-121 | clearing and copying the intersection yields that page of the segment's flat image |
| `ElfLoader.LoadPage` | kernel/src/elf/mod.rs:90-121 | the page gets a frame that was free, and no other frame is written |
| `ElfLoader.LoadSegment` | kernel/src/elf/mod.rs:80-122 | all pages of the segment hold its image, no page mapped before is disturbed, exactly those pages are added |
| `ElfLoader.LoadSegments` | kernel/src/elf/mod.rs:76-122 | after success every loadable segment is in place and no two share a page; failure means two do or memory ran out |
| `ElfLoader.MapStack` | kernel/src/elf/mod.rs:124-138 | exactly the four pages below the stack top are added, in frames of their own |
| `ElfLoader.LoadProgram` | kernel/src/elf/mod.rs:76-138 | the whole address space, in addresses: a page is mapped if and only if an address of a loadable segment, or of the 16 KiB stack, lies on it, each in a frame of its own; every byte on a segment's page is the file's byte or zero; with frames left, loading fails if and only if two segments, or a segment and the stack, share a page |
| `ElfLoader.TouchesExact` | kernel/src/elf/mod.rs:86-90 | the pages of the loop are exactly those on which an address of the memory range lies, and for an empty range the page it starts in the middle of |
| `ElfLoader.SegmentImage` | kernel/src/elf/mod.rs:87-121 | every byte on a page of a loaded segment is the file's byte at the same distance from the segment's start, or zero where the file has none |
| `ElfLoader.FlatImage` | kernel/src/elf/mod.rs:76-122 | a segment's memory range reads as its file range followed by zeros |
| `Tar.ParseName` | kernel/src/fs/tar.rs:21-26 | the length up to the first zero byte, or 100 |
| `Tar.ParseOctal` | kernel/src/fs/tar.rs:28-37 | the value of the octal field |
| `Tar.FindFile` | kernel/src/fs/tar.rs:10-57 | on every byte string the loop stays within the data, ends, and finds what the specification finds; what that is, in terms of what was written, is stated by `UstarRoundTrip`, `TruncatedArchive` and `RegularFilesOnly` |
| `Tar.OctalDigits` | kernel/src/fs/tar.rs:28-37 | reading octal digits undoes writing them, for every number and width |
| `Tar.OctalExact` | kernel/src/fs/tar.rs:28-37 | for every field: it counts up to its first zero byte or space, as the number its octal digits make, other bytes passed over |
| `Tar.Utf8Exact` | kernel/src/fs/tar.rs:26 | the recogniser accepts exactly the encodings of sequences of Unicode scalar values (section 3 of RFC 3629) |
| `Tar.HeaderReads` | kernel/src/fs/tar.rs:18-40 | name, size and type of a written header are read back, whatever the other fields hold |
| `Tar.UstarRoundTrip` | kernel/src/fs/tar.rs:10-57 | in every archive the writer lays out, contents filled with any bytes to the least covering multiple of 512, a look-up returns exactly the contents of the first file whose flag is 48 or 0 and whose name, as UTF-8 text, is the one asked for, or nothing |
| `Tar.TruncatedArchive` | kernel/src/fs/tar.rs:42-49 | an archive cut off inside the contents of a file reads as if that file were not there |
| `Tar.RegularFilesOnly` | kernel/src/fs/tar.rs:39-45 | a file with flag 48 or 0 is found under its name with its contents if no such file of that name stands before it; files with any other flag are never found |
| `Checksum.ComputeChecksum` | userspace/src/bin/network_service.rs:25-41 | the complement of the folded 32-bit sum of 16-bit words, odd lengths included |
| `Checksum.SumWords` | userspace/src/bin/network_service.rs:26-36 | the loop computes the sum of all words modulo 2^32 |
| `Checksum.FoldCarries` | userspace/src/bin/network_service.rs:37-39 | the loop ends with sixteen bits and the folded value |
| `Checksum.OnesSumIsCanon` | userspace/src/bin/network_service.rs:25-41 | the one's-complement sum is determined by the plain sum modulo 65535 (section 1 of RFC 1071) |
| `Checksum.ChecksumIsOnesComplement` | userspace/src/bin/network_service.rs:25-41 | up to 131074 bytes no carry is lost and the result complements the one's-complement sum |
| `Checksum.ChecksumExact` | userspace/src/bin/network_service.rs:33 | for data of any length, right if and only if the carries lost beyond 32 bits do not change the sum |
| `Checksum.LongerDataIsMissummed` | userspace/src/bin/network_service.rs:33 | two bytes above the bound there are data whose checksum is wrong |
| `Checksum.StoredChecksumVerifies` | userspace/src/bin/network_service.rs:203-204 | data with their checksum stored in a zeroed even field sum to zero |
| `Network.IpHeaderVerifies` | userspace/src/bin/network_service.rs:189-204 | every IPv4 header built verifies to zero (section 3.1 of RFC 791) |
| `Network.HeadersOnWire` | userspace/src/bin/network_service.rs:184-212 | the 42 header bytes one by one in terms of the arguments: both addresses, type, version, lengths, flags, time to live, protocol, a checksum that verifies, source and destination address, source and destination port, zero UDP checksum |
| `Network.ReceivedExact` | userspace/src/bin/network_service.rs:124-150 | for every frame, byte by byte: it holds a datagram if and only if type, address, protocol and lengths say so, which one it is, and when the header length panics |
| `Network.DeliveredExact` | userspace/src/bin/network_service.rs:141-170 | for every frame, byte by byte: delivered, with which bytes and message, if and only if it holds a datagram for the bound port of at most 1024 bytes; overrun and panic likewise |
| `Network.UdpRoundTrip` | userspace/src/bin/network_service.rs:124-170 | a frame that was built parses, with any padding, to the datagram it was built from if addressed to us or to everyone, and is ignored otherwise |
| `Network.UdpDelivered` | userspace/src/bin/network_service.rs:124-170 | for every payload a frame can carry: delivered unchanged with length, source address and port if and only if address and port match, an endpoint is bound and it has at most 1024 bytes; a longer one ends the service; any other frame is not delivered |
| `Network.CopyFitsExact` | userspace/src/bin/network_service.rs:152-156 | in every frame the payload starts within the first 82 bytes, and its copy stays in the buffer and clear of its source if and only if it has at most 1024 bytes |
| `Network.FirstOverrun` | userspace/src/bin/network_service.rs:152-156 | any datagram of 1025 bytes for the bound port overruns, and one of 1024 bytes is delivered |
| `Network.SendingExact` | userspace/src/bin/network_service.rs:182-216 | the copy is clear of its source if and only if the payload has at most 982 bytes, and inside the buffer if and only if at most 1024; so which of the outcomes, for every length |
| `Network.FirstOverlap` | userspace/src/bin/network_service.rs:214-216 | with 983 bytes the last byte of the frame falls on the first byte of the payload |
| `Network.NetworkService.WriteEthHeader` | userspace/src/bin/network_service.rs:184-187 | three writes build the Ethernet header; the rest of the buffer is unchanged |
| `Network.NetworkService.WriteIpHeader` | userspace/src/bin/network_service.rs:189-204 | zero field first, checksum of the bytes in the buffer second, gives the header `IpHeaderVerifies` is about |
| `Network.NetworkService.WriteHeaders` | userspace/src/bin/network_service.rs:184-212 | the 42 header bytes of the frame are in the transmit area; the rest of the buffer is unchanged |
| `Network.NetworkService.SendUdp` | userspace/src/bin/network_service.rs:172-220 | for every payload length: without a gateway nothing happens; above 1500 bytes of frame the headers are written and nothing is sent; otherwise one message goes to the driver and the transmit area holds, byte by byte in terms of the arguments, the 42 header bytes and the payload, which is what the application left exactly when the copy is defined; nothing else in the buffer changes |
| `Network.NetworkService.HandleUdp` | userspace/src/bin/network_service.rs:141-170 | which of the outcomes, and what buffer and outbox become, a copy that runs past the buffer included |
| `Network.NetworkService.HandleIpv4` | userspace/src/bin/network_service.rs:124-139 | which of the outcomes, the out-of-range header length and the overrun included |
| `Network.NetworkService.HandleRx` | userspace/src/bin/network_service.rs:257-268 | for every reported length the outcome is the one the frame, with whatever lies behind the buffer, parses to; the payload area changes only on delivery or overrun, the outbox only on delivery, and nothing else in the buffer ever |

## Left out

- Two thread-id counters exist in the source; here one number stands for the reference to a thread, and likewise for endpoints and processes.
- In the scheduler model any capability space may change at any time; which changes the kernel makes is the subject of `CapabilityFlow`.
- Locking, and more than one processor.
- Registers, apart from the stack pointer and the value handed to `after_switch`.
- What the processor executes once it has entered a stack at a pointer where no frame lies.
- Freeing the stack of a thread that has exited, loading its successor's page tables, and the translation cache.
- Running out of kernel heap.
- BootInit.Init: takes a memory map whose usable entries are page-aligned and disjoint, as the boot protocol promises; addresses are unbounded numbers.
- ElfLoader.LoadSegments: takes decoded program headers whose file ranges lie in the file; decoding the raw header, the panics on bad magic, segments with neither address nor size, and address overflow are not modelled.
- ElfLoader.MapTo: a page-table walk takes any number of up to three further frames; the structure of page tables is not modelled.
- MapPhys.AddressSpace.SysMapPhys: the window address is an unbounded number, so handles from 2^40 on, where it wraps, count as out of range; flags and caching are not modelled.
- SystemCallObject.SystemCalls.SysEndpointCreate: works on the contents of capability spaces as values; the object changed in place is `CSpace`.
- Network.NetworkService.HandleUdp: what an overrun has written to the payload area when the service ends is an input, since the order of the copy is not defined.
- Clearing the frames that SYS_FRAME_ALLOC hands out, and the system calls that only write to the log or report.
- Address resolution, the protocol between network service and card driver, and port binding are not modelled.
- Hardware set-up, and the services for devices other than the UDP path of the network.
