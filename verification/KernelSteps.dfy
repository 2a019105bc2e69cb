/** Every step of the kernel as a function on its state. A call runs with interrupts off, so it
    is one step, except that a blocking call is cut at its idle loop: first the caller is parked,
    then, after the interrupts that arrive while idling, the processor switches away. */
module KernelSteps {
  import opened Basics
  import opened Capabilities
  import opened KernelState

  /** `sp` is the stack pointer at which the running code is switched out, `junk` whatever the
      accumulator happens to hold when a frame is entered without going through `switch_context`. */
  datatype Event =
    | AddThread(t: Tid, info: ThreadInfo, sp: Sp)
    | SetCSpace(cs: CsId, slots: Slots)
    | EndpointCreate(ep: EpId)
    | Tick(sp: Sp, junk: Sp)
    | Interrupted(irq: Irq)
    | Yield(sp: Sp)
    | Send(handle: nat, msg: Message)
    | Recv(handle: nat)
    | Wait(handle: nat)
    | WaitIrq(handle: nat)
    | Exit(sp: Sp, junk: Sp)
    | Switch(sp: Sp)

  /** What a step lets the outside see. */
  datatype Output =
    | Silent
    | Created(ep: EpId, handle: nat)
    | Refused(err: CapError)
    | Rejected(code: int)
    | Queued(ep: EpId, t: Tid, msg: Message)
    | Delivered(ep: EpId, t: Tid, msg: Message)
    | Dropped(ep: EpId, msg: Message)
    | Took(ep: EpId, t: Tid, msg: Message)
    | TookNothing(ep: EpId, msg: Message)
    | ReceiverQueued(ep: EpId, t: Tid)
    | AlreadyTerminated(process: Pid)
    | Consumed(irq: Irq)
    | Raised(irq: Irq)
    | Returned(t: Tid, call: Call, msg: Message)

  datatype Outcome = Outcome(k: Kernel, out: Output)

  // ---- queue operations ----

  /** The head of the run queue becomes the current thread. */
  function Dispatch(q: Queues): Queues
    requires q.runQueue != []
  {
    q.(runQueue := q.runQueue[1..], current := Some(q.runQueue[0]))
  }

  function Enqueue(q: Queues, t: Tid): Queues {
    q.(runQueue := q.runQueue + [t])
  }

  /** The current thread goes to the back of the run queue. */
  function Requeue(q: Queues): Queues
    requires q.current.Some?
  {
    q.(runQueue := q.runQueue + [q.current.value], current := None)
  }

  function QueueSender(q: Queues, ep: EpId, msg: Message): Queues
    requires q.current.Some? && !EndpointAt(q.endpoints, ep).ReceiversWaiting?
  {
    var queued := match EndpointAt(q.endpoints, ep) case SendersWaiting(s) => s case _ => [];
    q.(endpoints := q.endpoints[ep := SendersWaiting(queued + [(q.current.value, msg)])], current := None)
  }

  function QueueReceiver(q: Queues, ep: EpId): Queues
    requires q.current.Some? && !EndpointAt(q.endpoints, ep).SendersWaiting?
  {
    var queued := match EndpointAt(q.endpoints, ep) case ReceiversWaiting(r) => r case _ => [];
    q.(endpoints := q.endpoints[ep := ReceiversWaiting(queued + [q.current.value])], current := None)
  }

  /** The first queued sender moves to the run queue. */
  function PopSender(q: Queues, ep: EpId): Queues
    requires EndpointAt(q.endpoints, ep).SendersWaiting? && EndpointAt(q.endpoints, ep).senders != []
  {
    var s := EndpointAt(q.endpoints, ep).senders;
    q.(endpoints := q.endpoints[ep := SendersWaiting(s[1..])], runQueue := q.runQueue + [s[0].0])
  }

  /** The first queued receiver moves to the run queue. */
  function PopReceiver(q: Queues, ep: EpId): Queues
    requires EndpointAt(q.endpoints, ep).ReceiversWaiting? && EndpointAt(q.endpoints, ep).receivers != []
  {
    var r := EndpointAt(q.endpoints, ep).receivers;
    q.(endpoints := q.endpoints[ep := ReceiversWaiting(r[1..])], runQueue := q.runQueue + [r[0]])
  }

  function QueueWaiter(q: Queues, p: Pid): Queues
    requires q.current.Some?
  {
    var s := ProcessAt(q.processes, p);
    q.(processes := q.processes[p := s.(waitQueue := s.waitQueue + [q.current.value])], current := None)
  }

  /** Termination: all waiters move to the run queue in order. */
  function Terminate(q: Queues, p: Pid): Queues {
    q.(processes := q.processes[p := ProcessState(true, [])],
       runQueue := q.runQueue + ProcessAt(q.processes, p).waitQueue)
  }

  /** Storing into an occupied waiter slot drops the thread that was there. */
  function Displace(q: Queues, i: Irq): Queues {
    if i in q.irqWaiters
    then q.(irqWaiters := q.irqWaiters - {i}, displaced := q.displaced + {q.irqWaiters[i]})
    else q
  }

  function StoreIrqWaiter(q: Queues, i: Irq): Queues
    requires q.current.Some?
  {
    q.(irqWaiters := q.irqWaiters[i := q.current.value], current := None)
  }

  function UnblockIrq(q: Queues, i: Irq): Queues {
    if i in q.irqWaiters
    then q.(irqWaiters := q.irqWaiters - {i}, runQueue := q.runQueue + [q.irqWaiters[i]])
    else q.(pending := q.pending + {i})
  }

  function DropCurrent(q: Queues): Queues
    requires q.current.Some?
  {
    q.(exited := q.exited + {q.current.value}, current := None)
  }

  /** Process states, interrupt waiters, pending interrupts and displaced threads are the same. */
  predicate SameWaits(q: Queues, q': Queues) {
    && q'.processes == q.processes && q'.pending == q.pending
    && q'.irqWaiters == q.irqWaiters && q'.displaced == q.displaced
  }

  // ---- machine operations ----

  /** `after_switch`: completes the save of the thread named by STATE_TO_UPDATE, if any. */
  function AfterSwitchCall(m: Machine, rsp: Sp): Machine {
    if m.stateToUpdate.Some?
    then m.(saved := m.saved[m.stateToUpdate.value := Cooperative(rsp)], stateToUpdate := None)
    else m
  }

  /** The processor loads the saved state `st` of `t`, the current thread, with `rax` in the accumulator. */
  function Land(k: Kernel, t: Tid, st: SavedState, rax: Sp): (r: Outcome)
    ensures r.k.q == k.q && (r.k.mode.Running? || r.k.mode.Derailed?)
  {
    if t in k.m.frames && StateOf(k.m.frames[t]) == st then
      var m1 := k.m.(frames := k.m.frames - {t});
      var m2 := if CallsAfterSwitch(k.m.frames[t]) then AfterSwitchCall(m1, rax) else m1;
      Outcome(k.(m := m2, mode := Running, calls := k.calls - {t}),
              if t in k.calls then Returned(t, k.calls[t], BufferAt(k, t)) else Silent)
    else
      Outcome(k.(mode := Derailed), Silent)
  }

  /** A frame is pushed on the stack of `from`, when there is such a thread to come back to. */
  function Push(m: Machine, from: Option<Tid>, f: Frame): Machine {
    if from.Some? then m.(frames := m.frames[from.value := f]) else m
  }

  /** The stack of `from` is left for a thread saved as `st`: only `switch_context_to_preemptive` completes the
      save itself. */
  function LeaveStack(m: Machine, from: Option<Tid>, st: SavedState, sp: Sp): Machine {
    if st.Cooperative? then Push(m, from, Frame(sp, AfterSwitch))
    else AfterSwitchCall(Push(m, from, Frame(sp, Plain)), sp)
  }

  /** The tail of a blocking call: pop the head and switch to it from the stack of `from`. */
  function SwitchAway(k: Kernel, from: Option<Tid>, sp: Sp): (r: Outcome)
    requires k.q.runQueue != []
    ensures r.k.q == Dispatch(k.q) && (r.k.mode.Running? || r.k.mode.Derailed?)
  {
    var next := k.q.runQueue[0];
    var st := SavedAt(k.m.saved, next);
    Land(k.(q := Dispatch(k.q), m := LeaveStack(k.m, from, st, sp)), next, st, sp)
  }

  /** The idle loop has ended. */
  function SwitchStep(k: Kernel, e: Event): Outcome
    requires e.Switch? && k.mode.Parked? && k.q.runQueue != []
  {
    SwitchAway(k, Some(k.mode.thread), e.sp)
  }

  /** The current thread has been queued by `q`: it is to be saved and the idle loop is entered. */
  function Park(k: Kernel, q: Queues, call: Call): Kernel
    requires k.q.current.Some?
  {
    var t := k.q.current.value;
    k.(q := q, m := k.m.(stateToUpdate := Some(t)), mode := Parked(t, q.runQueue == []), calls := k.calls[t := call])
  }

  // ---- the kernel's entry points ----

  function AddStep(k: Kernel, e: Event): (r: Outcome)
    requires e.AddThread?
    ensures SameWaits(k.q, r.k.q)
  {
    Outcome(k.(q := Enqueue(k.q.(threads := k.q.threads + {e.t}), e.t),
               m := k.m.(saved := k.m.saved[e.t := Cooperative(e.sp)], frames := k.m.frames[e.t := Frame(e.sp, Entry)]),
               info := k.info[e.t := e.info]),
            Silent)
  }

  function CreateStep(k: Kernel, e: Event): (r: Outcome)
    requires e.EndpointCreate? && k.q.current.Some?
    ensures SameWaits(k.q, r.k.q)
  {
    var slots := SlotsOf(k, k.q.current.value);
    var cs := if k.q.current.value in k.info then k.info[k.q.current.value].cspace else 0;
    Outcome(k.(q := k.q.(endpoints := k.q.endpoints[e.ep := Idle]),
               cspaces := k.cspaces[cs := Inserted(slots, EndpointCap(e.ep, ALL_RIGHTS))]),
            Created(e.ep, FirstFree(slots)))
  }

  /** `before` and `after` differ at most in the run queue, the current thread and the machine. */
  predicate SameCalls(before: Kernel, after: Kernel) {
    && SameWaits(before.q, after.q) && after.q.endpoints == before.q.endpoints
    && after.calls == before.calls && after.buffers == before.buffers && after.mode == before.mode
  }

  /** The timer interrupt saves the current thread, if any, and puts it at the back. */
  function Preempt(k: Kernel, sp: Sp): (k': Kernel)
    ensures SameCalls(k, k')
  {
    if k.q.current.Some?
    then k.(q := Requeue(k.q),
            m := k.m.(saved := k.m.saved[k.q.current.value := Preemptive(sp)],
                      frames := k.m.frames[k.q.current.value := Frame(sp, Interrupt)]))
    else k
  }

  /** The timer: `pick_next` and the resume path in the timer stub. */
  function TickStep(k: Kernel, e: Event): (r: Outcome)
    requires e.Tick?
    ensures SameWaits(k.q, r.k.q)
  {
    var k1 := Preempt(k, e.sp);
    if k1.q.runQueue != []
    then Land(k1.(q := Dispatch(k1.q)), k1.q.runQueue[0], SavedAt(k1.m.saved, k1.q.runQueue[0]), e.junk)
    else Outcome(k, Silent)
  }

  /** Yielding puts the current thread, if any, at the back, to be saved later. */
  function GiveUp(k: Kernel): (k': Kernel)
    ensures SameCalls(k, k')
    ensures k.q.runQueue <= k'.q.runQueue
  {
    k.(q := if k.q.current.Some? then Requeue(k.q) else k.q, m := k.m.(stateToUpdate := k.q.current))
  }

  function YieldStep(k: Kernel, e: Event): (r: Outcome)
    requires e.Yield?
    ensures SameWaits(k.q, r.k.q)
  {
    if k.q.runQueue == [] then Outcome(k, Silent)
    else
      var k1 := GiveUp(k);
      if SavedAt(k1.m.saved, k1.q.runQueue[0]).Preemptive?
      then Outcome(k1.(q := Dispatch(k1.q), mode := Halted), Silent)
      else SwitchAway(k1, k.q.current, e.sp)
  }

  datatype EndpointLookup = Granted(ep: EpId) | Denied(err: CapError)

  function FindEndpoint(k: Kernel, handle: nat, right: Right): EndpointLookup
    requires k.q.current.Some?
  {
    match Lookup(SlotsOf(k, k.q.current.value), handle)
    case None => Denied(InvalidHandle)
    case Some(EndpointCap(ep, rights)) => if right in rights then Granted(ep) else Denied(PermissionDenied)
    case Some(_) => Denied(WrongType)
  }

  function SendStep(k: Kernel, e: Event): (r: Outcome)
    requires e.Send? && k.q.current.Some?
    ensures SameWaits(k.q, r.k.q)
  {
    match FindEndpoint(k, e.handle, SEND)
    case Denied(err) => Outcome(k, Refused(err))
    case Granted(ep) =>
      match EndpointAt(k.q.endpoints, ep)
      case ReceiversWaiting(r) =>
        if r != []
        then Outcome(k.(q := PopReceiver(k.q, ep), buffers := k.buffers[r[0] := e.msg]), Delivered(ep, r[0], e.msg))
        else Outcome(k, Dropped(ep, e.msg))
      case _ =>
        Outcome(Park(k, QueueSender(k.q, ep, e.msg), Sending(ep)), Queued(ep, k.q.current.value, e.msg))
  }

  function RecvStep(k: Kernel, e: Event): (r: Outcome)
    requires e.Recv? && k.q.current.Some?
    ensures SameWaits(k.q, r.k.q)
  {
    match FindEndpoint(k, e.handle, RECEIVE)
    case Denied(err) => Outcome(k, Refused(err))
    case Granted(ep) =>
      match EndpointAt(k.q.endpoints, ep)
      case SendersWaiting(s) =>
        if s != []
        then Outcome(k.(q := PopSender(k.q, ep)), Took(ep, s[0].0, s[0].1))
        else Outcome(k, TookNothing(ep, ZERO_MESSAGE))
      case _ =>
        var k1 := k.(buffers := k.buffers[k.q.current.value := ZERO_MESSAGE]);
        Outcome(Park(k1, QueueReceiver(k1.q, ep), Receiving(ep)), ReceiverQueued(ep, k.q.current.value))
  }

  function WaitStep(k: Kernel, e: Event): Outcome
    requires e.Wait? && k.q.current.Some?
  {
    match Lookup(SlotsOf(k, k.q.current.value), e.handle)
    case Some(ProcessCap(p, rights)) =>
      if WAIT !in rights then Outcome(k, Rejected(-3))
      else if ProcessAt(k.q.processes, p).terminated then Outcome(k, AlreadyTerminated(p))
      else Outcome(Park(k, QueueWaiter(k.q, p), Waiting(p)), Silent)
    case _ => Outcome(k, Rejected(-2))
  }

  function WaitIrqStep(k: Kernel, e: Event): Outcome
    requires e.WaitIrq? && k.q.current.Some?
  {
    match Lookup(SlotsOf(k, k.q.current.value), e.handle)
    case Some(InterruptCap(i)) =>
      if i in k.q.pending then Outcome(k.(q := k.q.(pending := k.q.pending - {i})), Consumed(i))
      else Outcome(Park(k, StoreIrqWaiter(Displace(k.q, i), i), WaitingIrq(i)), Silent)
    case _ => Outcome(k, Rejected(-2))
  }

  /** Exiting terminates the thread's process, wakes all who wait for it and drops the thread. */
  function ExitQueues(k: Kernel): (q': Queues)
    requires k.q.current.Some?
    ensures q'.endpoints == k.q.endpoints && q'.pending == k.q.pending && q'.irqWaiters == k.q.irqWaiters
  {
    var p := ProcessOf(k, k.q.current.value);
    DropCurrent(if p.Some? then Terminate(k.q, p.value) else k.q)
  }

  /** The processor leaves a dropped thread for the head of `q`; with nobody left it halts. */
  function LeaveFor(k: Kernel, q: Queues, sp: Sp, junk: Sp): Outcome {
    if q.runQueue == [] then Outcome(k.(q := q, mode := Halted), Silent)
    else
      var next := q.runQueue[0];
      var st := SavedAt(k.m.saved, next);
      var m := if st.Preemptive? then AfterSwitchCall(k.m, sp) else k.m;
      Land(k.(q := Dispatch(q), m := m), next, st, junk)
  }

  function ExitStep(k: Kernel, e: Event): Outcome
    requires e.Exit? && k.q.current.Some?
  {
    LeaveFor(k, ExitQueues(k), e.sp, e.junk)
  }

  // ---- events and runs ----

  /** Calls are made by the current thread in ordinary mode; interrupts also arrive in the idle
      window; the idle loop ends once the run queue is not empty. */
  predicate Enabled(k: Kernel, e: Event) {
    match e
    case AddThread(t, _, _) => k.mode.Running? && t !in k.q.threads
    case SetCSpace(_, _) => k.mode.Running?
    case EndpointCreate(ep) => k.mode.Running? && k.q.current.Some? && ep !in k.q.endpoints
    case Tick(_, _) => k.mode.Running? || (k.mode.Parked? && k.mode.window)
    case Interrupted(_) => k.mode.Running? || (k.mode.Parked? && k.mode.window)
    case Yield(_) => k.mode.Running?
    case Switch(_) => k.mode.Parked? && k.q.runQueue != []
    case _ => k.mode.Running? && k.q.current.Some?
  }

  function Perform(k: Kernel, e: Event): Outcome
    requires Enabled(k, e)
  {
    match e
    case AddThread(_, _, _) => AddStep(k, e)
    case SetCSpace(cs, slots) => Outcome(k.(cspaces := k.cspaces[cs := slots]), Silent)
    case EndpointCreate(_) => CreateStep(k, e)
    case Tick(_, _) => TickStep(k, e)
    case Interrupted(i) => Outcome(k.(q := UnblockIrq(k.q, i)), Raised(i))
    case Yield(_) => YieldStep(k, e)
    case Send(_, _) => SendStep(k, e)
    case Recv(_) => RecvStep(k, e)
    case Wait(_) => WaitStep(k, e)
    case WaitIrq(_) => WaitIrqStep(k, e)
    case Exit(_, _) => ExitStep(k, e)
    case Switch(_) => SwitchStep(k, e)
  }

  function Step(k: Kernel, e: Event): Kernel
    requires Enabled(k, e)
  {
    Perform(k, e).k
  }

  /** Each event is possible in the state the ones before it lead to. */
  predicate Legal(k: Kernel, es: seq<Event>)
    decreases |es|, 0
  {
    es == [] || (Legal(k, es[..|es| - 1]) && Enabled(Run(k, es[..|es| - 1]), es[|es| - 1]))
  }

  /** The state a run leads to. */
  function Run(k: Kernel, es: seq<Event>): Kernel
    requires Legal(k, es)
    decreases |es|, 1
  {
    if es == [] then k else Step(Run(k, es[..|es| - 1]), es[|es| - 1])
  }

  lemma RunSnoc(k: Kernel, es: seq<Event>, e: Event)
    requires Legal(k, es) && Enabled(Run(k, es), e)
    ensures Legal(k, es + [e]) && Run(k, es + [e]) == Step(Run(k, es), e)
  {
  }

  /** What a run shows, oldest first. */
  function History(k: Kernel, es: seq<Event>): (h: seq<Output>)
    requires Legal(k, es)
    ensures |h| == |es|
    decreases |es|
  {
    if es == [] then []
    else History(k, es[..|es| - 1]) + [Perform(Run(k, es[..|es| - 1]), es[|es| - 1]).out]
  }
}
