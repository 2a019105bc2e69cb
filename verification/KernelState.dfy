/** The state of the scheduling and IPC kernel: who is queued where, and what the
    machine has saved for each thread (kernel/src/task/scheduler.rs, kernel/src/ipc/mod.rs,
    kernel/src/task/process.rs, kernel/src/task/switch.s). */
module KernelState {
  import opened Basics
  import opened Capabilities

  /** Threads are told apart by reference; the number stands for the reference. */
  type Tid = nat
  type CsId = nat

  /** A stack pointer. */
  type Sp = nat

  datatype SavedState = Cooperative(sp: Sp) | Preemptive(sp: Sp)

  /** What runs first when a thread is resumed at a frame.
      Entry:       a fresh thread's trampoline, which calls `after_switch`;
      AfterSwitch: the return of `switch_context`, followed by a call of `after_switch`;
      Plain:       the return of `switch_context_to_preemptive`, with no such call;
      Interrupt:   the interrupted instruction, by `iretq`. */
  datatype ResumePoint = Entry | AfterSwitch | Plain | Interrupt

  /** A frame actually lying on a thread's stack. */
  datatype Frame = Frame(sp: Sp, point: ResumePoint)

  /** The saved state that leads back to a frame. */
  function StateOf(f: Frame): SavedState {
    if f.point.Interrupt? then Preemptive(f.sp) else Cooperative(f.sp)
  }

  predicate CallsAfterSwitch(f: Frame) {
    f.point.Entry? || f.point.AfterSwitch?
  }

  /** A queued receiver is written to through its own message buffer. */
  datatype EndpointState =
    | Idle
    | SendersWaiting(senders: seq<(Tid, Message)>)
    | ReceiversWaiting(receivers: seq<Tid>)

  function EndpointThreads(e: EndpointState): seq<Tid> {
    match e
    case Idle => []
    case SendersWaiting(s) => Firsts(s)
    case ReceiversWaiting(r) => r
  }

  datatype ProcessState = ProcessState(terminated: bool, waitQueue: seq<Tid>)

  /** Where every thread is. `threads` is every thread ever added; a thread is `displaced` when
      the interrupt-waiter slot that owned it was overwritten. */
  datatype Queues = Queues(
    threads: set<Tid>,
    runQueue: seq<Tid>,
    current: Option<Tid>,
    irqWaiters: map<Irq, Tid>,
    pending: set<Irq>,
    endpoints: map<EpId, EndpointState>,
    processes: map<Pid, ProcessState>,
    exited: set<Tid>,
    displaced: set<Tid>)

  /** An endpoint never used so far is idle; a process never mentioned so far is alive and unwaited. */
  function EndpointAt(endpoints: map<EpId, EndpointState>, ep: EpId): EndpointState {
    if ep in endpoints then endpoints[ep] else Idle
  }

  function ProcessAt(processes: map<Pid, ProcessState>, p: Pid): ProcessState {
    if p in processes then processes[p] else ProcessState(false, [])
  }

  /** The saved states, the frames really on the stacks, and STATE_TO_UPDATE. */
  datatype Machine = Machine(saved: map<Tid, SavedState>, frames: map<Tid, Frame>, stateToUpdate: Option<Tid>)

  function SavedAt(saved: map<Tid, SavedState>, t: Tid): SavedState {
    if t in saved then saved[t] else Cooperative(0)
  }

  /** The blocking call a suspended thread is inside of. */
  datatype Call = Sending(ep: EpId) | Receiving(ep: EpId) | Waiting(process: Pid) | WaitingIrq(irq: Irq)

  /** Running: ordinary code runs (of the current thread, or of the boot context when there is none).
      Parked:  the last thread is queued and the idle loop has not yet switched away from its stack;
               `window` says that interrupts get in, which is so once the run queue was found empty.
      Halted:  a panic.  Derailed: control left at a stack pointer that is not the thread's frame. */
  datatype Mode = Running | Parked(thread: Tid, window: bool) | Halted | Derailed

  datatype ThreadInfo = ThreadInfo(process: Option<Pid>, cspace: CsId)

  datatype Kernel = Kernel(
    q: Queues,
    m: Machine,
    mode: Mode,
    info: map<Tid, ThreadInfo>,
    cspaces: map<CsId, Slots>,
    calls: map<Tid, Call>,
    buffers: map<Tid, Message>)

  function SlotsOf(k: Kernel, t: Tid): Slots {
    if t in k.info && k.info[t].cspace in k.cspaces then k.cspaces[k.info[t].cspace] else []
  }

  function ProcessOf(k: Kernel, t: Tid): Option<Pid> {
    if t in k.info then k.info[t].process else None
  }

  function BufferAt(k: Kernel, t: Tid): Message {
    if t in k.buffers then k.buffers[t] else ZERO_MESSAGE
  }

  /** The kernel before any thread is added. */
  const BOOT := Kernel(
    Queues({}, [], None, map[], {}, map[], map[], {}, {}),
    Machine(map[], map[], None),
    Running, map[], map[], map[], map[])

  /** The places that can own a thread. */
  datatype Home =
    | AtCurrent
    | AtRunQueue
    | AtEndpoint(ep: EpId)
    | AtProcess(p: Pid)
    | AtIrq(irq: Irq)
    | AtExit
    | AtDisplaced

  /** Place `h` owns thread `t`. */
  predicate Holds(q: Queues, h: Home, t: Tid) {
    match h
    case AtCurrent => q.current == Some(t)
    case AtRunQueue => t in q.runQueue
    case AtEndpoint(ep) => t in EndpointThreads(EndpointAt(q.endpoints, ep))
    case AtProcess(p) => t in ProcessAt(q.processes, p).waitQueue
    case AtIrq(i) => i in q.irqWaiters && q.irqWaiters[i] == t
    case AtExit => t in q.exited
    case AtDisplaced => t in q.displaced
  }
}
