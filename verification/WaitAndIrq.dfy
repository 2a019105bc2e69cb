/** Waiting for a process to end and waiting for an interrupt. */
module WaitAndIrq {
  import opened Basics
  import opened Capabilities
  import opened KernelState
  import opened KernelSteps
  import opened Conservation
  import opened Calls

  /** A terminated process has no waiters left; a pending interrupt has no waiter. */
  ghost predicate Settled(q: Queues) {
    && (forall p :: ProcessAt(q.processes, p).terminated ==> ProcessAt(q.processes, p).waitQueue == [])
    && (forall i :: i in q.pending ==> i !in q.irqWaiters)
  }

  lemma StepKeepsSettled(k: Kernel, e: Event)
    requires Settled(k.q) && Enabled(k, e)
    ensures Settled(Step(k, e).q)
    ensures forall p :: ProcessAt(k.q.processes, p).terminated ==> ProcessAt(Step(k, e).q.processes, p).terminated
  {
    var q' := Step(k, e).q;
    if !e.Wait? && !e.WaitIrq? && !e.Exit? && !e.Interrupted? {
      assert SameWaits(k.q, q');
    } else if e.Exit? {
      ExitKeepsSettled(k, e);
    } else if e.Wait? {
      assert forall p ::
          ProcessAt(q'.processes, p) == ProcessAt(k.q.processes, p) || !ProcessAt(q'.processes, p).terminated;
    }
  }

  lemma ExitKeepsSettled(k: Kernel, e: Event)
    requires Settled(k.q) && Enabled(k, e) && e.Exit?
    ensures Settled(Step(k, e).q)
    ensures forall p :: ProcessAt(k.q.processes, p).terminated ==> ProcessAt(Step(k, e).q.processes, p).terminated
  {
    var q', p := Step(k, e).q, ProcessOf(k, k.q.current.value);
    assert forall x: Pid :: ProcessAt(q'.processes, x) == if Some(x) == p then ProcessState(true, [])
           else ProcessAt(k.q.processes, x);
  }

  lemma {:induction false} RunKeepsSettled(k: Kernel, es: seq<Event>)
    requires Settled(k.q) && Legal(k, es)
    ensures Settled(Run(k, es).q)
    ensures forall p :: ProcessAt(k.q.processes, p).terminated ==> ProcessAt(Run(k, es).q.processes, p).terminated
    decreases |es|
  {
    if es != [] {
      RunKeepsSettled(k, es[..|es| - 1]);
      StepKeepsSettled(Run(k, es[..|es| - 1]), es[|es| - 1]);
    }
  }

  /** In every reachable state no thread is left waiting for a process that has terminated: whoever is
      still inside such a wait is on the run queue. */
  lemma NoLostWakeUp(es: seq<Event>, t: Tid, p: Pid)
    requires Legal(BOOT, es)
    requires var k := Run(BOOT, es);
             (k.mode.Running? || k.mode.Parked?) && t in k.calls && k.calls[t] == Waiting(p)
    ensures var k := Run(BOOT, es);
            ProcessAt(k.q.processes, p).terminated <==> t in k.q.runQueue
  {
    BootCallsOk();
    RunKeepsCalls(BOOT, es);
    RunKeepsSettled(BOOT, es);
    assert CallState(Run(BOOT, es).q, t, Waiting(p));
  }

  /** An exit wakes every waiter of the process, in the order of their waits, behind those already runnable;
      the first of that line runs next. */
  lemma ExitWakesAllInOrder(k: Kernel, e: Event, p: Pid)
    requires e.Exit? && Enabled(k, e) && ProcessOf(k, k.q.current.value) == Some(p)
    ensures var line, q' := k.q.runQueue + ProcessAt(k.q.processes, p).waitQueue, ExitStep(k, e).k.q;
            && ProcessAt(q'.processes, p) == ProcessState(true, [])
            && (if line == [] then q'.current.None? && q'.runQueue == []
                else q'.current == Some(line[0]) && q'.runQueue == line[1..])
  {
    assert ExitQueues(k).runQueue == k.q.runQueue + ProcessAt(k.q.processes, p).waitQueue;
  }

  /** A call that a step lets return was that of a thread on the run queue. */
  lemma ReturnedWasRunnable(k: Kernel, e: Event)
    requires Enabled(k, e) && Perform(k, e).out.Returned? && !e.Exit?
    requires k.q.current.Some? ==> k.q.current.value !in k.calls
    ensures var o := Perform(k, e).out;
            o.t in k.q.runQueue && o.t in k.calls && o.call == k.calls[o.t]
  {
    match e
    case Tick(_, _) =>
    case Yield(_) =>
    case Switch(_) =>
    case _ =>
  }

  lemma ExitReturnedWasRunnable(k: Kernel, e: Event)
    requires Enabled(k, e) && Perform(k, e).out.Returned? && e.Exit?
    ensures var o := Perform(k, e).out;
            o.t in ExitQueues(k).runQueue && o.t in k.calls && o.call == k.calls[o.t]
  {
  }

  /** A wait for a process ends, at once or later, only if that process has terminated. */
  lemma WaitReturnsOnlyAfterTermination(k: Kernel, e: Event, p: Pid)
    requires Sound(k) && CallsOk(k) && Enabled(k, e)
    requires var o := Perform(k, e).out; o == AlreadyTerminated(p) || (o.Returned? && o.call == Waiting(p))
    ensures ProcessAt(Step(k, e).q.processes, p).terminated
  {
    var o := Perform(k, e).out;
    if o.Returned? {
      if e.Exit? {
        ExitReturnedWasRunnable(k, e);
        ExitQueuesKeepCalls(k);
        assert CallState(ExitQueues(k), o.t, Waiting(p));
      } else {
        ReturnedWasRunnable(k, e);
        assert CallState(k.q, o.t, Waiting(p));
      }
    }
  }

  /** Over whole runs: if the last entry of the history ends a wait for `p`, then `p` has terminated. */
  lemma ProcessWaitSound(es: seq<Event>, p: Pid)
    requires es != [] && Legal(BOOT, es)
    requires var o := History(BOOT, es)[|es| - 1]; o == AlreadyTerminated(p) || (o.Returned? && o.call == Waiting(p))
    ensures ProcessAt(Run(BOOT, es).q.processes, p).terminated
  {
    var before := es[..|es| - 1];
    BootCallsOk();
    RunKeepsCalls(BOOT, before);
    WaitReturnsOnlyAfterTermination(Run(BOOT, before), es[|es| - 1], p);
  }

  // ---- interrupts ----

  /** The threads woken from a wait for `i` that have not run again yet. */
  function Woken(calls: map<Tid, Call>, runQueue: seq<Tid>, i: Irq): set<Tid> {
    set t | t in runQueue && t in calls && calls[t] == WaitingIrq(i)
  }

  predicate EndsWaitFor(o: Output, i: Irq) {
    o == Consumed(i) || (o.Returned? && o.call == WaitingIrq(i))
  }

  /** How often `i` was raised, and how many waits for it ended. */
  function Raises(h: seq<Output>, i: Irq): nat {
    if h == [] then 0 else Raises(h[..|h| - 1], i) + if h[|h| - 1] == Raised(i) then 1 else 0
  }
  function Completions(h: seq<Output>, i: Irq): nat {
    if h == [] then 0 else Completions(h[..|h| - 1], i) + if EndsWaitFor(h[|h| - 1], i) then 1 else 0
  }

  lemma CountSnoc(h: seq<Output>, o: Output, i: Irq)
    ensures Raises(h + [o], i) == Raises(h, i) + if o == Raised(i) then 1 else 0
    ensures Completions(h + [o], i) == Completions(h, i) + if EndsWaitFor(o, i) then 1 else 0
  {
  }

  /** The step raises `i` while the flag is already set. */
  predicate Absorbs(k: Kernel, e: Event, i: Irq) {
    e == Interrupted(i) && i in k.q.pending
  }

  /** How many raises of `i` along a run found the flag already set. */
  function Absorbed(k: Kernel, es: seq<Event>, i: Irq): nat
    requires Legal(k, es)
    decreases |es|
  {
    if es == [] then 0
    else Absorbed(k, es[..|es| - 1], i) + if Absorbs(Run(k, es[..|es| - 1]), es[|es| - 1], i) then 1 else 0
  }

  /** Every raise ended a wait, woke a waiter that has not run yet, set the flag, or found it set. */
  predicate Balanced(k: Kernel, h: seq<Output>, absorbed: nat, i: Irq) {
    && Completions(h, i) + absorbed <= Raises(h, i)
    && (k.mode.Running? || k.mode.Parked? ==>
          Raises(h, i) == Completions(h, i) + |Woken(k.calls, k.q.runQueue, i)| + (if i in k.q.pending then 1 else 0)
              + absorbed)
  }

  /** No step adds to the woken threads of `i` except a raise of `i`, by one; and the thread whose wait
      for `i` a step ends was one of them. */
  ghost predicate WokenBy(k: Kernel, e: Event, i: Irq)
    requires Enabled(k, e)
  {
    var r := Perform(k, e);
    var w, w' := Woken(k.calls, k.q.runQueue, i), Woken(r.k.calls, r.k.q.runQueue, i);
    r.k.mode.Running? || r.k.mode.Parked? ==>
      if e == Interrupted(i) && i in k.q.irqWaiters then w' == w + {k.q.irqWaiters[i]}
      else if r.out.Returned? && r.out.call == WaitingIrq(i) then r.out.t in w && w' == w - {r.out.t}
      else w' == w
  }

  lemma LandWoken(k: Kernel, rq: seq<Tid>, t: Tid, st: SavedState, rax: Sp, i: Irq)
    requires rq == [t] + k.q.runQueue && t !in k.q.runQueue
    ensures var r := Land(k, t, st, rax);
            r.k.mode.Running? ==>
              var w, w' := Woken(k.calls, rq, i), Woken(r.k.calls, r.k.q.runQueue, i);
              if r.out.Returned? && r.out.call == WaitingIrq(i) then r.out.t in w && w' == w - {r.out.t} else w' == w
  {
  }

  /** Queueing a thread that is not inside a wait for `i` changes nothing for `i`. */
  lemma AppendWoken(calls: map<Tid, Call>, rq: seq<Tid>, more: seq<Tid>, i: Irq)
    requires forall t :: t in more && t in calls ==> calls[t] != WaitingIrq(i)
    ensures Woken(calls, rq + more, i) == Woken(calls, rq, i)
  {
  }

  lemma DispatchHead(q: Queues)
    requires Placed(q) && q.runQueue != []
    ensures q.runQueue == [q.runQueue[0]] + q.runQueue[1..] && q.runQueue[0] !in q.runQueue[1..]
  {
  }

  lemma SwitchAwayWoken(k: Kernel, from: Option<Tid>, sp: Sp, i: Irq)
    requires k.q.runQueue != [] && k.q.runQueue[0] !in k.q.runQueue[1..]
    ensures var r := SwitchAway(k, from, sp);
            r.k.mode.Running? ==>
              var w, w' := Woken(k.calls, k.q.runQueue, i), Woken(r.k.calls, r.k.q.runQueue, i);
              if r.out.Returned? && r.out.call == WaitingIrq(i) then r.out.t in w && w' == w - {r.out.t} else w' == w
  {
    assert k.q.runQueue == [k.q.runQueue[0]] + k.q.runQueue[1..];
    var next := k.q.runQueue[0];
    var st := SavedAt(k.m.saved, next);
    var m := LeaveStack(k.m, from, st, sp);
    LandWoken(k.(q := Dispatch(k.q), m := m), k.q.runQueue, next, st, sp, i);
  }

  lemma TickWoken(k: Kernel, sp: Sp, junk: Sp, i: Irq)
    requires Sound(k) && CallsOk(k) && Enabled(k, Tick(sp, junk))
    ensures WokenBy(k, Tick(sp, junk), i)
  {
    var k1 := Preempt(k, sp);
    if k.q.current.Some? {
      RequeueMoves(k.q);
      AppendWoken(k.calls, k.q.runQueue, [k.q.current.value], i);
    }
    if k1.q.runQueue != [] {
      DispatchHead(k1.q);
      var next := k1.q.runQueue[0];
      LandWoken(k1.(q := Dispatch(k1.q)), k1.q.runQueue, next, SavedAt(k1.m.saved, next), junk, i);
    }
  }

  lemma GivenUpWoken(k: Kernel, e: Event, i: Irq)
    requires Enabled(k, e) && e.Yield? && k.q.runQueue != []
    requires var rq := GiveUp(k).q.runQueue;
             rq[0] !in rq[1..] && Woken(k.calls, rq, i) == Woken(k.calls, k.q.runQueue, i)
    ensures WokenBy(k, e, i)
  {
    SwitchAwayWoken(GiveUp(k), k.q.current, e.sp, i);
  }

  lemma YieldWoken(k: Kernel, sp: Sp, i: Irq)
    requires Sound(k) && CallsOk(k) && Enabled(k, Yield(sp))
    ensures WokenBy(k, Yield(sp), i)
  {
    if k.q.runQueue != [] {
      if k.q.current.Some? {
        RequeueMoves(k.q);
        AppendWoken(k.calls, k.q.runQueue, [k.q.current.value], i);
      }
      DispatchHead(GiveUp(k).q);
      GivenUpWoken(k, Yield(sp), i);
    }
  }

  lemma ExitWoken(k: Kernel, sp: Sp, junk: Sp, i: Irq)
    requires Sound(k) && CallsOk(k) && Enabled(k, Exit(sp, junk))
    ensures WokenBy(k, Exit(sp, junk), i)
  {
    ExitQueuesPlaced(k);
    var p, q2 := ProcessOf(k, k.q.current.value), ExitQueues(k);
    if p.Some? {
      var waiters := ProcessAt(k.q.processes, p.value).waitQueue;
      forall t | t in waiters && t in k.calls ensures k.calls[t] != WaitingIrq(i) {
        assert Holds(k.q, AtProcess(p.value), t);
      }
      AppendWoken(k.calls, k.q.runQueue, waiters, i);
    }
    if q2.runQueue != [] {
      DispatchHead(q2);
      var st := SavedAt(k.m.saved, q2.runQueue[0]);
      var m := if st.Preemptive? then AfterSwitchCall(k.m, sp) else k.m;
      LandWoken(k.(q := Dispatch(q2), m := m), q2.runQueue, q2.runQueue[0], st, junk, i);
    }
  }

  /** A call that parks its caller leaves the run queue as it is, without the caller. */
  lemma ParkWoken(k: Kernel, q': Queues, call: Call, i: Irq)
    requires Placed(k.q) && k.q.current.Some? && k.q.current.value !in k.calls && q'.runQueue == k.q.runQueue
    ensures var k' := Park(k, q', call);
            Woken(k'.calls, k'.q.runQueue, i) == Woken(k.calls, k.q.runQueue, i)
  {
    assert Holds(k.q, AtCurrent, k.q.current.value);
    assert !Holds(k.q, AtRunQueue, k.q.current.value);
  }

  lemma SendWoken(k: Kernel, handle: nat, msg: Message, i: Irq)
    requires Sound(k) && CallsOk(k) && Enabled(k, Send(handle, msg))
    ensures WokenBy(k, Send(handle, msg), i)
  {
    var found := FindEndpoint(k, handle, SEND);
    if found.Granted? {
      match EndpointAt(k.q.endpoints, found.ep)
      case ReceiversWaiting(r) =>
        if r != [] {
          assert Holds(k.q, AtEndpoint(found.ep), r[0]);
          AppendWoken(k.calls, k.q.runQueue, [r[0]], i);
        }
      case _ => ParkWoken(k, QueueSender(k.q, found.ep, msg), Sending(found.ep), i);
    }
  }

  lemma RecvWoken(k: Kernel, handle: nat, i: Irq)
    requires Sound(k) && CallsOk(k) && Enabled(k, Recv(handle))
    ensures WokenBy(k, Recv(handle), i)
  {
    var found := FindEndpoint(k, handle, RECEIVE);
    if found.Granted? {
      match EndpointAt(k.q.endpoints, found.ep)
      case SendersWaiting(s) =>
        if s != [] {
          assert Firsts(s)[0] == s[0].0;
          assert Holds(k.q, AtEndpoint(found.ep), s[0].0);
          AppendWoken(k.calls, k.q.runQueue, [s[0].0], i);
        }
      case _ => ParkWoken(k, QueueReceiver(k.q, found.ep), Receiving(found.ep), i);
    }
  }

  lemma WaitWoken(k: Kernel, e: Event, i: Irq)
    requires Sound(k) && CallsOk(k) && Enabled(k, e) && (e.Wait? || e.WaitIrq?)
    ensures WokenBy(k, e, i)
  {
    match Lookup(SlotsOf(k, k.q.current.value), e.handle)
    case Some(ProcessCap(p, _)) => ParkWoken(k, QueueWaiter(k.q, p), Waiting(p), i);
    case Some(InterruptCap(j)) => ParkWoken(k, StoreIrqWaiter(Displace(k.q, j), j), WaitingIrq(j), i);
    case _ =>
  }

  lemma RaiseWokenCore(k: Kernel, j: Irq, i: Irq)
    requires Enabled(k, Interrupted(j))
    requires j in k.q.irqWaiters ==> var t := k.q.irqWaiters[j]; t in k.calls && k.calls[t] == WaitingIrq(j)
    ensures WokenBy(k, Interrupted(j), i)
  {
    if j in k.q.irqWaiters && i != j {
      AppendWoken(k.calls, k.q.runQueue, [k.q.irqWaiters[j]], i);
    }
  }

  lemma RaiseWoken(k: Kernel, j: Irq, i: Irq)
    requires Sound(k) && CallsOk(k) && Enabled(k, Interrupted(j))
    ensures WokenBy(k, Interrupted(j), i)
  {
    if j in k.q.irqWaiters {
      assert Holds(k.q, AtIrq(j), k.q.irqWaiters[j]);
    }
    RaiseWokenCore(k, j, i);
  }

  lemma AddWoken(k: Kernel, t: Tid, info: ThreadInfo, sp: Sp, i: Irq)
    requires Sound(k) && CallsOk(k) && Enabled(k, AddThread(t, info, sp))
    ensures WokenBy(k, AddThread(t, info, sp), i)
  {
    AppendWoken(k.calls, k.q.runQueue, [t], i);
  }

  lemma StepWoken(k: Kernel, e: Event, i: Irq)
    requires Sound(k) && CallsOk(k) && Enabled(k, e)
    ensures WokenBy(k, e, i)
  {
    match e
    case AddThread(t, info, sp) => AddWoken(k, t, info, sp, i);
    case SetCSpace(_, _) =>
    case EndpointCreate(_) =>
    case Tick(sp, junk) => TickWoken(k, sp, junk, i);
    case Interrupted(j) => RaiseWoken(k, j, i);
    case Yield(sp) => YieldWoken(k, sp, i);
    case Send(handle, msg) => SendWoken(k, handle, msg, i);
    case Recv(handle) => RecvWoken(k, handle, i);
    case Exit(sp, junk) => ExitWoken(k, sp, junk, i);
    case Switch(sp) =>
      DispatchHead(k.q);
      SwitchAwayWoken(k, Some(k.mode.thread), sp, i);
    case _ => WaitWoken(k, e, i);
  }

  /** What a step shows about interrupts, and what becomes of the pending flag. */
  ghost predicate PendingBy(k: Kernel, r: Outcome, raised: bool, i: Irq) {
    && (r.out == Raised(i) <==> raised)
    && (i in r.k.q.pending <==>
          if raised then i in k.q.pending || i !in k.q.irqWaiters else i in k.q.pending && r.out != Consumed(i))
    && (r.out == Consumed(i) ==> i in k.q.pending && r.k.mode == k.mode && r.k.q.current == k.q.current)
    && (r.k.mode.Derailed? || r.k.mode.Halted? ==> r.k.mode == k.mode || !EndsWaitFor(r.out, i))
  }

  lemma SwitchPending(k: Kernel, from: Option<Tid>, sp: Sp, i: Irq)
    requires k.q.runQueue != []
    ensures PendingBy(k, SwitchAway(k, from, sp), false, i)
  {
  }

  lemma TickPending(k: Kernel, e: Event, i: Irq)
    requires e.Tick?
    ensures PendingBy(k, TickStep(k, e), false, i)
  {
  }

  lemma YieldPending(k: Kernel, e: Event, i: Irq)
    requires e.Yield?
    ensures PendingBy(k, YieldStep(k, e), false, i)
  {
    if k.q.runQueue != [] {
      SwitchPending(GiveUp(k), k.q.current, e.sp, i);
    }
  }

  lemma ExitPending(k: Kernel, e: Event, i: Irq)
    requires e.Exit? && k.q.current.Some?
    ensures PendingBy(k, ExitStep(k, e), false, i)
  {
    assert ExitQueues(k).pending == k.q.pending;
  }

  lemma PendingStep(k: Kernel, e: Event, i: Irq)
    requires Enabled(k, e)
    ensures PendingBy(k, Perform(k, e), e == Interrupted(i), i)
  {
    match e
    case Tick(_, _) => TickPending(k, e, i);
    case Yield(_) => YieldPending(k, e, i);
    case Exit(_, _) => ExitPending(k, e, i);
    case Switch(sp) => SwitchPending(k, Some(k.mode.thread), sp, i);
    case _ =>
  }

  lemma WaiterNotWoken(k: Kernel, i: Irq)
    requires Sound(k) && i in k.q.irqWaiters
    ensures k.q.irqWaiters[i] !in Woken(k.calls, k.q.runQueue, i)
  {
    assert Holds(k.q, AtIrq(i), k.q.irqWaiters[i]);
    assert !Holds(k.q, AtRunQueue, k.q.irqWaiters[i]);
  }

  lemma StepBalanced(k: Kernel, e: Event, h: seq<Output>, absorbed: nat, i: Irq)
    requires Sound(k) && CallsOk(k) && Enabled(k, e) && Settled(k.q) && Balanced(k, h, absorbed, i)
    ensures Balanced(Step(k, e), h + [Perform(k, e).out], absorbed + if Absorbs(k, e, i) then 1 else 0, i)
  {
    var r := Perform(k, e);
    StepWoken(k, e, i);
    PendingStep(k, e, i);
    CountSnoc(h, r.out, i);
    if i in k.q.irqWaiters {
      WaiterNotWoken(k, i);
    }
  }

  lemma {:induction false} BalancedAlongRun(k: Kernel, es: seq<Event>, i: Irq)
    requires Sound(k) && CallsOk(k) && Settled(k.q) && Balanced(k, [], 0, i) && Legal(k, es)
    ensures Balanced(Run(k, es), History(k, es), Absorbed(k, es, i), i)
    decreases |es|
  {
    if es != [] {
      var before := es[..|es| - 1];
      BalancedAlongRun(k, before, i);
      RunKeepsCalls(k, before);
      RunKeepsSettled(k, before);
      StepBalanced(Run(k, before), es[|es| - 1], History(k, before), Absorbed(k, before, i), i);
    }
  }

  /** After any run from boot: no interrupt is both pending and waited for, and the raises of an interrupt are
      exactly the waits it ended, the waiters it woke that have not run yet, a set flag, and the raises that found
      the flag set. It never ends more waits than it was raised. */
  lemma IrqWaits(es: seq<Event>, i: Irq)
    requires Legal(BOOT, es)
    ensures !(i in Run(BOOT, es).q.pending && i in Run(BOOT, es).q.irqWaiters)
    ensures Balanced(Run(BOOT, es), History(BOOT, es), Absorbed(BOOT, es, i), i)
  {
    BootCallsOk();
    RunKeepsSettled(BOOT, es);
    assert Woken(BOOT.calls, BOOT.q.runQueue, i) == {};
    BalancedAlongRun(BOOT, es, i);
  }

  /** A raise that finds no waiter stays until a wait consumes it. */
  lemma {:induction false} PendingPersists(k: Kernel, es: seq<Event>, i: Irq)
    requires i in k.q.pending && Legal(k, es) && Consumed(i) !in History(k, es)
    ensures i in Run(k, es).q.pending
    decreases |es|
  {
    if es != [] {
      var before, e := es[..|es| - 1], es[|es| - 1];
      assert History(k, es) == History(k, before) + [Perform(Run(k, before), e).out];
      PendingPersists(k, before, i);
      PendingStep(Run(k, before), e, i);
    }
  }

  /** A wait issued after a raise that nothing has consumed returns at once: the caller stays current. */
  lemma RaiseIsNotLost(k: Kernel, es: seq<Event>, i: Irq, handle: nat)
    requires Enabled(k, Interrupted(i)) && i !in k.q.irqWaiters
    requires var k1 := Step(k, Interrupted(i)); Legal(k1, es) && Consumed(i) !in History(k1, es)
    requires var k2 := Run(Step(k, Interrupted(i)), es);
             Enabled(k2, WaitIrq(handle)) && Lookup(SlotsOf(k2, k2.q.current.value), handle) == Some(InterruptCap(i))
    ensures var k2 := Run(Step(k, Interrupted(i)), es);
            var r := Perform(k2, WaitIrq(handle));
            r.out == Consumed(i) && r.k.mode.Running? && r.k.q.current == k2.q.current
  {
    PendingPersists(Step(k, Interrupted(i)), es, i);
  }
}
