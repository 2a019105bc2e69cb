/** Where a thread inside a blocking call can be: in the queue it blocked on, or already woken. */
module Calls {
  import opened Basics
  import opened Capabilities
  import opened KernelState
  import opened KernelSteps
  import opened Conservation

  /** The place a blocking call puts its caller. */
  function CallHome(c: Call): Home {
    match c
    case Sending(ep) => AtEndpoint(ep)
    case Receiving(ep) => AtEndpoint(ep)
    case Waiting(p) => AtProcess(p)
    case WaitingIrq(i) => AtIrq(i)
  }

  /** A caller is still where its call put it, or woken for the call's reason, or displaced. */
  predicate CallState(q: Queues, t: Tid, c: Call) {
    && (Holds(q, CallHome(c), t) || Holds(q, AtRunQueue, t) || (c.WaitingIrq? && Holds(q, AtDisplaced, t)))
    && (c.Sending? ==> EndpointAt(q.endpoints, c.ep).SendersWaiting?)
    && (c.Receiving? ==> EndpointAt(q.endpoints, c.ep).ReceiversWaiting?)
    && (c.Waiting? && Holds(q, AtRunQueue, t) ==> ProcessAt(q.processes, c.process).terminated)
  }

  predicate IsCallHome(h: Home) {
    h.AtEndpoint? || h.AtProcess? || h.AtIrq?
  }

  ghost predicate CallsPlaced(q: Queues, calls: map<Tid, Call>) {
    && (forall t :: t in calls ==> CallState(q, t, calls[t]))
    && (forall h, t :: IsCallHome(h) && Holds(q, h, t) ==> t in calls && CallHome(calls[t]) == h)
  }

  /** The thread that was parked last is inside a call, and is runnable only if that call waits for an interrupt. */
  predicate ParkedOk(k: Kernel) {
    k.mode.Parked? ==>
      k.mode.thread in k.calls && (k.mode.thread in k.q.runQueue ==> k.calls[k.mode.thread].WaitingIrq?)
  }

  ghost predicate CallsOk(k: Kernel) {
    k.mode.Running? || k.mode.Parked? ==>
      && CallsPlaced(k.q, k.calls)
      && (k.q.current.Some? ==> k.q.current.value !in k.calls)
      && ParkedOk(k)
  }

  /** Endpoints keep their direction, and termination is not undone. */
  ghost predicate Onward(q: Queues, q': Queues) {
    && (forall ep :: EndpointAt(q.endpoints, ep).SendersWaiting? ==> EndpointAt(q'.endpoints, ep).SendersWaiting?)
    && (forall ep :: EndpointAt(q.endpoints, ep).ReceiversWaiting? ==> EndpointAt(q'.endpoints, ep).ReceiversWaiting?)
    && (forall p :: ProcessAt(q.processes, p).terminated ==> ProcessAt(q'.processes, p).terminated)
  }

  /** Waking threads, or adding a new one, keeps every caller accounted for. */
  lemma WakeKeepsCalls(q: Queues, q': Queues, s: set<Tid>, calls: map<Tid, Call>)
    requires Placed(q) && CallsPlaced(q, calls) && Moves(q, q', s, AtRunQueue) && Onward(q, q')
    requires forall t :: t in s && t in calls && calls[t].Waiting? ==>
               ProcessAt(q'.processes, calls[t].process).terminated
    ensures CallsPlaced(q', calls)
  {
    forall t | t in calls ensures CallState(q', t, calls[t]) {
      assert CallState(q, t, calls[t]);
      if t in s {
        assert Holds(q', AtRunQueue, t);
      } else {
        assert forall h :: Holds(q', h, t) <==> Holds(q, h, t);
      }
    }
  }

  /** The current thread, inside no call, is queued by one. */
  lemma ParkKeepsCalls(q: Queues, q': Queues, t: Tid, calls: map<Tid, Call>, call: Call)
    requires Placed(q) && CallsPlaced(q, calls) && t !in calls
    requires Moves(q, q', {t}, CallHome(call)) && Onward(q, q')
    requires call.Sending? ==> EndpointAt(q'.endpoints, call.ep).SendersWaiting?
    requires call.Receiving? ==> EndpointAt(q'.endpoints, call.ep).ReceiversWaiting?
    ensures CallsPlaced(q', calls[t := call])
    ensures t !in q'.runQueue
  {
    var calls' := calls[t := call];
    assert !Holds(q', AtRunQueue, t);
    forall x | x in calls' ensures CallState(q', x, calls'[x]) {
      if x != t {
        assert CallState(q, x, calls[x]);
        assert forall h :: Holds(q', h, x) <==> Holds(q, h, x);
      } else {
        assert Holds(q', CallHome(call), t);
      }
    }
  }

  /** A thread that becomes current leaves its call; one that exits was in none. */
  lemma LeaveKeepsCalls(q: Queues, q': Queues, t: Tid, to: Home, calls: map<Tid, Call>)
    requires Placed(q) && CallsPlaced(q, calls) && Moves(q, q', {t}, to) && Onward(q, q') && !IsCallHome(to)
    ensures CallsPlaced(q', calls - {t})
  {
    var calls' := calls - {t};
    forall x | x in calls' ensures CallState(q', x, calls'[x]) {
      assert CallState(q, x, calls[x]);
      assert forall h :: Holds(q', h, x) <==> Holds(q, h, x);
    }
  }

  /** A displaced thread stays inside its wait. */
  lemma DisplaceKeepsCalls(q: Queues, i: Irq, calls: map<Tid, Call>)
    requires Placed(q) && CallsPlaced(q, calls)
    ensures CallsPlaced(Displace(q, i), calls)
  {
    var q' := Displace(q, i);
    if i in q.irqWaiters {
      var t := q.irqWaiters[i];
      DisplaceMoves(q, i);
      assert Holds(q, AtIrq(i), t);
      forall x | x in calls ensures CallState(q', x, calls[x]) {
        assert CallState(q, x, calls[x]);
        if x != t {
          assert forall h :: Holds(q', h, x) <==> Holds(q, h, x);
        } else {
          assert Holds(q', AtDisplaced, t);
        }
      }
    }
  }

  lemma AddKeepsCalls(k: Kernel, t: Tid, info: ThreadInfo, sp: Sp)
    requires Sound(k) && CallsOk(k) && Enabled(k, AddThread(t, info, sp))
    ensures CallsOk(AddStep(k, AddThread(t, info, sp)).k)
  {
    var q' := AddStep(k, AddThread(t, info, sp)).k.q;
    NewThreadMoves(k.q, t);
    WakeKeepsCalls(k.q, q', {t}, k.calls);
  }

  lemma UnblockKeepsCalls(k: Kernel, i: Irq)
    requires Sound(k) && CallsOk(k) && Enabled(k, Interrupted(i))
    ensures CallsOk(Step(k, Interrupted(i)))
  {
    UnblockIrqMoves(k.q, i);
    if i in k.q.irqWaiters {
      assert Holds(k.q, AtIrq(i), k.q.irqWaiters[i]);
    }
    WakeKeepsCalls(k.q, UnblockIrq(k.q, i), if i in k.q.irqWaiters then {k.q.irqWaiters[i]} else {}, k.calls);
  }

  /** Dispatching the head, whether or not the landing succeeds. */
  lemma DispatchKeepsCalls(q: Queues, calls: map<Tid, Call>)
    requires Placed(q) && q.current.None? && q.runQueue != [] && CallsPlaced(q, calls)
    ensures CallsPlaced(Dispatch(q), calls - {q.runQueue[0]})
  {
    DispatchMoves(q);
    LeaveKeepsCalls(q, Dispatch(q), q.runQueue[0], AtCurrent, calls);
  }

  lemma RequeueKeepsCalls(q: Queues, calls: map<Tid, Call>)
    requires Placed(q) && q.current.Some? && q.current.value !in calls && CallsPlaced(q, calls)
    ensures CallsPlaced(Requeue(q), calls) && Placed(Requeue(q))
  {
    RequeueMoves(q);
    WakeKeepsCalls(q, Requeue(q), {q.current.value}, calls);
  }

  /** Control reaches the dispatched thread, or is lost. */
  lemma LandKeepsCalls(k: Kernel, t: Tid, st: SavedState, rax: Sp)
    requires k.q.current == Some(t) && CallsPlaced(k.q, k.calls - {t})
    ensures CallsOk(Land(k, t, st, rax).k)
  {
  }

  lemma TickKeepsCalls(k: Kernel, sp: Sp, junk: Sp)
    requires Sound(k) && CallsOk(k) && Enabled(k, Tick(sp, junk))
    ensures CallsOk(TickStep(k, Tick(sp, junk)).k)
  {
    if k.q.current.Some? {
      RequeueKeepsCalls(k.q, k.calls);
    }
    var q1 := if k.q.current.Some? then Requeue(k.q) else k.q;
    if q1.runQueue != [] {
      DispatchKeepsCalls(q1, k.calls);
    }
  }

  lemma SwitchAwayKeepsCalls(k: Kernel, from: Option<Tid>, sp: Sp)
    requires Placed(k.q) && k.q.current.None? && k.q.runQueue != [] && CallsPlaced(k.q, k.calls)
    ensures CallsOk(SwitchAway(k, from, sp).k)
  {
    DispatchKeepsCalls(k.q, k.calls);
    var next := k.q.runQueue[0];
    var st := SavedAt(k.m.saved, next);
    var m := LeaveStack(k.m, from, st, sp);
    LandKeepsCalls(k.(q := Dispatch(k.q), m := m), next, st, sp);
  }

  lemma GivenUpKeepsCalls(k: Kernel, e: Event)
    requires e.Yield? && k.q.runQueue != [] && GiveUp(k).q.current.None?
    requires Placed(GiveUp(k).q) && CallsPlaced(GiveUp(k).q, k.calls)
    ensures CallsOk(YieldStep(k, e).k)
  {
    SwitchAwayKeepsCalls(GiveUp(k), k.q.current, e.sp);
  }

  lemma YieldKeepsCalls(k: Kernel, sp: Sp)
    requires Sound(k) && CallsOk(k) && Enabled(k, Yield(sp))
    ensures CallsOk(YieldStep(k, Yield(sp)).k)
  {
    if k.q.runQueue != [] {
      if k.q.current.Some? {
        RequeueKeepsCalls(k.q, k.calls);
      }
      GivenUpKeepsCalls(k, Yield(sp));
    }
  }

  lemma ExitQueuesKeepCalls(k: Kernel)
    requires Placed(k.q) && CallsPlaced(k.q, k.calls) && k.q.current.Some? && k.q.current.value !in k.calls
    ensures CallsPlaced(ExitQueues(k), k.calls)
  {
    var c, p := k.q.current.value, ProcessOf(k, k.q.current.value);
    if p.Some? {
      TerminateMoves(k.q, p.value);
      var s := set t | t in ProcessAt(k.q.processes, p.value).waitQueue;
      forall t | t in s ensures Holds(k.q, AtProcess(p.value), t) {}
      WakeKeepsCalls(k.q, Terminate(k.q, p.value), s, k.calls);
    }
    var q1 := if p.Some? then Terminate(k.q, p.value) else k.q;
    DropCurrentMoves(q1);
    LeaveKeepsCalls(q1, DropCurrent(q1), c, AtExit, k.calls);
    assert k.calls - {c} == k.calls;
  }

  lemma ExitKeepsCalls(k: Kernel, sp: Sp, junk: Sp)
    requires Sound(k) && CallsOk(k) && Enabled(k, Exit(sp, junk))
    ensures CallsOk(ExitStep(k, Exit(sp, junk)).k)
  {
    ExitQueuesPlaced(k);
    ExitQueuesKeepCalls(k);
    var q2 := ExitQueues(k);
    if q2.runQueue != [] {
      DispatchKeepsCalls(q2, k.calls);
      var st := SavedAt(k.m.saved, q2.runQueue[0]);
      var m := if st.Preemptive? then AfterSwitchCall(k.m, sp) else k.m;
      LandKeepsCalls(k.(q := Dispatch(q2), m := m), q2.runQueue[0], st, junk);
    }
  }

  lemma DeliveryKeepsCalls(q: Queues, ep: EpId, calls: map<Tid, Call>)
    requires Placed(q) && CallsPlaced(q, calls)
    requires EndpointAt(q.endpoints, ep).ReceiversWaiting? && EndpointAt(q.endpoints, ep).receivers != []
    ensures CallsPlaced(PopReceiver(q, ep), calls)
  {
    var t := EndpointAt(q.endpoints, ep).receivers[0];
    PopReceiverMoves(q, ep);
    assert Holds(q, AtEndpoint(ep), t);
    WakeKeepsCalls(q, PopReceiver(q, ep), {t}, calls);
  }

  lemma TakingKeepsCalls(q: Queues, ep: EpId, calls: map<Tid, Call>)
    requires Placed(q) && CallsPlaced(q, calls)
    requires EndpointAt(q.endpoints, ep).SendersWaiting? && EndpointAt(q.endpoints, ep).senders != []
    ensures CallsPlaced(PopSender(q, ep), calls)
  {
    var s := EndpointAt(q.endpoints, ep).senders;
    PopSenderMoves(q, ep);
    assert Firsts(s)[0] == s[0].0;
    assert Holds(q, AtEndpoint(ep), s[0].0);
    WakeKeepsCalls(q, PopSender(q, ep), {s[0].0}, calls);
  }

  lemma SendKeepsCalls(k: Kernel, handle: nat, msg: Message)
    requires Sound(k) && CallsOk(k) && Enabled(k, Send(handle, msg))
    ensures CallsOk(SendStep(k, Send(handle, msg)).k)
  {
    var found, c := FindEndpoint(k, handle, SEND), k.q.current.value;
    if found.Granted? {
      match EndpointAt(k.q.endpoints, found.ep)
      case ReceiversWaiting(r) =>
        if r != [] {
          DeliveryKeepsCalls(k.q, found.ep, k.calls);
        }
      case _ =>
        QueueSenderMoves(k.q, found.ep, msg);
        ParkKeepsCalls(k.q, QueueSender(k.q, found.ep, msg), c, k.calls, Sending(found.ep));
    }
  }

  lemma RecvKeepsCalls(k: Kernel, handle: nat)
    requires Sound(k) && CallsOk(k) && Enabled(k, Recv(handle))
    ensures CallsOk(RecvStep(k, Recv(handle)).k)
  {
    var found, c := FindEndpoint(k, handle, RECEIVE), k.q.current.value;
    if found.Granted? {
      match EndpointAt(k.q.endpoints, found.ep)
      case SendersWaiting(s) =>
        if s != [] {
          TakingKeepsCalls(k.q, found.ep, k.calls);
        }
      case _ =>
        QueueReceiverMoves(k.q, found.ep);
        ParkKeepsCalls(k.q, QueueReceiver(k.q, found.ep), c, k.calls, Receiving(found.ep));
    }
  }

  lemma WaitKeepsCalls(k: Kernel, handle: nat)
    requires Sound(k) && CallsOk(k) && Enabled(k, Wait(handle))
    ensures CallsOk(WaitStep(k, Wait(handle)).k)
  {
    match Lookup(SlotsOf(k, k.q.current.value), handle)
    case Some(ProcessCap(p, _)) =>
      QueueWaiterMoves(k.q, p);
      ParkKeepsCalls(k.q, QueueWaiter(k.q, p), k.q.current.value, k.calls, Waiting(p));
    case _ =>
  }

  lemma WaitIrqKeepsCalls(k: Kernel, handle: nat)
    requires Sound(k) && CallsOk(k) && Enabled(k, WaitIrq(handle))
    ensures CallsOk(WaitIrqStep(k, WaitIrq(handle)).k)
  {
    match Lookup(SlotsOf(k, k.q.current.value), handle)
    case Some(InterruptCap(i)) =>
      if i in k.q.pending {
        PendingKeepsCalls(k.q, i, k.calls);
      } else {
        DisplaceMoves(k.q, i);
        DisplaceKeepsCalls(k.q, i, k.calls);
        var q1 := Displace(k.q, i);
        StoreIrqWaiterMoves(q1, i);
        ParkKeepsCalls(q1, StoreIrqWaiter(q1, i), k.q.current.value, k.calls, WaitingIrq(i));
      }
    case _ =>
  }

  lemma PendingKeepsCalls(q: Queues, i: Irq, calls: map<Tid, Call>)
    requires CallsPlaced(q, calls)
    ensures CallsPlaced(q.(pending := q.pending - {i}), calls)
  {
    var q' := q.(pending := q.pending - {i});
    assert forall h, t :: Holds(q', h, t) <==> Holds(q, h, t);
    forall t | t in calls ensures CallState(q', t, calls[t]) {
      assert CallState(q, t, calls[t]);
    }
  }

  lemma CreateKeepsCalls(k: Kernel, ep: EpId)
    requires Sound(k) && CallsOk(k) && Enabled(k, EndpointCreate(ep))
    ensures CallsOk(CreateStep(k, EndpointCreate(ep)).k)
  {
    var q' := CreateStep(k, EndpointCreate(ep)).k.q;
    assert forall x :: EndpointAt(q'.endpoints, x) == EndpointAt(k.q.endpoints, x);
    assert forall h, t :: Holds(q', h, t) <==> Holds(k.q, h, t);
    forall t | t in k.calls ensures CallState(q', t, k.calls[t]) {
      assert CallState(k.q, t, k.calls[t]);
    }
  }

  lemma StepKeepsCalls(k: Kernel, e: Event)
    requires Sound(k) && CallsOk(k) && Enabled(k, e)
    ensures CallsOk(Step(k, e))
  {
    match e
    case AddThread(t, info, sp) => AddKeepsCalls(k, t, info, sp);
    case SetCSpace(_, _) =>
    case EndpointCreate(ep) => CreateKeepsCalls(k, ep);
    case Tick(sp, junk) => TickKeepsCalls(k, sp, junk);
    case Interrupted(i) => UnblockKeepsCalls(k, i);
    case Yield(sp) => YieldKeepsCalls(k, sp);
    case Send(handle, msg) => SendKeepsCalls(k, handle, msg);
    case Recv(handle) => RecvKeepsCalls(k, handle);
    case Wait(handle) => WaitKeepsCalls(k, handle);
    case WaitIrq(handle) => WaitIrqKeepsCalls(k, handle);
    case Exit(sp, junk) => ExitKeepsCalls(k, sp, junk);
    case Switch(sp) => SwitchAwayKeepsCalls(k, Some(k.mode.thread), sp);
  }

  lemma {:induction false} RunKeepsCalls(k: Kernel, es: seq<Event>)
    requires Sound(k) && CallsOk(k) && Legal(k, es)
    ensures Sound(Run(k, es)) && CallsOk(Run(k, es))
    decreases |es|
  {
    RunKeepsSound(k, es);
    if es != [] {
      var before := es[..|es| - 1];
      RunKeepsCalls(k, before);
      StepKeepsCalls(Run(k, before), es[|es| - 1]);
    }
  }

  lemma BootCallsOk()
    ensures Sound(BOOT) && CallsOk(BOOT)
  {
  }

  /** Self-dispatch is confined: after any run, an idle loop that is about to switch to the very thread
      it parked belongs to a wait for an interrupt; and a yield never dispatches its own caller. */
  lemma SelfDispatchConfined(es: seq<Event>)
    requires Legal(BOOT, es)
    ensures var k := Run(BOOT, es);
            && (k.mode.Parked? && k.q.runQueue != [] && k.q.runQueue[0] == k.mode.thread ==>
                  k.mode.thread in k.calls && k.calls[k.mode.thread].WaitingIrq?)
            && (k.mode.Running? && k.q.current.Some? && k.q.runQueue != [] ==>
                  forall sp :: YieldStep(k, Yield(sp)).k.q.current != k.q.current)
  {
    BootCallsOk();
    RunKeepsCalls(BOOT, es);
    var k := Run(BOOT, es);
    if k.mode.Running? && k.q.current.Some? && k.q.runQueue != [] {
      assert Holds(k.q, AtCurrent, k.q.current.value);
      assert !Holds(k.q, AtRunQueue, k.q.current.value);
      assert k.q.runQueue[0] in k.q.runQueue;
    }
  }
}
