/** No thread is ever lost or duplicated: in every reachable state each added thread is owned by
    exactly one place, at one position. */
module Conservation {
  import opened Basics
  import opened Capabilities
  import opened KernelState
  import opened KernelSteps

  /** No queue holds a thread twice. */
  ghost predicate QueuesDistinct(q: Queues) {
    && Distinct(q.runQueue)
    && (forall ep :: Distinct(EndpointThreads(EndpointAt(q.endpoints, ep))))
    && (forall p :: Distinct(ProcessAt(q.processes, p).waitQueue))
  }

  /** Every added thread has exactly one home, and nothing else has one. */
  ghost predicate Placed(q: Queues) {
    && QueuesDistinct(q)
    && (forall h, t :: Holds(q, h, t) ==> t in q.threads)
    && (forall t :: t in q.threads ==> exists h :: Holds(q, h, t))
    && (forall h, h', t :: Holds(q, h, t) && Holds(q, h', t) ==> h == h')
  }

  /** From `q` to `q'` exactly the threads of `s` change home, to `to`. */
  ghost predicate Moves(q: Queues, q': Queues, s: set<Tid>, to: Home) {
    && q'.threads == q.threads + s
    && (forall t :: t in s ==> Holds(q', to, t))
    && (forall h, t :: t in s && Holds(q', h, t) ==> h == to)
    && (forall h, t :: t !in s ==> (Holds(q', h, t) <==> Holds(q, h, t)))
  }

  lemma MovesKeepPlaced(q: Queues, q': Queues, s: set<Tid>, to: Home)
    requires Placed(q) && Moves(q, q', s, to) && QueuesDistinct(q')
    ensures Placed(q')
  {
    forall t | t in q'.threads ensures exists h :: Holds(q', h, t) {
      if t in s {
        assert Holds(q', to, t);
      } else {
        var h :| Holds(q, h, t);
        assert Holds(q', h, t);
      }
    }
  }

  lemma NewThreadMoves(q: Queues, t: Tid)
    requires Placed(q) && t !in q.threads
    ensures var q' := Enqueue(q.(threads := q.threads + {t}), t);
            Moves(q, q', {t}, AtRunQueue) && Placed(q')
  {
    var q' := Enqueue(q.(threads := q.threads + {t}), t);
    assert !Holds(q, AtRunQueue, t);
    assert forall h :: h != AtRunQueue && Holds(q', h, t) ==> Holds(q, h, t);
    MovesKeepPlaced(q, q', {t}, AtRunQueue);
  }

  lemma DispatchMoves(q: Queues)
    requires Placed(q) && q.current.None? && q.runQueue != []
    ensures Moves(q, Dispatch(q), {q.runQueue[0]}, AtCurrent) && Placed(Dispatch(q))
  {
    var q', t := Dispatch(q), q.runQueue[0];
    assert Holds(q, AtRunQueue, t);
    assert q.runQueue == [t] + q'.runQueue;
    assert forall h :: h != AtCurrent && Holds(q', h, t) ==> Holds(q, h, t);
    MovesKeepPlaced(q, q', {t}, AtCurrent);
  }

  lemma RequeueMoves(q: Queues)
    requires Placed(q) && q.current.Some?
    ensures Moves(q, Requeue(q), {q.current.value}, AtRunQueue) && Placed(Requeue(q))
  {
    var t := q.current.value;
    assert Holds(q, AtCurrent, t);
    assert !Holds(q, AtRunQueue, t);
    assert forall h :: h != AtRunQueue && Holds(Requeue(q), h, t) ==> Holds(q, h, t);
    MovesKeepPlaced(q, Requeue(q), {t}, AtRunQueue);
  }

  lemma DistinctTail(t: Tid, rest: seq<Tid>)
    requires Distinct([t] + rest)
    ensures t !in rest && Distinct(rest)
  {
    var all := [t] + rest;
    assert forall i :: 0 <= i < |rest| ==> rest[i] == all[i + 1];
    forall i | 0 <= i < |rest| ensures rest[i] != t {
      assert all[0] != all[i + 1];
    }
  }

  lemma DistinctConcat(a: seq<Tid>, b: seq<Tid>)
    requires Distinct(a) && Distinct(b) && forall t :: t in a ==> t !in b
    ensures Distinct(a + b)
  {
    var c := a + b;
    forall i, j | 0 <= i < j < |c| ensures c[i] != c[j] {
      if i < |a| <= j {
        assert a[i] in a && b[j - |a|] in b;
      }
    }
  }

  lemma FirstsAppend(s: seq<(Tid, Message)>, t: Tid, msg: Message)
    ensures Firsts(s + [(t, msg)]) == Firsts(s) + [t]
  {
  }

  lemma QueueSenderMoves(q: Queues, ep: EpId, msg: Message)
    requires Placed(q) && q.current.Some? && !EndpointAt(q.endpoints, ep).ReceiversWaiting?
    ensures var q' := QueueSender(q, ep, msg);
            Moves(q, q', {q.current.value}, AtEndpoint(ep)) && Placed(q')
            && EndpointThreads(EndpointAt(q'.endpoints, ep))
                == EndpointThreads(EndpointAt(q.endpoints, ep)) + [q.current.value]
  {
    var t, q' := q.current.value, QueueSender(q, ep, msg);
    assert Holds(q, AtCurrent, t);
    assert !Holds(q, AtEndpoint(ep), t);
    var was := match EndpointAt(q.endpoints, ep) case SendersWaiting(s) => s case _ => [];
    FirstsAppend(was, t, msg);
    assert EndpointThreads(EndpointAt(q'.endpoints, ep)) == EndpointThreads(EndpointAt(q.endpoints, ep)) + [t];
    assert forall e :: e != ep ==> EndpointAt(q'.endpoints, e) == EndpointAt(q.endpoints, e);
    assert forall h :: h != AtEndpoint(ep) && Holds(q', h, t) ==> Holds(q, h, t);
    MovesKeepPlaced(q, q', {t}, AtEndpoint(ep));
  }

  lemma QueueReceiverMoves(q: Queues, ep: EpId)
    requires Placed(q) && q.current.Some? && !EndpointAt(q.endpoints, ep).SendersWaiting?
    ensures var q' := QueueReceiver(q, ep);
            Moves(q, q', {q.current.value}, AtEndpoint(ep)) && Placed(q')
            && EndpointThreads(EndpointAt(q'.endpoints, ep))
                == EndpointThreads(EndpointAt(q.endpoints, ep)) + [q.current.value]
  {
    var t, q' := q.current.value, QueueReceiver(q, ep);
    assert Holds(q, AtCurrent, t);
    assert !Holds(q, AtEndpoint(ep), t);
    assert EndpointThreads(EndpointAt(q'.endpoints, ep)) == EndpointThreads(EndpointAt(q.endpoints, ep)) + [t];
    assert forall e :: e != ep ==> EndpointAt(q'.endpoints, e) == EndpointAt(q.endpoints, e);
    assert forall h :: h != AtEndpoint(ep) && Holds(q', h, t) ==> Holds(q, h, t);
    MovesKeepPlaced(q, q', {t}, AtEndpoint(ep));
  }

  /** Popping the first thread off an endpoint, in either direction. */
  lemma EndpointPopMoves(q: Queues, q': Queues, ep: EpId, t: Tid)
    requires Placed(q)
    requires EndpointThreads(EndpointAt(q.endpoints, ep)) == [t] + EndpointThreads(EndpointAt(q'.endpoints, ep))
    requires q' == Enqueue(q, t).(endpoints := q.endpoints[ep := EndpointAt(q'.endpoints, ep)])
    ensures Moves(q, q', {t}, AtRunQueue) && Placed(q')
  {
    var rest := EndpointThreads(EndpointAt(q'.endpoints, ep));
    DistinctTail(t, rest);
    assert Holds(q, AtEndpoint(ep), t);
    assert !Holds(q, AtRunQueue, t);
    assert forall e :: e != ep ==> EndpointAt(q'.endpoints, e) == EndpointAt(q.endpoints, e);
    assert forall h :: h != AtRunQueue && Holds(q', h, t) ==> Holds(q, h, t);
    MovesKeepPlaced(q, q', {t}, AtRunQueue);
  }

  lemma PopSenderMoves(q: Queues, ep: EpId)
    requires Placed(q) && EndpointAt(q.endpoints, ep).SendersWaiting? && EndpointAt(q.endpoints, ep).senders != []
    ensures var q' := PopSender(q, ep);
            Moves(q, q', {EndpointAt(q.endpoints, ep).senders[0].0}, AtRunQueue) && Placed(q')
  {
    var s, q' := EndpointAt(q.endpoints, ep).senders, PopSender(q, ep);
    assert Firsts(s) == [s[0].0] + Firsts(s[1..]);
    EndpointPopMoves(q, q', ep, s[0].0);
  }

  lemma PopReceiverMoves(q: Queues, ep: EpId)
    requires Placed(q) && EndpointAt(q.endpoints, ep).ReceiversWaiting? && EndpointAt(q.endpoints, ep).receivers != []
    ensures var q' := PopReceiver(q, ep);
            Moves(q, q', {EndpointAt(q.endpoints, ep).receivers[0]}, AtRunQueue) && Placed(q')
  {
    var r, q' := EndpointAt(q.endpoints, ep).receivers, PopReceiver(q, ep);
    assert r == [r[0]] + r[1..];
    EndpointPopMoves(q, q', ep, r[0]);
  }

  lemma QueueWaiterMoves(q: Queues, p: Pid)
    requires Placed(q) && q.current.Some?
    ensures Moves(q, QueueWaiter(q, p), {q.current.value}, AtProcess(p)) && Placed(QueueWaiter(q, p))
  {
    var t, q' := q.current.value, QueueWaiter(q, p);
    assert Holds(q, AtCurrent, t);
    assert !Holds(q, AtProcess(p), t);
    assert forall p' :: p' != p ==> ProcessAt(q'.processes, p') == ProcessAt(q.processes, p');
    assert forall h :: h != AtProcess(p) && Holds(q', h, t) ==> Holds(q, h, t);
    MovesKeepPlaced(q, q', {t}, AtProcess(p));
  }

  lemma TerminateMoves(q: Queues, p: Pid)
    requires Placed(q)
    ensures var s := set t | t in ProcessAt(q.processes, p).waitQueue;
            Moves(q, Terminate(q, p), s, AtRunQueue) && Placed(Terminate(q, p))
  {
    var q', w := Terminate(q, p), ProcessAt(q.processes, p).waitQueue;
    var s := set t | t in w;
    forall t | t in w ensures t in q.threads && !Holds(q, AtRunQueue, t) {
      assert Holds(q, AtProcess(p), t);
    }
    assert forall p' :: p' != p ==> ProcessAt(q'.processes, p') == ProcessAt(q.processes, p');
    forall h, t | t in s && Holds(q', h, t) ensures h == AtRunQueue {
      if h != AtRunQueue {
        assert Holds(q, AtProcess(p), t) && Holds(q, h, t);
      }
    }
    DistinctConcat(q.runQueue, w);
    MovesKeepPlaced(q, q', s, AtRunQueue);
  }

  lemma DisplaceMoves(q: Queues, i: Irq)
    requires Placed(q)
    ensures Moves(q, Displace(q, i), if i in q.irqWaiters then {q.irqWaiters[i]} else {}, AtDisplaced)
    ensures Placed(Displace(q, i))
  {
    var q' := Displace(q, i);
    if i in q.irqWaiters {
      var t := q.irqWaiters[i];
      assert Holds(q, AtIrq(i), t);
      assert forall h :: h != AtDisplaced && Holds(q', h, t) ==> Holds(q, h, t);
      MovesKeepPlaced(q, q', {t}, AtDisplaced);
    }
  }

  lemma StoreIrqWaiterMoves(q: Queues, i: Irq)
    requires Placed(q) && q.current.Some? && i !in q.irqWaiters
    ensures Moves(q, StoreIrqWaiter(q, i), {q.current.value}, AtIrq(i)) && Placed(StoreIrqWaiter(q, i))
  {
    var t, q' := q.current.value, StoreIrqWaiter(q, i);
    assert Holds(q, AtCurrent, t);
    assert forall h :: h != AtIrq(i) && Holds(q', h, t) ==> Holds(q, h, t);
    MovesKeepPlaced(q, q', {t}, AtIrq(i));
  }

  lemma UnblockIrqMoves(q: Queues, i: Irq)
    requires Placed(q)
    ensures Moves(q, UnblockIrq(q, i), if i in q.irqWaiters then {q.irqWaiters[i]} else {}, AtRunQueue)
    ensures Placed(UnblockIrq(q, i))
  {
    var q' := UnblockIrq(q, i);
    if i in q.irqWaiters {
      var t := q.irqWaiters[i];
      assert Holds(q, AtIrq(i), t);
      assert !Holds(q, AtRunQueue, t);
      assert forall h :: h != AtRunQueue && Holds(q', h, t) ==> Holds(q, h, t);
      MovesKeepPlaced(q, q', {t}, AtRunQueue);
    } else {
      MovesKeepPlaced(q, q', {}, AtRunQueue);
    }
  }

  lemma DropCurrentMoves(q: Queues)
    requires Placed(q) && q.current.Some?
    ensures Moves(q, DropCurrent(q), {q.current.value}, AtExit) && Placed(DropCurrent(q))
  {
    var t := q.current.value;
    assert Holds(q, AtCurrent, t);
    assert forall h :: h != AtExit && Holds(DropCurrent(q), h, t) ==> Holds(q, h, t);
    MovesKeepPlaced(q, DropCurrent(q), {t}, AtExit);
  }

  /** What every reachable state satisfies: threads are placed, and while one is parked none is current. */
  ghost predicate Sound(k: Kernel) {
    Placed(k.q) && (k.mode.Parked? ==> k.q.current.None? && (!k.mode.window ==> k.q.runQueue != []))
  }

  lemma TickKeepsSound(k: Kernel, sp: Sp, junk: Sp)
    requires Sound(k) && Enabled(k, Tick(sp, junk))
    ensures Sound(TickStep(k, Tick(sp, junk)).k)
  {
    if k.q.current.Some? {
      RequeueMoves(k.q);
    }
    var q1 := if k.q.current.Some? then Requeue(k.q) else k.q;
    if q1.runQueue != [] {
      DispatchMoves(q1);
    }
  }

  lemma YieldKeepsSound(k: Kernel, sp: Sp)
    requires Sound(k) && k.mode.Running?
    ensures Sound(YieldStep(k, Yield(sp)).k)
  {
    if k.q.runQueue != [] {
      if k.q.current.Some? {
        RequeueMoves(k.q);
      }
      DispatchMoves(if k.q.current.Some? then Requeue(k.q) else k.q);
    }
  }

  lemma SendKeepsSound(k: Kernel, handle: nat, msg: Message)
    requires Sound(k) && Enabled(k, Send(handle, msg))
    ensures Sound(SendStep(k, Send(handle, msg)).k)
  {
    var found := FindEndpoint(k, handle, SEND);
    if found.Granted? {
      match EndpointAt(k.q.endpoints, found.ep)
      case ReceiversWaiting(r) => if r != [] { PopReceiverMoves(k.q, found.ep); }
      case _ => QueueSenderMoves(k.q, found.ep, msg);
    }
  }

  lemma RecvKeepsSound(k: Kernel, handle: nat)
    requires Sound(k) && Enabled(k, Recv(handle))
    ensures Sound(RecvStep(k, Recv(handle)).k)
  {
    var found := FindEndpoint(k, handle, RECEIVE);
    if found.Granted? {
      match EndpointAt(k.q.endpoints, found.ep)
      case SendersWaiting(s) => if s != [] { PopSenderMoves(k.q, found.ep); }
      case _ => QueueReceiverMoves(k.q, found.ep);
    }
  }

  lemma WaitKeepsSound(k: Kernel, handle: nat)
    requires Sound(k) && Enabled(k, Wait(handle))
    ensures Sound(WaitStep(k, Wait(handle)).k)
  {
    match Lookup(SlotsOf(k, k.q.current.value), handle)
    case Some(ProcessCap(p, _)) => QueueWaiterMoves(k.q, p);
    case _ =>
  }

  lemma WaitIrqKeepsSound(k: Kernel, handle: nat)
    requires Sound(k) && Enabled(k, WaitIrq(handle))
    ensures Sound(WaitIrqStep(k, WaitIrq(handle)).k)
  {
    match Lookup(SlotsOf(k, k.q.current.value), handle)
    case Some(InterruptCap(i)) =>
      if i in k.q.pending {
        MovesKeepPlaced(k.q, k.q.(pending := k.q.pending - {i}), {}, AtCurrent);
      } else {
        DisplaceMoves(k.q, i);
        StoreIrqWaiterMoves(Displace(k.q, i), i);
      }
    case _ =>
  }

  lemma ExitQueuesPlaced(k: Kernel)
    requires Placed(k.q) && k.q.current.Some?
    ensures Placed(ExitQueues(k)) && ExitQueues(k).current.None?
  {
    var p := ProcessOf(k, k.q.current.value);
    if p.Some? {
      TerminateMoves(k.q, p.value);
    }
    DropCurrentMoves(if p.Some? then Terminate(k.q, p.value) else k.q);
  }

  lemma ExitKeepsSound(k: Kernel, sp: Sp, junk: Sp)
    requires Sound(k) && Enabled(k, Exit(sp, junk))
    ensures Sound(ExitStep(k, Exit(sp, junk)).k)
  {
    ExitQueuesPlaced(k);
    if ExitQueues(k).runQueue != [] {
      DispatchMoves(ExitQueues(k));
    }
  }

  lemma CreateKeepsSound(k: Kernel, ep: EpId)
    requires Sound(k) && Enabled(k, EndpointCreate(ep))
    ensures Sound(CreateStep(k, EndpointCreate(ep)).k)
  {
    var q' := k.q.(endpoints := k.q.endpoints[ep := Idle]);
    assert forall x :: EndpointAt(q'.endpoints, x) == EndpointAt(k.q.endpoints, x);
    MovesKeepPlaced(k.q, q', {}, AtCurrent);
  }

  /** One step of any kind keeps every thread placed. */
  lemma StepKeepsSound(k: Kernel, e: Event)
    requires Sound(k) && Enabled(k, e)
    ensures Sound(Step(k, e))
  {
    match e
    case AddThread(t, _, _) => NewThreadMoves(k.q, t);
    case SetCSpace(_, _) =>
    case EndpointCreate(ep) => CreateKeepsSound(k, ep);
    case Tick(sp, junk) => TickKeepsSound(k, sp, junk);
    case Interrupted(i) => UnblockIrqMoves(k.q, i);
    case Yield(sp) => YieldKeepsSound(k, sp);
    case Send(handle, msg) => SendKeepsSound(k, handle, msg);
    case Recv(handle) => RecvKeepsSound(k, handle);
    case Wait(handle) => WaitKeepsSound(k, handle);
    case WaitIrq(handle) => WaitIrqKeepsSound(k, handle);
    case Exit(sp, junk) => ExitKeepsSound(k, sp, junk);
    case Switch(_) => DispatchMoves(k.q);
  }

  lemma BootSound()
    ensures Sound(BOOT)
  {
  }

  lemma {:induction false} RunKeepsSound(k: Kernel, es: seq<Event>)
    requires Sound(k) && Legal(k, es)
    ensures Sound(Run(k, es))
    decreases |es|
  {
    if es != [] {
      RunKeepsSound(k, es[..|es| - 1]);
      StepKeepsSound(Run(k, es[..|es| - 1]), es[|es| - 1]);
    }
  }

  /** After any run from boot, an added thread has one home and no other, and is there once. */
  lemma ThreadConservation(es: seq<Event>, t: Tid)
    requires Legal(BOOT, es) && t in Run(BOOT, es).q.threads
    ensures exists h :: Holds(Run(BOOT, es).q, h, t)
                        && forall h' :: Holds(Run(BOOT, es).q, h', t) ==> h' == h
    ensures QueuesDistinct(Run(BOOT, es).q)
  {
    BootSound();
    RunKeepsSound(BOOT, es);
    var q := Run(BOOT, es).q;
    var h :| Holds(q, h, t);
    assert forall h' :: Holds(q, h', t) ==> h' == h;
  }

  /** The step is a wait for an interrupt that is not pending, and stores into the slot that owns `t`. */
  predicate Displaces(k: Kernel, e: Event, t: Tid)
    requires Enabled(k, e)
  {
    e.WaitIrq? &&
    match Lookup(SlotsOf(k, k.q.current.value), e.handle)
    case Some(InterruptCap(i)) => i !in k.q.pending && i in k.q.irqWaiters && k.q.irqWaiters[i] == t
    case _ => false
  }

  lemma DisplacedByStep(k: Kernel, e: Event, t: Tid)
    requires Enabled(k, e)
    ensures t in Step(k, e).q.displaced <==> t in k.q.displaced || Displaces(k, e, t)
  {
    match e
    case Wait(_) =>
    case WaitIrq(_) =>
    case Exit(_, _) => assert ExitQueues(k).displaced == k.q.displaced;
    case Switch(_) =>
    case Interrupted(_) =>
    case SetCSpace(_, _) =>
    case _ => assert SameWaits(k.q, Step(k, e).q);
  }

  /** Some step of the run stores into the slot that owns `t`. */
  predicate EverDisplaced(k: Kernel, es: seq<Event>, t: Tid)
    requires Legal(k, es)
    decreases |es|
  {
    es != [] && (EverDisplaced(k, es[..|es| - 1], t) || Displaces(Run(k, es[..|es| - 1]), es[|es| - 1], t))
  }

  /** After any run, a thread is displaced if and only if some step of the run overwrote its slot. */
  lemma {:induction false} DisplacedExactly(es: seq<Event>, t: Tid)
    requires Legal(BOOT, es)
    ensures t in Run(BOOT, es).q.displaced <==> EverDisplaced(BOOT, es, t)
    decreases |es|
  {
    if es != [] {
      DisplacedExactly(es[..|es| - 1], t);
      DisplacedByStep(Run(BOOT, es[..|es| - 1]), es[|es| - 1], t);
    }
  }
}
