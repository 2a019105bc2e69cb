/** The system calls on endpoints, processes, interrupts and exit, over the scheduler object and the objects that
    capabilities refer to. Each performs its step of the kernel model, and each blocking call, idle loop and switch
    included, is a legal run of it whose results are returned. */
module SystemCallObject {
  import opened Basics
  import opened Capabilities
  import opened KernelState
  import opened KernelSteps
  import opened KernelObjects
  import opened SchedulerObject

  /** From `k` the step `e`, then what arrives in the idle loop, then at most one switch, is a legal run to `k'` that
      shows `outs`; and the processor idles on only with nobody runnable. */
  ghost predicate WholeCall(k: Kernel, e: Event, es: seq<Event>, k': Kernel, outs: seq<Output>,
                            rounds: seq<seq<Arrival>>, sp: Sp) {
    && Runs(k, es, k', outs) && es != [] && es[0] == e && TailOf(es[1..], rounds, sp)
    && (k'.mode.Parked? ==> k'.q.runQueue == [])
  }

  lemma OneStep(k: Kernel, e: Event)
    requires Enabled(k, e)
    ensures Runs(k, [e], Step(k, e), [Perform(k, e).out])
  {
    assert Legal(k, []);
    RunsSnoc(k, [], k, [], e);
    assert [] + [e] == [e];
  }

  class SystemCalls {
    const sched: Scheduler
    const endpoints: EndpointTable
    const processes: ProcessTable

    ghost predicate Valid()
      reads endpoints, processes, Repr()
    {
      && sched.Valid() && endpoints.Valid() && processes.Valid()
      && endpoints.states == sched.q.endpoints && processes.states == sched.q.processes
      && {this, sched, sched.irqWaiters, sched.pendingIrqs} !! endpoints.Repr && endpoints.Repr !! processes.Repr
      && {this, sched, sched.irqWaiters, sched.pendingIrqs} !! processes.Repr
    }

    ghost function Repr(): set<object>
      reads endpoints, processes
    {
      {this, sched, sched.irqWaiters, sched.pendingIrqs} + endpoints.Repr + processes.Repr
    }

    ghost function View(): Kernel
      reads sched
    {
      sched.View()
    }

    constructor ()
      ensures Valid() && View() == BOOT && fresh(Repr())
    {
      sched := new Scheduler();
      endpoints := new EndpointTable();
      processes := new ProcessTable();
    }

    /** The capability the current thread names. */
    method LookupCurrent(handle: nat) returns (cap: Option<Capability>)
      requires Valid() && sched.current.Some?
      ensures cap == Lookup(SlotsOf(View(), sched.current.value), handle)
    {
      var t := sched.current.value;
      cap := None;
      if t in sched.info && sched.info[t].cspace in sched.cspaces {
        var slots := sched.cspaces[sched.info[t].cspace];
        cap := if handle < |slots| then slots[handle] else None;
      }
    }

    method LookupEndpoint(handle: nat, right: Right) returns (found: EndpointLookup)
      requires Valid() && sched.current.Some?
      ensures found == FindEndpoint(View(), handle, right)
    {
      var cap := LookupCurrent(handle);
      match cap {
        case None => found := Denied(InvalidHandle);
        case Some(EndpointCap(ep, rights)) =>
          found := if right in rights then Granted(ep) else Denied(PermissionDenied);
        case Some(_) => found := Denied(WrongType);
      }
    }

    /** The caller blocks at the endpoint with a message. */
    method BlockSender(ep: EpId, msg: Message)
      requires Valid() && sched.current.Some? && !EndpointAt(sched.q.endpoints, ep).ReceiversWaiting?
      modifies Repr()
      ensures Valid() && fresh(Repr() - old(Repr()))
      ensures View() == Park(old(View()), QueueSender(old(View()).q, ep, msg), Sending(ep))
    {
      endpoints.PushSender(ep, sched.current.value, msg);
      sched.ParkCurrent(Sending(ep), endpoints.states, processes.states);
    }

    method BlockReceiver(ep: EpId)
      requires Valid() && sched.current.Some? && !EndpointAt(sched.q.endpoints, ep).SendersWaiting?
      modifies Repr()
      ensures Valid() && fresh(Repr() - old(Repr()))
      ensures var k := old(View()).(buffers := old(View()).buffers[old(sched.current).value := ZERO_MESSAGE]);
              View() == Park(k, QueueReceiver(k.q, ep), Receiving(ep))
    {
      sched.buffers := sched.buffers[sched.current.value := ZERO_MESSAGE];
      endpoints.PushReceiver(ep, sched.current.value);
      sched.ParkCurrent(Receiving(ep), endpoints.states, processes.states);
    }

    /** The first receiver is woken with the message in its buffer. */
    method Deliver(ep: EpId, msg: Message) returns (receiver: Tid)
      requires Valid() && EndpointAt(sched.q.endpoints, ep).ReceiversWaiting?
               && EndpointAt(sched.q.endpoints, ep).receivers != []
      modifies Repr()
      ensures Valid() && fresh(Repr() - old(Repr())) && receiver == EndpointAt(old(View()).q.endpoints, ep).receivers[0]
      ensures View() == old(View()).(q := PopReceiver(old(View()).q, ep),
                                     buffers := old(View()).buffers[receiver := msg])
    {
      receiver := endpoints.PopReceiver(ep);
      sched.Hand(receiver, msg, endpoints.states);
    }

    /** The first sender is released and its message taken. */
    method TakeMessage(ep: EpId) returns (sender: Tid, msg: Message)
      requires Valid() && EndpointAt(sched.q.endpoints, ep).SendersWaiting?
               && EndpointAt(sched.q.endpoints, ep).senders != []
      modifies Repr()
      ensures Valid() && fresh(Repr() - old(Repr()))
              && (sender, msg) == EndpointAt(old(View()).q.endpoints, ep).senders[0]
      ensures View() == old(View()).(q := PopSender(old(View()).q, ep))
    {
      sender, msg := endpoints.PopSender(ep);
      sched.Wake(sender, endpoints.states);
    }

    method SysSend(handle: nat, msg: Message) returns (out: Output)
      requires Valid() && sched.mode.Running? && sched.current.Some?
      modifies Repr()
      ensures Valid() && fresh(Repr() - old(Repr()))
      ensures Outcome(View(), out) == SendStep(old(View()), Send(handle, msg))
    {
      var found := LookupEndpoint(handle, SEND);
      if found.Denied? {
        return Refused(found.err);
      }
      var ep, caller := found.ep, sched.current.value;
      var state := endpoints.Get(ep);
      if state.ReceiversWaiting? {
        if state.receivers == [] {
          return Dropped(ep, msg);
        }
        var receiver := Deliver(ep, msg);
        return Delivered(ep, receiver, msg);
      }
      BlockSender(ep, msg);
      out := Queued(ep, caller, msg);
    }

    method SysRecv(handle: nat) returns (out: Output)
      requires Valid() && sched.mode.Running? && sched.current.Some?
      modifies Repr()
      ensures Valid() && fresh(Repr() - old(Repr()))
      ensures Outcome(View(), out) == RecvStep(old(View()), Recv(handle))
    {
      var found := LookupEndpoint(handle, RECEIVE);
      if found.Denied? {
        return Refused(found.err);
      }
      var ep, caller := found.ep, sched.current.value;
      var state := endpoints.Get(ep);
      if state.SendersWaiting? {
        if state.senders == [] {
          return TookNothing(ep, ZERO_MESSAGE);
        }
        var sender, msg := TakeMessage(ep);
        return Took(ep, sender, msg);
      }
      BlockReceiver(ep);
      out := ReceiverQueued(ep, caller);
    }

    /** The caller waits for the end of the process. */
    method BlockWaiter(p: Pid)
      requires Valid() && sched.current.Some?
      modifies Repr()
      ensures Valid() && fresh(Repr() - old(Repr()))
      ensures View() == Park(old(View()), QueueWaiter(old(View()).q, p), Waiting(p))
    {
      processes.PushWaiter(p, sched.current.value);
      sched.ParkCurrent(Waiting(p), endpoints.states, processes.states);
    }

    method SysWait(handle: nat) returns (out: Output)
      requires Valid() && sched.mode.Running? && sched.current.Some?
      modifies Repr()
      ensures Valid() && fresh(Repr() - old(Repr()))
      ensures Outcome(View(), out) == WaitStep(old(View()), Wait(handle))
    {
      out := Silent;
      var cap := LookupCurrent(handle);
      match cap {
        case Some(ProcessCap(p, rights)) =>
          if WAIT !in rights {
            return Rejected(-3);
          }
          var terminated := processes.IsTerminated(p);
          if terminated {
            return AlreadyTerminated(p);
          }
          BlockWaiter(p);
        case _ =>
          return Rejected(-2);
      }
    }

    method SysWaitIrq(handle: nat) returns (out: Output)
      requires Valid() && sched.mode.Running? && sched.current.Some?
      modifies Repr()
      ensures Valid() && fresh(Repr() - old(Repr()))
      ensures Outcome(View(), out) == WaitIrqStep(old(View()), WaitIrq(handle))
    {
      out := Silent;
      var cap := LookupCurrent(handle);
      match cap {
        case Some(InterruptCap(irq)) =>
          if sched.pendingIrqs[irq] {
            sched.SetPending(irq, false);
            return Consumed(irq);
          }
          sched.WaitInSlot(irq);
        case _ =>
          return Rejected(-2);
      }
    }

    /** The process ends, its waiters are queued in order behind those already runnable, and the processor leaves
        the thread for good. */
    method ExitCurrentThread(sp: Sp, junk: Sp) returns (out: Output)
      requires Valid() && sched.mode.Running? && sched.current.Some?
      modifies Repr()
      ensures Valid() && fresh(Repr() - old(Repr()))
      ensures Outcome(View(), out) == ExitStep(old(View()), Exit(sp, junk))
    {
      var leaving, line := sched.current.value, sched.runQueue;
      if leaving in sched.info && sched.info[leaving].process.Some? {
        line := processes.Terminate(sched.info[leaving].process.value, line);
      }
      out := sched.DropAndResume(line, processes.states, sp, junk);
    }

    /** A fresh endpoint with all rights at the lowest free handle of the caller. */
    method SysEndpointCreate(ep: EpId) returns (handle: nat)
      requires Valid() && sched.mode.Running? && sched.current.Some? && ep !in sched.q.endpoints
      modifies Repr()
      ensures Valid() && fresh(Repr() - old(Repr()))
      ensures Outcome(View(), Created(ep, handle)) == CreateStep(old(View()), EndpointCreate(ep))
    {
      endpoints.Create(ep);
      handle := sched.GrantEndpoint(ep, endpoints.states);
    }

    // ---- whole calls ----

    /** After the step `e` of a call: if it parked its caller, the idle loop and the switch. */
    method Finish(ghost k: Kernel, e: Event, out: Output, rounds: seq<seq<Arrival>>, sp: Sp)
      returns (outs: seq<Output>, ghost es: seq<Event>)
      requires Valid() && Enabled(k, e) && Outcome(View(), out) == Perform(k, e)
      requires sched.mode.Parked? ==> (sched.mode.window <==> sched.runQueue == [])
      modifies Repr()
      ensures Valid() && Repr() == old(Repr())
      ensures WholeCall(k, e, es, View(), outs, rounds, sp)
    {
      outs, es := [out], [e];
      OneStep(k, e);
      if sched.mode.Parked? {
        ghost var before := View();
        var outs', es' := sched.IdleAndSwitch(rounds, sp);
        RunsTrans(k, es, before, outs, es', View(), outs');
        outs, es := outs + outs', es + es';
      }
    }

    /** A send from entry to return or switch. */
    method SendCall(handle: nat, msg: Message, rounds: seq<seq<Arrival>>, sp: Sp)
      returns (outs: seq<Output>, ghost es: seq<Event>)
      requires Valid() && sched.mode.Running? && sched.current.Some?
      modifies Repr()
      ensures Valid() && fresh(Repr() - old(Repr()))
      ensures WholeCall(old(View()), Send(handle, msg), es, View(), outs, rounds, sp)
    {
      var out := SysSend(handle, msg);
      outs, es := Finish(old(View()), Send(handle, msg), out, rounds, sp);
    }

    method RecvCall(handle: nat, rounds: seq<seq<Arrival>>, sp: Sp) returns (outs: seq<Output>, ghost es: seq<Event>)
      requires Valid() && sched.mode.Running? && sched.current.Some?
      modifies Repr()
      ensures Valid() && fresh(Repr() - old(Repr()))
      ensures WholeCall(old(View()), Recv(handle), es, View(), outs, rounds, sp)
    {
      var out := SysRecv(handle);
      outs, es := Finish(old(View()), Recv(handle), out, rounds, sp);
    }

    method WaitCall(handle: nat, rounds: seq<seq<Arrival>>, sp: Sp) returns (outs: seq<Output>, ghost es: seq<Event>)
      requires Valid() && sched.mode.Running? && sched.current.Some?
      modifies Repr()
      ensures Valid() && fresh(Repr() - old(Repr()))
      ensures WholeCall(old(View()), Wait(handle), es, View(), outs, rounds, sp)
    {
      var out := SysWait(handle);
      outs, es := Finish(old(View()), Wait(handle), out, rounds, sp);
    }

    method WaitIrqCall(handle: nat, rounds: seq<seq<Arrival>>, sp: Sp) returns (outs: seq<Output>, ghost es: seq<Event>)
      requires Valid() && sched.mode.Running? && sched.current.Some?
      modifies Repr()
      ensures Valid() && fresh(Repr() - old(Repr()))
      ensures WholeCall(old(View()), WaitIrq(handle), es, View(), outs, rounds, sp)
    {
      var out := SysWaitIrq(handle);
      outs, es := Finish(old(View()), WaitIrq(handle), out, rounds, sp);
    }
  }
}
