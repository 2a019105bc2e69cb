/** The scheduler as the object it is in the kernel: the run queue, the current thread and the two arrays for
    interrupts, changed in place, and the idle loop. Each method is proved to perform exactly the corresponding steps of
    the kernel model. */
module SchedulerObject {
  import opened Basics
  import opened Capabilities
  import opened KernelState
  import opened KernelSteps
  import opened KernelObjects

  /** What arrives while the processor idles: a device interrupt, or the timer. */
  datatype Arrival = Line(irq: Irq) | Timer(sp: Sp, junk: Sp)

  function EventOf(a: Arrival): Event {
    match a
    case Line(irq) => Interrupted(irq)
    case Timer(sp, junk) => Tick(sp, junk)
  }

  function Events(arrivals: seq<Arrival>): (es: seq<Event>)
    ensures |es| == |arrivals|
    ensures forall i :: 0 <= i < |arrivals| ==> es[i] == EventOf(arrivals[i])
  {
    seq(|arrivals|, i requires 0 <= i < |arrivals| => EventOf(arrivals[i]))
  }

  /** All arrivals of successive rounds of the idle loop. */
  function Flat(rounds: seq<seq<Arrival>>): seq<Arrival> {
    if rounds == [] then [] else Flat(rounds[..|rounds| - 1]) + rounds[|rounds| - 1]
  }

  /** Arrivals in order, then at most one switch. */
  ghost predicate TailOf(es: seq<Event>, rounds: seq<seq<Arrival>>, sp: Sp) {
    es <= Events(Flat(rounds)) || (es != [] && es[..|es| - 1] <= Events(Flat(rounds)) && es[|es| - 1] == Switch(sp))
  }

  lemma {:induction false} FlatPrefix(rounds: seq<seq<Arrival>>, n: nat)
    requires n <= |rounds|
    ensures Flat(rounds[..n]) <= Flat(rounds)
    decreases |rounds|
  {
    if n < |rounds| {
      FlatPrefix(rounds[..|rounds| - 1], n);
      assert rounds[..|rounds| - 1][..n] == rounds[..n];
    } else {
      assert rounds[..n] == rounds;
    }
  }

  /** One more round has arrived in whole or in part. */
  lemma RoundDone(rounds: seq<seq<Arrival>>, n: nat, es: seq<Event>)
    requires n < |rounds| && es <= Events(rounds[n])
    ensures Events(Flat(rounds[..n])) + es <= Events(Flat(rounds[..n + 1]))
    ensures es == Events(rounds[n]) ==> Events(Flat(rounds[..n])) + es == Events(Flat(rounds[..n + 1]))
  {
    assert rounds[..n + 1][..n] == rounds[..n];
    assert Events(Flat(rounds[..n + 1])) == Events(Flat(rounds[..n])) + Events(rounds[n]);
  }

  lemma RoundsDone(rounds: seq<seq<Arrival>>, n: nat, es: seq<Event>)
    requires n <= |rounds| && es <= Events(Flat(rounds[..n]))
    ensures es <= Events(Flat(rounds))
    ensures n == |rounds| ==> rounds[..n] == rounds
  {
    FlatPrefix(rounds, n);
  }

  /** `outs` is what the run `es` from `k` to `k'` shows. */
  ghost predicate Runs(k: Kernel, es: seq<Event>, k': Kernel, outs: seq<Output>) {
    Legal(k, es) && k' == Run(k, es) && outs == History(k, es)
  }

  lemma RunsSnoc(k: Kernel, es: seq<Event>, k1: Kernel, outs: seq<Output>, e: Event)
    requires Runs(k, es, k1, outs) && Enabled(k1, e)
    ensures Runs(k, es + [e], Step(k1, e), outs + [Perform(k1, e).out])
  {
    assert (es + [e])[..|es|] == es;
  }

  /** The idle loop ends with a switch. */
  lemma SwitchRuns(k: Kernel, es: seq<Event>, k1: Kernel, outs: seq<Output>, sp: Sp)
    requires Runs(k, es, k1, outs) && k1.mode.Parked? && k1.q.runQueue != []
    ensures var r := SwitchAway(k1, Some(k1.mode.thread), sp); Runs(k, es + [Switch(sp)], r.k, outs + [r.out])
  {
    RunsSnoc(k, es, k1, outs, Switch(sp));
  }

  /** The state before the last step of a run. */
  lemma RunsLast(k: Kernel, es: seq<Event>, k2: Kernel, outs: seq<Output>) returns (k1: Kernel)
    requires es != [] && Runs(k, es, k2, outs)
    ensures |outs| == |es| && Runs(k, es[..|es| - 1], k1, outs[..|es| - 1]) && Enabled(k1, es[|es| - 1])
    ensures Outcome(k2, outs[|es| - 1]) == Perform(k1, es[|es| - 1])
  {
    k1 := Run(k, es[..|es| - 1]);
  }

  lemma AppendLast<T>(a: seq<T>, b: seq<T>)
    requires b != []
    ensures a + b == a + b[..|b| - 1] + [b[|b| - 1]]
  {
  }

  /** One run after another is a run. */
  lemma {:induction false} RunsTrans(k: Kernel, es: seq<Event>, k1: Kernel, outs: seq<Output>, es': seq<Event>,
                                     k2: Kernel, outs': seq<Output>)
    requires Runs(k, es, k1, outs) && Runs(k1, es', k2, outs')
    ensures Runs(k, es + es', k2, outs + outs')
    decreases |es'|
  {
    if es' == [] {
      assert es + es' == es && outs + outs' == outs;
    } else {
      var n := |es'| - 1;
      var k' := RunsLast(k1, es', k2, outs');
      var e := es'[n];
      RunsTrans(k, es, k1, outs, es'[..n], k', outs'[..n]);
      RunsSnoc(k, es + es'[..n], k', outs + outs'[..n], e);
      AppendLast(es, es');
      AppendLast(outs, outs');
    }
  }

  /** Endpoints and processes hold what they held. */
  predicate SameObjects(q: Queues, q': Queues) {
    q'.endpoints == q.endpoints && q'.processes == q.processes
  }

  class Scheduler {
    var runQueue: seq<Tid>
    var current: Option<Tid>
    const irqWaiters: array<Option<Tid>>
    const pendingIrqs: array<bool>

    var info: map<Tid, ThreadInfo>
    /** Message buffers on the stacks of blocked receivers. */
    var buffers: map<Tid, Message>
    /** Saved states, stacks and STATE_TO_UPDATE. */
    var m: Machine
    var mode: Mode
    var calls: map<Tid, Call>

    /** What the capability spaces hold. */
    var cspaces: map<CsId, Slots>

    /** Where every thread is, in this object or in one a capability refers to. */
    ghost var q: Queues

    ghost predicate Core()
      reads this`runQueue, this`current, this`q
    {
      runQueue == q.runQueue && current == q.current
    }

    ghost predicate Valid()
      reads this, irqWaiters, pendingIrqs
    {
      Core() && SlotsAgree(irqWaiters, q.irqWaiters) && FlagsAgree(pendingIrqs, q.pending)
    }

    ghost function View(): Kernel
      reads this
    {
      Kernel(q, m, mode, info, cspaces, calls, buffers)
    }

    constructor ()
      ensures Valid() && View() == BOOT && fresh(irqWaiters) && fresh(pendingIrqs)
    {
      runQueue, current := [], None;
      irqWaiters := new Option<Tid>[256](_ => None);
      pendingIrqs := new bool[256](_ => false);
      info, buffers, calls := map[], map[], map[];
      m, mode := Machine(map[], map[], None), Running;
      q, cspaces := Queues({}, [], None, map[], {}, map[], map[], {}, {}), map[];
    }

    // ---- queues, slots and shared objects ----

    method PushBack(t: Tid)
      requires Core()
      modifies this`runQueue, this`q
      ensures Core() && q == Enqueue(old(q), t)
    {
      runQueue := runQueue + [t];
      q := Enqueue(q, t);
    }

    method PopFront() returns (t: Tid)
      requires Core() && runQueue != []
      modifies this`runQueue, this`current, this`q
      ensures Core() && q == Dispatch(old(q)) && t == old(runQueue)[0]
    {
      t := runQueue[0];
      runQueue, current := runQueue[1..], Some(t);
      q := Dispatch(q);
    }

    /** Takes the current thread out of its place. */
    method TakeCurrent() returns (t: Option<Tid>)
      requires Core()
      modifies this`current, this`q
      ensures Core() && q == old(q).(current := None) && t == old(current)
    {
      t := current;
      current := None;
      q := q.(current := None);
    }

    /** Empties the slot of `irq`. */
    method TakeWaiter(irq: Irq) returns (t: Option<Tid>)
      requires Valid()
      modifies irqWaiters, this`q
      ensures Valid() && q == old(q).(irqWaiters := old(q).irqWaiters - {irq})
      ensures t == if irq in old(q).irqWaiters then Some(old(q).irqWaiters[irq]) else None
    {
      t := irqWaiters[irq];
      irqWaiters[irq] := None;
      q := q.(irqWaiters := q.irqWaiters - {irq});
    }

    /** Stores into the slot of `irq`; a thread that was there is gone. */
    method StoreWaiter(irq: Irq, t: Tid)
      requires Valid()
      modifies irqWaiters, this`q
      ensures Valid() && q == Displace(old(q), irq).(irqWaiters := Displace(old(q), irq).irqWaiters[irq := t])
    {
      irqWaiters[irq] := Some(t);
      q := Displace(q, irq);
      q := q.(irqWaiters := q.irqWaiters[irq := t]);
    }

    method SetPending(irq: Irq, flag: bool)
      requires Valid()
      modifies pendingIrqs, this`q
      ensures Valid() && q == old(q).(pending := if flag then old(q).pending + {irq} else old(q).pending - {irq})
    {
      pendingIrqs[irq] := flag;
      q := q.(pending := if flag then q.pending + {irq} else q.pending - {irq});
    }

    // ---- entry points ----

    method AddThread(t: Tid, threadInfo: ThreadInfo, sp: Sp)
      requires Valid() && mode.Running? && t !in q.threads
      modifies this`runQueue, this`q, this`m, this`info
      ensures Valid() && View() == AddStep(old(View()), Event.AddThread(t, threadInfo, sp)).k
    {
      m := m.(saved := m.saved[t := Cooperative(sp)], frames := m.frames[t := Frame(sp, Entry)]);
      info := info[t := threadInfo];
      q := q.(threads := q.threads + {t});
      PushBack(t);
    }

    /** Finishes the save of the thread STATE_TO_UPDATE names. */
    method AfterSwitch(rsp: Sp)
      modifies this`m
      ensures m == AfterSwitchCall(old(m), rsp)
    {
      if m.stateToUpdate.Some? {
        m := m.(saved := m.saved[m.stateToUpdate.value := Cooperative(rsp)]);
        m := m.(stateToUpdate := None);
      }
    }

    /** The processor enters the saved state of the thread that was just made current. */
    method Resume(t: Tid, st: SavedState, rax: Sp) returns (out: Output)
      modifies this`m, this`mode, this`calls
      ensures Outcome(View(), out) == Land(old(View()), t, st, rax)
    {
      out := Silent;
      if t in m.frames && StateOf(m.frames[t]) == st {
        var frame := m.frames[t];
        m := m.(frames := m.frames - {t});
        if CallsAfterSwitch(frame) {
          AfterSwitch(rax);
        }
        mode := Running;
        if t in calls {
          out := Returned(t, calls[t], if t in buffers then buffers[t] else ZERO_MESSAGE);
        }
        calls := calls - {t};
      } else {
        mode := Derailed;
      }
    }

    /** Saves the current thread, if any, at the back of the run queue and takes the head. */
    method PickNext(state: SavedState) returns (next: SavedState)
      requires Core()
      modifies this`runQueue, this`current, this`q, this`m
      ensures Core()
      ensures var t := old(q).current;
              m == if t.Some? then old(m).(saved := old(m).saved[t.value := state]) else old(m)
      ensures var q1 := if old(q).current.Some? then Requeue(old(q)) else old(q);
              && q == (if q1.runQueue != [] then Dispatch(q1) else q1)
              && next == (if q1.runQueue != [] then SavedAt(m.saved, q1.runQueue[0]) else state)
    {
      var previous := TakeCurrent();
      if previous.Some? {
        m := m.(saved := m.saved[previous.value := state]);
        PushBack(previous.value);
      }
      next := state;
      if runQueue != [] {
        var t := PopFront();
        next := SavedAt(m.saved, t);
      }
    }

    method TimerTick(sp: Sp, junk: Sp) returns (out: Output)
      requires Valid() && (mode.Running? || (mode.Parked? && mode.window))
      modifies this`runQueue, this`current, this`q, this`m, this`mode, this`calls
      ensures Valid() && Outcome(View(), out) == TickStep(old(View()), Tick(sp, junk)) && SameObjects(old(q), q)
    {
      if current.Some? {
        m := m.(frames := m.frames[current.value := Frame(sp, Interrupt)]);
      }
      var idle := current.None? && runQueue == [];
      var next := PickNext(Preemptive(sp));
      out := Silent;
      if !idle {
        out := Resume(current.value, next, junk);
      }
    }

    /** Pops the head and switches to it from the stack of `from`. */
    method SwitchTo(from: Option<Tid>, sp: Sp) returns (out: Output)
      requires Core() && runQueue != []
      modifies this`runQueue, this`current, this`q, this`m, this`mode, this`calls
      ensures Core() && Outcome(View(), out) == SwitchAway(old(View()), from, sp)
    {
      var next := PopFront();
      var st := SavedAt(m.saved, next);
      if from.Some? {
        var point := if st.Cooperative? then ResumePoint.AfterSwitch else Plain;
        m := m.(frames := m.frames[from.value := Frame(sp, point)]);
      }
      if st.Preemptive? {
        AfterSwitch(sp);
      }
      out := Resume(next, st, sp);
    }

    method YieldNow(sp: Sp) returns (out: Output)
      requires Valid() && mode.Running?
      modifies this`runQueue, this`current, this`q, this`m, this`mode, this`calls
      ensures Valid() && Outcome(View(), out) == YieldStep(old(View()), Yield(sp))
    {
      out := Silent;
      if runQueue == [] {
        return;
      }
      var from := TakeCurrent();
      m := m.(stateToUpdate := from);
      if from.Some? {
        PushBack(from.value);
      }
      if SavedAt(m.saved, runQueue[0]).Preemptive? {
        var _ := PopFront();
        mode := Halted;
      } else {
        out := SwitchTo(from, sp);
      }
    }

    method UnblockIrq(irq: Irq)
      requires Valid() && (mode.Running? || (mode.Parked? && mode.window))
      modifies irqWaiters, pendingIrqs, this`runQueue, this`q
      ensures Valid() && View() == Step(old(View()), Interrupted(irq)) && SameObjects(old(q), q)
    {
      var waiter := TakeWaiter(irq);
      if waiter.Some? {
        PushBack(waiter.value);
      } else {
        assert q.irqWaiters == old(q).irqWaiters;
        SetPending(irq, true);
      }
    }

    /** The current thread has been queued at one of the objects, which now hold `endpoints` and `processes`: it
        leaves its place, its state is to be saved, and the idle loop is entered. */
    method ParkCurrent(call: Call, ghost endpoints: map<EpId, EndpointState>, ghost processes: map<Pid, ProcessState>)
      requires Valid() && current.Some?
      modifies this`current, this`q, this`m, this`mode, this`calls
      ensures Valid() && View() == Park(old(View()),
                                        old(q).(endpoints := endpoints, processes := processes, current := None), call)
    {
      var t := current.value;
      current := None;
      q := q.(endpoints := endpoints, processes := processes, current := None);
      m := m.(stateToUpdate := Some(t));
      calls := calls[t := call];
      mode := Parked(t, runQueue == []);
    }

    /** A thread has been taken from an endpoint, and the endpoints now hold `endpoints`. */
    method Wake(t: Tid, ghost endpoints: map<EpId, EndpointState>)
      requires Valid()
      modifies this`runQueue, this`q
      ensures Valid() && q == old(q).(endpoints := endpoints, runQueue := old(q).runQueue + [t])
    {
      runQueue := runQueue + [t];
      q := q.(endpoints := endpoints, runQueue := q.runQueue + [t]);
    }

    /** Likewise for a receiver, whose buffer gets the message. */
    method Hand(t: Tid, msg: Message, ghost endpoints: map<EpId, EndpointState>)
      requires Valid()
      modifies this`runQueue, this`q, this`buffers
      ensures Valid() && q == old(q).(endpoints := endpoints, runQueue := old(q).runQueue + [t])
      ensures buffers == old(buffers)[t := msg]
    {
      buffers := buffers[t := msg];
      runQueue := runQueue + [t];
      q := q.(endpoints := endpoints, runQueue := q.runQueue + [t]);
    }

    /** The current thread gets a capability for a new endpoint, and the endpoints now hold `endpoints`. */
    method GrantEndpoint(ep: EpId, ghost endpoints: map<EpId, EndpointState>) returns (handle: nat)
      requires Valid() && current.Some?
      modifies this`cspaces, this`q
      ensures Valid() && q == old(q).(endpoints := endpoints)
      ensures var k, t := old(View()), current.value;
              var cs := if t in info then info[t].cspace else 0;
              && handle == FirstFree(SlotsOf(k, t))
              && cspaces == k.cspaces[cs := Inserted(SlotsOf(k, t), EndpointCap(ep, ALL_RIGHTS))]
    {
      var t := current.value;
      var cs := if t in info then info[t].cspace else 0;
      var slots := if t in info && cs in cspaces then cspaces[cs] else [];
      handle := FirstFree(slots);
      cspaces := cspaces[cs := Inserted(slots, EndpointCap(ep, ALL_RIGHTS))];
      q := q.(endpoints := endpoints);
    }

    /** The current thread stores itself into the slot of `irq`; a thread that was there is gone. */
    method WaitInSlot(irq: Irq)
      requires Valid() && current.Some?
      modifies irqWaiters, this`current, this`q, this`m, this`mode, this`calls
      ensures Valid() && View() == Park(old(View()), StoreIrqWaiter(Displace(old(q), irq), irq), WaitingIrq(irq))
    {
      var t := current.value;
      StoreWaiter(irq, t);
      ParkCurrent(WaitingIrq(irq), q.endpoints, q.processes);
    }

    /** The current thread is dropped after its process, if any, has ended: the run queue is `line` and the processes
        hold `processes`. */
    method DropAndResume(line: seq<Tid>, ghost processes: map<Pid, ProcessState>, sp: Sp, junk: Sp)
      returns (out: Output)
      requires Valid() && current.Some?
      modifies this`runQueue, this`current, this`q, this`m, this`mode, this`calls
      ensures Valid()
      ensures var q2 := DropCurrent(old(q).(runQueue := line, processes := processes));
              Outcome(View(), out) == LeaveFor(old(View()), q2, sp, junk)
    {
      out := Silent;
      q := DropCurrent(q.(runQueue := line, processes := processes));
      runQueue, current := line, None;
      if runQueue == [] {
        mode := Halted;
        return;
      }
      var next := PopFront();
      var st := SavedAt(m.saved, next);
      if st.Preemptive? {
        AfterSwitch(sp);
      }
      out := Resume(next, st, junk);
    }

    // ---- the idle loop ----

    /** What arrives between one halt and the next look at the run queue. A tick that finds a runnable thread takes
        the processor away from the idle loop for good. */
    method IdleRound(round: seq<Arrival>) returns (outs: seq<Output>, ghost es: seq<Event>)
      requires Valid() && mode.Parked? && mode.window
      modifies irqWaiters, pendingIrqs, this`runQueue, this`current, this`q, this`m, this`mode, this`calls
      ensures Valid() && SameObjects(old(q), q)
      ensures Runs(old(View()), es, View(), outs) && es <= Events(round)
      ensures mode.Parked? ==> mode == old(mode) && es == Events(round)
    {
      outs, es := [], [];
      var i := 0;
      while i < |round| && mode.Parked?
        invariant i <= |round| && es == Events(round[..i])
        invariant Valid() && SameObjects(old(q), q)
        invariant mode.Parked? ==> mode == old(mode)
        invariant Runs(old(View()), es, View(), outs)
      {
        var e, out := EventOf(round[i]), Silent;
        ghost var before := View();
        match round[i] {
          case Line(irq) =>
            UnblockIrq(irq);
            out := Raised(irq);
            assert Outcome(View(), out) == Perform(before, e);
          case Timer(sp, junk) =>
            out := TimerTick(sp, junk);
            assert Outcome(View(), out) == Perform(before, e);
        }
        RunsSnoc(old(View()), es, before, outs, e);
        assert Events(round[..i + 1]) == Events(round[..i]) + [e];
        es, outs := es + [e], outs + [out];
        i := i + 1;
      }
      assert round[..|round|] == round;
    }

    /** The processor halts until a thread is runnable; `rounds` is what arrives. */
    method IdleLoop(rounds: seq<seq<Arrival>>) returns (outs: seq<Output>, ghost es: seq<Event>)
      requires Valid() && mode.Parked? && (mode.window <==> runQueue == [])
      modifies irqWaiters, pendingIrqs, this`runQueue, this`current, this`q, this`m, this`mode, this`calls
      ensures Valid() && SameObjects(old(q), q)
      ensures Runs(old(View()), es, View(), outs) && es <= Events(Flat(rounds))
      ensures mode.Parked? ==> mode == old(mode) && (runQueue != [] || es == Events(Flat(rounds)))
    {
      outs, es := [], [];
      var n := 0;
      while n < |rounds| && mode.Parked? && runQueue == []
        invariant n <= |rounds| && es <= Events(Flat(rounds[..n])) && (mode.Parked? ==> es == Events(Flat(rounds[..n])))
        invariant Valid() && SameObjects(old(q), q)
        invariant mode.Parked? ==> mode == old(mode) && (runQueue == [] ==> mode.window)
        invariant Runs(old(View()), es, View(), outs)
      {
        ghost var before := View();
        var outs', es' := IdleRound(rounds[n]);
        RunsTrans(old(View()), es, before, outs, es', View(), outs');
        RoundDone(rounds, n, es');
        es, outs := es + es', outs + outs';
        n := n + 1;
      }
      RoundsDone(rounds, n, es);
    }

    /** The tail of every blocking call: idle until a thread is runnable, then switch to it. If the arrivals wake
        nobody the processor stays in the idle loop. */
    method IdleAndSwitch(rounds: seq<seq<Arrival>>, sp: Sp) returns (outs: seq<Output>, ghost es: seq<Event>)
      requires Valid() && mode.Parked? && (mode.window <==> runQueue == [])
      modifies irqWaiters, pendingIrqs, this`runQueue, this`current, this`q, this`m, this`mode, this`calls
      ensures Valid() && SameObjects(old(q), q)
      ensures Runs(old(View()), es, View(), outs)
      ensures TailOf(es, rounds, sp)
      ensures mode.Parked? ==> runQueue == [] && es == Events(Flat(rounds))
    {
      var parked := mode.thread;
      outs, es := IdleLoop(rounds);
      if mode.Parked? && runQueue != [] {
        SwitchRuns(old(View()), es, View(), outs, sp);
        var out := SwitchTo(Some(parked), sp);
        es, outs := es + [Switch(sp)], outs + [out];
      }
    }
  }
}
