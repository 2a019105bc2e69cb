/** Threads, processes, interrupts and capability spaces told from the events of a run: for each of them a story
    is computed from the events, the capabilities named and who was running, and after every run from boot the
    kernel's state is that story. What the waiting calls answer follows. */
module EventStories {
  import opened Basics
  import opened Capabilities
  import opened KernelState
  import opened KernelSteps
  import opened Conservation
  import opened Calls
  import opened Authority
  import opened Outcomes

  // ---- threads ----

  /** How `t` was added. */
  function AddedAs(es: seq<Event>, t: Tid): Option<ThreadInfo> {
    if es == [] then None
    else
      var e := es[|es| - 1];
      if e.AddThread? && e.t == t then Some(e.info) else AddedAs(es[..|es| - 1], t)
  }

  /** The set of threads and what is known of them. */
  predicate SameThreads(k: Kernel, k': Kernel) { k'.info == k.info && k'.q.threads == k.q.threads }

  lemma SwitchKeepsThreads(k: Kernel, from: Option<Tid>, sp: Sp)
    requires k.q.runQueue != []
    ensures SameThreads(k, SwitchAway(k, from, sp).k)
  {
  }

  lemma YieldKeepsThreads(k: Kernel, e: Event)
    requires e.Yield?
    ensures SameThreads(k, YieldStep(k, e).k)
  {
    if k.q.runQueue != [] {
      SwitchKeepsThreads(GiveUp(k), k.q.current, e.sp);
    }
  }

  lemma TickKeepsThreads(k: Kernel, e: Event)
    requires e.Tick?
    ensures SameThreads(k, TickStep(k, e).k)
  {
  }

  lemma ExitKeepsThreads(k: Kernel, e: Event)
    requires e.Exit? && k.q.current.Some?
    ensures SameThreads(k, ExitStep(k, e).k)
  {
  }

  lemma CallKeepsThreads(k: Kernel, e: Event)
    requires e.Send? || e.Recv? || e.Wait? || e.WaitIrq?
    requires Enabled(k, e)
    ensures SameThreads(k, Step(k, e))
  {
  }

  lemma StepKeepsThreads(k: Kernel, e: Event)
    requires Enabled(k, e) && !e.AddThread?
    ensures SameThreads(k, Step(k, e))
  {
    match e
    case Tick(_, _) => TickKeepsThreads(k, e);
    case Yield(_) => YieldKeepsThreads(k, e);
    case Exit(_, _) => ExitKeepsThreads(k, e);
    case Switch(sp) => SwitchKeepsThreads(k, Some(k.mode.thread), sp);
    case SetCSpace(_, _) =>
    case EndpointCreate(_) =>
    case Interrupted(_) =>
    case _ => CallKeepsThreads(k, e);
  }

  /** The threads are those that were added, and a thread keeps the process and the capability space it was added
      with. */
  lemma {:induction false} ThreadFollows(es: seq<Event>, t: Tid)
    requires Legal(BOOT, es)
    ensures var k := Run(BOOT, es);
            && (t in k.q.threads <==> AddedAs(es, t).Some?)
            && AddedAs(es, t) == if t in k.info then Some(k.info[t]) else None
    decreases |es|
  {
    if es != [] {
      var before, e := es[..|es| - 1], es[|es| - 1];
      ThreadFollows(before, t);
      if !e.AddThread? {
        StepKeepsThreads(Run(BOOT, before), e);
      }
    }
  }

  predicate AddedFor(es: seq<Event>, t: Tid, p: Pid) {
    AddedAs(es, t).Some? && AddedAs(es, t).value.process == Some(p)
  }

  lemma ProcessFromAdd(es: seq<Event>, t: Tid, p: Pid)
    requires Legal(BOOT, es)
    ensures ProcessOf(Run(BOOT, es), t) == Some(p) <==> AddedFor(es, t, p)
  {
    ThreadFollows(es, t);
  }

  // ---- processes ----

  predicate MayWait(cap: Option<Capability>, p: Pid) {
    cap.Some? && cap.value.ProcessCap? && cap.value.process == p && WAIT in cap.value.rights
  }

  /** A process is terminated by the first exit of a thread added for it; until then whoever waits for it under a
      capability with the right is queued. */
  function ProcessStory(es: seq<Event>, p: Pid): ProcessState
    requires Legal(BOOT, es)
    decreases |es|
  {
    if es == [] then ProcessState(false, [])
    else
      var before, e := es[..|es| - 1], es[|es| - 1];
      var k, s := Run(BOOT, before), ProcessStory(before, p);
      if e.Exit? && AddedFor(before, k.q.current.value, p) then ProcessState(true, [])
      else if e.Wait? && MayWait(Named(k, e.handle), p) && !s.terminated
      then ProcessState(false, s.waitQueue + [k.q.current.value])
      else s
  }

  lemma ExitProcess(k: Kernel, e: Event, p: Pid)
    requires e.Exit? && Enabled(k, e)
    ensures ProcessAt(ExitStep(k, e).k.q.processes, p)
         == if ProcessOf(k, k.q.current.value) == Some(p) then ProcessState(true, []) else ProcessAt(k.q.processes, p)
  {
    assert ExitStep(k, e).k.q.processes == ExitQueues(k).processes;
  }

  lemma ProcessStep(k: Kernel, e: Event, p: Pid)
    requires Enabled(k, e)
    ensures var s, s' := ProcessAt(k.q.processes, p), ProcessAt(Step(k, e).q.processes, p);
            s' == if e.Exit? && ProcessOf(k, k.q.current.value) == Some(p) then ProcessState(true, [])
                  else if e.Wait? && MayWait(Named(k, e.handle), p) && !s.terminated
                  then ProcessState(false, s.waitQueue + [k.q.current.value])
                  else s
  {
    if e.Exit? {
      ExitProcess(k, e, p);
    } else if !e.Wait? && !e.WaitIrq? && !e.Interrupted? {
      assert SameWaits(k.q, Step(k, e).q);
    }
  }

  lemma {:induction false} ProcessFollows(es: seq<Event>, p: Pid)
    requires Legal(BOOT, es)
    ensures ProcessAt(Run(BOOT, es).q.processes, p) == ProcessStory(es, p)
    decreases |es|
  {
    if es != [] {
      var before, e := es[..|es| - 1], es[|es| - 1];
      ProcessFollows(before, p);
      ProcessStep(Run(BOOT, before), e, p);
      if e.Exit? {
        ProcessFromAdd(before, Run(BOOT, before).q.current.value, p);
      }
    }
  }

  lemma WaitOutcome(k: Kernel, e: Event, p: Pid)
    requires e.Wait? && Enabled(k, e)
    ensures var cap, s, r := Named(k, e.handle), ProcessAt(k.q.processes, p), Perform(k, e);
            && (r.out == AlreadyTerminated(p) <==> MayWait(cap, p) && s.terminated)
            && (r.out == Rejected(-3) <==> cap.Some? && cap.value.ProcessCap? && WAIT !in cap.value.rights)
            && (r.out == Rejected(-2) <==> cap.None? || !cap.value.ProcessCap?)
            && (r.out.Rejected? || r.out.AlreadyTerminated? ==> r.k == k)
            && (MayWait(cap, p) && !s.terminated ==>
                  var c := k.q.current.value;
                  && r.out.Silent? && Parks(k, r.k, Waiting(p))
                  && r.k.q == k.q.(current := None,
                                   processes := k.q.processes[p := ProcessState(false, s.waitQueue + [c])]))
  {
  }

  /** In every run from boot a wait for `p` answers at once if and only if a thread of `p` has exited, and otherwise
      parks its caller inside the wait, last in line; without the right it answers -3, and without a process
      capability -2, changing nothing. */
  lemma WaitAnswers(es: seq<Event>, e: Event, p: Pid)
    requires Legal(BOOT, es) && e.Wait? && Enabled(Run(BOOT, es), e)
    ensures var k, r := Run(BOOT, es), Perform(Run(BOOT, es), e);
            var cap, s, c := Named(k, e.handle), ProcessStory(es, p), k.q.current.value;
            && (r.out == AlreadyTerminated(p) <==> MayWait(cap, p) && s.terminated)
            && (c in r.k.calls && r.k.calls[c] == Waiting(p) <==> MayWait(cap, p) && !s.terminated)
            && (MayWait(cap, p) && !s.terminated ==>
                  && r.out.Silent? && Parks(k, r.k, Waiting(p))
                  && ProcessAt(r.k.q.processes, p) == ProcessState(false, s.waitQueue + [c]))
            && (r.out == Rejected(-3) <==> cap.Some? && cap.value.ProcessCap? && WAIT !in cap.value.rights)
            && (r.out == Rejected(-2) <==> cap.None? || !cap.value.ProcessCap?)
            && (r.out.Rejected? || r.out.AlreadyTerminated? ==> r.k == k)
  {
    var k := Run(BOOT, es);
    ProcessFollows(es, p);
    WaitOutcome(k, e, p);
    BootCallsOk();
    RunKeepsCalls(BOOT, es);
    assert k.q.current.value !in k.calls;
    var cap := Named(k, e.handle);
    if cap.Some? && cap.value.ProcessCap? {
      WaitOutcome(k, e, cap.value.process);
    }
  }

  /** Those waiting for the process a thread was added for. */
  function WaitersFor(es: seq<Event>, t: Tid): seq<Tid>
    requires Legal(BOOT, es)
  {
    match AddedAs(es, t)
    case Some(ThreadInfo(Some(p), _)) => ProcessStory(es, p).waitQueue
    case _ => []
  }

  lemma ExitQueuesFollow(es: seq<Event>)
    requires Legal(BOOT, es) && Run(BOOT, es).q.current.Some?
    ensures var k := Run(BOOT, es);
            var c, q := k.q.current.value, ExitQueues(k);
            && q.runQueue == k.q.runQueue + WaitersFor(es, c)
            && q.exited == k.q.exited + {c} && q.displaced == k.q.displaced
  {
    var k := Run(BOOT, es);
    var p := ProcessOf(k, k.q.current.value);
    ThreadFollows(es, k.q.current.value);
    if p.Some? {
      ProcessFollows(es, p.value);
    }
  }

  /** In every run from boot an exit ends the caller for good; those waiting for its process join the line in order,
      and the first of the line runs, or the kernel halts when the line is empty. */
  lemma ExitAnswers(es: seq<Event>, e: Event)
    requires Legal(BOOT, es) && e.Exit? && Enabled(Run(BOOT, es), e)
    ensures var k, k' := Run(BOOT, es), Step(Run(BOOT, es), e);
            var c := k.q.current.value;
            var line := k.q.runQueue + WaitersFor(es, c);
            && k'.q.exited == k.q.exited + {c} && k'.q.displaced == k.q.displaced
            && (k'.mode.Halted? <==> line == [])
            && (if line == [] then k'.q.current.None? && k'.q.runQueue == []
                else k'.q.current == Some(line[0]) && k'.q.runQueue == line[1..])
  {
    ExitQueuesFollow(es);
  }

  // ---- interrupts ----

  /** Whether a raise of `i` is remembered, and who waits for it. */
  datatype IrqStory = IrqStory(flag: bool, waiter: Option<Tid>)

  /** A raise wakes the waiter or is remembered; a wait uses up a remembered raise or takes the waiter's slot. */
  function StoryOf(es: seq<Event>, i: Irq): IrqStory
    requires Legal(BOOT, es)
    decreases |es|
  {
    if es == [] then IrqStory(false, None)
    else
      var before, e := es[..|es| - 1], es[|es| - 1];
      var k, s := Run(BOOT, before), StoryOf(before, i);
      if e == Interrupted(i) then IrqStory(s.flag || s.waiter.None?, None)
      else if e.WaitIrq? && Named(k, e.handle) == Some(InterruptCap(i))
      then if s.flag then IrqStory(false, s.waiter) else IrqStory(false, k.q.current)
      else s
  }

  function IrqAt(q: Queues, i: Irq): IrqStory {
    IrqStory(i in q.pending, if i in q.irqWaiters then Some(q.irqWaiters[i]) else None)
  }

  /** Every step but a raise of `i` and a wait for it leaves the story of `i` as it is. */
  lemma IrqUntouched(k: Kernel, e: Event, i: Irq)
    requires Enabled(k, e) && e != Interrupted(i)
    requires !(e.WaitIrq? && Named(k, e.handle) == Some(InterruptCap(i)))
    ensures IrqAt(Step(k, e).q, i) == IrqAt(k.q, i)
  {
    if e.Exit? {
      assert Step(k, e).q.irqWaiters == ExitQueues(k).irqWaiters;
    } else if !e.Wait? && !e.WaitIrq? && !e.Interrupted? {
      assert SameWaits(k.q, Step(k, e).q);
    }
  }

  lemma IrqStep(k: Kernel, e: Event, i: Irq)
    requires Enabled(k, e)
    requires e == Interrupted(i) || (e.WaitIrq? && Named(k, e.handle) == Some(InterruptCap(i)))
    ensures var s, s' := IrqAt(k.q, i), IrqAt(Step(k, e).q, i);
            s' == if e == Interrupted(i) then IrqStory(s.flag || s.waiter.None?, None)
                  else if s.flag then IrqStory(false, s.waiter) else IrqStory(false, k.q.current)
  {
  }

  lemma {:induction false} IrqFollows(es: seq<Event>, i: Irq)
    requires Legal(BOOT, es)
    ensures IrqAt(Run(BOOT, es).q, i) == StoryOf(es, i)
    decreases |es|
  {
    if es != [] {
      var before, e := es[..|es| - 1], es[|es| - 1];
      IrqFollows(before, i);
      if e == Interrupted(i) || (e.WaitIrq? && Named(Run(BOOT, before), e.handle) == Some(InterruptCap(i))) {
        IrqStep(Run(BOOT, before), e, i);
      } else {
        IrqUntouched(Run(BOOT, before), e, i);
      }
    }
  }

  /** In every run from boot a wait for `i` ends at once if and only if a raise is remembered; otherwise the caller
      is parked in the slot of `i`, and whoever was there is displaced. */
  lemma WaitIrqAnswers(es: seq<Event>, e: Event, i: Irq)
    requires Legal(BOOT, es) && e.WaitIrq? && Enabled(Run(BOOT, es), e)
    ensures var k, r := Run(BOOT, es), Perform(Run(BOOT, es), e);
            var cap, s, c := Named(k, e.handle), StoryOf(es, i), k.q.current.value;
            && (r.out == Consumed(i) <==> cap == Some(InterruptCap(i)) && s.flag)
            && (r.out == Consumed(i) ==> r.k == k.(q := k.q.(pending := k.q.pending - {i})))
            && (cap == Some(InterruptCap(i)) && !s.flag ==>
                  && r.out.Silent? && Parks(k, r.k, WaitingIrq(i)) && IrqAt(r.k.q, i) == IrqStory(false, Some(c))
                  && r.k.q.displaced == k.q.displaced + (if s.waiter.Some? then {s.waiter.value} else {}))
            && (r.out == Rejected(-2) <==> cap.None? || !cap.value.InterruptCap?)
            && (r.out.Rejected? ==> r.k == k)
  {
    IrqFollows(es, i);
  }

  /** In every run from boot a raise makes the waiter runnable, behind those that are, and otherwise changes no
      queue. */
  lemma RaiseAnswers(es: seq<Event>, i: Irq)
    requires Legal(BOOT, es) && Enabled(Run(BOOT, es), Interrupted(i))
    ensures var k, k' := Run(BOOT, es), Step(Run(BOOT, es), Interrupted(i));
            if StoryOf(es, i).waiter.Some? then Wakes(k, k', StoryOf(es, i).waiter.value)
            else k' == k.(q := k.q.(pending := k.q.pending + {i}))
  {
    IrqFollows(es, i);
  }

  // ---- creating endpoints ----

  predicate SameSpace(a: Option<ThreadInfo>, b: Option<ThreadInfo>) {
    a.Some? && b.Some? && a.value.cspace == b.value.cspace
  }

  /** A new endpoint gets the lowest handle that named nothing; it names the endpoint with all rights, for the
      threads of the caller's capability space, and every other handle of every thread stays as it was. */
  lemma CreateAnswers(es: seq<Event>, e: Event, t: Tid, handle: nat)
    requires Legal(BOOT, es) && e.EndpointCreate? && Enabled(Run(BOOT, es), e)
    ensures var k, r := Run(BOOT, es), Perform(Run(BOOT, es), e);
            var c := k.q.current.value;
            && AddedAs(es, c).Some?
            && r.out.Created? && r.out.ep == e.ep && Lookup(SlotsOf(k, c), r.out.handle).None?
            && (forall lower: nat | lower < r.out.handle :: Lookup(SlotsOf(k, c), lower).Some?)
            && EndpointAt(r.k.q.endpoints, e.ep).Idle?
            && Lookup(SlotsOf(r.k, t), handle)
               == (if SameSpace(AddedAs(es, t), AddedAs(es, c)) && handle == r.out.handle
                   then Some(EndpointCap(e.ep, {SEND, RECEIVE, WAIT})) else Lookup(SlotsOf(k, t), handle))
  {
    var k := Run(BOOT, es);
    var c := k.q.current.value;
    BootSound();
    RunKeepsSound(BOOT, es);
    assert Holds(k.q, AtCurrent, c);
    ThreadFollows(es, t);
    ThreadFollows(es, c);
    InsertedExact(SlotsOf(k, c), EndpointCap(e.ep, ALL_RIGHTS), handle);
  }

  // ---- resuming ----

  /** A blocked thread's call ends when, and only when, the thread becomes the current one; it then returns with what
      its buffer holds. */
  ghost predicate EndsByRunning(k: Kernel, r: Outcome, t: Tid)
    requires t in k.calls
  {
    r.k.mode.Running? || r.k.mode.Parked? ==>
      if r.k.q.current == Some(t) then r.out == Returned(t, k.calls[t], BufferAt(k, t)) && t !in r.k.calls
      else t in r.k.calls && r.k.calls[t] == k.calls[t] && !(r.out.Returned? && r.out.t == t)
  }

  lemma LandEnds(k: Kernel, next: Tid, st: SavedState, rax: Sp, t: Tid)
    requires t in k.calls && k.q.current == Some(next)
    ensures EndsByRunning(k, Land(k, next, st, rax), t)
  {
  }

  lemma SwitchEnds(k: Kernel, from: Option<Tid>, sp: Sp, t: Tid)
    requires t in k.calls && k.q.runQueue != []
    ensures EndsByRunning(k, SwitchAway(k, from, sp), t)
  {
    var next := k.q.runQueue[0];
    var st := SavedAt(k.m.saved, next);
    LandEnds(k.(q := Dispatch(k.q), m := LeaveStack(k.m, from, st, sp)), next, st, sp, t);
  }

  lemma TickEnds(k: Kernel, e: Event, t: Tid)
    requires e.Tick? && Enabled(k, e) && t in k.calls && k.q.current != Some(t)
    ensures EndsByRunning(k, TickStep(k, e), t)
  {
    var k1 := Preempt(k, e.sp);
    if k1.q.runQueue != [] {
      var next := k1.q.runQueue[0];
      LandEnds(k1.(q := Dispatch(k1.q)), next, SavedAt(k1.m.saved, next), e.junk, t);
    }
  }

  lemma ExitEnds(k: Kernel, e: Event, t: Tid)
    requires e.Exit? && Enabled(k, e) && t in k.calls && k.q.current != Some(t)
    ensures EndsByRunning(k, ExitStep(k, e), t)
  {
    var q := ExitQueues(k);
    if q.runQueue != [] {
      var next := q.runQueue[0];
      var st := SavedAt(k.m.saved, next);
      var m := if st.Preemptive? then AfterSwitchCall(k.m, e.sp) else k.m;
      LandEnds(k.(q := Dispatch(q), m := m), next, st, e.junk, t);
    }
  }

  lemma CallEnds(k: Kernel, e: Event, t: Tid)
    requires e.Send? || e.Recv? || e.Wait? || e.WaitIrq?
    requires Enabled(k, e) && t in k.calls && k.q.current != Some(t)
    ensures EndsByRunning(k, Perform(k, e), t)
  {
  }

  lemma CallsEndByRunning(k: Kernel, e: Event, t: Tid)
    requires Enabled(k, e) && t in k.calls && k.q.current != Some(t)
    ensures EndsByRunning(k, Perform(k, e), t)
  {
    match e
    case Tick(_, _) => TickEnds(k, e, t);
    case Exit(_, _) => ExitEnds(k, e, t);
    case Yield(sp) => if k.q.runQueue != [] { SwitchEnds(GiveUp(k), k.q.current, sp, t); }
    case Switch(sp) => SwitchEnds(k, Some(k.mode.thread), sp, t);
    case AddThread(_, _, _) =>
    case SetCSpace(_, _) =>
    case EndpointCreate(_) =>
    case Interrupted(_) =>
    case _ => CallEnds(k, e, t);
  }
}
