/** The saved-state hand-off: a blocking call leaves the stack pointer of the parked thread to be
    stored by `after_switch` once the processor has left that thread's stack. This module says
    exactly which steps complete that hand-off. */
module HandOff {
  import opened Basics
  import opened KernelState
  import opened KernelSteps
  import opened Conservation

  /** `t` is suspended: added, not running, and neither exited nor displaced. */
  predicate Suspended(q: Queues, t: Tid) {
    t in q.threads && q.current != Some(t) && t !in q.exited && t !in q.displaced
  }

  /** What is saved for `t` is the stack pointer it was last switched out at. */
  predicate SavedRight(m: Machine, t: Tid) {
    t in m.frames && SavedAt(m.saved, t) == StateOf(m.frames[t])
  }

  /** In ordinary mode STATE_TO_UPDATE is null and every suspended thread is saved right; while a
      thread is parked, STATE_TO_UPDATE names it and every other suspended thread is saved right. */
  ghost predicate HandedOff(k: Kernel) {
    match k.mode
    case Running =>
      && k.m.stateToUpdate.None?
      && (k.q.current.Some? ==> k.q.current.value !in k.m.frames)
      && (forall t :: Suspended(k.q, t) ==> SavedRight(k.m, t))
    case Parked(p, _) =>
      && k.m.stateToUpdate == Some(p)
      && Suspended(k.q, p)
      && p !in k.m.frames
      && (forall t :: Suspended(k.q, t) && t != p ==> SavedRight(k.m, t))
    case Halted => true
    case Derailed => false
  }

  /** The steps that complete the hand-off, as a condition on the state before them:
      no tick dispatches out of the idle loop; the idle loop does not switch to the thread it parked,
      unless that thread's last saved stack pointer is the one it is now switched out at; and no
      thread that was switched out towards a preempted one is resumed by `switch_context`. */
  predicate Safe(k: Kernel, e: Event)
    requires Enabled(k, e)
  {
    match e
    case Tick(_, _) => k.mode.Running? || k.q.runQueue == []
    case Yield(_) =>
      k.q.runQueue == [] || k.q.current.None? || SavedAt(k.m.saved, k.q.runQueue[0]).Preemptive?
      || !ResumesPlainly(k.m, k.q.runQueue[0])
    case Switch(sp) =>
      if k.q.runQueue[0] == k.mode.thread then SavedAt(k.m.saved, k.q.runQueue[0]) == Cooperative(sp)
      else !ResumesPlainly(k.m, k.q.runQueue[0])
    case _ => true
  }

  predicate ResumesPlainly(m: Machine, t: Tid) {
    t in m.frames && m.frames[t].point.Plain?
  }

  /** The head of the run queue is suspended. */
  lemma HeadSuspended(q: Queues)
    requires Placed(q) && q.runQueue != []
    ensures Suspended(q, q.runQueue[0])
  {
    assert Holds(q, AtRunQueue, q.runQueue[0]);
    assert !Holds(q, AtExit, q.runQueue[0]) && !Holds(q, AtDisplaced, q.runQueue[0]);
    assert !Holds(q, AtCurrent, q.runQueue[0]);
  }

  /** The current thread is not displaced, exited or runnable, so queueing it suspends it. */
  ghost predicate OnlyCurrent(q: Queues) {
    q.current.Some? &&
    var c := q.current.value;
    && c in q.threads && c !in q.exited && c !in q.displaced && c !in q.runQueue
    && forall i :: i in q.irqWaiters ==> q.irqWaiters[i] != c
  }

  /** The current thread is owned by nothing else. */
  lemma CurrentElsewhereNot(q: Queues)
    requires Placed(q) && q.current.Some?
    ensures OnlyCurrent(q)
  {
    var c := q.current.value;
    assert Holds(q, AtCurrent, c);
    assert !Holds(q, AtExit, c) && !Holds(q, AtDisplaced, c) && !Holds(q, AtRunQueue, c);
    assert forall i :: i in q.irqWaiters ==> !Holds(q, AtIrq(i), c);
  }

  /** Queueing the current thread and entering the idle loop starts a hand-off. */
  lemma ParkStartsHandOff(k: Kernel, q: Queues, call: Call)
    requires HandedOff(k) && k.mode.Running? && k.q.current.Some?
    requires q.threads == k.q.threads && q.current.None? && q.exited == k.q.exited
    requires q.displaced >= k.q.displaced && Suspended(q, k.q.current.value)
    ensures HandedOff(Park(k, q, call))
  {
    assert forall t: Tid :: Suspended(q, t) && t != k.q.current.value ==> Suspended(k.q, t);
  }

  /** Steps that move no thread in or out of suspension and leave the machine alone. */
  lemma UntouchedKeepsHandOff(k: Kernel, k': Kernel)
    requires HandedOff(k) && k'.m == k.m && k'.mode == k.mode
    requires k'.q.threads == k.q.threads && k'.q.current == k.q.current
    requires k'.q.exited == k.q.exited && k'.q.displaced == k.q.displaced
    ensures HandedOff(k')
  {
  }

  lemma AddKeepsHandOff(k: Kernel, t: Tid, info: ThreadInfo, sp: Sp)
    requires HandedOff(k) && k.mode.Running? && t !in k.q.threads
    requires k.q.current.Some? ==> k.q.current.value in k.q.threads
    ensures HandedOff(AddStep(k, AddThread(t, info, sp)).k)
  {
    var k' := AddStep(k, AddThread(t, info, sp)).k;
    assert forall x: Tid :: Suspended(k'.q, x) ==> x == t || Suspended(k.q, x);
  }

  /** A blocking call either returns with the machine untouched or parks its caller. */
  lemma SendKeepsHandOff(k: Kernel, e: Event)
    requires e.Send? && OnlyCurrent(k.q) && HandedOff(k) && k.mode.Running?
    ensures HandedOff(SendStep(k, e).k)
  {
    var k' := SendStep(k, e).k;
    if k'.mode.Running? {
      UntouchedKeepsHandOff(k, k');
    } else {
      ParkStartsHandOff(k, k'.q, k'.calls[k.q.current.value]);
    }
  }

  lemma RecvKeepsHandOff(k: Kernel, e: Event)
    requires e.Recv? && OnlyCurrent(k.q) && HandedOff(k) && k.mode.Running?
    ensures HandedOff(RecvStep(k, e).k)
  {
    var k' := RecvStep(k, e).k;
    if k'.mode.Running? {
      UntouchedKeepsHandOff(k, k');
    } else {
      var k1 := k.(buffers := k'.buffers);
      UntouchedKeepsHandOff(k, k1);
      ParkStartsHandOff(k1, k'.q, k'.calls[k.q.current.value]);
    }
  }

  lemma WaitKeepsHandOff(k: Kernel, e: Event)
    requires e.Wait? && OnlyCurrent(k.q) && HandedOff(k) && k.mode.Running?
    ensures HandedOff(WaitStep(k, e).k)
  {
    var k' := WaitStep(k, e).k;
    if k'.mode.Parked? {
      ParkStartsHandOff(k, k'.q, k'.calls[k.q.current.value]);
    }
  }

  lemma WaitIrqKeepsHandOff(k: Kernel, e: Event)
    requires e.WaitIrq? && OnlyCurrent(k.q) && HandedOff(k) && k.mode.Running?
    ensures HandedOff(WaitIrqStep(k, e).k)
  {
    var k' := WaitIrqStep(k, e).k;
    if k'.mode.Running? {
      UntouchedKeepsHandOff(k, k');
    } else {
      ParkStartsHandOff(k, k'.q, k'.calls[k.q.current.value]);
    }
  }

  /** Control reaches a thread that is saved right, with nothing left to hand off. */
  lemma LandCompletes(k: Kernel, t: Tid, rax: Sp)
    requires k.q.current == Some(t) && k.m.stateToUpdate.None? && SavedRight(k.m, t)
    requires forall x :: Suspended(k.q, x) ==> SavedRight(k.m, x)
    ensures HandedOff(Land(k, t, SavedAt(k.m.saved, t), rax).k)
  {
  }

  /** The timer interrupt saves the current thread right. */
  lemma PreemptSaves(k: Kernel, sp: Sp, t: Tid)
    requires HandedOff(k) && k.mode.Running? && (Suspended(k.q, t) || k.q.current == Some(t))
    ensures SavedRight(Preempt(k, sp).m, t) && Preempt(k, sp).m.stateToUpdate.None?
  {
  }

  /** In ordinary mode a tick saves the current thread itself, so nothing is left to hand off. */
  lemma TickCompletes(k: Kernel, e: Event)
    requires e.Tick? && HandedOff(k) && k.mode.Running?
    requires k.q.runQueue != [] ==> Suspended(k.q, k.q.runQueue[0])
    ensures HandedOff(TickStep(k, e).k)
  {
    var k1 := Preempt(k, e.sp);
    if k1.q.runQueue != [] {
      var next, q' := k1.q.runQueue[0], Dispatch(k1.q);
      assert k.q.current == Some(next) || Suspended(k.q, next);
      PreemptSaves(k, e.sp, next);
      forall t: Tid | Suspended(q', t) ensures SavedRight(k1.m, t) {
        PreemptSaves(k, e.sp, t);
      }
      LandCompletes(k1.(q := q'), next, e.junk);
    }
  }

  /** Landing on a thread while another one is parked leaves the parked one without a frame. */
  lemma IdleLanding(k: Kernel, rax: Sp)
    requires HandedOff(k) && k.mode.Parked? && k.q.runQueue != []
    ensures var next := k.q.runQueue[0];
            !HandedOff(Land(k.(q := Dispatch(k.q)), next, SavedAt(k.m.saved, next), rax).k)
  {
    var next := k.q.runQueue[0];
    var k' := Land(k.(q := Dispatch(k.q)), next, SavedAt(k.m.saved, next), rax).k;
    if k'.mode.Running? {
      assert next != k.mode.thread && k.mode.thread !in k'.m.frames;
      assert Suspended(k'.q, k.mode.thread) && !SavedRight(k'.m, k.mode.thread);
    }
  }

  /** Out of the idle loop, a tick that dispatches abandons the parked thread. */
  lemma TickWhileIdle(k: Kernel, e: Event)
    requires e.Tick? && HandedOff(k) && k.mode.Parked? && k.q.current.None?
    ensures HandedOff(TickStep(k, e).k) <==> k.q.runQueue == []
  {
    if k.q.runQueue != [] {
      IdleLanding(k, e.junk);
    }
  }

  lemma ExitCore(k: Kernel, sp: Sp, junk: Sp)
    requires HandedOff(k) && Enabled(k, Exit(sp, junk))
    requires var q2 := ExitStep(k, Exit(sp, junk)).k.q; q2.current.Some? ==> Suspended(k.q, q2.current.value)
    ensures HandedOff(ExitStep(k, Exit(sp, junk)).k)
  {
    var k' := ExitStep(k, Exit(sp, junk)).k;
    assert forall t: Tid :: Suspended(k'.q, t) ==> Suspended(k.q, t) && k'.q.current != Some(t);
  }

  lemma ExitSafe(k: Kernel, sp: Sp, junk: Sp)
    requires Sound(k) && HandedOff(k) && Enabled(k, Exit(sp, junk))
    ensures HandedOff(ExitStep(k, Exit(sp, junk)).k)
  {
    ExitQueuesPlaced(k);
    if ExitQueues(k).runQueue != [] {
      HeadSuspended(ExitQueues(k));
    }
    ExitCore(k, sp, junk);
  }

  /** The state in which a thread `p` has just been queued and the head is about to be dispatched. */
  ghost predicate Leaving(k: Kernel, p: Tid) {
    && k.q.current.None? && k.q.runQueue != [] && Suspended(k.q, k.q.runQueue[0])
    && k.m.stateToUpdate == Some(p) && Suspended(k.q, p) && p !in k.m.frames
    && (forall t :: Suspended(k.q, t) && t != p ==> SavedRight(k.m, t))
  }

  /** Switching to the very thread that was parked works only if its old saved state is right by coincidence. */
  lemma SelfSwitchExact(k: Kernel, p: Tid, sp: Sp)
    requires Leaving(k, p) && k.q.runQueue[0] == p
    ensures HandedOff(SwitchAway(k, Some(p), sp).k) <==> SavedAt(k.m.saved, p) == Cooperative(sp)
  {
    assert forall t: Tid :: Suspended(Dispatch(k.q), t) ==> Suspended(k.q, t) && t != p;
  }

  lemma PlainSwitchBreaks(k: Kernel, p: Tid, sp: Sp)
    requires Leaving(k, p) && k.q.runQueue[0] != p && ResumesPlainly(k.m, k.q.runQueue[0])
    ensures !HandedOff(SwitchAway(k, Some(p), sp).k)
  {
  }

  lemma OtherSwitchCompletes(k: Kernel, p: Tid, sp: Sp)
    requires Leaving(k, p) && k.q.runQueue[0] != p && !ResumesPlainly(k.m, k.q.runQueue[0])
    ensures HandedOff(SwitchAway(k, Some(p), sp).k)
  {
    var next, k' := k.q.runQueue[0], SwitchAway(k, Some(p), sp).k;
    assert SavedRight(k.m, next);
    assert k'.mode.Running? && k'.m.frames.Keys == k.m.frames.Keys + {p} - {next};
    forall t: Tid | Suspended(k'.q, t) ensures SavedRight(k'.m, t) {
      assert Suspended(k.q, t) && t != next;
      if t != p {
        assert SavedRight(k.m, t);
      }
    }
  }

  /** The common tail of yielding and blocking: `p` is the thread being left. */
  lemma SwitchAwayExact(k: Kernel, p: Tid, sp: Sp)
    requires Leaving(k, p)
    ensures HandedOff(SwitchAway(k, Some(p), sp).k) <==>
            if k.q.runQueue[0] == p then SavedAt(k.m.saved, p) == Cooperative(sp)
            else !ResumesPlainly(k.m, k.q.runQueue[0])
  {
    if k.q.runQueue[0] == p {
      SelfSwitchExact(k, p, sp);
    } else if ResumesPlainly(k.m, k.q.runQueue[0]) {
      PlainSwitchBreaks(k, p, sp);
    } else {
      OtherSwitchCompletes(k, p, sp);
    }
  }

  /** Yielding from the boot context leaves no thread to be saved. */
  lemma BootYieldCompletes(k: Kernel, e: Event)
    requires e.Yield? && HandedOff(k) && k.mode.Running? && k.q.current.None?
    requires k.q.runQueue != [] && Suspended(k.q, k.q.runQueue[0])
    ensures HandedOff(YieldStep(k, e).k)
  {
    var head, q' := k.q.runQueue[0], Dispatch(k.q);
    assert SavedRight(k.m, head);
    forall t: Tid | Suspended(q', t) ensures SavedRight(k.m, t) {
      assert Suspended(k.q, t);
    }
    LandCompletes(k.(q := q'), head, e.sp);
  }

  /** The yielding thread is queued before it is saved. */
  lemma GiveUpLeaves(k: Kernel)
    requires HandedOff(k) && k.mode.Running? && OnlyCurrent(k.q)
    requires k.q.runQueue != [] && Suspended(k.q, k.q.runQueue[0])
    ensures Leaving(GiveUp(k), k.q.current.value)
  {
    var c, k1 := k.q.current.value, GiveUp(k);
    assert k1.q.runQueue[0] == k.q.runQueue[0];
    forall t: Tid | Suspended(k1.q, t) && t != c ensures SavedRight(k1.m, t) {
      assert Suspended(k.q, t);
      assert SavedRight(k.m, t);
    }
  }

  lemma YieldCore(k: Kernel, e: Event)
    requires e.Yield? && HandedOff(k) && Enabled(k, e)
    requires k.q.current.Some? ==> OnlyCurrent(k.q)
    requires k.q.runQueue != [] ==> Suspended(k.q, k.q.runQueue[0])
    ensures HandedOff(YieldStep(k, e).k) <==> Safe(k, e)
  {
    if k.q.runQueue != [] {
      if k.q.current.None? {
        BootYieldCompletes(k, e);
      } else if SavedAt(k.m.saved, k.q.runQueue[0]).Cooperative? {
        GiveUpLeaves(k);
        assert k.q.runQueue[0] != k.q.current.value;
        SwitchAwayExact(GiveUp(k), k.q.current.value, e.sp);
      }
    }
  }

  lemma QuietKeepsHandOff(k: Kernel, e: Event)
    requires HandedOff(k) && Enabled(k, e) && (e.SetCSpace? || e.EndpointCreate? || e.Interrupted?)
    ensures HandedOff(Step(k, e))
  {
    UntouchedKeepsHandOff(k, Step(k, e));
  }

  /** From a state in which the hand-off is complete, a step leads to such a state if and only if it
      is one of the safe ones. */
  lemma HandOffStep(k: Kernel, e: Event)
    requires Sound(k) && HandedOff(k) && Enabled(k, e)
    ensures HandedOff(Step(k, e)) <==> Safe(k, e)
  {
    if k.q.current.Some? { CurrentElsewhereNot(k.q); }
    if k.q.runQueue != [] { HeadSuspended(k.q); }
    match e
    case AddThread(t, info, sp) => AddKeepsHandOff(k, t, info, sp);
    case Tick(_, _) => if k.mode.Running? { TickCompletes(k, e); } else { TickWhileIdle(k, e); }
    case Yield(_) => YieldCore(k, e);
    case Exit(sp, junk) => ExitSafe(k, sp, junk);
    case Switch(sp) => SwitchAwayExact(k, k.mode.thread, sp);
    case SetCSpace(_, _) => QuietKeepsHandOff(k, e);
    case EndpointCreate(_) => QuietKeepsHandOff(k, e);
    case Interrupted(_) => QuietKeepsHandOff(k, e);
    case Send(_, _) => SendKeepsHandOff(k, e);
    case Recv(_) => RecvKeepsHandOff(k, e);
    case Wait(_) => WaitKeepsHandOff(k, e);
    case WaitIrq(_) => WaitIrqKeepsHandOff(k, e);
  }

  /** Every step of the run is a safe one. */
  ghost predicate AllSafe(k: Kernel, es: seq<Event>)
    requires Legal(k, es)
    decreases |es|
  {
    es != [] ==> AllSafe(k, es[..|es| - 1]) && Safe(Run(k, es[..|es| - 1]), es[|es| - 1])
  }

  /** The hand-off is complete in every state of the run. */
  ghost predicate AlwaysHandedOff(k: Kernel, es: seq<Event>)
    requires Legal(k, es)
    decreases |es|
  {
    HandedOff(Run(k, es)) && (es != [] ==> AlwaysHandedOff(k, es[..|es| - 1]))
  }

  lemma {:induction false} HandOffAlongRun(k: Kernel, es: seq<Event>)
    requires Sound(k) && HandedOff(k) && Legal(k, es)
    ensures AlwaysHandedOff(k, es) <==> AllSafe(k, es)
    decreases |es|
  {
    if es != [] {
      var before := es[..|es| - 1];
      HandOffAlongRun(k, before);
      RunKeepsSound(k, before);
      if AlwaysHandedOff(k, before) {
        HandOffStep(Run(k, before), es[|es| - 1]);
      }
    }
  }

  /** From boot, STATE_TO_UPDATE is null whenever ordinary code runs and every suspended thread is
      saved at the stack pointer it was switched out at, in all states of a run, if and only if
      every step of the run is safe. */
  lemma SavedStateHandOff(es: seq<Event>)
    requires Legal(BOOT, es)
    ensures AlwaysHandedOff(BOOT, es) <==> AllSafe(BOOT, es)
  {
    BootSound();
    HandOffAlongRun(BOOT, es);
  }

  lemma JunkIgnored(k: Kernel, t: Tid, st: SavedState, junk: Sp, junk': Sp)
    requires k.m.stateToUpdate.None?
    ensures Land(k, t, st, junk) == Land(k, t, st, junk')
  {
  }

  /** While the hand-off is complete, the value the accumulator happens to hold when a tick or an exit
      enters a frame makes no difference at all. */
  lemma JunkIsHarmless(k: Kernel, sp: Sp, junk: Sp, junk': Sp)
    requires HandedOff(k) && k.mode.Running?
    ensures TickStep(k, Tick(sp, junk)) == TickStep(k, Tick(sp, junk'))
    ensures k.q.current.Some? ==> ExitStep(k, Exit(sp, junk)) == ExitStep(k, Exit(sp, junk'))
  {
    var k1 := Preempt(k, sp);
    if k1.q.runQueue != [] {
      var next := k1.q.runQueue[0];
      JunkIgnored(k1.(q := Dispatch(k1.q)), next, SavedAt(k1.m.saved, next), junk, junk');
    }
    if k.q.current.Some? && ExitQueues(k).runQueue != [] {
      var next := ExitQueues(k).runQueue[0];
      JunkIgnored(k.(q := Dispatch(ExitQueues(k))), next, SavedAt(k.m.saved, next), junk, junk');
    }
  }
}
