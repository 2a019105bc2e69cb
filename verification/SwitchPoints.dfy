/** Where a thread was last switched out, told from the events of a run alone: what is saved for a suspended
    thread is the stack pointer of that event, and a yield panics exactly on a head the timer switched out. */
module SwitchPoints {
  import opened Basics
  import opened KernelState
  import opened KernelSteps
  import opened Conservation
  import opened HandOff

  /** The state under which the event `e`, in state `k`, switches the thread `t` out, if it does. A fresh thread
      counts as switched out at its entry. */
  function SwitchesOut(k: Kernel, e: Event, t: Tid): Option<SavedState> {
    match e
    case AddThread(x, _, sp) => if x == t then Some(Cooperative(sp)) else None
    case Tick(sp, _) => if k.q.current == Some(t) then Some(Preemptive(sp)) else None
    case Yield(sp) => if k.q.current == Some(t) && k.q.runQueue != [] then Some(Cooperative(sp)) else None
    case Switch(sp) => if k.mode.Parked? && k.mode.thread == t then Some(Cooperative(sp)) else None
    case _ => None
  }

  /** The last time the run switched `t` out. */
  function LastOut(es: seq<Event>, t: Tid): Option<SavedState>
    requires Legal(BOOT, es)
    decreases |es|
  {
    if es == [] then None
    else
      var out := SwitchesOut(Run(BOOT, es[..|es| - 1]), es[|es| - 1], t);
      if out.Some? then out else LastOut(es[..|es| - 1], t)
  }

  /** A frame on a stack after a step was put there by the step, or was there before. */
  predicate FrameFrom(k: Kernel, e: Event, k': Kernel, t: Tid) {
    (k'.mode.Running? || k'.mode.Parked?) && t in k'.m.frames ==>
      var out := SwitchesOut(k, e, t);
      if out.Some? then StateOf(k'.m.frames[t]) == out.value
      else t in k.m.frames && k'.m.frames[t] == k.m.frames[t]
  }

  /** Reaching a thread puts no frame anywhere. */
  lemma LandFrames(k: Kernel, next: Tid, st: SavedState, rax: Sp, t: Tid)
    ensures var m' := Land(k, next, st, rax).k.m;
            t in m'.frames ==> t in k.m.frames && m'.frames[t] == k.m.frames[t]
  {
  }

  lemma SwitchAwayFrames(k: Kernel, from: Option<Tid>, sp: Sp, t: Tid)
    requires k.q.runQueue != []
    ensures var k' := SwitchAway(k, from, sp).k;
            k'.mode.Running? && t in k'.m.frames ==>
              if from == Some(t) then StateOf(k'.m.frames[t]) == Cooperative(sp)
              else t in k.m.frames && k'.m.frames[t] == k.m.frames[t]
  {
  }

  lemma YieldFrames(k: Kernel, e: Event, t: Tid)
    requires e.Yield? && Enabled(k, e)
    ensures FrameFrom(k, e, YieldStep(k, e).k, t)
  {
    if k.q.runQueue != [] {
      SwitchAwayFrames(GiveUp(k), k.q.current, e.sp, t);
    }
  }

  lemma TickFrames(k: Kernel, e: Event, t: Tid)
    requires e.Tick? && Enabled(k, e)
    ensures FrameFrom(k, e, TickStep(k, e).k, t)
  {
    var k1 := Preempt(k, e.sp);
    if k1.q.runQueue != [] {
      LandFrames(k1.(q := Dispatch(k1.q)), k1.q.runQueue[0], SavedAt(k1.m.saved, k1.q.runQueue[0]), e.junk, t);
    }
  }

  lemma ExitFrames(k: Kernel, e: Event, t: Tid)
    requires e.Exit? && Enabled(k, e)
    ensures FrameFrom(k, e, ExitStep(k, e).k, t)
  {
  }

  /** A call that does not end its caller leaves all stacks alone. */
  lemma CallFrames(k: Kernel, e: Event, t: Tid)
    requires e.Send? || e.Recv? || e.Wait? || e.WaitIrq?
    requires Enabled(k, e)
    ensures FrameFrom(k, e, Step(k, e), t)
  {
  }

  lemma StepFrames(k: Kernel, e: Event, t: Tid)
    requires Enabled(k, e)
    ensures FrameFrom(k, e, Step(k, e), t)
  {
    match e
    case Tick(_, _) => TickFrames(k, e, t);
    case Yield(_) => YieldFrames(k, e, t);
    case Exit(_, _) => ExitFrames(k, e, t);
    case Switch(sp) => SwitchAwayFrames(k, Some(k.mode.thread), sp, t);
    case AddThread(_, _, _) =>
    case SetCSpace(_, _) =>
    case EndpointCreate(_) =>
    case Interrupted(_) =>
    case _ => CallFrames(k, e, t);
  }

  lemma {:induction false} FramesAlongRun(es: seq<Event>, t: Tid)
    requires Legal(BOOT, es) && (Run(BOOT, es).mode.Running? || Run(BOOT, es).mode.Parked?)
    requires t in Run(BOOT, es).m.frames
    ensures LastOut(es, t) == Some(StateOf(Run(BOOT, es).m.frames[t]))
    decreases |es|
  {
    if es != [] {
      var before, e := es[..|es| - 1], es[|es| - 1];
      StepFrames(Run(BOOT, before), e, t);
      if SwitchesOut(Run(BOOT, before), e, t).None? {
        FramesAlongRun(before, t);
      }
    }
  }

  /** In every run whose steps are safe, what is saved for a suspended thread is the state of the event that last
      switched it out. */
  lemma SavedAtLastSwitchOut(es: seq<Event>, t: Tid)
    requires Legal(BOOT, es) && AllSafe(BOOT, es)
    requires var k := Run(BOOT, es);
             Suspended(k.q, t) && (k.mode.Running? || (k.mode.Parked? && k.mode.thread != t))
    ensures LastOut(es, t) == Some(SavedAt(Run(BOOT, es).m.saved, t))
  {
    SavedStateHandOff(es);
    assert HandedOff(Run(BOOT, es));
    assert SavedRight(Run(BOOT, es).m, t);
    FramesAlongRun(es, t);
  }

  lemma YieldHalts(k: Kernel, e: Event)
    requires e.Yield? && Enabled(k, e)
    ensures YieldStep(k, e).k.mode.Halted? <==>
            k.q.runQueue != [] && SavedAt(k.m.saved, k.q.runQueue[0]).Preemptive?
  {
    if k.q.runQueue != [] {
      assert GiveUp(k).q.runQueue[0] == k.q.runQueue[0];
    }
  }

  lemma ExitHalts(k: Kernel, e: Event)
    requires e.Exit? && Enabled(k, e)
    ensures ExitStep(k, e).k.mode.Halted? <==>
            && k.q.runQueue == []
            && var p := ProcessOf(k, k.q.current.value);
               p.Some? ==> ProcessAt(k.q.processes, p.value).waitQueue == []
  {
  }

  /** A step halts the kernel exactly when it yields to a preempted head, or exits with nobody left to run. */
  lemma HaltsExactly(k: Kernel, e: Event)
    requires Enabled(k, e)
    ensures Step(k, e).mode.Halted? <==>
            || (e.Yield? && k.q.runQueue != [] && SavedAt(k.m.saved, k.q.runQueue[0]).Preemptive?)
            || (e.Exit? && k.q.runQueue == []
                && var p := ProcessOf(k, k.q.current.value);
                   p.Some? ==> ProcessAt(k.q.processes, p.value).waitQueue == [])
  {
    match e
    case Yield(_) => YieldHalts(k, e);
    case Exit(_, _) => ExitHalts(k, e);
    case _ =>
  }

  /** In safe runs a yield panics if and only if the timer switched the head of the run queue out. */
  lemma YieldPanics(es: seq<Event>, sp: Sp)
    requires Legal(BOOT, es) && AllSafe(BOOT, es) && Enabled(Run(BOOT, es), Yield(sp))
    ensures var k := Run(BOOT, es);
            Step(k, Yield(sp)).mode.Halted? <==>
            k.q.runQueue != [] && LastOut(es, k.q.runQueue[0]).Some? && LastOut(es, k.q.runQueue[0]).value.Preemptive?
  {
    var k := Run(BOOT, es);
    HaltsExactly(k, Yield(sp));
    BootSound();
    RunKeepsSound(BOOT, es);
    if k.q.runQueue != [] {
      HeadSuspended(k.q);
      SavedAtLastSwitchOut(es, k.q.runQueue[0]);
    }
  }
}
