/** Short runs from boot on which the hand-off is not completed, one of each kind: a thread that waited for an
    interrupt while the head of the run queue was a preempted thread is resumed by a yield; a tick dispatches out of
    the idle loop; and a wait for an interrupt pops the thread it has just parked. */
module HandOffExample {
  import opened Basics
  import opened Capabilities
  import opened KernelState
  import opened KernelSteps
  import opened HandOff

  const INFO := ThreadInfo(None, 0)

  function FrameOf(m: Machine, t: Tid): Option<Frame> {
    if t in m.frames then Some(m.frames[t]) else None
  }

  /** Two threads, both holding a capability for interrupt 5 at handle 0, with what is saved for them,
      what lies on their stacks, and who waits for the interrupt. */
  predicate Looks(k: Kernel, mode: Mode, current: Option<Tid>, runQueue: seq<Tid>, saved1: SavedState,
                  saved2: SavedState,
                  frame1: Option<Frame>, frame2: Option<Frame>, stateToUpdate: Option<Tid>, waiter: Option<Tid>)
  {
    && k.mode == mode && k.q.current == current && k.q.runQueue == runQueue
    && SavedAt(k.m.saved, 1) == saved1 && SavedAt(k.m.saved, 2) == saved2
    && FrameOf(k.m, 1) == frame1 && FrameOf(k.m, 2) == frame2 && k.m.stateToUpdate == stateToUpdate
    && (if 5 in k.q.irqWaiters then Some(k.q.irqWaiters[5]) else None) == waiter && 5 !in k.q.pending
    && Lookup(SlotsOf(k, 1), 0) == Some(InterruptCap(5)) && Lookup(SlotsOf(k, 2), 0) == Some(InterruptCap(5))
  }

  const SETUP := [SetCSpace(0, [Some(InterruptCap(5))])] + [AddThread(1, INFO, 10)] + [AddThread(2, INFO, 20)]

  lemma Setup()
    ensures Legal(BOOT, SETUP)
    ensures Looks(Run(BOOT, SETUP), Running, None, [1, 2], Cooperative(10), Cooperative(20),
                  Some(Frame(10, Entry)), Some(Frame(20, Entry)), None, None)
  {
    var a, b, c := SetCSpace(0, [Some(InterruptCap(5))]), AddThread(1, INFO, 10), AddThread(2, INFO, 20);
    RunSnoc(BOOT, [], a);
    assert [] + [a] == [a];
    RunSnoc(BOOT, [a], b);
    RunSnoc(BOOT, [a] + [b], c);
  }

  lemma BootYields(k: Kernel)
    requires Looks(k, Running, None, [1, 2], Cooperative(10), Cooperative(20), Some(Frame(10, Entry)),
                   Some(Frame(20, Entry)), None, None)
    ensures Looks(Step(k, Yield(5)), Running, Some(1), [2], Cooperative(10), Cooperative(20), None,
                  Some(Frame(20, Entry)), None, None)
  {
  }

  lemma FirstIsPreempted(k: Kernel)
    requires Looks(k, Running, Some(1), [2], Cooperative(10), Cooperative(20), None, Some(Frame(20, Entry)), None, None)
    ensures Looks(Step(k, Tick(100, 0)), Running, Some(2), [1], Preemptive(100), Cooperative(20),
                  Some(Frame(100, Interrupt)), None, None, None)
  {
    assert [2, 1][1..] == [1];
  }

  lemma SecondParks(k: Kernel)
    requires Looks(k, Running, Some(2), [1], Preemptive(100), Cooperative(20), Some(Frame(100, Interrupt)), None, None,
                   None)
    ensures Looks(Step(k, WaitIrq(0)), Parked(2, false), None, [1], Preemptive(100), Cooperative(20),
                  Some(Frame(100, Interrupt)), None, Some(2), Some(2))
  {
  }

  lemma SecondIsLeft(k: Kernel)
    requires Looks(k, Parked(2, false), None, [1], Preemptive(100), Cooperative(20), Some(Frame(100, Interrupt)), None,
                   Some(2), Some(2))
    ensures Looks(Step(k, Switch(200)), Running, Some(1), [], Preemptive(100), Cooperative(200), None,
                  Some(Frame(200, Plain)), None, Some(2))
  {
  }

  lemma SecondIsWoken(k: Kernel)
    requires Looks(k, Running, Some(1), [], Preemptive(100), Cooperative(200), None, Some(Frame(200, Plain)), None,
                   Some(2))
    ensures Looks(Step(k, Interrupted(5)), Running, Some(1), [2], Preemptive(100), Cooperative(200), None,
                  Some(Frame(200, Plain)), None, None)
  {
  }

  lemma FirstYields(k: Kernel)
    requires Looks(k, Running, Some(1), [2], Preemptive(100), Cooperative(200), None, Some(Frame(200, Plain)), None,
                   None)
    ensures Looks(Step(k, Yield(300)), Running, Some(2), [1], Preemptive(100), Cooperative(200),
                  Some(Frame(300, AfterSwitch)), None, Some(1), None)
    ensures !Safe(k, Yield(300))
  {
    assert [2, 1][1..] == [1];
  }

  const WHOLE := SETUP + [Yield(5)] + [Tick(100, 0)] + [WaitIrq(0)] + [Switch(200)] + [Interrupted(5)] + [Yield(300)]

  /** At the end thread 1 lies at stack pointer 300 but is still saved as preempted at 100, and
      STATE_TO_UPDATE names it although ordinary code of thread 2 runs. */
  lemma YieldToPlainlyResumedThread()
    ensures Legal(BOOT, WHOLE) && !AllSafe(BOOT, WHOLE)
    ensures var k := Run(BOOT, WHOLE);
            k.mode.Running? && k.q.current == Some(2) && k.m.stateToUpdate == Some(1)
            && FrameOf(k.m, 1) == Some(Frame(300, AfterSwitch)) && SavedAt(k.m.saved, 1) == Preemptive(100)
  {
    Setup();
    var s1 := SETUP;
    BootYields(Run(BOOT, s1));
    RunSnoc(BOOT, s1, Yield(5));
    var s2 := s1 + [Yield(5)];
    FirstIsPreempted(Run(BOOT, s2));
    RunSnoc(BOOT, s2, Tick(100, 0));
    var s3 := s2 + [Tick(100, 0)];
    SecondParks(Run(BOOT, s3));
    RunSnoc(BOOT, s3, WaitIrq(0));
    var s4 := s3 + [WaitIrq(0)];
    SecondIsLeft(Run(BOOT, s4));
    RunSnoc(BOOT, s4, Switch(200));
    var s5 := s4 + [Switch(200)];
    SecondIsWoken(Run(BOOT, s5));
    RunSnoc(BOOT, s5, Interrupted(5));
    var s6 := s5 + [Interrupted(5)];
    FirstYields(Run(BOOT, s6));
    RunSnoc(BOOT, s6, Yield(300));
    var s7 := s6 + [Yield(300)];
    assert s7[..|s7| - 1] == s6 && s7[|s7| - 1] == Yield(300);
  }

  // ---- a thread alone ----

  const ALONE := [SetCSpace(0, [Some(InterruptCap(5))])] + [AddThread(1, INFO, 10)] + [Yield(5)] + [WaitIrq(0)]
      + [Interrupted(5)]

  /** The only thread waits for an interrupt, which arrives: it is runnable, but its stack has not been left. */
  predicate WokenInIdleLoop(k: Kernel) {
    && k.mode == Parked(1, true) && k.q.current == None && k.q.runQueue == [1]
    && SavedAt(k.m.saved, 1) == Cooperative(10) && FrameOf(k.m, 1) == None && k.m.stateToUpdate == Some(1)
  }

  lemma Alone()
    ensures Legal(BOOT, ALONE) && WokenInIdleLoop(Run(BOOT, ALONE))
  {
    var a, b := SetCSpace(0, [Some(InterruptCap(5))]), AddThread(1, INFO, 10);
    RunSnoc(BOOT, [], a);
    assert [] + [a] == [a];
    RunSnoc(BOOT, [a], b);
    AloneRuns(Run(BOOT, [a] + [b]));
    RunSnoc(BOOT, [a] + [b], Yield(5));
    RunSnoc(BOOT, [a] + [b] + [Yield(5)], WaitIrq(0));
    RunSnoc(BOOT, [a] + [b] + [Yield(5)] + [WaitIrq(0)], Interrupted(5));
  }

  lemma AloneRuns(k: Kernel)
    requires k.mode.Running? && k.q.current == None && k.q.runQueue == [1] && k.q.irqWaiters == map[]
             && k.q.pending == {}
    requires SavedAt(k.m.saved, 1) == Cooperative(10) && FrameOf(k.m, 1) == Some(Frame(10, Entry))
             && k.m.stateToUpdate == None
    requires Lookup(SlotsOf(k, 1), 0) == Some(InterruptCap(5))
    ensures var k1 := Step(k, Yield(5));
            && Enabled(k1, WaitIrq(0)) && Enabled(Step(k1, WaitIrq(0)), Interrupted(5))
            && WokenInIdleLoop(Step(Step(k1, WaitIrq(0)), Interrupted(5)))
  {
    var k1 := Step(k, Yield(5));
    assert k1.mode.Running? && k1.q.current == Some(1) && k1.q.runQueue == [] && k1.q.irqWaiters == map[]
           && k1.q.pending == {};
    assert Lookup(SlotsOf(k1, 1), 0) == Some(InterruptCap(5));
    var k2 := Step(k1, WaitIrq(0));
    assert k2.mode == Parked(1, true) && 5 in k2.q.irqWaiters && k2.q.irqWaiters[5] == 1;
  }

  /** A tick between the wake-up and the end of the idle loop enters the thread at a stack pointer it left long ago. */
  lemma TickOutOfIdleLoop()
    ensures Legal(BOOT, ALONE + [Tick(99, 0)]) && Run(BOOT, ALONE + [Tick(99, 0)]).mode == Derailed
  {
    Alone();
    RunSnoc(BOOT, ALONE, Tick(99, 0));
  }

  /** So does the idle loop itself when it pops the thread it has just parked. */
  lemma WaitPopsItsCaller()
    ensures Legal(BOOT, ALONE + [Switch(99)]) && Run(BOOT, ALONE + [Switch(99)]).mode == Derailed
  {
    Alone();
    RunSnoc(BOOT, ALONE, Switch(99));
  }
}
