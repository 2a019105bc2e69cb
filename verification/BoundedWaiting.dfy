/** The run queue is first come first served: how long a runnable thread waits. */
module BoundedWaiting {
  import opened Basics
  import opened Capabilities
  import opened KernelState
  import opened KernelSteps
  import opened Conservation
  import opened HandOff
  import opened WaitAndIrq

  /** The step takes a thread off the head of the run queue. */
  predicate Dispatches(k: Kernel, e: Event)
    requires Enabled(k, e)
  {
    match e
    case Tick(_, _) => k.q.runQueue != [] || k.q.current.Some?
    case Yield(_) => k.q.runQueue != []
    case Exit(_, _) => ExitQueues(k).runQueue != []
    case Switch(_) => true
    case _ => false
  }

  /** How many dispatches a run makes. */
  function CountDispatches(k: Kernel, es: seq<Event>): nat
    requires Legal(k, es)
    decreases |es|
  {
    if es == [] then 0
    else CountDispatches(k, es[..|es| - 1]) + if Dispatches(Run(k, es[..|es| - 1]), es[|es| - 1]) then 1 else 0
  }

  /** From `q` to `q'` threads are only appended at the back and, by a dispatch, the one at the front
      is taken off and becomes current. */
  predicate Fifo(q: Queues, q': Queues, dispatch: bool) {
    if !dispatch then q.runQueue <= q'.runQueue
    else q.runQueue != [] ==> q'.current == Some(q.runQueue[0]) && q.runQueue[1..] <= q'.runQueue
  }

  lemma DispatchFifo(q: Queues, q1: Queues)
    requires q.runQueue <= q1.runQueue && q1.runQueue != []
    ensures Fifo(q, Dispatch(q1), true)
  {
  }

  lemma TickFifo(k: Kernel, sp: Sp, junk: Sp)
    requires Enabled(k, Tick(sp, junk))
    ensures Fifo(k.q, TickStep(k, Tick(sp, junk)).k.q, Dispatches(k, Tick(sp, junk)))
  {
    var q1 := if k.q.current.Some? then Requeue(k.q) else k.q;
    if q1.runQueue != [] {
      DispatchFifo(k.q, q1);
    }
  }

  lemma YieldFifo(k: Kernel, sp: Sp)
    requires Enabled(k, Yield(sp))
    ensures Fifo(k.q, YieldStep(k, Yield(sp)).k.q, Dispatches(k, Yield(sp)))
  {
    if k.q.runQueue != [] {
      DispatchFifo(k.q, if k.q.current.Some? then Requeue(k.q) else k.q);
    }
  }

  lemma ExitFifo(k: Kernel, sp: Sp, junk: Sp)
    requires Enabled(k, Exit(sp, junk))
    ensures Fifo(k.q, ExitStep(k, Exit(sp, junk)).k.q, Dispatches(k, Exit(sp, junk)))
  {
  }

  lemma StepFifo(k: Kernel, e: Event)
    requires Enabled(k, e)
    ensures Fifo(k.q, Step(k, e).q, Dispatches(k, e))
  {
    match e
    case Tick(sp, junk) => TickFifo(k, sp, junk);
    case Yield(sp) => YieldFifo(k, sp);
    case Exit(sp, junk) => ExitFifo(k, sp, junk);
    case Switch(_) => DispatchFifo(k.q, k.q);
    case _ =>
  }

  /** The thread seen at position `i` has moved up `d` places. */
  predicate MovedUp(runQueue: seq<Tid>, t: Tid, i: nat, d: nat) {
    d <= i ==> i - d < |runQueue| && runQueue[i - d] == t
  }

  /** One step forward for the thread at position `i`, `d` dispatches after it was seen there. */
  lemma Advance(t: Tid, i: nat, d: nat, d': nat, q: Queues, q': Queues, dispatch: bool)
    requires Fifo(q, q', dispatch) && MovedUp(q.runQueue, t, i, d) && d' == d + if dispatch then 1 else 0
    ensures MovedUp(q'.runQueue, t, i, d')
    ensures d == i && d' == i + 1 ==> q'.current == Some(t)
  {
    if dispatch && d < i {
      assert q.runQueue[1..][i - d - 1] == q.runQueue[i - d];
    }
  }

  /** The last step of a run. */
  lemma RunFifo(k: Kernel, es: seq<Event>)
    requires es != [] && Legal(k, es)
    ensures var k1, e := Run(k, es[..|es| - 1]), es[|es| - 1];
            && Fifo(k1.q, Run(k, es).q, Dispatches(k1, e))
            && CountDispatches(k, es) == CountDispatches(k, es[..|es| - 1]) + if Dispatches(k1, e) then 1 else 0
  {
    StepFifo(Run(k, es[..|es| - 1]), es[|es| - 1]);
  }

  /** A thread at position `i` of the run queue moves one place forward with every dispatch, whatever
      else happens, and becomes current with dispatch number `i + 1`. */
  lemma {:induction false} WaitingIsBounded(k: Kernel, es: seq<Event>, i: nat)
    requires Legal(k, es) && i < |k.q.runQueue|
    ensures MovedUp(Run(k, es).q.runQueue, k.q.runQueue[i], i, CountDispatches(k, es))
    ensures es != [] && CountDispatches(k, es) == i + 1 && CountDispatches(k, es[..|es| - 1]) == i ==>
              Run(k, es).q.current == Some(k.q.runQueue[i])
    decreases |es|
  {
    if es != [] {
      var before, e := es[..|es| - 1], es[|es| - 1];
      var k1 := Run(k, before);
      WaitingIsBounded(k, before, i);
      RunFifo(k, es);
      Advance(k.q.runQueue[i], i, CountDispatches(k, before), CountDispatches(k, es), k1.q, Run(k, es).q,
              Dispatches(k1, e));
    }
  }

  /** Position `n` of the current thread and those behind it is current after `n` dispatches. */
  ghost predicate RunsAfter(k: Kernel, t: Tid, n: nat, es: seq<Event>)
    requires Legal(k, es)
  {
    && (n == 0 ==> k.q.current == Some(t))
    && (n > 0 && es != [] && CountDispatches(k, es) == n && CountDispatches(k, es[..|es| - 1]) == n - 1 ==>
          Run(k, es).q.current == Some(t))
  }

  lemma LineRunsInOrder(k: Kernel, line: seq<Tid>, n: nat, es: seq<Event>)
    requires n < |line| && k.q.current == Some(line[0]) && k.q.runQueue == line[1..] && Legal(k, es)
    ensures RunsAfter(k, line[n], n, es)
  {
    if n > 0 {
      assert k.q.runQueue[n - 1] == line[n];
      WaitingIsBounded(k, es, n - 1);
    }
  }

  /** When a process ends with `n` threads runnable, the thread that was `i`-th in line for its end is current after
      `n + i` further dispatches, whatever else happens. Nothing but the queues matters for this, so `k1` is any state
      with the queues the exit leaves, the state after the exit being one. */
  lemma WaitersRunInOrder(k: Kernel, e: Event, k1: Kernel, p: Pid, i: nat, es: seq<Event>)
    requires e.Exit? && Enabled(k, e) && ProcessOf(k, k.q.current.value) == Some(p) && k1.q == ExitStep(k, e).k.q
    requires i < |ProcessAt(k.q.processes, p).waitQueue| && Legal(k1, es)
    ensures RunsAfter(k1, ProcessAt(k.q.processes, p).waitQueue[i], |k.q.runQueue| + i, es)
  {
    var line := k.q.runQueue + ProcessAt(k.q.processes, p).waitQueue;
    assert k1.q.current == Some(line[0]) && k1.q.runQueue == line[1..] by {
      ExitWakesAllInOrder(k, e, p);
    }
    LineRunsInOrder(k1, line, |k.q.runQueue| + i, es);
  }

  /** The current thread followed by the run queue. */
  function Line(q: Queues): seq<Tid> {
    (if q.current.Some? then [q.current.value] else []) + q.runQueue
  }

  /** One tick sends the current thread to the back of the line. */
  lemma TickRotates(k: Kernel, sp: Sp, junk: Sp)
    requires Sound(k) && HandedOff(k) && k.mode.Running? && k.q.current.Some?
    ensures var k' := Step(k, Tick(sp, junk));
            && Sound(k') && HandedOff(k') && k'.mode.Running? && k'.q.current.Some?
            && Line(k'.q) == Line(k.q)[1..] + [Line(k.q)[0]]
            && k'.q == k.q.(runQueue := k'.q.runQueue, current := k'.q.current)
  {
    var e := Tick(sp, junk);
    StepKeepsSound(k, e);
    HandOffStep(k, e);
    var q1 := Requeue(k.q);
    assert Line(Dispatch(q1)) == q1.runQueue;
    assert Line(k.q)[1..] == k.q.runQueue;
  }

  lemma RotateOnce(line: seq<Tid>, n: nat)
    requires n < |line|
    ensures var turned := line[n..] + line[..n];
            turned != [] && turned[1..] + [turned[0]] == line[n + 1..] + line[..n + 1]
  {
  }

  /** After `|es|` ticks in a row the line has been rotated that far. */
  lemma {:induction false} TicksRotate(k: Kernel, es: seq<Event>)
    requires Sound(k) && HandedOff(k) && k.mode.Running? && k.q.current.Some?
    requires forall i :: 0 <= i < |es| ==> es[i].Tick?
    requires |es| <= |Line(k.q)|
    ensures Legal(k, es)
    ensures var k' := Run(k, es);
            && Sound(k') && HandedOff(k') && k'.mode.Running? && k'.q.current.Some?
            && Line(k'.q) == Line(k.q)[|es|..] + Line(k.q)[..|es|]
            && k'.q == k.q.(runQueue := k'.q.runQueue, current := k'.q.current)
    decreases |es|
  {
    if es != [] {
      var before, e := es[..|es| - 1], es[|es| - 1];
      TicksRotate(k, before);
      TickRotates(Run(k, before), e.sp, e.junk);
      RotateOnce(Line(k.q), |before|);
    }
  }

  /** A full turn of the line gives the queues back. */
  lemma SameLine(q: Queues, q': Queues)
    requires q.current.Some? && q'.current.Some? && q' == q.(runQueue := q'.runQueue, current := q'.current)
    requires Line(q') == Line(q)[|Line(q)|..] + Line(q)[..|Line(q)|]
    ensures q' == q
  {
    assert Line(q') == Line(q);
    assert q'.runQueue == Line(q')[1..] && q.runQueue == Line(q)[1..];
    assert q'.current.value == Line(q')[0];
  }

  lemma LineHead(q: Queues, line: seq<Tid>, j: nat)
    requires q.current.Some? && j < |line| && Line(q) == line[j..] + line[..j]
    ensures q.current == Some(line[j])
  {
    assert Line(q)[0] == line[j];
  }

  /** Round robin: with `n` threads queued behind the current one, `n + 1` ticks restore the original
      order, and every thread of the line has been current in between. */
  lemma RoundRobin(k: Kernel, es: seq<Event>)
    requires Sound(k) && HandedOff(k) && k.mode.Running? && k.q.current.Some?
    requires forall i :: 0 <= i < |es| ==> es[i].Tick?
    requires |es| == |k.q.runQueue| + 1
    ensures Legal(k, es) && Run(k, es).q == k.q
    ensures forall j :: 0 <= j < |es| ==> Legal(k, es[..j]) && Run(k, es[..j]).q.current == Some(Line(k.q)[j])
  {
    TicksRotate(k, es);
    SameLine(k.q, Run(k, es).q);
    forall j | 0 <= j < |es| ensures Legal(k, es[..j]) && Run(k, es[..j]).q.current == Some(Line(k.q)[j]) {
      TicksRotate(k, es[..j]);
      LineHead(Run(k, es[..j]).q, Line(k.q), j);
    }
  }
}
