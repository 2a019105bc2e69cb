/** What a thread does to an endpoint, a process or an interrupt it does under a capability: over whole runs,
    endpoints are touched only by calls whose handle names them with the right, and every blocking call in
    progress was issued that way. */
module Authority {
  import opened Basics
  import opened Capabilities
  import opened KernelState
  import opened KernelSteps
  import opened EndpointLedger

  /** The capability the caller names. */
  function Named(k: Kernel, handle: nat): Option<Capability>
    requires k.q.current.Some?
  {
    Lookup(SlotsOf(k, k.q.current.value), handle)
  }

  predicate Holding(k: Kernel, handle: nat, ep: EpId, right: Right)
    requires k.q.current.Some?
  {
    var cap := Named(k, handle);
    cap.Some? && cap.value.EndpointCap? && cap.value.ep == ep && right in cap.value.rights
  }

  /** The step is a send or a receive on `ep` by a thread whose handle names `ep` with the right. */
  predicate Uses(k: Kernel, e: Event, ep: EpId)
    requires Enabled(k, e)
  {
    (e.Send? && Holding(k, e.handle, ep, SEND)) || (e.Recv? && Holding(k, e.handle, ep, RECEIVE))
  }

  predicate About(o: Output, ep: EpId) { SenderSide(o, ep) || ReceiverSide(o, ep) }

  /** The entry is about `ep` if and only if the step uses `ep`; any other step leaves `ep` as it is. */
  ghost predicate Isolated(k: Kernel, e: Event, r: Outcome, ep: EpId)
    requires Enabled(k, e)
  {
    && (About(r.out, ep) <==> Uses(k, e, ep))
    && (!Uses(k, e, ep) ==> EndpointAt(r.k.q.endpoints, ep) == EndpointAt(k.q.endpoints, ep))
  }

  lemma SendIsolated(k: Kernel, e: Event, ep: EpId)
    requires e.Send? && Enabled(k, e)
    ensures Isolated(k, e, SendStep(k, e), ep)
  {
  }

  lemma RecvIsolated(k: Kernel, e: Event, ep: EpId)
    requires e.Recv? && Enabled(k, e)
    ensures Isolated(k, e, RecvStep(k, e), ep)
  {
  }

  /** Endpoints are untouched, and calls at most end. */
  ghost predicate OnlyDispatches(k: Kernel, r: Outcome) {
    && r.k.q.endpoints == k.q.endpoints && (r.out.Silent? || r.out.Returned?)
    && (forall t :: t in r.k.calls ==> t in k.calls && r.k.calls[t] == k.calls[t])
  }

  lemma SwitchDispatches(k: Kernel, from: Option<Tid>, sp: Sp)
    requires k.q.runQueue != []
    ensures OnlyDispatches(k, SwitchAway(k, from, sp))
  {
  }

  lemma TickDispatches(k: Kernel, e: Event)
    requires e.Tick?
    ensures OnlyDispatches(k, TickStep(k, e))
  {
  }

  lemma YieldDispatches(k: Kernel, e: Event)
    requires e.Yield?
    ensures OnlyDispatches(k, YieldStep(k, e))
  {
    if k.q.runQueue != [] {
      SwitchDispatches(GiveUp(k), k.q.current, e.sp);
    }
  }

  lemma ExitDispatches(k: Kernel, e: Event)
    requires e.Exit? && k.q.current.Some?
    ensures OnlyDispatches(k, ExitStep(k, e))
  {
  }

  lemma QuietIsolated(k: Kernel, e: Event, ep: EpId)
    requires Enabled(k, e)
    requires e.AddThread? || e.SetCSpace? || e.EndpointCreate? || e.Interrupted? || e.Wait? || e.WaitIrq?
    ensures Isolated(k, e, Perform(k, e), ep)
  {
  }

  lemma StepIsolated(k: Kernel, e: Event, ep: EpId)
    requires Enabled(k, e)
    ensures Isolated(k, e, Perform(k, e), ep)
  {
    match e
    case Send(_, _) => SendIsolated(k, e, ep);
    case Recv(_) => RecvIsolated(k, e, ep);
    case Tick(_, _) => TickDispatches(k, e);
    case Yield(_) => YieldDispatches(k, e);
    case Exit(_, _) => ExitDispatches(k, e);
    case Switch(sp) => SwitchDispatches(k, Some(k.mode.thread), sp);
    case _ => QuietIsolated(k, e, ep);
  }

  ghost predicate Mentions(h: seq<Output>, ep: EpId) {
    exists j :: 0 <= j < |h| && About(h[j], ep)
  }

  lemma MentionsSnoc(h: seq<Output>, o: Output, ep: EpId)
    ensures Mentions(h + [o], ep) <==> Mentions(h, ep) || About(o, ep)
  {
    if j :| 0 <= j < |h| && About(h[j], ep) {
      assert (h + [o])[j] == h[j];
    }
    if About(o, ep) {
      assert (h + [o])[|h|] == o;
    }
  }

  /** Some step of the run uses `ep`. */
  predicate EverUsed(k: Kernel, es: seq<Event>, ep: EpId)
    requires Legal(k, es)
    decreases |es|
  {
    es != [] && (EverUsed(k, es[..|es| - 1], ep) || Uses(Run(k, es[..|es| - 1]), es[|es| - 1], ep))
  }

  /** Over any run, from any state: the history mentions an endpoint if and only if some step used it under a
      capability with the right, and an endpoint nobody used is as it was. */
  lemma {:induction false} EndpointIsolation(k: Kernel, es: seq<Event>, ep: EpId)
    requires Legal(k, es)
    ensures Mentions(History(k, es), ep) <==> EverUsed(k, es, ep)
    ensures !EverUsed(k, es, ep) ==> EndpointAt(Run(k, es).q.endpoints, ep) == EndpointAt(k.q.endpoints, ep)
    decreases |es|
  {
    if es != [] {
      var before, e := es[..|es| - 1], es[|es| - 1];
      EndpointIsolation(k, before, ep);
      StepIsolated(Run(k, before), e, ep);
      MentionsSnoc(History(k, before), Perform(Run(k, before), e).out, ep);
    }
  }

  /** The step is the call `c`, made by `t` under a capability for it. */
  predicate Issues(k: Kernel, e: Event, t: Tid, c: Call)
    requires Enabled(k, e)
  {
    k.q.current == Some(t) &&
    match c
    case Sending(ep) => e.Send? && Holding(k, e.handle, ep, SEND)
    case Receiving(ep) => e.Recv? && Holding(k, e.handle, ep, RECEIVE)
    case Waiting(p) =>
      e.Wait? && var cap := Named(k, e.handle);
      cap.Some? && cap.value.ProcessCap? && cap.value.process == p && WAIT in cap.value.rights
    case WaitingIrq(i) => e.WaitIrq? && Named(k, e.handle) == Some(InterruptCap(i))
  }

  /** A call in progress after the step was in progress before it or is issued by it. */
  ghost predicate CallsIssued(k: Kernel, e: Event, r: Outcome)
    requires Enabled(k, e)
  {
    forall t :: t in r.k.calls ==> (t in k.calls && k.calls[t] == r.k.calls[t]) || Issues(k, e, t, r.k.calls[t])
  }

  lemma SendIssues(k: Kernel, e: Event)
    requires e.Send? && Enabled(k, e)
    ensures CallsIssued(k, e, SendStep(k, e))
  {
  }

  lemma RecvIssues(k: Kernel, e: Event)
    requires e.Recv? && Enabled(k, e)
    ensures CallsIssued(k, e, RecvStep(k, e))
  {
  }

  lemma StepIssues(k: Kernel, e: Event)
    requires Enabled(k, e)
    ensures CallsIssued(k, e, Perform(k, e))
  {
    match e
    case Send(_, _) => SendIssues(k, e);
    case Recv(_) => RecvIssues(k, e);
    case Tick(_, _) => TickDispatches(k, e);
    case Yield(_) => YieldDispatches(k, e);
    case Exit(_, _) => ExitDispatches(k, e);
    case Switch(sp) => SwitchDispatches(k, Some(k.mode.thread), sp);
    case _ =>
  }

  /** Some step of the run issues `c` for `t`. */
  predicate Issued(k: Kernel, es: seq<Event>, t: Tid, c: Call)
    requires Legal(k, es)
    decreases |es|
  {
    es != [] && (Issued(k, es[..|es| - 1], t, c) || Issues(Run(k, es[..|es| - 1]), es[|es| - 1], t, c))
  }

  /** After any run from boot, whatever a thread is blocked on it asked for under a capability with the right. */
  lemma {:induction false} BlockedUnderCapability(es: seq<Event>, t: Tid)
    requires Legal(BOOT, es) && t in Run(BOOT, es).calls
    ensures Issued(BOOT, es, t, Run(BOOT, es).calls[t])
    decreases |es|
  {
    if es != [] {
      var before := es[..|es| - 1];
      StepIssues(Run(BOOT, before), es[|es| - 1]);
      if t in Run(BOOT, before).calls {
        BlockedUnderCapability(before, t);
      }
    }
  }
}
