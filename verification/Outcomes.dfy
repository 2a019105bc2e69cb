/** What each call answers and does, told without the code of the call: the answer of a send or a receive is
    computed from the history of the run before it, the messages that pass an endpoint are those of the send
    events on it in order, and a wait answers according to which threads have exited. */
module Outcomes {
  import opened Basics
  import opened Capabilities
  import opened KernelState
  import opened KernelSteps
  import opened Conservation
  import opened Calls
  import opened EndpointLedger
  import opened Authority

  // ---- sending and receiving ----

  /** What a send on `ep` by `c` shows after the history `h`: as long as no receiver has blocked there the sender
      blocks; from then on the message goes to the first receiver not served yet, or nowhere. */
  function SendAnswer(h: seq<Output>, c: Tid, ep: EpId, msg: Message): Output {
    if Receivers(h, ep) == [] then Queued(ep, c, msg)
    else if |Served(h, ep)| < |Receivers(h, ep)| then Delivered(ep, Receivers(h, ep)[|Served(h, ep)|], msg)
    else Dropped(ep, msg)
  }

  /** What a receive on `ep` by `c` shows: as long as no sender has blocked there the receiver blocks; from then on
      it takes the first accepted message not taken yet, or gets all zeros. */
  function RecvAnswer(h: seq<Output>, c: Tid, ep: EpId): Output {
    if Accepted(h, ep) == [] then ReceiverQueued(ep, c)
    else if |Taken(h, ep)| < |Accepted(h, ep)| then
      var next := Accepted(h, ep)[|Taken(h, ep)|];
      Took(ep, next.0, next.1)
    else TookNothing(ep, Message(0, 0, 0, 0, 0, 0))
  }

  /** What stands in the way of using an endpoint through a handle. */
  function Refusal(cap: Option<Capability>): CapError {
    if cap.None? then InvalidHandle else if cap.value.EndpointCap? then PermissionDenied else WrongType
  }

  /** `k'` is `k` after its current thread was parked inside `call`; the queue it is in is not part of this. */
  predicate Parks(k: Kernel, k': Kernel, call: Call)
    requires k.q.current.Some?
  {
    var c := k.q.current.value;
    && k'.mode == Parked(c, k.q.runQueue == []) && k'.calls == k.calls[c := call]
    && k'.q.current.None? && k'.q.runQueue == k.q.runQueue
    && k'.m == k.m.(stateToUpdate := Some(c)) && k'.info == k.info && k'.cspaces == k.cspaces
  }

  /** `k'` is `k` with one more runnable thread, the call that woke it going on. */
  predicate Wakes(k: Kernel, k': Kernel, t: Tid) {
    && k'.mode == k.mode && k'.calls == k.calls && k'.q.current == k.q.current
    && k'.q.runQueue == k.q.runQueue + [t] && k'.m == k.m
  }

  /** The history decides which state the endpoint is in. */
  lemma HistoryDecides(k: Kernel, h: seq<Output>, ep: EpId)
    requires Agrees(k.q.endpoints, k.calls, k.buffers, h, ep)
    ensures Receivers(h, ep) != [] <==> EndpointAt(k.q.endpoints, ep).ReceiversWaiting?
    ensures Accepted(h, ep) != [] <==> EndpointAt(k.q.endpoints, ep).SendersWaiting?
  {
    match EndpointAt(k.q.endpoints, ep)
    case Idle =>
      NoSenderTraffic(h, ep);
      NoReceiverTraffic(h, ep);
    case SendersWaiting(_) => NoReceiverTraffic(h, ep);
    case ReceiversWaiting(_) => NoSenderTraffic(h, ep);
  }

  lemma SendOutcome(k: Kernel, e: Event, h: seq<Output>, ep: EpId)
    requires e.Send? && Enabled(k, e) && Agrees(k.q.endpoints, k.calls, k.buffers, h, ep)
    requires Holding(k, e.handle, ep, SEND)
    ensures Perform(k, e).out == SendAnswer(h, k.q.current.value, ep, e.msg)
    ensures var r := Perform(k, e);
            && (r.out.Queued? ==> Parks(k, r.k, Sending(ep)))
            && (r.out.Delivered? ==> Wakes(k, r.k, r.out.t))
            && (r.out.Dropped? ==> r.k == k)
  {
    HistoryDecides(k, h, ep);
  }

  lemma RecvOutcome(k: Kernel, e: Event, h: seq<Output>, ep: EpId)
    requires e.Recv? && Enabled(k, e) && Agrees(k.q.endpoints, k.calls, k.buffers, h, ep)
    requires Holding(k, e.handle, ep, RECEIVE)
    ensures Perform(k, e).out == RecvAnswer(h, k.q.current.value, ep)
    ensures var r := Perform(k, e);
            && (r.out.ReceiverQueued? ==> Parks(k, r.k, Receiving(ep)))
            && (r.out.Took? ==> Wakes(k, r.k, r.out.t))
            && (r.out.TookNothing? ==> r.k == k)
  {
    HistoryDecides(k, h, ep);
  }

  /** The ledger of one endpoint after any run from boot. */
  lemma LedgerAt(es: seq<Event>, ep: EpId)
    requires Legal(BOOT, es)
    ensures var k := Run(BOOT, es); Agrees(k.q.endpoints, k.calls, k.buffers, History(BOOT, es), ep)
  {
    BootCallsOk();
    LedgerAlongRun(BOOT, es);
  }

  /** In every run from boot, whatever a send answers follows from the capability named, the message of the event
      and the history before it; a refused or dropped send changes nothing. */
  lemma SendAnswers(es: seq<Event>, e: Event)
    requires Legal(BOOT, es) && e.Send? && Enabled(Run(BOOT, es), e)
    ensures var k, r := Run(BOOT, es), Perform(Run(BOOT, es), e);
            var cap, c := Named(k, e.handle), k.q.current.value;
            if cap.Some? && cap.value.EndpointCap? && SEND in cap.value.rights then
              && r.out == SendAnswer(History(BOOT, es), c, cap.value.ep, e.msg)
              && (r.out.Queued? ==> Parks(k, r.k, Sending(cap.value.ep)))
              && (r.out.Delivered? ==> Wakes(k, r.k, r.out.t))
              && (r.out.Dropped? ==> r.k == k)
            else r == Outcome(k, Refused(Refusal(cap)))
  {
    var k := Run(BOOT, es);
    var cap := Named(k, e.handle);
    if cap.Some? && cap.value.EndpointCap? && SEND in cap.value.rights {
      LedgerAt(es, cap.value.ep);
      SendOutcome(k, e, History(BOOT, es), cap.value.ep);
    }
  }

  lemma RecvAnswers(es: seq<Event>, e: Event)
    requires Legal(BOOT, es) && e.Recv? && Enabled(Run(BOOT, es), e)
    ensures var k, r := Run(BOOT, es), Perform(Run(BOOT, es), e);
            var cap, c := Named(k, e.handle), k.q.current.value;
            if cap.Some? && cap.value.EndpointCap? && RECEIVE in cap.value.rights then
              && r.out == RecvAnswer(History(BOOT, es), c, cap.value.ep)
              && (r.out.ReceiverQueued? ==> Parks(k, r.k, Receiving(cap.value.ep)))
              && (r.out.Took? ==> Wakes(k, r.k, r.out.t))
              && (r.out.TookNothing? ==> r.k == k)
            else r == Outcome(k, Refused(Refusal(cap)))
  {
    var k := Run(BOOT, es);
    var cap := Named(k, e.handle);
    if cap.Some? && cap.value.EndpointCap? && RECEIVE in cap.value.rights {
      LedgerAt(es, cap.value.ep);
      RecvOutcome(k, e, History(BOOT, es), cap.value.ep);
    }
  }

  // ---- the messages of the send events ----

  predicate Carries(o: Output) { o.Queued? || o.Delivered? || o.Dropped? }

  predicate SendsOn(k: Kernel, e: Event, ep: EpId)
    requires Enabled(k, e)
  {
    e.Send? && Holding(k, e.handle, ep, SEND)
  }

  /** The messages of the send events on `ep`, oldest first. */
  function Sent(es: seq<Event>, ep: EpId): seq<Message>
    requires Legal(BOOT, es)
    decreases |es|
  {
    if es == [] then []
    else
      var before, e := es[..|es| - 1], es[|es| - 1];
      Sent(before, ep) + if SendsOn(Run(BOOT, before), e, ep) then [e.msg] else []
  }

  /** The messages of the send events on `ep` that came when `t` was the first receiver not served yet. */
  function SentTo(es: seq<Event>, ep: EpId, t: Tid): seq<Message>
    requires Legal(BOOT, es)
    decreases |es|
  {
    if es == [] then []
    else
      var before, e := es[..|es| - 1], es[|es| - 1];
      var r, n := Receivers(History(BOOT, before), ep), |Served(History(BOOT, before), ep)|;
      SentTo(before, ep, t)
      + if SendsOn(Run(BOOT, before), e, ep) && n < |r| && r[n] == t then [e.msg] else []
  }

  function IsCarried(ep: EpId): Output -> Option<Message> {
    (o: Output) => if Carries(o) && o.ep == ep then Some(o.msg) else None
  }

  /** The messages the history shows as queued, delivered or dropped at `ep`. */
  function Carried(h: seq<Output>, ep: EpId): seq<Message> { Select(h, IsCarried(ep)) }

  lemma RecvShowsNoSend(k: Kernel, e: Event)
    requires Enabled(k, e) && e.Recv?
    ensures !Carries(Perform(k, e).out)
  {
  }

  /** The step shows a message at `ep` if and only if it is a send on `ep`, and shows the message of the event. */
  lemma EntryCarries(es: seq<Event>, e: Event)
    requires Legal(BOOT, es) && Enabled(Run(BOOT, es), e)
    ensures var k, o := Run(BOOT, es), Perform(Run(BOOT, es), e).out;
            Carries(o) ==> SendsOn(k, e, o.ep) && o.msg == e.msg
    ensures forall ep ::
              SendsOn(Run(BOOT, es), e, ep) ==>
                Perform(Run(BOOT, es), e).out == SendAnswer(History(BOOT, es), Run(BOOT, es).q.current.value, ep, e.msg)
  {
    var k, o := Run(BOOT, es), Perform(Run(BOOT, es), e).out;
    if Carries(o) {
      StepIsolated(k, e, o.ep);
      if e.Recv? {
        RecvShowsNoSend(k, e);
      }
    }
    if e.Send? {
      SendAnswers(es, e);
    }
  }

  /** Every entry of the history that carries a message carries the message of its event, a send. */
  lemma CarriedAsSent(es: seq<Event>, j: nat)
    requires Legal(BOOT, es) && j < |es|
    ensures var o := History(BOOT, es)[j];
            Carries(o) ==> es[j].Send? && o.msg == es[j].msg
    decreases |es|
  {
    var before, e := es[..|es| - 1], es[|es| - 1];
    if j < |es| - 1 {
      CarriedAsSent(before, j);
    } else {
      EntryCarries(before, e);
    }
  }

  lemma {:induction false} SentInOrder(es: seq<Event>, ep: EpId)
    requires Legal(BOOT, es)
    ensures Carried(History(BOOT, es), ep) == Sent(es, ep)
    decreases |es|
  {
    if es != [] {
      var before, e := es[..|es| - 1], es[|es| - 1];
      SentInOrder(before, ep);
      EntryCarries(before, e);
      var h, o := History(BOOT, before), Perform(Run(BOOT, before), e).out;
      assert Carried(h + [o], ep) == Carried(h, ep) + if Carries(o) && o.ep == ep then [o.msg] else [];
    }
  }

  lemma {:induction false} SentToInOrder(es: seq<Event>, ep: EpId, t: Tid)
    requires Legal(BOOT, es)
    ensures HandedTo(History(BOOT, es), ep, t) == SentTo(es, ep, t)
    decreases |es|
  {
    if es != [] {
      var before, e := es[..|es| - 1], es[|es| - 1];
      SentToInOrder(before, ep, t);
      EntryCarries(before, e);
      SnocTo(History(BOOT, before), Perform(Run(BOOT, before), e).out, ep, t);
    }
  }

  /** Where only senders have blocked, all messages carried were accepted. */
  lemma {:induction false} CarriedIsAccepted(h: seq<Output>, ep: EpId)
    requires forall i :: 0 <= i < |h| ==> !ReceiverSide(h[i], ep)
    ensures Carried(h, ep) == Seconds(Accepted(h, ep))
    decreases |h|
  {
    if h != [] {
      var before, o := h[..|h| - 1], h[|h| - 1];
      CarriedIsAccepted(before, ep);
      if o.Queued? && o.ep == ep {
        assert Seconds(Accepted(before, ep) + [(o.t, o.msg)]) == Seconds(Accepted(before, ep)) + [o.msg];
      }
    }
  }

  /** After any run from boot, the messages carried by an endpoint are those of the send events on it, in order.
      Those taken by receivers are the first of them, and where senders wait the rest is in the queue. Those a
      blocked receiver returned with are, in order, those of the send events that found it first in line. */
  lemma MessagesInOrder(es: seq<Event>, ep: EpId, t: Tid)
    requires Legal(BOOT, es)
    ensures var h, state := History(BOOT, es), EndpointAt(Run(BOOT, es).q.endpoints, ep);
            && Carried(h, ep) == Sent(es, ep)
            && (state.SendersWaiting? ==> Sent(es, ep) == Seconds(Taken(h, ep)) + Seconds(state.senders))
            && (state.ReceiversWaiting? ==> Taken(h, ep) == [])
            && (state.Idle? ==> Sent(es, ep) == [])
            && HandedTo(h, ep, t) == SentTo(es, ep, t) && ReturnedTo(h, ep, t) <= SentTo(es, ep, t)
  {
    var h, state := History(BOOT, es), EndpointAt(Run(BOOT, es).q.endpoints, ep);
    SentInOrder(es, ep);
    SentToInOrder(es, ep, t);
    LedgerAt(es, ep);
    match state
    case SendersWaiting(s) =>
      CarriedIsAccepted(h, ep);
      assert Seconds(Taken(h, ep) + s) == Seconds(Taken(h, ep)) + Seconds(s);
    case ReceiversWaiting(_) => NoSenderTraffic(h, ep);
    case Idle =>
      CarriedIsAccepted(h, ep);
      NoSenderTraffic(h, ep);
  }
}
