/** The sending half of synchronous IPC: a blocked sender is released by the receiver that takes its message and
    by nothing else. Together with the endpoint ledger this is the whole history of an endpoint. */
module Rendezvous {
  import opened Basics
  import opened Capabilities
  import opened KernelState
  import opened KernelSteps
  import opened Conservation
  import opened Calls
  import opened EndpointLedger

  function IsQueuedBy(ep: EpId, t: Tid): Output -> Option<Message> {
    (o: Output) => if o.Queued? && o.ep == ep && o.t == t then Some(o.msg) else None
  }
  function IsTakenFrom(ep: EpId, t: Tid): Output -> Option<Message> {
    (o: Output) => if o.Took? && o.ep == ep && o.t == t then Some(o.msg) else None
  }
  function IsSendReturn(ep: EpId, t: Tid): Output -> Option<Call> {
    (o: Output) => if o.Returned? && o.t == t && o.call == Sending(ep) then Some(o.call) else None
  }

  /** Messages with which `t` blocked, those of them that were taken, and how often a blocked send of `t` returned. */
  function QueuedBy(h: seq<Output>, ep: EpId, t: Tid): seq<Message> { Select(h, IsQueuedBy(ep, t)) }
  function TakenFrom(h: seq<Output>, ep: EpId, t: Tid): seq<Message> { Select(h, IsTakenFrom(ep, t)) }
  function SendReturns(h: seq<Output>, ep: EpId, t: Tid): nat { |Select(h, IsSendReturn(ep, t))| }

  /** A blocked send returns only for a message that was taken, one return per message. */
  predicate LawfulReturn(h: seq<Output>, o: Output) {
    o.Returned? && o.call.Sending? ==> SendReturns(h, o.call.ep, o.t) < |TakenFrom(h, o.call.ep, o.t)|
  }

  /** The messages of `t` in a queue of senders. */
  function MessagesOf(s: seq<(Tid, Message)>, t: Tid): seq<Message> {
    if s == [] then [] else (if s[0].0 == t then [s[0].1] else []) + MessagesOf(s[1..], t)
  }

  function StillQueued(e: EndpointState, t: Tid): seq<Message> {
    if e.SendersWaiting? then MessagesOf(e.senders, t) else []
  }

  /** `t` is inside a send on `ep` whose message has been taken. */
  function Released(e: EndpointState, calls: map<Tid, Call>, ep: EpId, t: Tid): nat {
    if t in calls && calls[t] == Sending(ep) && t !in EndpointThreads(e) then 1 else 0
  }

  /** The account of `t` at `ep`. */
  predicate Settles(e: EndpointState, calls: map<Tid, Call>, h: seq<Output>, ep: EpId, t: Tid) {
    && QueuedBy(h, ep, t) == TakenFrom(h, ep, t) + StillQueued(e, t)
    && |TakenFrom(h, ep, t)| == SendReturns(h, ep, t) + Released(e, calls, ep, t)
  }

  ghost predicate SendersOk(endpoints: map<EpId, EndpointState>, calls: map<Tid, Call>, h: seq<Output>) {
    forall ep, t :: Settles(EndpointAt(endpoints, ep), calls, h, ep, t)
  }

  lemma SenderSnoc(h: seq<Output>, o: Output, ep: EpId, t: Tid)
    ensures QueuedBy(h + [o], ep, t) == QueuedBy(h, ep, t) + if o.Queued? && o.ep == ep && o.t == t then [o.msg] else []
    ensures TakenFrom(h + [o], ep, t) == TakenFrom(h, ep, t) + if o.Took? && o.ep == ep && o.t == t then [o.msg] else []
    ensures SendReturns(h + [o], ep, t)
         == SendReturns(h, ep, t) + if o.Returned? && o.t == t && o.call == Sending(ep) then 1 else 0
  {
    assert (h + [o])[..|h|] == h;
  }

  /** The entry `o` is about `t` as a sender at `ep`. */
  predicate Concerns(o: Output, ep: EpId, t: Tid) {
    ((o.Queued? || o.Took?) && o.ep == ep && o.t == t) || (o.Returned? && o.t == t && o.call == Sending(ep))
  }

  lemma AccountKept(e: EndpointState, calls: map<Tid, Call>, h: seq<Output>, e': EndpointState, calls': map<Tid, Call>,
                    o: Output, ep: EpId, t: Tid)
    requires Settles(e, calls, h, ep, t) && !Concerns(o, ep, t)
    requires StillQueued(e', t) == StillQueued(e, t) && Released(e', calls', ep, t) == Released(e, calls, ep, t)
    ensures Settles(e', calls', h + [o], ep, t)
  {
    SenderSnoc(h, o, ep, t);
  }

  /** Neither the senders' queues nor the calls that are sends have changed. */
  lemma OthersKept(k: Kernel, h: seq<Output>, k': Kernel, o: Output)
    requires SendersOk(k.q.endpoints, k.calls, h)
    requires forall ep :: EndpointAt(k'.q.endpoints, ep) == EndpointAt(k.q.endpoints, ep)
    requires forall t :: (t in k'.calls && k'.calls[t].Sending?) || (t in k.calls && k.calls[t].Sending?) ==>
               t in k.calls && t in k'.calls && k'.calls[t] == k.calls[t]
    requires !o.Queued? && !o.Took? && !(o.Returned? && o.call.Sending?)
    ensures SendersOk(k'.q.endpoints, k'.calls, h + [o])
  {
    forall ep, t ensures Settles(EndpointAt(k'.q.endpoints, ep), k'.calls, h + [o], ep, t) {
      assert Settles(EndpointAt(k.q.endpoints, ep), k.calls, h, ep, t);
      AccountKept(EndpointAt(k.q.endpoints, ep), k.calls, h, EndpointAt(k'.q.endpoints, ep), k'.calls, o, ep, t);
    }
  }

  lemma {:induction false} MessagesSnoc(s: seq<(Tid, Message)>, x: (Tid, Message), t: Tid)
    ensures MessagesOf(s + [x], t) == MessagesOf(s, t) + if x.0 == t then [x.1] else []
    decreases |s|
  {
    if s != [] {
      MessagesSnoc(s[1..], x, t);
      assert (s + [x])[1..] == s[1..] + [x];
    }
  }

  /** The caller blocks in a send. */
  lemma BlocksInSend(e: EndpointState, calls: map<Tid, Call>, h: seq<Output>, c: Tid, ep: EpId, msg: Message, t: Tid)
    requires Settles(e, calls, h, ep, t) && !e.ReceiversWaiting? && c !in calls
    ensures var s := if e.SendersWaiting? then e.senders else [];
            Settles(SendersWaiting(s + [(c, msg)]), calls[c := Sending(ep)], h + [Queued(ep, c, msg)], ep, t)
  {
    var s := if e.SendersWaiting? then e.senders else [];
    SenderSnoc(h, Queued(ep, c, msg), ep, t);
    MessagesSnoc(s, (c, msg), t);
    assert Firsts(s + [(c, msg)]) == Firsts(s) + [c];
  }

  lemma QueuedSends(k: Kernel, h: seq<Output>, ep: EpId, msg: Message)
    requires SendersOk(k.q.endpoints, k.calls, h) && k.q.current.Some? && k.q.current.value !in k.calls
    requires !EndpointAt(k.q.endpoints, ep).ReceiversWaiting?
    ensures var k' := Park(k, QueueSender(k.q, ep, msg), Sending(ep));
            SendersOk(k'.q.endpoints, k'.calls, h + [Queued(ep, k.q.current.value, msg)])
  {
    var c, k' := k.q.current.value, Park(k, QueueSender(k.q, ep, msg), Sending(ep));
    forall x, t ensures Settles(EndpointAt(k'.q.endpoints, x), k'.calls, h + [Queued(ep, c, msg)], x, t) {
      assert Settles(EndpointAt(k.q.endpoints, x), k.calls, h, x, t);
      if x == ep {
        BlocksInSend(EndpointAt(k.q.endpoints, ep), k.calls, h, c, ep, msg, t);
      } else {
        AccountKept(EndpointAt(k.q.endpoints, x), k.calls, h, EndpointAt(k'.q.endpoints, x), k'.calls,
                    Queued(ep, c, msg), x, t);
      }
    }
  }

  lemma TakeOwn(queued: seq<Message>, taken: seq<Message>, s: seq<(Tid, Message)>, t: Tid)
    requires s != [] && queued == taken + MessagesOf(s, t)
    ensures queued == (taken + if s[0].0 == t then [s[0].1] else []) + MessagesOf(s[1..], t)
  {
  }

  lemma FirstLeaves(s: seq<(Tid, Message)>, calls: map<Tid, Call>, ep: EpId, t: Tid)
    requires s != [] && s[0].0 !in Firsts(s[1..]) && s[0].0 in calls && calls[s[0].0] == Sending(ep)
    ensures Released(SendersWaiting(s[1..]), calls, ep, t)
         == Released(SendersWaiting(s), calls, ep, t) + if s[0].0 == t then 1 else 0
  {
    assert Firsts(s) == [s[0].0] + Firsts(s[1..]);
  }

  /** The first sender's message is taken: that sender, and no other, is released. */
  lemma IsTaken(s: seq<(Tid, Message)>, calls: map<Tid, Call>, h: seq<Output>, ep: EpId, t: Tid)
    requires s != [] && Settles(SendersWaiting(s), calls, h, ep, t) && s[0].0 !in Firsts(s[1..])
    requires s[0].0 in calls && calls[s[0].0] == Sending(ep)
    ensures Settles(SendersWaiting(s[1..]), calls, h + [Took(ep, s[0].0, s[0].1)], ep, t)
  {
    var o := Took(ep, s[0].0, s[0].1);
    SenderSnoc(h, o, ep, t);
    TakeOwn(QueuedBy(h, ep, t), TakenFrom(h, ep, t), s, t);
    FirstLeaves(s, calls, ep, t);
  }

  lemma TakenSends(k: Kernel, h: seq<Output>, ep: EpId)
    requires SendersOk(k.q.endpoints, k.calls, h)
    requires EndpointAt(k.q.endpoints, ep).SendersWaiting? && EndpointAt(k.q.endpoints, ep).senders != []
    requires var s := EndpointAt(k.q.endpoints, ep).senders;
             s[0].0 !in Firsts(s[1..]) && s[0].0 in k.calls && k.calls[s[0].0] == Sending(ep)
    ensures var s := EndpointAt(k.q.endpoints, ep).senders;
            SendersOk(PopSender(k.q, ep).endpoints, k.calls, h + [Took(ep, s[0].0, s[0].1)])
  {
    var s, endpoints' := EndpointAt(k.q.endpoints, ep).senders, PopSender(k.q, ep).endpoints;
    var o := Took(ep, s[0].0, s[0].1);
    forall x, t ensures Settles(EndpointAt(endpoints', x), k.calls, h + [o], x, t) {
      assert Settles(EndpointAt(k.q.endpoints, x), k.calls, h, x, t);
      if x == ep {
        IsTaken(s, k.calls, h, ep, t);
      } else {
        AccountKept(EndpointAt(k.q.endpoints, x), k.calls, h, EndpointAt(endpoints', x), k.calls, o, x, t);
      }
    }
  }

  /** The first sender in line is inside a send on this endpoint, and in line once. */
  lemma FirstSender(k: Kernel, ep: EpId)
    requires Sound(k) && CallsOk(k) && k.mode.Running?
    requires EndpointAt(k.q.endpoints, ep).SendersWaiting? && EndpointAt(k.q.endpoints, ep).senders != []
    ensures var s := EndpointAt(k.q.endpoints, ep).senders;
            s[0].0 !in Firsts(s[1..]) && s[0].0 in k.calls && k.calls[s[0].0] == Sending(ep)
  {
    var s := EndpointAt(k.q.endpoints, ep).senders;
    assert Firsts(s) == [s[0].0] + Firsts(s[1..]);
    DistinctTail(s[0].0, Firsts(s[1..]));
    assert Holds(k.q, AtEndpoint(ep), s[0].0);
    assert CallState(k.q, s[0].0, k.calls[s[0].0]);
  }

  /** Nobody is inside a send on an endpoint where senders do not wait. */
  lemma NoSendCalls(k: Kernel, ep: EpId)
    requires CallsOk(k) && k.mode.Running? && !EndpointAt(k.q.endpoints, ep).SendersWaiting?
    ensures forall t :: t in k.calls ==> k.calls[t] != Sending(ep)
  {
    forall t | t in k.calls ensures k.calls[t] != Sending(ep) {
      assert CallState(k.q, t, k.calls[t]);
    }
  }

  /** An endpoint on the receiving side changes its queue of receivers. */
  lemma ReceiverSideKept(k: Kernel, h: seq<Output>, k': Kernel, o: Output, ep: EpId)
    requires SendersOk(k.q.endpoints, k.calls, h) && !o.Queued? && !o.Took? && !o.Returned?
    requires !EndpointAt(k.q.endpoints, ep).SendersWaiting? && !EndpointAt(k'.q.endpoints, ep).SendersWaiting?
    requires forall t :: t in k.calls ==> k.calls[t] != Sending(ep)
    requires forall x :: x != ep ==> EndpointAt(k'.q.endpoints, x) == EndpointAt(k.q.endpoints, x)
    requires forall t :: (t in k'.calls && k'.calls[t].Sending?) || (t in k.calls && k.calls[t].Sending?) ==>
               t in k.calls && t in k'.calls && k'.calls[t] == k.calls[t]
    ensures SendersOk(k'.q.endpoints, k'.calls, h + [o])
  {
    forall x, t ensures Settles(EndpointAt(k'.q.endpoints, x), k'.calls, h + [o], x, t) {
      assert Settles(EndpointAt(k.q.endpoints, x), k.calls, h, x, t);
      AccountKept(EndpointAt(k.q.endpoints, x), k.calls, h, EndpointAt(k'.q.endpoints, x), k'.calls, o, x, t);
    }
  }

  lemma SendSettles(k: Kernel, handle: nat, msg: Message, h: seq<Output>)
    requires CallsOk(k) && SendersOk(k.q.endpoints, k.calls, h) && Enabled(k, Send(handle, msg))
    ensures var r := SendStep(k, Send(handle, msg)); SendersOk(r.k.q.endpoints, r.k.calls, h + [r.out])
  {
    var r := SendStep(k, Send(handle, msg));
    match FindEndpoint(k, handle, SEND)
    case Denied(err) => OthersKept(k, h, k, Refused(err));
    case Granted(ep) =>
      match EndpointAt(k.q.endpoints, ep)
      case ReceiversWaiting(q) =>
        NoSendCalls(k, ep);
        ReceiverSideKept(k, h, r.k, r.out, ep);
      case _ => QueuedSends(k, h, ep, msg);
  }

  lemma RecvSettles(k: Kernel, handle: nat, h: seq<Output>)
    requires Sound(k) && CallsOk(k) && SendersOk(k.q.endpoints, k.calls, h) && Enabled(k, Recv(handle))
    ensures var r := RecvStep(k, Recv(handle)); SendersOk(r.k.q.endpoints, r.k.calls, h + [r.out])
  {
    var r := RecvStep(k, Recv(handle));
    match FindEndpoint(k, handle, RECEIVE)
    case Denied(err) => OthersKept(k, h, k, Refused(err));
    case Granted(ep) =>
      match EndpointAt(k.q.endpoints, ep)
      case SendersWaiting(s) =>
        if s != [] {
          FirstSender(k, ep);
          TakenSends(k, h, ep);
        } else {
          OthersKept(k, h, k, r.out);
        }
      case _ =>
        NoSendCalls(k, ep);
        ReceiverSideKept(k, h, r.k, r.out, ep);
  }

  /** A released sender runs again: its send returns, and it had a message taken that no return answered yet. */
  lemma SendReturnsOnce(e: EndpointState, calls: map<Tid, Call>, h: seq<Output>, t: Tid, msg: Message, ep: EpId)
    requires Settles(e, calls, h, ep, t) && t in calls && calls[t] == Sending(ep) && t !in EndpointThreads(e)
    ensures var o := Returned(t, Sending(ep), msg); LawfulReturn(h, o) && Settles(e, calls - {t}, h + [o], ep, t)
  {
    SenderSnoc(h, Returned(t, Sending(ep), msg), ep, t);
  }

  lemma LandSettles(k: Kernel, h: seq<Output>, t: Tid, st: SavedState, rax: Sp)
    requires SendersOk(k.q.endpoints, k.calls, h) && AtNoEndpoint(k.q.endpoints, t)
    ensures var r := Land(k, t, st, rax); LawfulReturn(h, r.out) && SendersOk(r.k.q.endpoints, r.k.calls, h + [r.out])
  {
    var r := Land(k, t, st, rax);
    if r.k.mode.Derailed? {
      OthersKept(k, h, k, Silent);
    } else {
      forall x, u ensures Settles(EndpointAt(k.q.endpoints, x), k.calls - {t}, h + [r.out], x, u) {
        assert Settles(EndpointAt(k.q.endpoints, x), k.calls, h, x, u);
        if u == t && t in k.calls && k.calls[t] == Sending(x) {
          SendReturnsOnce(EndpointAt(k.q.endpoints, x), k.calls, h, t, BufferAt(k, t), x);
        } else {
          AccountKept(EndpointAt(k.q.endpoints, x), k.calls, h, EndpointAt(k.q.endpoints, x), k.calls - {t}, r.out, x,
                      u);
        }
      }
      if t in k.calls && k.calls[t].Sending? {
        var ep := k.calls[t].ep;
        assert Settles(EndpointAt(k.q.endpoints, ep), k.calls, h, ep, t);
        SendReturnsOnce(EndpointAt(k.q.endpoints, ep), k.calls, h, t, BufferAt(k, t), ep);
      }
    }
  }

  lemma SwitchSettles(k: Kernel, from: Option<Tid>, sp: Sp, h: seq<Output>)
    requires SendersOk(k.q.endpoints, k.calls, h) && k.q.runQueue != [] && AtNoEndpoint(k.q.endpoints, k.q.runQueue[0])
    ensures var r := SwitchAway(k, from, sp);
            LawfulReturn(h, r.out) && SendersOk(r.k.q.endpoints, r.k.calls, h + [r.out])
  {
    var next := k.q.runQueue[0];
    var st := SavedAt(k.m.saved, next);
    LandSettles(k.(q := Dispatch(k.q), m := LeaveStack(k.m, from, st, sp)), h, next, st, sp);
  }

  lemma TickSettles(k: Kernel, e: Event, h: seq<Output>)
    requires e.Tick? && SendersOk(k.q.endpoints, k.calls, h)
    requires k.q.current.Some? ==> AtNoEndpoint(k.q.endpoints, k.q.current.value)
    requires k.q.runQueue != [] ==> AtNoEndpoint(k.q.endpoints, k.q.runQueue[0])
    ensures var r := TickStep(k, e); LawfulReturn(h, r.out) && SendersOk(r.k.q.endpoints, r.k.calls, h + [r.out])
  {
    var k1 := Preempt(k, e.sp);
    if k1.q.runQueue != [] {
      var next := k1.q.runQueue[0];
      LandSettles(k1.(q := Dispatch(k1.q)), h, next, SavedAt(k1.m.saved, next), e.junk);
    } else {
      OthersKept(k, h, k, Silent);
    }
  }

  lemma YieldSettles(k: Kernel, e: Event, h: seq<Output>)
    requires e.Yield? && SendersOk(k.q.endpoints, k.calls, h)
    requires k.q.runQueue != [] ==> AtNoEndpoint(k.q.endpoints, k.q.runQueue[0])
    ensures var r := YieldStep(k, e); LawfulReturn(h, r.out) && SendersOk(r.k.q.endpoints, r.k.calls, h + [r.out])
  {
    if k.q.runQueue != [] {
      var k1 := GiveUp(k);
      assert k1.q.runQueue[0] == k.q.runQueue[0];
      SwitchSettles(k1, k.q.current, e.sp, h);
    }
    OthersKept(k, h, k, Silent);
  }

  lemma ExitSettles(k: Kernel, e: Event, h: seq<Output>)
    requires e.Exit? && k.q.current.Some? && SendersOk(k.q.endpoints, k.calls, h)
    requires ExitQueues(k).runQueue != [] ==> AtNoEndpoint(k.q.endpoints, ExitQueues(k).runQueue[0])
    ensures var r := ExitStep(k, e); LawfulReturn(h, r.out) && SendersOk(r.k.q.endpoints, r.k.calls, h + [r.out])
  {
    var q2 := ExitQueues(k);
    if q2.runQueue != [] {
      var st := SavedAt(k.m.saved, q2.runQueue[0]);
      var m := if st.Preemptive? then AfterSwitchCall(k.m, e.sp) else k.m;
      LandSettles(k.(q := Dispatch(q2), m := m), h, q2.runQueue[0], st, e.junk);
    } else {
      OthersKept(k, h, k, Silent);
    }
  }

  /** Steps that touch neither endpoints nor sends. */
  lemma QuietSettles(k: Kernel, e: Event, h: seq<Output>)
    requires SendersOk(k.q.endpoints, k.calls, h) && Enabled(k, e)
    requires e.AddThread? || e.SetCSpace? || e.EndpointCreate? || e.Interrupted? || e.Wait? || e.WaitIrq?
    requires k.q.current.Some? ==> k.q.current.value !in k.calls
    ensures var r := Perform(k, e); SendersOk(r.k.q.endpoints, r.k.calls, h + [r.out])
  {
    var r := Perform(k, e);
    OthersKept(k, h, r.k, r.out);
  }

  lemma StepSettles(k: Kernel, e: Event, h: seq<Output>)
    requires Sound(k) && CallsOk(k) && SendersOk(k.q.endpoints, k.calls, h) && Enabled(k, e)
    ensures var r := Perform(k, e); LawfulReturn(h, r.out) && SendersOk(r.k.q.endpoints, r.k.calls, h + [r.out])
  {
    NextNotQueued(k);
    match e
    case Tick(_, _) => TickSettles(k, e, h);
    case Yield(_) => YieldSettles(k, e, h);
    case Send(handle, msg) => SendSettles(k, handle, msg, h);
    case Recv(handle) => RecvSettles(k, handle, h);
    case Exit(_, _) => ExitSettles(k, e, h);
    case Switch(sp) => SwitchSettles(k, Some(k.mode.thread), sp, h);
    case _ => QuietSettles(k, e, h);
  }

  /** Every blocked send that returns in the history returns for a message taken before. */
  predicate LawfulReturns(h: seq<Output>) {
    forall j :: 0 <= j < |h| ==> LawfulReturn(h[..j], h[j])
  }

  lemma ReturnsSnoc(h: seq<Output>, o: Output)
    requires LawfulReturns(h) && LawfulReturn(h, o)
    ensures LawfulReturns(h + [o])
  {
    forall j | 0 <= j < |h + [o]| ensures LawfulReturn((h + [o])[..j], (h + [o])[j]) {
      assert (h + [o])[..j] == if j < |h| then h[..j] else h;
    }
  }

  lemma {:induction false} SendersAlongRun(k: Kernel, es: seq<Event>)
    requires Sound(k) && CallsOk(k) && SendersOk(k.q.endpoints, k.calls, []) && Legal(k, es)
    ensures LawfulReturns(History(k, es)) && SendersOk(Run(k, es).q.endpoints, Run(k, es).calls, History(k, es))
    decreases |es|
  {
    if es != [] {
      var before, e := es[..|es| - 1], es[|es| - 1];
      SendersAlongRun(k, before);
      RunKeepsCalls(k, before);
      StepSettles(Run(k, before), e, History(k, before));
      ReturnsSnoc(History(k, before), Perform(Run(k, before), e).out);
    }
  }

  /** The ledger of every endpoint after every run from boot. Each entry of the history is lawful after those
      before it, the returns of blocked receives and blocked sends included; what is accepted and not taken, or
      queued and not served, is exactly what the endpoint holds; and for each thread, what it sent is what was
      taken from it followed by what it still has in the queue, and what was taken is what its sends returned for,
      with at most one return to come. */
  lemma EndpointHistory(es: seq<Event>, ep: EpId, t: Tid)
    requires Legal(BOOT, es)
    ensures Lawful(History(BOOT, es)) && LawfulReturns(History(BOOT, es))
    ensures var h, e := History(BOOT, es), EndpointAt(Run(BOOT, es).q.endpoints, ep);
            && (e.SendersWaiting? ==> Accepted(h, ep) == Taken(h, ep) + e.senders)
            && (e.ReceiversWaiting? ==> Receivers(h, ep) == Served(h, ep) + e.receivers)
            && ReturnedTo(h, ep, t) <= HandedTo(h, ep, t) && |HandedTo(h, ep, t)| <= |ReturnedTo(h, ep, t)| + 1
            && QueuedBy(h, ep, t) == TakenFrom(h, ep, t) + StillQueued(e, t)
            && SendReturns(h, ep, t) <= |TakenFrom(h, ep, t)| <= SendReturns(h, ep, t) + 1
  {
    BootCallsOk();
    LedgerAlongRun(BOOT, es);
    SendersAlongRun(BOOT, es);
    var k := Run(BOOT, es);
    assert Agrees(k.q.endpoints, k.calls, k.buffers, History(BOOT, es), ep);
    assert Settles(EndpointAt(k.q.endpoints, ep), k.calls, History(BOOT, es), ep, t);
  }

  /** A thread is in a queue of senders if and only if it has a message there. */
  lemma {:induction false} HasMessage(s: seq<(Tid, Message)>, t: Tid)
    ensures t in Firsts(s) <==> MessagesOf(s, t) != []
    decreases |s|
  {
    if s != [] {
      HasMessage(s[1..], t);
      assert Firsts(s) == [s[0].0] + Firsts(s[1..]);
    }
  }

  /** A caller is in the queue it blocked on or on the run queue, and not in both. */
  lemma QueuedOrRunnable(k: Kernel, t: Tid, ep: EpId)
    requires Sound(k) && CallsOk(k) && (k.mode.Running? || k.mode.Parked?)
    requires t in k.calls && (k.calls[t] == Sending(ep) || k.calls[t] == Receiving(ep))
    ensures t in k.q.runQueue <==> t !in EndpointThreads(EndpointAt(k.q.endpoints, ep))
    ensures k.calls[t] == Sending(ep) ==> EndpointAt(k.q.endpoints, ep).SendersWaiting?
  {
    assert CallState(k.q, t, k.calls[t]);
    if t in k.q.runQueue {
      assert Holds(k.q, AtRunQueue, t);
      assert !Holds(k.q, AtEndpoint(ep), t);
    }
  }

  /** After every run from boot, a thread inside a send is runnable if and only if all it sent was taken, and a
      thread inside a receive if and only if a message was handed to it that it has not returned with. */
  lemma WokenForItsReason(es: seq<Event>, ep: EpId, t: Tid)
    requires Legal(BOOT, es)
    requires var k := Run(BOOT, es); (k.mode.Running? || k.mode.Parked?) && t in k.calls
    ensures var k, h := Run(BOOT, es), History(BOOT, es);
            && (k.calls[t] == Sending(ep) ==> (t in k.q.runQueue <==> QueuedBy(h, ep, t) == TakenFrom(h, ep, t)))
            && (k.calls[t] == Receiving(ep) ==> (t in k.q.runQueue <==> |HandedTo(h, ep, t)| > |ReturnedTo(h, ep, t)|))
  {
    BootCallsOk();
    RunKeepsCalls(BOOT, es);
    LedgerAlongRun(BOOT, es);
    SendersAlongRun(BOOT, es);
    var k, h := Run(BOOT, es), History(BOOT, es);
    var e := EndpointAt(k.q.endpoints, ep);
    assert Agrees(k.q.endpoints, k.calls, k.buffers, h, ep);
    assert Settles(e, k.calls, h, ep, t);
    assert HandedTo(h, ep, t) == ReturnedTo(h, ep, t) + InBuffer(k.q.endpoints, k.calls, k.buffers, ep, t);
    if k.calls[t] == Sending(ep) || k.calls[t] == Receiving(ep) {
      QueuedOrRunnable(k, t, ep);
      if e.SendersWaiting? {
        HasMessage(e.senders, t);
      }
    }
  }
}
