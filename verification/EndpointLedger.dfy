/** What passes through an endpoint, told from the history of a run alone: the direction is fixed by
    the first blocking operation, messages and receivers are served first come first served, and the
    cases in which nothing is transferred are named exactly. */
module EndpointLedger {
  import opened Basics
  import opened Capabilities
  import opened KernelState
  import opened KernelSteps
  import opened Conservation
  import opened Calls

  /** The values `f` finds in a history, oldest first. */
  function Select<T>(h: seq<Output>, f: Output -> Option<T>): seq<T> {
    if h == [] then []
    else
      var earlier := Select(h[..|h| - 1], f);
      match f(h[|h| - 1])
      case None => earlier
      case Some(x) => earlier + [x]
  }

  function IsQueued(ep: EpId): Output -> Option<(Tid, Message)> {
    (o: Output) => if o.Queued? && o.ep == ep then Some((o.t, o.msg)) else None
  }
  function IsTook(ep: EpId): Output -> Option<(Tid, Message)> {
    (o: Output) => if o.Took? && o.ep == ep then Some((o.t, o.msg)) else None
  }
  function IsReceiver(ep: EpId): Output -> Option<Tid> {
    (o: Output) => if o.ReceiverQueued? && o.ep == ep then Some(o.t) else None
  }
  function IsDelivery(ep: EpId): Output -> Option<Tid> {
    (o: Output) => if o.Delivered? && o.ep == ep then Some(o.t) else None
  }
  function IsDeliveryTo(ep: EpId, t: Tid): Output -> Option<Message> {
    (o: Output) => if o.Delivered? && o.ep == ep && o.t == t then Some(o.msg) else None
  }
  function IsReturn(ep: EpId, t: Tid): Output -> Option<Message> {
    (o: Output) => if o.Returned? && o.t == t && o.call == Receiving(ep) then Some(o.msg) else None
  }

  /** Messages accepted from blocked senders, with their senders, and those later taken by receivers. */
  function Accepted(h: seq<Output>, ep: EpId): seq<(Tid, Message)> { Select(h, IsQueued(ep)) }
  function Taken(h: seq<Output>, ep: EpId): seq<(Tid, Message)> { Select(h, IsTook(ep)) }

  /** Receivers that blocked, and those to which a message was handed. */
  function Receivers(h: seq<Output>, ep: EpId): seq<Tid> { Select(h, IsReceiver(ep)) }
  function Served(h: seq<Output>, ep: EpId): seq<Tid> { Select(h, IsDelivery(ep)) }

  /** Messages handed to the blocked thread `t`, and those its calls returned with. */
  function HandedTo(h: seq<Output>, ep: EpId, t: Tid): seq<Message> { Select(h, IsDeliveryTo(ep, t)) }
  function ReturnedTo(h: seq<Output>, ep: EpId, t: Tid): seq<Message> { Select(h, IsReturn(ep, t)) }

  predicate SenderSide(o: Output, ep: EpId) {
    (o.Queued? || o.Took? || o.TookNothing?) && o.ep == ep
  }

  predicate ReceiverSide(o: Output, ep: EpId) {
    (o.Delivered? || o.Dropped? || o.ReceiverQueued?) && o.ep == ep
  }

  /** `o` is a lawful next entry after the history `h`. */
  predicate LawfulNext(h: seq<Output>, o: Output) {
    match o
    case Queued(ep, _, _) => forall i :: 0 <= i < |h| ==> !ReceiverSide(h[i], ep)
    case Took(ep, t, msg) =>
      (forall i :: 0 <= i < |h| ==> !ReceiverSide(h[i], ep))
      && |Taken(h, ep)| < |Accepted(h, ep)| && (t, msg) == Accepted(h, ep)[|Taken(h, ep)|]
    case TookNothing(ep, msg) =>
      (forall i :: 0 <= i < |h| ==> !ReceiverSide(h[i], ep)) && Taken(h, ep) == Accepted(h, ep) && msg == ZERO_MESSAGE
    case ReceiverQueued(ep, _) => forall i :: 0 <= i < |h| ==> !SenderSide(h[i], ep)
    case Delivered(ep, t, _) =>
      (forall i :: 0 <= i < |h| ==> !SenderSide(h[i], ep))
      && |Served(h, ep)| < |Receivers(h, ep)| && t == Receivers(h, ep)[|Served(h, ep)|]
    case Dropped(ep, _) =>
      (forall i :: 0 <= i < |h| ==> !SenderSide(h[i], ep)) && Served(h, ep) == Receivers(h, ep)
    case Returned(t, Receiving(ep), msg) =>
      |ReturnedTo(h, ep, t)| < |HandedTo(h, ep, t)| && msg == HandedTo(h, ep, t)[|ReturnedTo(h, ep, t)|]
    case _ => true
  }

  /** Every entry of the history is lawful after the ones before it. */
  predicate Lawful(h: seq<Output>) {
    forall j :: 0 <= j < |h| ==> LawfulNext(h[..j], h[j])
  }

  /** A message already in the buffer of a woken receiver that has not yet run again. */
  function InBuffer(endpoints: map<EpId, EndpointState>, calls: map<Tid, Call>, buffers: map<Tid, Message>, ep: EpId,
                    t: Tid): seq<Message> {
    if t in calls && calls[t] == Receiving(ep) && t !in EndpointThreads(EndpointAt(endpoints, ep))
    then [if t in buffers then buffers[t] else ZERO_MESSAGE] else []
  }

  /** The endpoint's state agrees with the history. */
  ghost predicate Agrees(endpoints: map<EpId, EndpointState>, calls: map<Tid, Call>, buffers: map<Tid, Message>,
                         h: seq<Output>, ep: EpId) {
    && (forall t :: HandedTo(h, ep, t) == ReturnedTo(h, ep, t) + InBuffer(endpoints, calls, buffers, ep, t))
    && match EndpointAt(endpoints, ep)
       case Idle =>
         forall i :: 0 <= i < |h| ==> !SenderSide(h[i], ep) && !ReceiverSide(h[i], ep)
       case SendersWaiting(s) =>
         (forall i :: 0 <= i < |h| ==> !ReceiverSide(h[i], ep))
         && Accepted(h, ep) == Taken(h, ep) + s && Accepted(h, ep) != []
       case ReceiversWaiting(r) =>
         (forall i :: 0 <= i < |h| ==> !SenderSide(h[i], ep))
         && Receivers(h, ep) == Served(h, ep) + r && Receivers(h, ep) != []
  }

  ghost predicate LedgerOk(endpoints: map<EpId, EndpointState>, calls: map<Tid, Call>, buffers: map<Tid, Message>,
                           h: seq<Output>) {
    forall ep :: Agrees(endpoints, calls, buffers, h, ep)
  }

  /** How each account grows with one more entry. */
  lemma Snoc(h: seq<Output>, o: Output, ep: EpId)
    ensures Accepted(h + [o], ep) == Accepted(h, ep) + if o.Queued? && o.ep == ep then [(o.t, o.msg)] else []
    ensures Taken(h + [o], ep) == Taken(h, ep) + if o.Took? && o.ep == ep then [(o.t, o.msg)] else []
    ensures Receivers(h + [o], ep) == Receivers(h, ep) + if o.ReceiverQueued? && o.ep == ep then [o.t] else []
    ensures Served(h + [o], ep) == Served(h, ep) + if o.Delivered? && o.ep == ep then [o.t] else []
  {
  }

  lemma SnocTo(h: seq<Output>, o: Output, ep: EpId, t: Tid)
    ensures HandedTo(h + [o], ep, t)
         == HandedTo(h, ep, t) + if o.Delivered? && o.ep == ep && o.t == t then [o.msg] else []
    ensures ReturnedTo(h + [o], ep, t)
         == ReturnedTo(h, ep, t) + if o.Returned? && o.t == t && o.call == Receiving(ep) then [o.msg] else []
  {
  }

  /** An entry about something else, with the endpoint and the woken receivers unchanged. */
  lemma OtherEntry(endpoints: map<EpId, EndpointState>, calls: map<Tid, Call>, buffers: map<Tid, Message>,
                   h: seq<Output>,
                   endpoints': map<EpId, EndpointState>, calls': map<Tid, Call>, buffers': map<Tid, Message>,
                   o: Output, ep: EpId)
    requires Agrees(endpoints, calls, buffers, h, ep)
    requires EndpointAt(endpoints', ep) == EndpointAt(endpoints, ep)
    requires forall t :: InBuffer(endpoints', calls', buffers', ep, t) == InBuffer(endpoints, calls, buffers, ep, t)
    requires !SenderSide(o, ep) && !ReceiverSide(o, ep) && !(o.Returned? && o.call == Receiving(ep))
    ensures Agrees(endpoints', calls', buffers', h + [o], ep)
  {
  }

  /** An entry that touches no endpoint. */
  lemma QuietEntry(k: Kernel, h: seq<Output>, o: Output)
    requires LedgerOk(k.q.endpoints, k.calls, k.buffers, h)
    requires forall ep :: !SenderSide(o, ep) && !ReceiverSide(o, ep)
    requires !(o.Returned? && o.call.Receiving?)
    ensures LedgerOk(k.q.endpoints, k.calls, k.buffers, h + [o])
  {
    forall ep ensures Agrees(k.q.endpoints, k.calls, k.buffers, h + [o], ep) {
      OtherEntry(k.q.endpoints, k.calls, k.buffers, h, k.q.endpoints, k.calls, k.buffers, o, ep);
    }
  }

  /** A woken receiver runs again: its call returns with what was put in its buffer. */
  lemma ReturnEntry(endpoints: map<EpId, EndpointState>, calls: map<Tid, Call>, buffers: map<Tid, Message>,
                    h: seq<Output>, t: Tid, ep: EpId)
    requires Agrees(endpoints, calls, buffers, h, ep)
    requires t in calls && calls[t] == Receiving(ep) && t !in EndpointThreads(EndpointAt(endpoints, ep))
    ensures var o := Returned(t, Receiving(ep), if t in buffers then buffers[t] else ZERO_MESSAGE);
            LawfulNext(h, o) && Agrees(endpoints, calls - {t}, buffers, h + [o], ep)
  {
    var o := Returned(t, Receiving(ep), if t in buffers then buffers[t] else ZERO_MESSAGE);
    Snoc(h, o, ep);
    assert InBuffer(endpoints, calls, buffers, ep, t) == [o.msg];
    assert HandedTo(h, ep, t) == ReturnedTo(h, ep, t) + [o.msg];
    forall x ensures HandedTo(h + [o], ep, x)
           == ReturnedTo(h + [o], ep, x) + InBuffer(endpoints, calls - {t}, buffers, ep, x) {
      SnocTo(h, o, ep, x);
      assert x != t ==> InBuffer(endpoints, calls - {t}, buffers, ep, x) == InBuffer(endpoints, calls, buffers, ep, x);
    }
  }

  /** A thread runs again: for every endpoint but the one it was receiving from nothing changes. */
  lemma ResumeEntry(endpoints: map<EpId, EndpointState>, calls: map<Tid, Call>, buffers: map<Tid, Message>,
                    h: seq<Output>, t: Tid, o: Output, ep: EpId)
    requires Agrees(endpoints, calls, buffers, h, ep)
    requires !(t in calls && calls[t] == Receiving(ep))
    requires o.Silent? || (o.Returned? && o.call != Receiving(ep))
    ensures Agrees(endpoints, calls - {t}, buffers, h + [o], ep)
  {
    OtherEntry(endpoints, calls, buffers, h, endpoints, calls - {t}, buffers, o, ep);
  }

  /** No endpoint queue holds `t`. */
  ghost predicate AtNoEndpoint(endpoints: map<EpId, EndpointState>, t: Tid) {
    forall ep :: t !in EndpointThreads(EndpointAt(endpoints, ep))
  }

  /** Control reaches a dispatched thread: a call it was inside of returns. */
  lemma LandEntry(k: Kernel, h: seq<Output>, t: Tid, st: SavedState, rax: Sp)
    requires LedgerOk(k.q.endpoints, k.calls, k.buffers, h)
    requires AtNoEndpoint(k.q.endpoints, t)
    ensures var r := Land(k, t, st, rax);
            LawfulNext(h, r.out) && LedgerOk(r.k.q.endpoints, r.k.calls, r.k.buffers, h + [r.out])
  {
    var r := Land(k, t, st, rax);
    if r.k.mode.Derailed? {
      QuietEntry(k, h, Silent);
    } else {
      forall ep ensures Agrees(k.q.endpoints, k.calls - {t}, k.buffers, h + [r.out], ep) {
        assert Agrees(k.q.endpoints, k.calls, k.buffers, h, ep);
        if t in k.calls && k.calls[t] == Receiving(ep) {
          ReturnEntry(k.q.endpoints, k.calls, k.buffers, h, t, ep);
        } else {
          ResumeEntry(k.q.endpoints, k.calls, k.buffers, h, t, r.out, ep);
        }
      }
      if t in k.calls && k.calls[t].Receiving? {
        assert Agrees(k.q.endpoints, k.calls, k.buffers, h, k.calls[t].ep);
        ReturnEntry(k.q.endpoints, k.calls, k.buffers, h, t, k.calls[t].ep);
      }
    }
  }

  /** What a runnable thread is not: queued at an endpoint. */
  lemma RunnableNotQueued(q: Queues, t: Tid)
    requires Placed(q) && t in q.runQueue
    ensures AtNoEndpoint(q.endpoints, t)
  {
    assert Holds(q, AtRunQueue, t);
    forall ep ensures t !in EndpointThreads(EndpointAt(q.endpoints, ep)) {
      assert !Holds(q, AtEndpoint(ep), t);
    }
  }

  /** The current thread is queued at no endpoint. */
  lemma CurrentNotQueued(q: Queues)
    requires Placed(q) && q.current.Some?
    ensures AtNoEndpoint(q.endpoints, q.current.value)
  {
    assert Holds(q, AtCurrent, q.current.value);
    forall ep ensures q.current.value !in EndpointThreads(EndpointAt(q.endpoints, ep)) {
      assert !Holds(q, AtEndpoint(ep), q.current.value);
    }
  }

  /** A call that parks its caller elsewhere than at this endpoint, or takes a thread off another one. */
  lemma OtherEndpoint(k: Kernel, k': Kernel, h: seq<Output>, o: Output, ep: EpId)
    requires LedgerOk(k.q.endpoints, k.calls, k.buffers, h)
    requires EndpointAt(k'.q.endpoints, ep) == EndpointAt(k.q.endpoints, ep)
    requires forall t :: t in k.calls && k.calls[t] == Receiving(ep) ==>
               t in k'.calls && k'.calls[t] == Receiving(ep) && BufferAt(k', t) == BufferAt(k, t)
    requires forall t :: t in k'.calls && k'.calls[t] == Receiving(ep) ==> t in k.calls && k.calls[t] == Receiving(ep)
    requires !SenderSide(o, ep) && !ReceiverSide(o, ep) && !o.Returned?
    ensures Agrees(k'.q.endpoints, k'.calls, k'.buffers, h + [o], ep)
  {
    OtherEntry(k.q.endpoints, k.calls, k.buffers, h, k'.q.endpoints, k'.calls, k'.buffers, o, ep);
  }

  lemma {:induction false} NoSenderTraffic(h: seq<Output>, ep: EpId)
    requires forall i :: 0 <= i < |h| ==> !SenderSide(h[i], ep)
    ensures Accepted(h, ep) == [] && Taken(h, ep) == []
    decreases |h|
  {
    if h != [] {
      NoSenderTraffic(h[..|h| - 1], ep);
    }
  }

  lemma {:induction false} NoReceiverTraffic(h: seq<Output>, ep: EpId)
    requires forall i :: 0 <= i < |h| ==> !ReceiverSide(h[i], ep)
    ensures Receivers(h, ep) == [] && Served(h, ep) == []
    decreases |h|
  {
    if h != [] {
      NoReceiverTraffic(h[..|h| - 1], ep);
    }
  }

  /** No thread is inside a receive on an endpoint on which receivers do not wait. */
  lemma NoReceiverCalls(k: Kernel, ep: EpId)
    requires CallsOk(k) && k.mode.Running? && !EndpointAt(k.q.endpoints, ep).ReceiversWaiting?
    ensures forall t :: InBuffer(k.q.endpoints, k.calls, k.buffers, ep, t) == []
    ensures forall t :: t in k.calls ==> k.calls[t] != Receiving(ep)
  {
  }

  /** The accounts of single threads after an entry that is neither a delivery nor a return. */
  lemma AccountsKept(k: Kernel, k': Kernel, h: seq<Output>, o: Output, ep: EpId)
    requires Agrees(k.q.endpoints, k.calls, k.buffers, h, ep) && !o.Delivered? && !o.Returned?
    requires forall t ::
             InBuffer(k'.q.endpoints, k'.calls, k'.buffers, ep, t) == InBuffer(k.q.endpoints, k.calls, k.buffers, ep, t)
    ensures forall t ::
          HandedTo(h + [o], ep, t) == ReturnedTo(h + [o], ep, t) + InBuffer(k'.q.endpoints, k'.calls, k'.buffers, ep, t)
  {
  }

  lemma QueuedEntry(k: Kernel, h: seq<Output>, ep: EpId, msg: Message)
    requires LedgerOk(k.q.endpoints, k.calls, k.buffers, h) && CallsOk(k) && k.mode.Running?
    requires k.q.current.Some? && !EndpointAt(k.q.endpoints, ep).ReceiversWaiting?
    ensures var k' := Park(k, QueueSender(k.q, ep, msg), Sending(ep));
            var o := Queued(ep, k.q.current.value, msg);
            LawfulNext(h, o) && LedgerOk(k'.q.endpoints, k'.calls, k'.buffers, h + [o])
  {
    var c, k' := k.q.current.value, Park(k, QueueSender(k.q, ep, msg), Sending(ep));
    var o := Queued(ep, c, msg);
    assert Agrees(k.q.endpoints, k.calls, k.buffers, h, ep);
    forall x ensures Agrees(k'.q.endpoints, k'.calls, k'.buffers, h + [o], x) {
      if x != ep {
        OtherEndpoint(k, k', h, o, x);
      } else {
        Snoc(h, o, ep);
        NoReceiverCalls(k, ep);
        AccountsKept(k, k', h, o, ep);
        if EndpointAt(k.q.endpoints, ep).Idle? {
          NoSenderTraffic(h, ep);
        }
      }
    }
  }

  /** The oldest queued message is the next accepted one that was not taken. */
  lemma TakeFirst(accepted: seq<(Tid, Message)>, taken: seq<(Tid, Message)>, s: seq<(Tid, Message)>)
    requires s != [] && accepted == taken + s
    ensures |taken| < |accepted| && accepted[|taken|] == s[0]
    ensures accepted == (taken + [s[0]]) + s[1..]
  {
  }

  lemma TookHere(k: Kernel, h: seq<Output>, ep: EpId)
    requires Agrees(k.q.endpoints, k.calls, k.buffers, h, ep)
    requires forall t :: t in k.calls ==> k.calls[t] != Receiving(ep)
    requires EndpointAt(k.q.endpoints, ep).SendersWaiting? && EndpointAt(k.q.endpoints, ep).senders != []
    ensures var k' := k.(q := PopSender(k.q, ep));
            var o := Took(ep, EndpointAt(k.q.endpoints, ep).senders[0].0, EndpointAt(k.q.endpoints, ep).senders[0].1);
            LawfulNext(h, o) && Agrees(k'.q.endpoints, k'.calls, k'.buffers, h + [o], ep)
  {
    var s, k' := EndpointAt(k.q.endpoints, ep).senders, k.(q := PopSender(k.q, ep));
    var o := Took(ep, s[0].0, s[0].1);
    TakeFirst(Accepted(h, ep), Taken(h, ep), s);
    Snoc(h, o, ep);
    AccountsKept(k, k', h, o, ep);
  }

  lemma TookEntry(k: Kernel, h: seq<Output>, ep: EpId)
    requires LedgerOk(k.q.endpoints, k.calls, k.buffers, h) && CallsOk(k) && k.mode.Running?
    requires EndpointAt(k.q.endpoints, ep).SendersWaiting? && EndpointAt(k.q.endpoints, ep).senders != []
    ensures var k' := k.(q := PopSender(k.q, ep));
            var o := Took(ep, EndpointAt(k.q.endpoints, ep).senders[0].0, EndpointAt(k.q.endpoints, ep).senders[0].1);
            LawfulNext(h, o) && LedgerOk(k'.q.endpoints, k'.calls, k'.buffers, h + [o])
  {
    var k' := k.(q := PopSender(k.q, ep));
    var o := Took(ep, EndpointAt(k.q.endpoints, ep).senders[0].0, EndpointAt(k.q.endpoints, ep).senders[0].1);
    assert Agrees(k.q.endpoints, k.calls, k.buffers, h, ep);
    NoReceiverCalls(k, ep);
    TookHere(k, h, ep);
    forall x ensures Agrees(k'.q.endpoints, k'.calls, k'.buffers, h + [o], x) {
      if x != ep {
        OtherEndpoint(k, k', h, o, x);
      }
    }
  }

  lemma ReceiverQueuedEntry(k: Kernel, h: seq<Output>, ep: EpId)
    requires LedgerOk(k.q.endpoints, k.calls, k.buffers, h) && CallsOk(k) && k.mode.Running?
    requires k.q.current.Some? && !EndpointAt(k.q.endpoints, ep).SendersWaiting?
    ensures var k1 := k.(buffers := k.buffers[k.q.current.value := ZERO_MESSAGE]);
            var k' := Park(k1, QueueReceiver(k.q, ep), Receiving(ep));
            var o := ReceiverQueued(ep, k.q.current.value);
            LawfulNext(h, o) && LedgerOk(k'.q.endpoints, k'.calls, k'.buffers, h + [o])
  {
    var c, k1 := k.q.current.value, k.(buffers := k.buffers[k.q.current.value := ZERO_MESSAGE]);
    var k' := Park(k1, QueueReceiver(k.q, ep), Receiving(ep));
    var o := ReceiverQueued(ep, c);
    assert Agrees(k.q.endpoints, k.calls, k.buffers, h, ep);
    forall x ensures Agrees(k'.q.endpoints, k'.calls, k'.buffers, h + [o], x) {
      if x != ep {
        OtherEndpoint(k, k', h, o, x);
      } else {
        Snoc(h, o, ep);
        var r := EndpointThreads(EndpointAt(k.q.endpoints, ep));
        assert EndpointThreads(EndpointAt(k'.q.endpoints, ep)) == r + [c];
        AccountsKept(k, k', h, o, ep);
        if EndpointAt(k.q.endpoints, ep).Idle? {
          NoReceiverTraffic(h, ep);
        }
      }
    }
  }

  /** The first receiver in line is the next one that was not served. */
  lemma ServeFirst(receivers: seq<Tid>, served: seq<Tid>, r: seq<Tid>)
    requires r != [] && receivers == served + r
    ensures |served| < |receivers| && receivers[|served|] == r[0]
    ensures receivers == (served + [r[0]]) + r[1..]
  {
  }

  lemma DeliveredHere(k: Kernel, h: seq<Output>, ep: EpId, msg: Message)
    requires Agrees(k.q.endpoints, k.calls, k.buffers, h, ep)
    requires EndpointAt(k.q.endpoints, ep).ReceiversWaiting? && EndpointAt(k.q.endpoints, ep).receivers != []
    requires var r := EndpointAt(k.q.endpoints, ep).receivers;
             r[0] in k.calls && k.calls[r[0]] == Receiving(ep) && r[0] !in r[1..]
    ensures var t := EndpointAt(k.q.endpoints, ep).receivers[0];
            var k' := k.(q := PopReceiver(k.q, ep), buffers := k.buffers[t := msg]);
            var o := Delivered(ep, t, msg);
            LawfulNext(h, o) && Agrees(k'.q.endpoints, k'.calls, k'.buffers, h + [o], ep)
  {
    var r := EndpointAt(k.q.endpoints, ep).receivers;
    var k' := k.(q := PopReceiver(k.q, ep), buffers := k.buffers[r[0] := msg]);
    var o := Delivered(ep, r[0], msg);
    ServeFirst(Receivers(h, ep), Served(h, ep), r);
    Snoc(h, o, ep);
    forall t ensures HandedTo(h + [o], ep, t)
           == ReturnedTo(h + [o], ep, t) + InBuffer(k'.q.endpoints, k'.calls, k'.buffers, ep, t) {
      SnocTo(h, o, ep, t);
      assert t != r[0] ==>
          InBuffer(k'.q.endpoints, k'.calls, k'.buffers, ep, t) == InBuffer(k.q.endpoints, k.calls, k.buffers, ep, t);
    }
  }

  lemma DeliveredEntry(k: Kernel, h: seq<Output>, ep: EpId, msg: Message)
    requires LedgerOk(k.q.endpoints, k.calls, k.buffers, h)
    requires EndpointAt(k.q.endpoints, ep).ReceiversWaiting? && EndpointAt(k.q.endpoints, ep).receivers != []
    requires var r := EndpointAt(k.q.endpoints, ep).receivers;
             r[0] in k.calls && k.calls[r[0]] == Receiving(ep) && r[0] !in r[1..]
    ensures var t := EndpointAt(k.q.endpoints, ep).receivers[0];
            var k' := k.(q := PopReceiver(k.q, ep), buffers := k.buffers[t := msg]);
            var o := Delivered(ep, t, msg);
            LawfulNext(h, o) && LedgerOk(k'.q.endpoints, k'.calls, k'.buffers, h + [o])
  {
    var t := EndpointAt(k.q.endpoints, ep).receivers[0];
    var k' := k.(q := PopReceiver(k.q, ep), buffers := k.buffers[t := msg]);
    assert Agrees(k.q.endpoints, k.calls, k.buffers, h, ep);
    DeliveredHere(k, h, ep, msg);
    forall x ensures Agrees(k'.q.endpoints, k'.calls, k'.buffers, h + [Delivered(ep, t, msg)], x) {
      if x != ep {
        OtherEndpoint(k, k', h, Delivered(ep, t, msg), x);
      }
    }
  }

  /** The first receiver in line is inside a receive on this endpoint, and in line once. */
  lemma FirstReceiver(k: Kernel, ep: EpId)
    requires Sound(k) && CallsOk(k) && k.mode.Running?
    requires EndpointAt(k.q.endpoints, ep).ReceiversWaiting? && EndpointAt(k.q.endpoints, ep).receivers != []
    ensures var r := EndpointAt(k.q.endpoints, ep).receivers;
            r[0] in k.calls && k.calls[r[0]] == Receiving(ep) && r[0] !in r[1..]
  {
    var r := EndpointAt(k.q.endpoints, ep).receivers;
    assert r == [r[0]] + r[1..];
    DistinctTail(r[0], r[1..]);
    assert Holds(k.q, AtEndpoint(ep), r[0]);
    assert CallState(k.q, r[0], k.calls[r[0]]);
  }

  /** A call that changes nothing because the other side's queue has run empty. */
  lemma EmptyEntry(k: Kernel, h: seq<Output>, ep: EpId, o: Output)
    requires LedgerOk(k.q.endpoints, k.calls, k.buffers, h)
    requires (o == TookNothing(ep, ZERO_MESSAGE) && EndpointAt(k.q.endpoints, ep) == SendersWaiting([]))
          || (o.Dropped? && o.ep == ep && EndpointAt(k.q.endpoints, ep) == ReceiversWaiting([]))
    ensures LawfulNext(h, o) && LedgerOk(k.q.endpoints, k.calls, k.buffers, h + [o])
  {
    assert Agrees(k.q.endpoints, k.calls, k.buffers, h, ep);
    forall x ensures Agrees(k.q.endpoints, k.calls, k.buffers, h + [o], x) {
      if x != ep {
        OtherEndpoint(k, k, h, o, x);
      } else {
        Snoc(h, o, ep);
        AccountsKept(k, k, h, o, ep);
      }
    }
  }

  lemma SendEntry(k: Kernel, handle: nat, msg: Message, h: seq<Output>)
    requires Sound(k) && CallsOk(k) && LedgerOk(k.q.endpoints, k.calls, k.buffers, h) && Enabled(k, Send(handle, msg))
    ensures var r := SendStep(k, Send(handle, msg));
            LawfulNext(h, r.out) && LedgerOk(r.k.q.endpoints, r.k.calls, r.k.buffers, h + [r.out])
  {
    match FindEndpoint(k, handle, SEND)
    case Denied(err) => QuietEntry(k, h, Refused(err));
    case Granted(ep) =>
      match EndpointAt(k.q.endpoints, ep)
      case ReceiversWaiting(r) =>
        if r != [] {
          FirstReceiver(k, ep);
          DeliveredEntry(k, h, ep, msg);
        } else {
          EmptyEntry(k, h, ep, Dropped(ep, msg));
        }
      case _ => QueuedEntry(k, h, ep, msg);
  }

  lemma RecvEntry(k: Kernel, handle: nat, h: seq<Output>)
    requires Sound(k) && CallsOk(k) && LedgerOk(k.q.endpoints, k.calls, k.buffers, h) && Enabled(k, Recv(handle))
    ensures var r := RecvStep(k, Recv(handle));
            LawfulNext(h, r.out) && LedgerOk(r.k.q.endpoints, r.k.calls, r.k.buffers, h + [r.out])
  {
    match FindEndpoint(k, handle, RECEIVE)
    case Denied(err) => QuietEntry(k, h, Refused(err));
    case Granted(ep) =>
      match EndpointAt(k.q.endpoints, ep)
      case SendersWaiting(s) =>
        if s != [] { TookEntry(k, h, ep); } else { EmptyEntry(k, h, ep, TookNothing(ep, ZERO_MESSAGE)); }
      case _ => ReceiverQueuedEntry(k, h, ep);
  }

  /** Parking in a wait leaves every endpoint account alone. */
  lemma WaitEntry(k: Kernel, handle: nat, h: seq<Output>)
    requires LedgerOk(k.q.endpoints, k.calls, k.buffers, h) && k.q.current.Some? && k.q.current.value !in k.calls
    ensures var r := WaitStep(k, Wait(handle));
            LawfulNext(h, r.out) && LedgerOk(r.k.q.endpoints, r.k.calls, r.k.buffers, h + [r.out])
  {
    var r := WaitStep(k, Wait(handle));
    forall ep ensures Agrees(r.k.q.endpoints, r.k.calls, r.k.buffers, h + [r.out], ep) {
      OtherEndpoint(k, r.k, h, r.out, ep);
    }
  }

  lemma WaitIrqEntry(k: Kernel, handle: nat, h: seq<Output>)
    requires LedgerOk(k.q.endpoints, k.calls, k.buffers, h) && k.q.current.Some? && k.q.current.value !in k.calls
    ensures var r := WaitIrqStep(k, WaitIrq(handle));
            LawfulNext(h, r.out) && LedgerOk(r.k.q.endpoints, r.k.calls, r.k.buffers, h + [r.out])
  {
    var r := WaitIrqStep(k, WaitIrq(handle));
    forall ep ensures Agrees(r.k.q.endpoints, r.k.calls, r.k.buffers, h + [r.out], ep) {
      OtherEndpoint(k, r.k, h, r.out, ep);
    }
  }

  lemma TickEntry(k: Kernel, e: Event, h: seq<Output>)
    requires e.Tick? && LedgerOk(k.q.endpoints, k.calls, k.buffers, h)
    requires k.q.current.Some? ==> AtNoEndpoint(k.q.endpoints, k.q.current.value)
    requires k.q.runQueue != [] ==> AtNoEndpoint(k.q.endpoints, k.q.runQueue[0])
    ensures var r := TickStep(k, e);
            LawfulNext(h, r.out) && LedgerOk(r.k.q.endpoints, r.k.calls, r.k.buffers, h + [r.out])
  {
    var k1 := Preempt(k, e.sp);
    if k1.q.runQueue != [] {
      var next := k1.q.runQueue[0];
      LandEntry(k1.(q := Dispatch(k1.q)), h, next, SavedAt(k1.m.saved, next), e.junk);
    } else {
      QuietEntry(k, h, Silent);
    }
  }

  lemma SwitchAwayEntry(k: Kernel, from: Option<Tid>, sp: Sp, h: seq<Output>)
    requires LedgerOk(k.q.endpoints, k.calls, k.buffers, h) && k.q.runQueue != []
    requires AtNoEndpoint(k.q.endpoints, k.q.runQueue[0])
    ensures var r := SwitchAway(k, from, sp);
            LawfulNext(h, r.out) && LedgerOk(r.k.q.endpoints, r.k.calls, r.k.buffers, h + [r.out])
  {
    var next := k.q.runQueue[0];
    var st := SavedAt(k.m.saved, next);
    var m := LeaveStack(k.m, from, st, sp);
    LandEntry(k.(q := Dispatch(k.q), m := m), h, next, st, sp);
  }

  lemma YieldEntry(k: Kernel, e: Event, h: seq<Output>)
    requires e.Yield? && LedgerOk(k.q.endpoints, k.calls, k.buffers, h)
    requires k.q.runQueue != [] ==> AtNoEndpoint(k.q.endpoints, k.q.runQueue[0])
    ensures var r := YieldStep(k, e);
            LawfulNext(h, r.out) && LedgerOk(r.k.q.endpoints, r.k.calls, r.k.buffers, h + [r.out])
  {
    if k.q.runQueue != [] {
      var k1 := GiveUp(k);
      assert k1.q.runQueue[0] == k.q.runQueue[0];
      SwitchAwayEntry(k1, k.q.current, e.sp, h);
    }
    QuietEntry(k, h, Silent);
  }

  lemma ExitEntry(k: Kernel, e: Event, h: seq<Output>)
    requires e.Exit? && k.q.current.Some? && LedgerOk(k.q.endpoints, k.calls, k.buffers, h)
    requires ExitQueues(k).runQueue != [] ==> AtNoEndpoint(k.q.endpoints, ExitQueues(k).runQueue[0])
    ensures var r := ExitStep(k, e);
            LawfulNext(h, r.out) && LedgerOk(r.k.q.endpoints, r.k.calls, r.k.buffers, h + [r.out])
  {
    var q2 := ExitQueues(k);
    if q2.runQueue != [] {
      var st := SavedAt(k.m.saved, q2.runQueue[0]);
      var m := if st.Preemptive? then AfterSwitchCall(k.m, e.sp) else k.m;
      LandEntry(k.(q := Dispatch(q2), m := m), h, q2.runQueue[0], st, e.junk);
    } else {
      QuietEntry(k, h, Silent);
    }
  }

  /** Who can be dispatched next is queued at no endpoint. */
  lemma NextNotQueued(k: Kernel)
    requires Sound(k)
    ensures k.q.current.Some? ==> AtNoEndpoint(k.q.endpoints, k.q.current.value)
    ensures k.q.runQueue != [] ==> AtNoEndpoint(k.q.endpoints, k.q.runQueue[0])
    ensures k.q.current.Some? && ExitQueues(k).runQueue != [] ==> AtNoEndpoint(k.q.endpoints, ExitQueues(k).runQueue[0])
  {
    if k.q.current.Some? {
      CurrentNotQueued(k.q);
      ExitQueuesPlaced(k);
      if ExitQueues(k).runQueue != [] {
        RunnableNotQueued(ExitQueues(k), ExitQueues(k).runQueue[0]);
      }
    }
    if k.q.runQueue != [] {
      RunnableNotQueued(k.q, k.q.runQueue[0]);
    }
  }

  /** Creating an endpoint, adding a thread, changing a capability space or raising an interrupt. */
  lemma PlainEntry(k: Kernel, e: Event, h: seq<Output>)
    requires LedgerOk(k.q.endpoints, k.calls, k.buffers, h) && Enabled(k, e)
    requires e.AddThread? || e.SetCSpace? || e.EndpointCreate? || e.Interrupted?
    ensures var r := Perform(k, e);
            LawfulNext(h, r.out) && LedgerOk(r.k.q.endpoints, r.k.calls, r.k.buffers, h + [r.out])
  {
    var r := Perform(k, e);
    forall ep ensures Agrees(r.k.q.endpoints, r.k.calls, r.k.buffers, h + [r.out], ep) {
      OtherEndpoint(k, r.k, h, r.out, ep);
    }
  }

  lemma StepEntry(k: Kernel, e: Event, h: seq<Output>)
    requires Sound(k) && CallsOk(k) && LedgerOk(k.q.endpoints, k.calls, k.buffers, h) && Enabled(k, e)
    ensures var r := Perform(k, e);
            LawfulNext(h, r.out) && LedgerOk(r.k.q.endpoints, r.k.calls, r.k.buffers, h + [r.out])
  {
    NextNotQueued(k);
    match e
    case Tick(_, _) => TickEntry(k, e, h);
    case Yield(_) => YieldEntry(k, e, h);
    case Send(handle, msg) => SendEntry(k, handle, msg, h);
    case Recv(handle) => RecvEntry(k, handle, h);
    case Wait(handle) => WaitEntry(k, handle, h);
    case WaitIrq(handle) => WaitIrqEntry(k, handle, h);
    case Exit(_, _) => ExitEntry(k, e, h);
    case Switch(sp) => SwitchAwayEntry(k, Some(k.mode.thread), sp, h);
    case _ => PlainEntry(k, e, h);
  }

  lemma LawfulSnoc(h: seq<Output>, o: Output)
    requires Lawful(h) && LawfulNext(h, o)
    ensures Lawful(h + [o])
  {
    forall j | 0 <= j < |h + [o]| ensures LawfulNext((h + [o])[..j], (h + [o])[j]) {
      if j < |h| {
        assert (h + [o])[..j] == h[..j];
      } else {
        assert (h + [o])[..j] == h;
      }
    }
  }

  lemma {:induction false} LedgerAlongRun(k: Kernel, es: seq<Event>)
    requires Sound(k) && CallsOk(k) && LedgerOk(k.q.endpoints, k.calls, k.buffers, []) && Legal(k, es)
    ensures Lawful(History(k, es))
    ensures var k' := Run(k, es); LedgerOk(k'.q.endpoints, k'.calls, k'.buffers, History(k, es))
    decreases |es|
  {
    if es != [] {
      var before, e := es[..|es| - 1], es[|es| - 1];
      LedgerAlongRun(k, before);
      RunKeepsCalls(k, before);
      StepEntry(Run(k, before), e, History(k, before));
      LawfulSnoc(History(k, before), Perform(Run(k, before), e).out);
    }
  }
}
