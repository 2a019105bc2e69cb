/** The kernel's shared objects: endpoints and processes with queues of their own, changed in place and referred to from
    many places, and what such a collection of objects holds as a value. */
module KernelObjects {
  import opened Basics
  import opened Capabilities
  import opened KernelState

  function WithSender(s: EndpointState, t: Tid, msg: Message): EndpointState {
    SendersWaiting((if s.SendersWaiting? then s.senders else []) + [(t, msg)])
  }

  function WithReceiver(s: EndpointState, t: Tid): EndpointState {
    ReceiversWaiting((if s.ReceiversWaiting? then s.receivers else []) + [t])
  }

  class Endpoint {
    var state: EndpointState

    constructor ()
      ensures state == Idle
    {
      state := Idle;
    }

    method PushSender(t: Tid, msg: Message)
      requires !state.ReceiversWaiting?
      modifies this
      ensures state == WithSender(old(state), t, msg)
    {
      if state.Idle? {
        state := SendersWaiting([]);
      }
      state := SendersWaiting(state.senders + [(t, msg)]);
    }

    method PopSender() returns (t: Tid, msg: Message)
      requires state.SendersWaiting? && state.senders != []
      modifies this
      ensures (t, msg) == old(state).senders[0] && state == SendersWaiting(old(state).senders[1..])
    {
      t, msg := state.senders[0].0, state.senders[0].1;
      state := SendersWaiting(state.senders[1..]);
    }

    method PushReceiver(t: Tid)
      requires !state.SendersWaiting?
      modifies this
      ensures state == WithReceiver(old(state), t)
    {
      if state.Idle? {
        state := ReceiversWaiting([]);
      }
      state := ReceiversWaiting(state.receivers + [t]);
    }

    method PopReceiver() returns (t: Tid)
      requires state.ReceiversWaiting? && state.receivers != []
      modifies this
      ensures t == old(state).receivers[0] && state == ReceiversWaiting(old(state).receivers[1..])
    {
      t := state.receivers[0];
      state := ReceiversWaiting(state.receivers[1..]);
    }
  }

  class Process {
    var terminated: bool
    var waitQueue: seq<Tid>

    constructor ()
      ensures !terminated && waitQueue == []
    {
      terminated, waitQueue := false, [];
    }

    method PushWaiter(t: Tid)
      modifies this
      ensures terminated == old(terminated) && waitQueue == old(waitQueue) + [t]
    {
      waitQueue := waitQueue + [t];
    }

    /** Marks the process terminated and moves its waiters to the end of `line`, one by one. */
    method Terminate(line: seq<Tid>) returns (line': seq<Tid>)
      modifies this
      ensures terminated && waitQueue == [] && line' == line + old(waitQueue)
    {
      line', terminated := line, true;
      while waitQueue != []
        invariant terminated && line' + waitQueue == line + old(waitQueue)
        decreases |waitQueue|
      {
        line', waitQueue := line' + [waitQueue[0]], waitQueue[1..];
      }
      assert line' == line' + waitQueue;
    }
  }

  // ---- what the objects hold ----

  ghost predicate SlotsAgree(slots: array<Option<Tid>>, waiters: map<Irq, Tid>)
    reads slots
  {
    slots.Length == 256 && forall i: Irq :: slots[i] == if i in waiters then Some(waiters[i]) else None
  }

  ghost predicate FlagsAgree(flags: array<bool>, pending: set<Irq>)
    reads flags
  {
    flags.Length == 256 && forall i: Irq :: flags[i] <==> i in pending
  }

  /** The endpoints that capabilities refer to, found by the number that stands for the reference. */
  class EndpointTable {
    var objects: map<EpId, Endpoint>
    ghost var states: map<EpId, EndpointState>
    ghost var Repr: set<object>

    ghost predicate Valid()
      reads this, Repr
    {
      && this in Repr && objects.Keys == states.Keys
      && (forall ep :: ep in objects ==> objects[ep] in Repr && objects[ep].state == states[ep])
      && (forall x, y :: x in objects && y in objects && x != y ==> objects[x] != objects[y])
    }

    constructor ()
      ensures Valid() && fresh(Repr) && states == map[]
    {
      objects, states := map[], map[];
      Repr := {this};
    }

    method Get(ep: EpId) returns (state: EndpointState)
      requires Valid()
      ensures state == EndpointAt(states, ep)
    {
      state := if ep in objects then objects[ep].state else Idle;
    }

    /** The endpoint object; one that was never used is made on first use. */
    method Object(ep: EpId) returns (e: Endpoint)
      requires Valid()
      modifies this
      ensures Valid() && fresh(Repr - old(Repr)) && (e in old(Repr) || fresh(e))
      ensures ep in objects && e == objects[ep] && states == old(states)[ep := EndpointAt(old(states), ep)]
    {
      if ep in objects {
        e := objects[ep];
      } else {
        e := new Endpoint();
        objects := objects[ep := e];
        Repr := Repr + {e};
      }
      states := states[ep := EndpointAt(states, ep)];
    }

    method PushSender(ep: EpId, t: Tid, msg: Message)
      requires Valid() && !EndpointAt(states, ep).ReceiversWaiting?
      modifies Repr
      ensures Valid() && fresh(Repr - old(Repr))
      ensures states == old(states)[ep := WithSender(EndpointAt(old(states), ep), t, msg)]
    {
      ghost var before := states;
      var e := Object(ep);
      e.PushSender(t, msg);
      states := before[ep := e.state];
    }

    method PushReceiver(ep: EpId, t: Tid)
      requires Valid() && !EndpointAt(states, ep).SendersWaiting?
      modifies Repr
      ensures Valid() && fresh(Repr - old(Repr))
      ensures states == old(states)[ep := WithReceiver(EndpointAt(old(states), ep), t)]
    {
      ghost var before := states;
      var e := Object(ep);
      e.PushReceiver(t);
      states := before[ep := e.state];
    }

    method PopSender(ep: EpId) returns (t: Tid, msg: Message)
      requires Valid() && EndpointAt(states, ep).SendersWaiting? && EndpointAt(states, ep).senders != []
      modifies Repr
      ensures Valid() && fresh(Repr - old(Repr)) && (t, msg) == EndpointAt(old(states), ep).senders[0]
      ensures states == old(states)[ep := SendersWaiting(EndpointAt(old(states), ep).senders[1..])]
    {
      t, msg := objects[ep].PopSender();
      states := states[ep := objects[ep].state];
    }

    method PopReceiver(ep: EpId) returns (t: Tid)
      requires Valid() && EndpointAt(states, ep).ReceiversWaiting? && EndpointAt(states, ep).receivers != []
      modifies Repr
      ensures Valid() && fresh(Repr - old(Repr)) && t == EndpointAt(old(states), ep).receivers[0]
      ensures states == old(states)[ep := ReceiversWaiting(EndpointAt(old(states), ep).receivers[1..])]
    {
      t := objects[ep].PopReceiver();
      states := states[ep := objects[ep].state];
    }

    method Create(ep: EpId)
      requires Valid() && ep !in states
      modifies Repr
      ensures Valid() && fresh(Repr - old(Repr)) && states == old(states)[ep := Idle]
    {
      var _ := Object(ep);
    }
  }

  /** The process states that capabilities and threads refer to. */
  class ProcessTable {
    var objects: map<Pid, Process>
    ghost var states: map<Pid, ProcessState>
    ghost var Repr: set<object>

    ghost predicate Valid()
      reads this, Repr
    {
      && this in Repr && objects.Keys == states.Keys
      && (forall p :: p in objects ==> objects[p] in Repr
                                       && ProcessState(objects[p].terminated, objects[p].waitQueue) == states[p])
      && (forall x, y :: x in objects && y in objects && x != y ==> objects[x] != objects[y])
    }

    constructor ()
      ensures Valid() && fresh(Repr) && states == map[]
    {
      objects, states := map[], map[];
      Repr := {this};
    }

    method IsTerminated(p: Pid) returns (b: bool)
      requires Valid()
      ensures b == ProcessAt(states, p).terminated
    {
      b := p in objects && objects[p].terminated;
    }

    method Object(p: Pid) returns (e: Process)
      requires Valid()
      modifies this
      ensures Valid() && fresh(Repr - old(Repr)) && (e in old(Repr) || fresh(e))
      ensures p in objects && e == objects[p] && states == old(states)[p := ProcessAt(old(states), p)]
    {
      if p in objects {
        e := objects[p];
      } else {
        e := new Process();
        objects := objects[p := e];
        Repr := Repr + {e};
      }
      states := states[p := ProcessAt(states, p)];
    }

    method PushWaiter(p: Pid, t: Tid)
      requires Valid()
      modifies Repr
      ensures Valid() && fresh(Repr - old(Repr))
      ensures var s := ProcessAt(old(states), p); states == old(states)[p := s.(waitQueue := s.waitQueue + [t])]
    {
      ghost var before := states;
      var e := Object(p);
      e.PushWaiter(t);
      states := before[p := ProcessState(e.terminated, e.waitQueue)];
    }

    /** The process ends, and its waiters follow `line` in the order of their waits. */
    method Terminate(p: Pid, line: seq<Tid>) returns (line': seq<Tid>)
      requires Valid()
      modifies Repr
      ensures Valid() && fresh(Repr - old(Repr))
      ensures states == old(states)[p := ProcessState(true, [])] && line' == line + ProcessAt(old(states), p).waitQueue
    {
      ghost var before := states;
      var e := Object(p);
      line' := e.Terminate(line);
      states := before[p := ProcessState(true, [])];
    }
  }
}
