/** Capabilities and capability spaces (kernel/src/capability/mod.rs). */
module Capabilities {
  import opened Basics

  type EpId = nat
  type Pid = nat
  type Irq = i: int | 0 <= i < 256

  datatype Right = SEND | RECEIVE | WAIT

  type Rights = set<Right>

  const ALL_RIGHTS: Rights := {SEND, RECEIVE, WAIT}

  /** Endpoints and processes are shared objects; an identifier stands for the reference. */
  datatype Capability =
    | EndpointCap(ep: EpId, rights: Rights)
    | ProcessCap(process: Pid, rights: Rights)
    | InterruptCap(irq: Irq)
    | PortIOCap(start: nat, len: nat, width: nat)
    | MemoryMapCap(base: nat, length: nat)

  datatype CapError = InvalidHandle | PermissionDenied | WrongType

  type Slots = seq<Option<Capability>>

  /** The capability a handle names; out-of-range and empty slots name none. */
  function Lookup(slots: Slots, handle: nat): Option<Capability> {
    if handle < |slots| then slots[handle] else None
  }

  /** The lowest empty slot, or the length when every slot is taken. */
  function FirstFree(slots: Slots): (i: nat)
    ensures i <= |slots|
    ensures i < |slots| ==> slots[i].None?
    ensures forall j :: 0 <= j < i ==> slots[j].Some?
  {
    if slots == [] || slots[0].None? then 0 else 1 + FirstFree(slots[1..])
  }

  /** The slots after `insert`: the lowest empty slot is filled, or one is appended. */
  function Inserted(slots: Slots, cap: Capability): Slots {
    var i := FirstFree(slots);
    if i < |slots| then slots[i := Some(cap)] else slots + [Some(cap)]
  }

  /** The slots after `insert_at`: the table grows with empty slots up to the index if need be. */
  function InsertedAt(slots: Slots, index: nat, cap: Capability): Slots {
    var grown := if index >= |slots| then slots + seq(index + 1 - |slots|, _ => None) else slots;
    grown[index := Some(cap)]
  }

  /** `insert` answers with the lowest handle that named nothing, and changes no other handle. */
  lemma InsertedExact(slots: Slots, cap: Capability, handle: nat)
    ensures Lookup(slots, FirstFree(slots)).None?
    ensures Lookup(Inserted(slots, cap), handle)
         == if handle == FirstFree(slots) then Some(cap) else Lookup(slots, handle)
    ensures Lookup(slots, handle).None? ==> FirstFree(slots) <= handle
  {
  }

  lemma InsertedAtExact(slots: Slots, index: nat, cap: Capability, handle: nat)
    ensures Lookup(InsertedAt(slots, index, cap), handle)
         == if handle == index then Some(cap) else Lookup(slots, handle)
  {
  }

  class CSpace {
    var slots: Slots

    constructor ()
      ensures slots == []
    {
      slots := [];
    }

    method Insert(cap: Capability) returns (handle: nat)
      modifies this
      ensures handle == FirstFree(old(slots))
      ensures slots == Inserted(old(slots), cap)
    {
      var i := 0;
      while i < |slots|
        invariant i <= |slots| && slots == old(slots)
        invariant forall j :: 0 <= j < i ==> slots[j].Some?
      {
        if slots[i].None? {
          slots := slots[i := Some(cap)];
          return i;
        }
        i := i + 1;
      }
      slots := slots + [Some(cap)];
      handle := |slots| - 1;
    }

    method InsertAt(index: nat, cap: Capability)
      modifies this
      ensures slots == InsertedAt(old(slots), index, cap)
    {
      if index >= |slots| {
        slots := slots + seq(index + 1 - |slots|, _ => None);
      }
      slots := slots[index := Some(cap)];
    }

    method Get(handle: nat) returns (cap: Option<Capability>)
      ensures cap == Lookup(slots, handle)
    {
      if handle < |slots| {
        return slots[handle];
      }
      cap := None;
    }

    /** Takes the capability out: the handle names nothing afterwards, so `insert` may hand it out again. */
    method Remove(handle: nat) returns (cap: Option<Capability>)
      modifies this
      ensures cap == Lookup(old(slots), handle)
      ensures |slots| == |old(slots)|
      ensures forall h: nat :: Lookup(slots, h) == if h == handle then None else Lookup(old(slots), h)
    {
      if handle < |slots| {
        cap := slots[handle];
        slots := slots[handle := None];
      } else {
        cap := None;
      }
    }
  }
}
