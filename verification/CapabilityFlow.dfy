/** How capabilities come into being and move between processes (kernel/src/syscall/mod.rs,
    kernel/src/elf/mod.rs, kernel/src/main.rs). System calls run with interrupts masked, so each is one step. */
module CapabilityFlow {
  import opened Basics
  import opened Capabilities

  const USIZE_MAX: nat := WORD - 1

  // ---- the capability space of a new process ----

  /** The copy loop of a full-copy spawn, from slot `i` on. */
  function CopyFrom(child: Slots, parent: Slots, i: nat): Slots
    decreases if i < |parent| then |parent| - i else 0
  {
    if i >= |parent| then child
    else CopyFrom(if parent[i].Some? then InsertedAt(child, i, parent[i].value) else child, parent, i + 1)
  }

  /** An endpoint capability named by the handle is granted at slot 1; the largest handle asks for a full copy. */
  function ChildSlots(parent: Slots, handle: nat): Slots {
    var named := Lookup(parent, handle);
    var child := if named.Some? && named.value.EndpointCap? then InsertedAt([], 1, named.value) else [];
    if handle == USIZE_MAX then CopyFrom(child, parent, 0) else child
  }

  lemma {:induction false} CopyFromExact(child: Slots, parent: Slots, i: nat, handle: nat)
    ensures Lookup(CopyFrom(child, parent, i), handle)
         == if i <= handle && Lookup(parent, handle).Some? then Lookup(parent, handle) else Lookup(child, handle)
    decreases if i < |parent| then |parent| - i else 0
  {
    if i < |parent| {
      CopyFromExact(if parent[i].Some? then InsertedAt(child, i, parent[i].value) else child, parent, i + 1, handle);
    }
  }

  /** A full copy names, under every handle, what the parent names before the spawn. After it, the parent
      differs in one handle, the new process capability, where the child has nothing. A vector has fewer than
      2^64 slots. */
  lemma FullCopyExact(parent: Slots, handle: nat, process: Pid)
    requires |parent| <= USIZE_MAX
    ensures var child := ChildSlots(parent, USIZE_MAX);
            var after := Inserted(parent, ProcessCap(process, {WAIT}));
            && Lookup(child, handle) == Lookup(parent, handle)
            && (Lookup(child, handle) != Lookup(after, handle) <==> handle == FirstFree(parent))
            && Lookup(child, FirstFree(parent)).None?
  {
    CopyFromExact([], parent, 0, handle);
    CopyFromExact([], parent, 0, FirstFree(parent));
    InsertedExact(parent, ProcessCap(process, {WAIT}), handle);
  }

  /** Any other spawn gives the child at most the one endpoint capability named, in slot 1. */
  lemma RestrictedSpawnExact(parent: Slots, handle: nat, h: nat)
    requires handle != USIZE_MAX
    ensures Lookup(ChildSlots(parent, handle), h)
         == if h == 1 && Lookup(parent, handle).Some? && Lookup(parent, handle).value.EndpointCap?
            then Lookup(parent, handle) else None
  {
  }

  /** Whatever the handle, a child's capability is one the parent holds. */
  lemma ChildHoldsParents(parent: Slots, handle: nat, h: nat)
    requires Lookup(ChildSlots(parent, handle), h).Some?
    ensures Lookup(parent, h) == Lookup(ChildSlots(parent, handle), h)
         || Lookup(parent, handle) == Lookup(ChildSlots(parent, handle), h)
  {
    var named := Lookup(parent, handle);
    CopyFromExact(if named.Some? && named.value.EndpointCap? then InsertedAt([], 1, named.value) else [], parent, 0, h);
  }

  /** The capability side of SYS_SPAWN. */
  method SpawnCaps(parent: CSpace, handle: nat, process: Pid) returns (child: CSpace, processHandle: nat)
    modifies parent
    ensures fresh(child)
    ensures child.slots == ChildSlots(old(parent.slots), handle)
    ensures parent.slots == Inserted(old(parent.slots), ProcessCap(process, {WAIT}))
    ensures processHandle == FirstFree(old(parent.slots))
  {
    var named := parent.Get(handle);
    child := new CSpace();
    if named.Some? && named.value.EndpointCap? {
      child.InsertAt(1, named.value);
    }
    if handle == USIZE_MAX {
      var i := 0;
      while i < |parent.slots|
        invariant i <= |parent.slots| && parent.slots == old(parent.slots) && fresh(child)
        invariant CopyFrom(child.slots, parent.slots, i) == ChildSlots(old(parent.slots), handle)
      {
        if parent.slots[i].Some? {
          child.InsertAt(i, parent.slots[i].value);
        }
        i := i + 1;
      }
    }
    processHandle := parent.Insert(ProcessCap(process, {WAIT}));
  }

  // ---- the system ----

  /** Processes are numbered in the order of creation. `log` records every capability that was created, with
      the process it was created for; it has no counterpart in the kernel. */
  datatype System = System(cspaces: seq<Slots>, parents: seq<Pid>, nextEp: EpId, log: seq<(Pid, Capability)>)

  /** What boot finds: a framebuffer, and a network card with its interrupt line and register window. */
  datatype Nic = Nic(irq: Irq, isIo: bool, base: nat, size: nat, dmaPhys: nat)

  function Window(n: Nic): Capability {
    if n.isIo then PortIOCap(n.base % 65536, n.size % 65536, 0) else MemoryMapCap(n.base, n.size)
  }

  /** Hardware only: no endpoint and no process exists yet. */
  function Grants(framebuffer: Option<(nat, nat)>, nic: Option<Nic>): (gs: seq<(nat, Capability)>)
    ensures forall i :: 0 <= i < |gs| ==> !gs[i].1.EndpointCap? && !gs[i].1.ProcessCap?
  {
    [(1, InterruptCap(1)), (2, PortIOCap(0x60, 5, 1))]
    + (if framebuffer.Some? then [(3, MemoryMapCap(framebuffer.value.0, framebuffer.value.1))] else [])
    + [(4, InterruptCap(14)), (5, PortIOCap(0x1F0, 8, 0)), (6, PortIOCap(0x3F6, 1, 1))]
    + match nic
      case None => []
      case Some(n) => [(20, InterruptCap(n.irq)), (21, Window(n)), (22, MemoryMapCap(n.dmaPhys, 65536))]
  }

  function Granted(slots: Slots, gs: seq<(nat, Capability)>): Slots
    decreases |gs|
  {
    if gs == [] then slots else Granted(InsertedAt(slots, gs[0].0, gs[0].1), gs[1..])
  }

  function Logged(gs: seq<(nat, Capability)>): (r: seq<(Pid, Capability)>)
    ensures |r| == |gs| && forall i :: 0 <= i < |gs| ==> r[i] == (0, gs[i].1)
  {
    seq(|gs|, i requires 0 <= i < |gs| => (0, gs[i].1))
  }

  /** The first process holds the boot grants and nothing else. */
  function Boot(gs: seq<(nat, Capability)>): System {
    System([Granted([], gs)], [0], 0, Logged(gs))
  }

  /** System calls that touch capability spaces, by the calling process. Whether the file of a spawn exists and
      what the allocators return is up to the environment; SYS_THREAD_SPAWN shares the space and changes nothing. */
  datatype Call =
    | EndpointCreate(p: Pid)
    | Spawn(p: Pid, handle: nat, found: bool)
    | FrameAlloc(p: Pid, size: nat, frame: Option<nat>)
    | DmaAlloc(p: Pid, size: nat, phys: Option<nat>)
    | ThreadSpawn(p: Pid)

  /** Puts a new capability into the space of `p`. */
  function Gain(s: System, p: Pid, cap: Capability): System
    requires p < |s.cspaces|
  {
    s.(cspaces := s.cspaces[p := Inserted(s.cspaces[p], cap)], log := s.log + [(p, cap)])
  }

  /** The state after the child exists and before its parent gets a capability for it. */
  function Forked(s: System, p: Pid, handle: nat): System
    requires p < |s.cspaces|
  {
    s.(cspaces := s.cspaces + [ChildSlots(s.cspaces[p], handle)], parents := s.parents + [p])
  }

  function Do(s: System, c: Call): System
    requires c.p < |s.cspaces|
  {
    match c
    case EndpointCreate(p) => Gain(s, p, EndpointCap(s.nextEp, ALL_RIGHTS)).(nextEp := s.nextEp + 1)
    case Spawn(p, handle, found) =>
      if !found then s else Gain(Forked(s, p, handle), p, ProcessCap(|s.cspaces|, {WAIT}))
    case FrameAlloc(p, size, frame) =>
      if size > 4096 || frame.None? then s else Gain(s, p, MemoryMapCap(frame.value, 4096))
    case DmaAlloc(p, size, phys) => if phys.None? then s else Gain(s, p, MemoryMapCap(phys.value, size))
    case ThreadSpawn(_) => s
  }

  predicate Possible(s: System, cs: seq<Call>)
    decreases |cs|
  {
    cs != [] ==> cs[0].p < |s.cspaces| && Possible(Do(s, cs[0]), cs[1..])
  }

  function After(s: System, cs: seq<Call>): System
    requires Possible(s, cs)
    decreases |cs|
  {
    if cs == [] then s else After(Do(s, cs[0]), cs[1..])
  }

  // ---- the spawn tree ----

  /** `a` is `p` or one of its ancestors. */
  predicate Descends(parents: seq<Pid>, a: Pid, p: Pid)
    decreases p
  {
    a == p || (p < |parents| && parents[p] < p && Descends(parents, a, parents[p]))
  }

  /** Some process on the path from the first process to `p` was given `cap` when it was created. */
  ghost predicate Inherited(s: System, p: Pid, cap: Capability) {
    exists i :: 0 <= i < |s.log| && s.log[i].1 == cap && Descends(s.parents, s.log[i].0, p)
  }

  ghost predicate Tree(s: System) {
    |s.parents| == |s.cspaces| && forall p :: 0 < p < |s.parents| ==> s.parents[p] < p
  }

  ghost predicate HeldInherited(s: System) {
    forall p: Pid, h: nat :: p < |s.cspaces| && Lookup(s.cspaces[p], h).Some? ==>
      Inherited(s, p, Lookup(s.cspaces[p], h).value)
  }

  /** Endpoint capabilities are created once per endpoint, with all rights; process capabilities for the parent,
      with the right to wait. */
  ghost predicate LogOk(s: System) {
    forall i :: 0 <= i < |s.log| ==>
      match s.log[i].1
      case EndpointCap(ep, rights) =>
        ep < s.nextEp && rights == ALL_RIGHTS &&
        forall j :: 0 <= j < |s.log| && s.log[j].1 == s.log[i].1 ==> i == j
      case ProcessCap(child, rights) => 0 < child < |s.parents| && rights == {WAIT} && s.parents[child] == s.log[i].0
      case _ => true
  }

  ghost predicate Lawful(s: System) {
    Tree(s) && HeldInherited(s) && LogOk(s)
  }

  lemma {:induction false} DescendsGrow(parents: seq<Pid>, x: Pid, a: Pid, p: Pid)
    requires p < |parents|
    ensures Descends(parents + [x], a, p) == Descends(parents, a, p)
    decreases p
  {
    if parents[p] < p {
      DescendsGrow(parents, x, a, parents[p]);
    }
  }

  lemma GainKeepsHeld(s: System, p: Pid, cap: Capability)
    requires p < |s.cspaces| && HeldInherited(s)
    ensures HeldInherited(Gain(s, p, cap))
  {
    var s' := Gain(s, p, cap);
    forall p1: Pid, h: nat | p1 < |s'.cspaces| && Lookup(s'.cspaces[p1], h).Some?
      ensures Inherited(s', p1, Lookup(s'.cspaces[p1], h).value)
    {
      if p1 == p && h == FirstFree(s.cspaces[p]) {
        assert s'.log[|s.log|] == (p, cap);
      } else {
        assert Lookup(s.cspaces[p1], h) == Lookup(s'.cspaces[p1], h);
        var i :| 0 <= i < |s.log| && s.log[i].1 == Lookup(s.cspaces[p1], h).value
            && Descends(s.parents, s.log[i].0, p1);
        assert s'.log[i] == s.log[i];
      }
    }
  }

  lemma InheritedInFork(s: System, p: Pid, handle: nat, p1: Pid, cap: Capability)
    requires Tree(s) && p < |s.cspaces| && p1 < |s.cspaces| && Inherited(s, p1, cap)
    ensures Inherited(Forked(s, p, handle), p1, cap)
    ensures p1 == p ==> Inherited(Forked(s, p, handle), |s.cspaces|, cap)
  {
    var i :| 0 <= i < |s.log| && s.log[i].1 == cap && Descends(s.parents, s.log[i].0, p1);
    DescendsGrow(s.parents, p, s.log[i].0, p1);
    var s' := Forked(s, p, handle);
    assert s'.log[i] == s.log[i];
    assert s'.parents[|s.cspaces|] == p;
  }

  lemma ForkKeepsHeld(s: System, p: Pid, handle: nat)
    requires Tree(s) && HeldInherited(s) && p < |s.cspaces|
    ensures HeldInherited(Forked(s, p, handle))
  {
    var s' := Forked(s, p, handle);
    forall p1: Pid, h: nat | p1 < |s'.cspaces| && Lookup(s'.cspaces[p1], h).Some?
      ensures Inherited(s', p1, Lookup(s'.cspaces[p1], h).value)
    {
      var cap := Lookup(s'.cspaces[p1], h).value;
      if p1 < |s.cspaces| {
        InheritedInFork(s, p, handle, p1, cap);
      } else {
        ChildHoldsParents(s.cspaces[p], handle, h);
        InheritedInFork(s, p, handle, p, cap);
      }
    }
  }

  lemma DoKeepsLawful(s: System, c: Call)
    requires Lawful(s) && c.p < |s.cspaces|
    ensures Lawful(Do(s, c))
  {
    match c
    case EndpointCreate(p) => GainKeepsHeld(s, p, EndpointCap(s.nextEp, ALL_RIGHTS));
    case Spawn(p, handle, found) =>
      ForkKeepsHeld(s, p, handle);
      GainKeepsHeld(Forked(s, p, handle), p, ProcessCap(|s.cspaces|, {WAIT}));
    case FrameAlloc(p, size, frame) =>
      if frame.Some? {
        GainKeepsHeld(s, p, MemoryMapCap(frame.value, 4096));
      }
    case DmaAlloc(p, size, phys) =>
      if phys.Some? {
        GainKeepsHeld(s, p, MemoryMapCap(phys.value, size));
      }
    case ThreadSpawn(_) =>
  }

  lemma {:induction false} GrantedFrom(slots: Slots, gs: seq<(nat, Capability)>, h: nat)
    requires Lookup(Granted(slots, gs), h).Some?
    ensures Lookup(Granted(slots, gs), h) == Lookup(slots, h)
         || exists i :: 0 <= i < |gs| && gs[i].1 == Lookup(Granted(slots, gs), h).value
    decreases |gs|
  {
    if gs != [] {
      var next := InsertedAt(slots, gs[0].0, gs[0].1);
      InsertedAtExact(slots, gs[0].0, gs[0].1, h);
      GrantedFrom(next, gs[1..], h);
      if exists i :: 0 <= i < |gs[1..]| && gs[1..][i].1 == Lookup(Granted(slots, gs), h).value {
        var i :| 0 <= i < |gs[1..]| && gs[1..][i].1 == Lookup(Granted(slots, gs), h).value;
        assert gs[i + 1] == gs[1..][i];
      }
    }
  }

  /** What a handle of the first process names. */
  function BootNames(framebuffer: Option<(nat, nat)>, nic: Option<Nic>, h: nat): Option<Capability> {
    if h == 1 then Some(InterruptCap(1))
    else if h == 2 then Some(PortIOCap(0x60, 5, 1))
    else if h == 3 && framebuffer.Some? then Some(MemoryMapCap(framebuffer.value.0, framebuffer.value.1))
    else if h == 4 then Some(InterruptCap(14))
    else if h == 5 then Some(PortIOCap(0x1F0, 8, 0))
    else if h == 6 then Some(PortIOCap(0x3F6, 1, 1))
    else if h == 20 && nic.Some? then Some(InterruptCap(nic.value.irq))
    else if h == 21 && nic.Some? then
      Some(if nic.value.isIo then PortIOCap(nic.value.base % 65536, nic.value.size % 65536, 0)
           else MemoryMapCap(nic.value.base, nic.value.size))
    else if h == 22 && nic.Some? then Some(MemoryMapCap(nic.value.dmaPhys, 65536))
    else None
  }

  /** A handle names what it was last granted. */
  lemma {:induction false} GrantedExact(slots: Slots, gs: seq<(nat, Capability)>, h: nat)
    ensures Lookup(Granted(slots, gs), h)
         == if gs != [] && gs[|gs| - 1].0 == h then Some(gs[|gs| - 1].1)
            else if gs == [] then Lookup(slots, h) else Lookup(Granted(slots, gs[..|gs| - 1]), h)
    decreases |gs|
  {
    if gs != [] {
      var next := InsertedAt(slots, gs[0].0, gs[0].1);
      InsertedAtExact(slots, gs[0].0, gs[0].1, h);
      GrantedExact(next, gs[1..], h);
      if |gs| > 1 {
        assert gs[1..][..|gs| - 2] == gs[..|gs| - 1][1..];
      }
    }
  }

  /** A list of grants with distinct handles, looked up. */
  function Listed(gs: seq<(nat, Capability)>, h: nat): Option<Capability> {
    if gs == [] then None
    else if gs[|gs| - 1].0 == h then Some(gs[|gs| - 1].1)
    else Listed(gs[..|gs| - 1], h)
  }

  lemma {:induction false} GrantedListed(gs: seq<(nat, Capability)>, h: nat)
    ensures Lookup(Granted([], gs), h) == Listed(gs, h)
    decreases |gs|
  {
    GrantedExact([], gs, h);
    if gs != [] {
      GrantedListed(gs[..|gs| - 1], h);
    }
  }

  lemma {:induction false} ListedTwo(a: seq<(nat, Capability)>, b: seq<(nat, Capability)>, h: nat)
    ensures Listed(a + b, h) == if Listed(b, h).Some? then Listed(b, h) else Listed(a, h)
    decreases |b|
  {
    if b == [] {
      assert a + b == a;
    } else {
      ListedTwo(a, b[..|b| - 1], h);
      assert (a + b)[..|a + b| - 1] == a + b[..|b| - 1];
    }
  }

  lemma ListedOne(x: (nat, Capability), h: nat)
    ensures Listed([x], h) == if x.0 == h then Some(x.1) else None
  {
  }

  lemma ListedThree(x: (nat, Capability), y: (nat, Capability), z: (nat, Capability), h: nat)
    requires x.0 < y.0 < z.0
    ensures Listed([x, y, z], h)
         == if x.0 == h then Some(x.1) else if y.0 == h then Some(y.1) else if z.0 == h then Some(z.1) else None
  {
    assert [x, y, z] == [x] + [y] + [z];
    ListedTwo([x] + [y], [z], h);
    ListedTwo([x], [y], h);
    ListedOne(x, h);
    ListedOne(y, h);
    ListedOne(z, h);
  }

  /** The first process names the devices under fixed handles, and nothing else. */
  lemma BootExact(framebuffer: Option<(nat, nat)>, nic: Option<Nic>, h: nat)
    ensures var s := Boot(Grants(framebuffer, nic));
            |s.cspaces| == 1 && Lookup(s.cspaces[0], h) == BootNames(framebuffer, nic, h)
  {
    var keyboard := [(1, InterruptCap(1)), (2, PortIOCap(0x60, 5, 1))];
    var screen := if framebuffer.Some? then [(3, MemoryMapCap(framebuffer.value.0, framebuffer.value.1))] else [];
    var disk := [(4, InterruptCap(14)), (5, PortIOCap(0x1F0, 8, 0)), (6, PortIOCap(0x3F6, 1, 1))];
    var card := match nic
      case None => []
      case Some(n) => [(20, InterruptCap(n.irq)), (21, Window(n)), (22, MemoryMapCap(n.dmaPhys, 65536))];
    assert Grants(framebuffer, nic) == keyboard + screen + disk + card;
    GrantedListed(Grants(framebuffer, nic), h);
    ListedTwo(keyboard + screen + disk, card, h);
    ListedTwo(keyboard + screen, disk, h);
    ListedTwo(keyboard, screen, h);
    assert keyboard == [keyboard[0]] + [keyboard[1]];
    ListedTwo([keyboard[0]], [keyboard[1]], h);
    ListedThree(disk[0], disk[1], disk[2], h);
    if nic.Some? {
      ListedThree(card[0], card[1], card[2], h);
    }
  }

  // ---- what each call does ----

  /** What handle `h` of the child of a spawn names: all its parent names for the largest handle, and otherwise in
      slot 1 the endpoint named. */
  function ChildNames(parent: Slots, handle: nat, h: nat): Option<Capability> {
    if handle == 0xFFFF_FFFF_FFFF_FFFF then Lookup(parent, h)
    else if h == 1 && Lookup(parent, handle).Some? && Lookup(parent, handle).value.EndpointCap?
    then Lookup(parent, handle) else None
  }

  /** The capability a call makes for its caller, if any. */
  function Made(s: System, c: Call): Option<Capability> {
    match c
    case EndpointCreate(_) => Some(EndpointCap(s.nextEp, {SEND, RECEIVE, WAIT}))
    case Spawn(_, _, found) => if found then Some(ProcessCap(|s.cspaces|, {WAIT})) else None
    case FrameAlloc(_, size, frame) =>
      if size <= 4096 && frame.Some? then Some(MemoryMapCap(frame.value, 4096)) else None
    case DmaAlloc(_, size, phys) => if phys.Some? then Some(MemoryMapCap(phys.value, size)) else None
    case ThreadSpawn(_) => None
  }

  /** Every call, told by what each handle of each process names after it. A vector has fewer than 2^64 slots. */
  lemma CallExact(s: System, c: Call, p: Pid, h: nat)
    requires c.p < |s.cspaces| && |s.parents| == |s.cspaces| && |s.cspaces[c.p]| < 0xFFFF_FFFF_FFFF_FFFF
    ensures var s' := Do(s, c);
            && |s'.cspaces| == |s.cspaces| + (if c.Spawn? && c.found then 1 else 0)
            && s'.nextEp == s.nextEp + (if c.EndpointCreate? then 1 else 0)
            && s'.parents == s.parents + (if c.Spawn? && c.found then [c.p] else [])
            && s'.log == s.log + (if Made(s, c).Some? then [(c.p, Made(s, c).value)] else [])
            && (p < |s.cspaces| ==>
                  Lookup(s'.cspaces[p], h)
                  == if p == c.p && Made(s, c).Some? && h == FirstFree(s.cspaces[p]) then Made(s, c)
                     else Lookup(s.cspaces[p], h))
            && (c.Spawn? && c.found ==>
                  Lookup(s'.cspaces[|s.cspaces|], h) == ChildNames(s.cspaces[c.p], c.handle, h))
  {
    var slots := s.cspaces[c.p];
    if Made(s, c).Some? {
      InsertedExact(slots, Made(s, c).value, h);
    }
    if c.Spawn? && c.found {
      if c.handle == USIZE_MAX {
        CopyFromExact([], slots, 0, h);
      } else {
        RestrictedSpawnExact(slots, c.handle, h);
      }
    }
  }

  lemma BootLawful(framebuffer: Option<(nat, nat)>, nic: Option<Nic>)
    ensures Lawful(Boot(Grants(framebuffer, nic)))
  {
    var gs := Grants(framebuffer, nic);
    var s := Boot(gs);
    forall h: nat | Lookup(s.cspaces[0], h).Some?
      ensures Inherited(s, 0, Lookup(s.cspaces[0], h).value)
    {
      GrantedFrom([], gs, h);
      var i :| 0 <= i < |gs| && gs[i].1 == Lookup(Granted([], gs), h).value;
      assert s.log[i] == (0, gs[i].1);
    }
  }

  lemma {:induction false} AfterKeepsLawful(s: System, cs: seq<Call>)
    requires Lawful(s) && Possible(s, cs)
    ensures Lawful(After(s, cs))
    decreases |cs|
  {
    if cs != [] {
      DoKeepsLawful(s, cs[0]);
      AfterKeepsLawful(Do(s, cs[0]), cs[1..]);
    }
  }

  /** In every reachable state a capability held by a process was created, exactly as it is, for that process or
      an ancestor: it flows only down the spawn tree and gains no right on the way. An endpoint capability has
      all rights and is held only below the one process that created the endpoint; a process capability lets its
      holder wait and is held only below the parent of that process. */
  lemma CapabilitiesFlowDown(framebuffer: Option<(nat, nat)>, nic: Option<Nic>, cs: seq<Call>, p: Pid, h: nat)
    requires Possible(Boot(Grants(framebuffer, nic)), cs)
    requires var s := After(Boot(Grants(framebuffer, nic)), cs); p < |s.cspaces| && Lookup(s.cspaces[p], h).Some?
    ensures var s := After(Boot(Grants(framebuffer, nic)), cs);
            var cap := Lookup(s.cspaces[p], h).value;
            && Inherited(s, p, cap)
            && (cap.EndpointCap? ==>
                cap.rights == ALL_RIGHTS &&
                forall i :: 0 <= i < |s.log| && s.log[i].1 == cap ==> Descends(s.parents, s.log[i].0, p))
            && (cap.ProcessCap? ==>
                cap.rights == {WAIT} && cap.process < |s.parents| && Descends(s.parents, s.parents[cap.process], p))
  {
    BootLawful(framebuffer, nic);
    AfterKeepsLawful(Boot(Grants(framebuffer, nic)), cs);
  }

  /** A handle keeps its meaning: no system call removes or replaces a capability. */
  lemma {:induction false} HandlesAreStable(s: System, cs: seq<Call>, p: Pid, h: nat)
    requires Possible(s, cs) && p < |s.cspaces| && Lookup(s.cspaces[p], h).Some?
    ensures p < |After(s, cs).cspaces| && Lookup(After(s, cs).cspaces[p], h) == Lookup(s.cspaces[p], h)
    decreases |cs|
  {
    if cs != [] {
      HandlesAreStable(Do(s, cs[0]), cs[1..], p, h);
    }
  }
}
