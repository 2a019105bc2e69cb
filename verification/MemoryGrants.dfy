/** Memory capabilities and the allocators behind them (kernel/src/syscall/mod.rs, SYS_FRAME_ALLOC and
    SYS_DMA_ALLOC): what the kernel grants names memory of its own. */
module MemoryGrants {
  import opened Basics
  import opened Capabilities
  import opened FrameAllocator
  import opened MemoryRuns
  import Flow = CapabilityFlow
  import BootInit

  /** The capabilities together with the frame allocator and the fill level of the DMA pool; the kernel is dead once
      clearing a region has faulted. */
  datatype Memory = Memory(sys: Flow.System, hold: Holding, used: nat, alive: bool)

  /** `KernelFrame` is a frame the kernel takes for itself: page tables, program pages, stacks. */
  datatype Request =
    | FrameRequest(p: Pid, size: nat)
    | DmaRequest(p: Pid, size: nat)
    | KernelFrame
    | OtherRequest(call: Flow.Call)

  predicate Valid(m: Memory, r: Request) {
    m.alive && m.used <= DMA_POOL_BYTES &&
    match r
    case FrameRequest(p, _) => p < |m.sys.cspaces|
    case DmaRequest(p, size) => p < |m.sys.cspaces| && size < WORD
    case KernelFrame => true
    case OtherRequest(c) => c.p < |m.sys.cspaces| && !c.FrameAlloc? && !c.DmaAlloc?
  }

  /** One request; the DMA pool starts at physical address `phys`. */
  function Serve(m: Memory, phys: nat, r: Request): (m': Memory)
    requires Valid(m, r)
    ensures m'.used <= DMA_POOL_BYTES && |m.sys.log| <= |m'.sys.log|
  {
    match r
    case FrameRequest(p, size) =>
      if size > 4096 then m
      else
        var frame := NextFree(m.hold.pool, 0);
        var addr := if frame.Some? then Some(frame.value * PAGE_SIZE) else None;
        m.(sys := Flow.Do(m.sys, Flow.FrameAlloc(p, size, addr)), hold := Apply(m.hold, Alloc))
    case DmaRequest(p, size) =>
      var (offset, used) := Bump(m.used, size);
      var addr := if offset.Some? then Some(phys + offset.value) else None;
      if Faults(m.used, size) then m.(used := used, alive := false)
      else m.(sys := Flow.Do(m.sys, Flow.DmaAlloc(p, size, addr)), used := used)
    case KernelFrame => m.(hold := Apply(m.hold, Alloc))
    case OtherRequest(c) => m.(sys := Flow.Do(m.sys, c))
  }

  /** Frame `f` belongs to the DMA pool. */
  predicate PoolFrame(phys: nat, f: nat) {
    phys <= f * PAGE_SIZE < phys + DMA_POOL_BYTES
  }

  /** The capability is for one whole frame outside the pool, or for a range inside the pool. */
  predicate OwnMemory(phys: nat, c: Capability)
    requires c.MemoryMapCap?
  {
    || (c.base % PAGE_SIZE == 0 && c.length == PAGE_SIZE && !PoolFrame(phys, c.base / PAGE_SIZE))
    || (phys <= c.base && c.base + c.length <= phys + DMA_POOL_BYTES)
  }

  predicate Apart(c: Capability, d: Capability)
    requires c.MemoryMapCap? && d.MemoryMapCap?
  {
    c.base + c.length <= d.base || d.base + d.length <= c.base
  }

  /** A memory capability made since boot, when the log had `boot` entries. */
  predicate Made(s: Flow.System, boot: nat, i: nat) {
    boot <= i < |s.log| && s.log[i].1.MemoryMapCap?
  }

  /** Memory capabilities made since boot name memory of their own. */
  ghost predicate Disjoint(s: Flow.System, boot: nat, phys: nat) {
    && (forall i: nat :: Made(s, boot, i) ==> OwnMemory(phys, s.log[i].1))
    && (forall i: nat, j: nat :: i < j && Made(s, boot, i) && Made(s, boot, j) ==> Apart(s.log[i].1, s.log[j].1))
  }

  /** What backs a capability: a frame handed out, or the filled part of the pool. */
  predicate Backed(m: Memory, phys: nat, c: Capability)
    requires c.MemoryMapCap?
  {
    || (c.base % PAGE_SIZE == 0 && c.length == PAGE_SIZE && c.base / PAGE_SIZE in m.hold.live)
    || (phys <= c.base && c.base + c.length <= phys + m.used)
  }

  ghost predicate Consistent(m: Memory, boot: nat, phys: nat, reserved: set<nat>) {
    && m.alive && Partition(m.hold, reserved) && (forall f: nat :: PoolFrame(phys, f) ==> f in reserved)
    && m.used <= DMA_POOL_BYTES && m.used % PAGE_SIZE == 0 && phys % PAGE_SIZE == 0
    && Disjoint(m.sys, boot, phys)
    && (forall i: nat :: Made(m.sys, boot, i) ==> Backed(m, phys, m.sys.log[i].1))
  }

  /** A capability for memory that nothing made so far is backed by. */
  lemma OneMore(m: Memory, m': Memory, boot: nat, phys: nat, reserved: set<nat>, p: Pid, c: Capability)
    requires Consistent(m, boot, phys, reserved) && boot <= |m.sys.log| && c.MemoryMapCap?
    requires m'.alive && m'.sys.log == m.sys.log + [(p, c)] && OwnMemory(phys, c) && Backed(m', phys, c)
    requires Partition(m'.hold, reserved) && m.hold.live <= m'.hold.live && m.used <= m'.used <= DMA_POOL_BYTES
             && m'.used % PAGE_SIZE == 0
    requires forall i: nat :: Made(m.sys, boot, i) ==> Apart(m.sys.log[i].1, c)
    ensures Consistent(m', boot, phys, reserved)
  {
    forall i: nat | Made(m'.sys, boot, i)
      ensures OwnMemory(phys, m'.sys.log[i].1) && Backed(m', phys, m'.sys.log[i].1) {
      if i < |m.sys.log| {
        assert Made(m.sys, boot, i);
      }
    }
    forall i: nat, j: nat | i < j && Made(m'.sys, boot, i) && Made(m'.sys, boot, j)
      ensures Apart(m'.sys.log[i].1, m'.sys.log[j].1) {
      assert Made(m.sys, boot, i);
      if j < |m.sys.log| {
        assert Made(m.sys, boot, j);
      }
    }
  }

  lemma FrameApart(m: Memory, boot: nat, phys: nat, reserved: set<nat>, f: nat, i: nat)
    requires Consistent(m, boot, phys, reserved) && Made(m.sys, boot, i)
    requires f in m.hold.pool.free
    ensures Apart(m.sys.log[i].1, MemoryMapCap(f * PAGE_SIZE, PAGE_SIZE)) && !PoolFrame(phys, f)
  {
    var c := m.sys.log[i].1;
    assert Backed(m, phys, c);
    assert f !in m.hold.live && f !in reserved;
    if c.base % PAGE_SIZE == 0 && c.length == PAGE_SIZE && c.base / PAGE_SIZE in m.hold.live {
      assert c.base == (c.base / PAGE_SIZE) * PAGE_SIZE && c.base / PAGE_SIZE != f;
    }
  }

  lemma FrameCap(f: nat)
    ensures f * PAGE_SIZE % PAGE_SIZE == 0 && f * PAGE_SIZE / PAGE_SIZE == f
  {
  }

  /** A capability for a frame that was free. */
  lemma FreeFrameCap(m: Memory, m': Memory, boot: nat, phys: nat, reserved: set<nat>, p: Pid, f: nat)
    requires Consistent(m, boot, phys, reserved) && boot <= |m.sys.log| && f in m.hold.pool.free
    requires m'.sys.log == m.sys.log + [(p, MemoryMapCap(f * PAGE_SIZE, PAGE_SIZE))] && m'.used == m.used && m'.alive
    requires Partition(m'.hold, reserved) && m.hold.live <= m'.hold.live && f in m'.hold.live
    ensures Consistent(m', boot, phys, reserved)
  {
    var c := MemoryMapCap(f * PAGE_SIZE, PAGE_SIZE);
    FrameCap(f);
    assert !PoolFrame(phys, f);
    forall i: nat | Made(m.sys, boot, i) ensures Apart(m.sys.log[i].1, c) {
      FrameApart(m, boot, phys, reserved, f, i);
    }
    OneMore(m, m', boot, phys, reserved, p, c);
  }

  lemma FrameServed(m: Memory, boot: nat, phys: nat, reserved: set<nat>, r: Request)
    requires Consistent(m, boot, phys, reserved) && boot <= |m.sys.log| && r.FrameRequest? && Valid(m, r)
    ensures Consistent(Serve(m, phys, r), boot, phys, reserved)
  {
    AllocKeepsPartition(m.hold, reserved);
    NextFreeIsNextFit(m.hold.pool);
    var frame := NextFree(m.hold.pool, 0);
    if r.size <= 4096 && frame.Some? {
      FreeFrameCap(m, Serve(m, phys, r), boot, phys, reserved, r.p, frame.value);
    }
  }

  lemma KernelFrameServed(m: Memory, boot: nat, phys: nat, reserved: set<nat>)
    requires Consistent(m, boot, phys, reserved)
    ensures Consistent(Serve(m, phys, KernelFrame), boot, phys, reserved)
  {
    AllocKeepsPartition(m.hold, reserved);
    var m' := Serve(m, phys, KernelFrame);
    forall i: nat | Made(m'.sys, boot, i) ensures Backed(m', phys, m'.sys.log[i].1) {
      assert Made(m.sys, boot, i) && Backed(m, phys, m.sys.log[i].1);
    }
  }

  lemma OtherServed(m: Memory, boot: nat, phys: nat, reserved: set<nat>, r: Request)
    requires Consistent(m, boot, phys, reserved) && r.OtherRequest? && Valid(m, r)
    ensures Consistent(Serve(m, phys, r), boot, phys, reserved)
  {
    var m' := Serve(m, phys, r);
    forall i: nat ensures Made(m'.sys, boot, i) <==> Made(m.sys, boot, i) {}
    assert forall i: nat :: Made(m.sys, boot, i) ==> m'.sys.log[i] == m.sys.log[i];
  }

  /** The pages of a DMA request do not overflow a machine word. */
  predicate NoWrap(r: Request) {
    r.DmaRequest? ==> WholePages(r.size) < WORD
  }

  lemma DmaServed(m: Memory, boot: nat, phys: nat, reserved: set<nat>, r: Request)
    requires Consistent(m, boot, phys, reserved) && boot <= |m.sys.log|
    requires r.DmaRequest? && Valid(m, r) && NoWrap(r) && !Faults(m.used, r.size)
    ensures Consistent(Serve(m, phys, r), boot, phys, reserved)
  {
    BumpExact(m.used, r.size);
    FaultsOnOverflow(m.used, r.size);
    if m.used + WholePages(r.size) <= DMA_POOL_BYTES {
      var c := MemoryMapCap(phys + m.used, r.size);
      forall i: nat | Made(m.sys, boot, i) ensures Apart(m.sys.log[i].1, c) {
        PoolApart(m, boot, phys, reserved, r.size, i);
      }
      OneMore(m, Serve(m, phys, r), boot, phys, reserved, r.p, c);
    }
  }

  lemma PoolApart(m: Memory, boot: nat, phys: nat, reserved: set<nat>, size: nat, i: nat)
    requires Consistent(m, boot, phys, reserved) && Made(m.sys, boot, i) && m.used + WholePages(size) <= DMA_POOL_BYTES
    ensures Apart(m.sys.log[i].1, MemoryMapCap(phys + m.used, size))
  {
    var c := m.sys.log[i].1;
    assert Backed(m, phys, c);
    if c.base % PAGE_SIZE == 0 && c.length == PAGE_SIZE && c.base / PAGE_SIZE in m.hold.live {
      assert c.base == (c.base / PAGE_SIZE) * PAGE_SIZE;
      assert !PoolFrame(phys, c.base / PAGE_SIZE);
    }
  }

  lemma WrapBreaks(m: Memory, boot: nat, phys: nat, r: Request)
    requires m.used <= DMA_POOL_BYTES && m.used % PAGE_SIZE == 0 && boot <= |m.sys.log| && Valid(m, r) && !NoWrap(r)
    ensures !Disjoint(Serve(m, phys, r).sys, boot, phys)
  {
    FaultsOnOverflow(m.used, r.size);
    WrapPasses(m.used, r.size);
    var s := Serve(m, phys, r).sys;
    assert s.log[|m.sys.log|].1 == MemoryMapCap(phys + m.used, r.size);
    assert Made(s, boot, |m.sys.log|);
  }

  lemma ServeExact(m: Memory, boot: nat, phys: nat, reserved: set<nat>, r: Request)
    requires Consistent(m, boot, phys, reserved) && boot <= |m.sys.log| && Valid(m, r)
    ensures NoWrap(r) && Serve(m, phys, r).alive ==> Consistent(Serve(m, phys, r), boot, phys, reserved)
    ensures Disjoint(Serve(m, phys, r).sys, boot, phys) <==> NoWrap(r)
  {
    if !NoWrap(r) {
      WrapBreaks(m, boot, phys, r);
    } else {
      match r
      case FrameRequest(_, _) => FrameServed(m, boot, phys, reserved, r);
      case DmaRequest(_, size) =>
        if !Faults(m.used, size) {
          DmaServed(m, boot, phys, reserved, r);
        }
      case KernelFrame => KernelFrameServed(m, boot, phys, reserved);
      case OtherRequest(_) => OtherServed(m, boot, phys, reserved, r);
    }
  }

  // ---- runs ----

  predicate AllValid(m: Memory, phys: nat, rs: seq<Request>)
    decreases |rs|
  {
    rs != [] ==> Valid(m, rs[0]) && AllValid(Serve(m, phys, rs[0]), phys, rs[1..])
  }

  predicate NeverWraps(rs: seq<Request>) {
    forall i :: 0 <= i < |rs| ==> NoWrap(rs[i])
  }

  ghost predicate AlwaysDisjoint(m: Memory, boot: nat, phys: nat, rs: seq<Request>)
    requires AllValid(m, phys, rs)
    decreases |rs|
  {
    Disjoint(m.sys, boot, phys) && (rs != [] ==> AlwaysDisjoint(Serve(m, phys, rs[0]), boot, phys, rs[1..]))
  }

  lemma {:induction false} DisjointAlongRun(m: Memory, boot: nat, phys: nat, reserved: set<nat>, rs: seq<Request>)
    requires Consistent(m, boot, phys, reserved) && boot <= |m.sys.log| && AllValid(m, phys, rs)
    ensures AlwaysDisjoint(m, boot, phys, rs) <==> NeverWraps(rs)
    decreases |rs|
  {
    if rs != [] {
      ServeExact(m, boot, phys, reserved, rs[0]);
      var m' := Serve(m, phys, rs[0]);
      assert NeverWraps(rs) <==> NoWrap(rs[0]) && NeverWraps(rs[1..]);
      if NoWrap(rs[0]) && m'.alive {
        DisjointAlongRun(m', boot, phys, reserved, rs[1..]);
      }
    }
  }

  /** The state boot leaves: the grants of boot, the frames and pool `Init` left, and an empty pool. */
  function AtBoot(framebuffer: Option<(nat, nat)>, nic: Option<Flow.Nic>, pool: Pool): Memory {
    Memory(Flow.Boot(Flow.Grants(framebuffer, nic)), Holding(pool, multiset{}), 0, true)
  }

  /** From the state boot leaves, over any run of requests: memory capabilities made by the two system calls are for
      whole frames outside the DMA pool or for ranges inside it, and no two of them overlap, in every state up to a
      fault, if and only if the pages of no DMA request overflow a machine word. */
  lemma GrantedMemoryDisjoint(framebuffer: Option<(nat, nat)>, nic: Option<Flow.Nic>, entries: seq<BootInit.Entry>,
                              pool: Pool, window: nat, rs: seq<Request>)
    requires BootInit.WellFormed(entries) && BootInit.BitmapBase(entries, BootInit.BitmapBytes(entries)) != 0
    requires pool.total == BootInit.TotalFrames(entries)
             && BootInit.LowestWindow(BootInit.FreeAfterMarking(entries), window)
    requires pool.free == BootInit.FreeAfterMarking(entries) - BootInit.WindowFrames(window)
    requires AllValid(AtBoot(framebuffer, nic, pool), window * PAGE_SIZE, rs)
    ensures var m, phys := AtBoot(framebuffer, nic, pool), window * PAGE_SIZE;
            AlwaysDisjoint(m, |m.sys.log|, phys, rs) <==> NeverWraps(rs)
  {
    var m, phys := AtBoot(framebuffer, nic, pool), window * PAGE_SIZE;
    BootInit.BootReserves(entries, pool, window);
    forall f: nat | PoolFrame(phys, f) ensures f in BootInit.Reserved(pool) {
      assert BootInit.InWindow(window, f);
    }
    DisjointAlongRun(m, |m.sys.log|, phys, BootInit.Reserved(pool), rs);
  }

  lemma {:induction false} LastGrant(slots: Slots, gs: seq<(nat, Capability)>)
    requires gs != []
    ensures Lookup(Flow.Granted(slots, gs), gs[|gs| - 1].0) == Some(gs[|gs| - 1].1)
    decreases |gs|
  {
    var next := InsertedAt(slots, gs[0].0, gs[0].1);
    if |gs| == 1 {
      assert Flow.Granted(next, gs[1..]) == next;
    } else {
      LastGrant(next, gs[1..]);
    }
  }

  function ServeAll(m: Memory, phys: nat, rs: seq<Request>): Memory
    requires AllValid(m, phys, rs)
    decreases |rs|
  {
    if rs == [] then m else ServeAll(Serve(m, phys, rs[0]), phys, rs[1..])
  }

  lemma {:induction false} AlwaysAtEnd(m: Memory, boot: nat, phys: nat, rs: seq<Request>)
    requires AllValid(m, phys, rs) && AlwaysDisjoint(m, boot, phys, rs)
    ensures Disjoint(ServeAll(m, phys, rs).sys, boot, phys)
    decreases |rs|
  {
    if rs != [] {
      AlwaysAtEnd(Serve(m, phys, rs[0]), boot, phys, rs[1..]);
    }
  }

  lemma HandleKept(s: Flow.System, c: Flow.Call, p: Pid, h: nat)
    requires c.p < |s.cspaces| && p < |s.cspaces| && Lookup(s.cspaces[p], h).Some?
    ensures p < |Flow.Do(s, c).cspaces| && Lookup(Flow.Do(s, c).cspaces[p], h) == Lookup(s.cspaces[p], h)
  {
    assert [c][1..] == [];
    assert Flow.Possible(s, [c]);
    Flow.HandlesAreStable(s, [c], p, h);
    assert Flow.After(s, [c]) == Flow.Do(s, c);
  }

  lemma {:induction false} HandleKeptAlongRun(m: Memory, phys: nat, rs: seq<Request>, p: Pid, h: nat)
    requires AllValid(m, phys, rs) && p < |m.sys.cspaces| && Lookup(m.sys.cspaces[p], h).Some?
    ensures var s := ServeAll(m, phys, rs).sys;
            p < |s.cspaces| && Lookup(s.cspaces[p], h) == Lookup(m.sys.cspaces[p], h)
    decreases |rs|
  {
    if rs != [] {
      match rs[0] {
        case FrameRequest(q, size) =>
          var frame := NextFree(m.hold.pool, 0);
          var addr := if frame.Some? then Some(frame.value * PAGE_SIZE) else None;
          HandleKept(m.sys, Flow.FrameAlloc(q, size, addr), p, h);
        case DmaRequest(q, size) =>
          var offset := Bump(m.used, size).0;
          HandleKept(m.sys, Flow.DmaAlloc(q, size, if offset.Some? then Some(phys + offset.value) else None), p, h);
        case KernelFrame =>
        case OtherRequest(c) => HandleKept(m.sys, c, p, h);
      }
      HandleKeptAlongRun(Serve(m, phys, rs[0]), phys, rs[1..], p, h);
    }
  }

  /** Where there is a network card, the first process names the whole pool by handle 22, in every state; so, over any
      run in which no request wraps, a memory capability made since boot lies inside what handle 22 names, or is for
      a whole frame apart from it. */
  lemma BootGrantCoversPool(framebuffer: Option<(nat, nat)>, nic: Flow.Nic, entries: seq<BootInit.Entry>, pool: Pool,
                            window: nat, rs: seq<Request>, i: nat)
    requires BootInit.WellFormed(entries) && BootInit.BitmapBase(entries, BootInit.BitmapBytes(entries)) != 0
    requires pool.total == BootInit.TotalFrames(entries)
    requires BootInit.LowestWindow(BootInit.FreeAfterMarking(entries), window)
    requires pool.free == BootInit.FreeAfterMarking(entries) - BootInit.WindowFrames(window)
    requires nic.dmaPhys == window * PAGE_SIZE
    requires AllValid(AtBoot(framebuffer, Some(nic), pool), nic.dmaPhys, rs) && NeverWraps(rs)
    requires var m := AtBoot(framebuffer, Some(nic), pool); Made(ServeAll(m, nic.dmaPhys, rs).sys, |m.sys.log|, i)
    ensures var s := ServeAll(AtBoot(framebuffer, Some(nic), pool), nic.dmaPhys, rs).sys;
            && 0 < |s.cspaces| && Lookup(s.cspaces[0], 22) == Some(MemoryMapCap(nic.dmaPhys, DMA_POOL_BYTES))
            && var held, c := Lookup(s.cspaces[0], 22).value, s.log[i].1;
            || (held.base <= c.base && c.base + c.length <= held.base + held.length)
            || (c.length == PAGE_SIZE && Apart(held, c))
  {
    var m, phys := AtBoot(framebuffer, Some(nic), pool), nic.dmaPhys;
    PoolHeldAtBoot(framebuffer, nic, pool);
    HandleKeptAlongRun(m, phys, rs, 0, 22);
    GrantedMemoryDisjoint(framebuffer, Some(nic), entries, pool, window, rs);
    AlwaysAtEnd(m, |m.sys.log|, phys, rs);
    var c := ServeAll(m, phys, rs).sys.log[i].1;
    assert OwnMemory(phys, c);
    if !(phys <= c.base && c.base + c.length <= phys + DMA_POOL_BYTES) {
      FrameOutsidePool(window, c.base);
    }
  }

  lemma PoolHeldAtBoot(framebuffer: Option<(nat, nat)>, nic: Flow.Nic, pool: Pool)
    ensures Lookup(AtBoot(framebuffer, Some(nic), pool).sys.cspaces[0], 22)
            == Some(MemoryMapCap(nic.dmaPhys, DMA_POOL_BYTES))
  {
    var gs := Flow.Grants(framebuffer, Some(nic));
    assert gs[|gs| - 1] == (22, MemoryMapCap(nic.dmaPhys, 65536));
    LastGrant([], gs);
  }

  /** A frame that does not start in the pool does not reach into it. */
  lemma FrameOutsidePool(window: nat, base: nat)
    requires base % PAGE_SIZE == 0 && !PoolFrame(window * PAGE_SIZE, base / PAGE_SIZE)
    ensures base + PAGE_SIZE <= window * PAGE_SIZE || window * PAGE_SIZE + DMA_POOL_BYTES <= base
  {
  }
}
