/** Memory handed out never overlaps: whole runs of the frame allocator and of the DMA pool. */
module MemoryRuns {
  import opened Basics
  import opened FrameAllocator

  // ---- frames ----

  /** The allocator together with the frames handed out and not given back since, counted. */
  datatype Holding = Holding(pool: Pool, live: multiset<nat>)

  datatype Op = Alloc | Free(frame: nat)

  function Apply(h: Holding, op: Op): Holding {
    match op
    case Alloc =>
      (match NextFree(h.pool, 0)
       case None => h
       case Some(f) => Holding(Allocate(h.pool), h.live + multiset{f}))
    case Free(f) => Holding(Deallocate(h.pool, f), h.live[f := 0])
  }

  function ApplyAll(h: Holding, ops: seq<Op>): Holding {
    if ops == [] then h else Apply(ApplyAll(h, ops[..|ops| - 1]), ops[|ops| - 1])
  }

  /** Every frame is free, handed out once, or reserved, and only one of these. */
  ghost predicate Partition(h: Holding, reserved: set<nat>) {
    && (forall f: nat :: f < h.pool.total <==> f in h.pool.free || f in h.live || f in reserved)
    && (forall f: nat :: h.live[f] <= 1)
    && (forall f: nat :: f in h.pool.free ==> f !in h.live && f !in reserved)
    && (forall f: nat :: f in h.live ==> f !in reserved)
  }

  lemma AllocKeepsPartition(h: Holding, reserved: set<nat>)
    requires Partition(h, reserved)
    ensures Partition(Apply(h, Alloc), reserved)
  {
    NextFreeIsNextFit(h.pool);
    var r := NextFree(h.pool, 0);
    if r.Some? {
      assert r.value in h.pool.free;
      var h' := Apply(h, Alloc);
      forall f: nat ensures h'.live[f] == h.live[f] + if f == r.value then 1 else 0 {}
    }
  }

  /** Giving a frame back keeps the partition if and only if the frame is not a reserved one. */
  lemma FreeExact(h: Holding, reserved: set<nat>, f: nat)
    requires Partition(h, reserved)
    ensures Partition(Apply(h, Free(f)), reserved) <==> f !in reserved
  {
  }

  /** The partition holds after every prefix of the run. */
  ghost predicate AlwaysPartitioned(h: Holding, ops: seq<Op>, reserved: set<nat>) {
    Partition(ApplyAll(h, ops), reserved) && (ops != [] ==> AlwaysPartitioned(h, ops[..|ops| - 1], reserved))
  }

  /** No operation gives back a frame of `reserved`. */
  predicate NeverFrees(ops: seq<Op>, reserved: set<nat>) {
    forall i :: 0 <= i < |ops| && ops[i].Free? ==> ops[i].frame !in reserved
  }

  lemma NeverFreesLast(ops: seq<Op>, reserved: set<nat>)
    requires ops != []
    ensures var before, op := ops[..|ops| - 1], ops[|ops| - 1];
            NeverFrees(ops, reserved) <==> NeverFrees(before, reserved) && (op.Free? ==> op.frame !in reserved)
  {
    var before := ops[..|ops| - 1];
    assert forall i :: 0 <= i < |before| ==> before[i] == ops[i];
  }

  /** Over any run, live frames are pairwise distinct, never free and never reserved, in every state, if
      and only if no operation of the run gives back a reserved frame. */
  lemma {:induction false} LiveFramesNeverOverlap(h: Holding, ops: seq<Op>, reserved: set<nat>)
    requires Partition(h, reserved)
    ensures AlwaysPartitioned(h, ops, reserved) <==> NeverFrees(ops, reserved)
    decreases |ops|
  {
    if ops != [] {
      var before, op := ops[..|ops| - 1], ops[|ops| - 1];
      LiveFramesNeverOverlap(h, before, reserved);
      if AlwaysPartitioned(h, before, reserved) {
        if op.Alloc? {
          AllocKeepsPartition(ApplyAll(h, before), reserved);
        } else {
          FreeExact(ApplyAll(h, before), reserved, op.frame);
        }
      }
      NeverFreesLast(ops, reserved);
    }
  }

  // ---- the DMA pool ----

  const DMA_POOL_BYTES: nat := 65536

  /** The machine's rounding up to whole pages, with the wrap-around of 64-bit addition. */
  function Aligned(bytes: nat): (r: nat)
    requires bytes < WORD
    ensures r % PAGE_SIZE == 0 && r < WORD
  {
    var sum := (bytes + (PAGE_SIZE - 1)) % WORD;
    sum / PAGE_SIZE * PAGE_SIZE
  }

  /** The least multiple of the page size that covers `bytes`, without wrap-around. */
  function WholePages(bytes: nat): (r: nat)
    ensures r % PAGE_SIZE == 0 && bytes <= r < bytes + PAGE_SIZE
  {
    (bytes + (PAGE_SIZE - 1)) / PAGE_SIZE * PAGE_SIZE
  }

  /** Offset handed out and the new fill level. */
  function Bump(used: nat, bytes: nat): (r: (Option<nat>, nat))
    requires used <= DMA_POOL_BYTES && bytes < WORD
    ensures r.1 <= DMA_POOL_BYTES
  {
    var filled := (used + Aligned(bytes)) % WORD;
    if filled <= DMA_POOL_BYTES then (Some(used), filled) else (None, used)
  }

  lemma AlignedExact(bytes: nat)
    requires bytes < WORD
    ensures Aligned(bytes) == if WholePages(bytes) < WORD then WholePages(bytes) else 0
  {
  }

  /** A request is served by whole pages of its own, or refused because they do not fit, if and only if
      its pages added to those in use do not overflow a machine word. Otherwise the request succeeds
      although the pool cannot hold it. */
  lemma BumpExact(used: nat, bytes: nat)
    requires used <= DMA_POOL_BYTES && used % PAGE_SIZE == 0 && bytes < WORD
    ensures var (r, used') := Bump(used, bytes);
            && (used + WholePages(bytes) < WORD <==>
                 if used + WholePages(bytes) <= DMA_POOL_BYTES then r == Some(used) && used' == used + WholePages(bytes)
                 else r.None? && used' == used)
            && used' % PAGE_SIZE == 0
  {
    AlignedExact(bytes);
    var sum := used + Aligned(bytes);
    if sum >= WORD {
      assert sum % WORD == sum - WORD;
    }
  }

  /** A request whose pages overflow a word together with those in use passes the test all the same. */
  lemma WrapPasses(used: nat, bytes: nat)
    requires used <= DMA_POOL_BYTES && used % PAGE_SIZE == 0 && bytes < WORD && used + WholePages(bytes) >= WORD
    ensures Bump(used, bytes).0 == Some(used) && used + bytes > DMA_POOL_BYTES
  {
    AlignedExact(bytes);
  }

  /** The request passes the test, and clearing its region takes more than the pool. */
  predicate Faults(used: nat, bytes: nat)
    requires used <= DMA_POOL_BYTES && bytes < WORD
  {
    Bump(used, bytes).0.Some? && Aligned(bytes) > DMA_POOL_BYTES
  }

  /** There is memory at the `len` addresses from `addr` on. */
  ghost predicate Covers(ram: set<nat>, addr: nat, len: nat) {
    forall a: nat :: addr <= a < addr + len ==> a in ram
  }

  /** There is memory for every byte to be cleared if and only if the request does not fault, wherever the pool lies
      in memory: a request that faults would clear more than all physical memory. */
  lemma FaultExact(phys: nat, used: nat, bytes: nat, ram: set<nat>)
    requires used <= DMA_POOL_BYTES && bytes < WORD && Bump(used, bytes).0.Some?
    requires Covers(ram, phys, DMA_POOL_BYTES) && forall a :: a in ram ==> a < PHYS_END
    ensures Covers(ram, phys + used, Aligned(bytes)) <==> !Faults(used, bytes)
    ensures Faults(used, bytes) ==> Aligned(bytes) > PHYS_END
  {
    if Faults(used, bytes) {
      assert used + Aligned(bytes) >= WORD;
      assert phys + used + PHYS_END !in ram;
    }
  }

  /** A request faults if and only if its own pages fit a word but their sum with those in use does not. */
  lemma FaultsOnOverflow(used: nat, bytes: nat)
    requires used <= DMA_POOL_BYTES && used % PAGE_SIZE == 0 && bytes < WORD
    ensures Faults(used, bytes) <==> WholePages(bytes) < WORD <= used + WholePages(bytes)
  {
    AlignedExact(bytes);
    BumpExact(used, bytes);
    if used + WholePages(bytes) >= WORD {
      WrapPasses(used, bytes);
    }
  }

  /** The two kinds: the pages of the largest request wrap to none, and it is granted; the sum of the pages of the
      other with those in use wraps, and it faults. */
  lemma OversizedRequests()
    ensures Bump(0, WORD - 1) == (Some(0), 0) && !Faults(0, WORD - 1)
    ensures Bump(8192, WORD - 8192).0.Some? && Faults(8192, WORD - 8192)
  {
  }

  /** `Faulted`: clearing the region ran into an address without memory. */
  datatype DmaResult = Refused | Granted(addr: nat) | Faulted

  class DmaPool {
    var phys: nat
    var used: nat
    /** The bytes of physical memory. */
    var ram: map<nat, Byte>

    constructor (ram: map<nat, Byte>)
      ensures phys == 0 && used == 0 && this.ram == ram
    {
      phys, used := 0, 0;
      this.ram := ram;
    }

    /** Clears `len` bytes from `addr` on, if there is memory for all of them. */
    method Clear(addr: nat, len: nat) returns (ok: bool)
      modifies this`ram
      ensures ok <==> Covers(old(ram).Keys, addr, len)
      ensures ok ==> ram.Keys == old(ram).Keys
      ensures ok ==> forall a :: a in ram ==> ram[a] == if addr <= a < addr + len then 0 else old(ram)[a]
    {
      var a := addr;
      while a < addr + len
        invariant addr <= a <= addr + len
        invariant ram.Keys == old(ram).Keys
        invariant forall b: nat :: addr <= b < a ==> b in old(ram)
        invariant forall b :: b in ram ==> ram[b] == if addr <= b < a then 0 else old(ram)[b]
      {
        if a !in ram {
          return false;
        }
        ram := ram[a := 0];
        a := a + 1;
      }
      ok := true;
    }

    /** The region handed out has been cleared, its rounding included. */
    method AllocateDmaFrames(bytes: nat) returns (r: DmaResult)
      requires bytes < WORD && used <= DMA_POOL_BYTES
      modifies this`used, this`ram
      ensures used == Bump(old(used), bytes).1 && used <= DMA_POOL_BYTES
      ensures r == Refused <==> Bump(old(used), bytes).0.None?
      ensures r == Refused ==> ram == old(ram)
      ensures r == Faulted <==>
                Bump(old(used), bytes).0.Some? && !Covers(old(ram).Keys, phys + old(used), Aligned(bytes))
      ensures r.Granted? ==> r.addr == phys + old(used) && ram.Keys == old(ram).Keys
      ensures r.Granted? ==> forall a :: a in ram ==>
                ram[a] == if r.addr <= a < r.addr + Aligned(bytes) then 0 else old(ram)[a]
    {
      var aligned := (bytes + (PAGE_SIZE - 1)) % WORD / PAGE_SIZE * PAGE_SIZE;
      var filled := (used + aligned) % WORD;
      if filled > DMA_POOL_BYTES {
        return Refused;
      }
      var addr := phys + used;
      used := filled;
      var ok := Clear(addr, aligned);
      r := if ok then Granted(addr) else Faulted;
    }
  }

  /** The fill level after a run of requests. */
  function Level(used: nat, requests: seq<nat>): (r: nat)
    requires used <= DMA_POOL_BYTES && Requests(requests)
    ensures r <= DMA_POOL_BYTES
  {
    if requests == [] then used
    else Bump(Level(used, requests[..|requests| - 1]), requests[|requests| - 1]).1
  }

  /** Every request is a machine word. */
  predicate Requests(requests: seq<nat>) {
    forall i :: 0 <= i < |requests| ==> requests[i] < WORD
  }

  /** Request number `i` of a run faults, which ends the kernel. */
  predicate FaultsAt(requests: seq<nat>, i: nat)
    requires i < |requests| && Requests(requests)
  {
    Faults(Level(0, requests[..i]), requests[i])
  }

  /** The run goes on only while nothing faults. */
  predicate EndsAtFault(requests: seq<nat>)
    requires Requests(requests)
  {
    forall i :: 0 <= i < |requests| - 1 ==> !FaultsAt(requests, i)
  }

  /** The offset handed out to request number `i` of a run. */
  function Offset(requests: seq<nat>, i: nat): Option<nat>
    requires i < |requests| && Requests(requests)
  {
    if FaultsAt(requests, i) then None else Bump(Level(0, requests[..i]), requests[i]).0
  }

  /** The pages of request `i` together with those in use fit a machine word. */
  predicate Fits(requests: seq<nat>, i: nat)
    requires i < |requests| && Requests(requests)
  {
    Level(0, requests[..i]) + WholePages(requests[i]) < WORD
  }

  /** The region given to request `i` starts on a page boundary and ends inside the pool. */
  predicate InPool(requests: seq<nat>, i: nat)
    requires i < |requests| && Requests(requests)
  {
    var o := Offset(requests, i);
    o.Some? ==> o.value % PAGE_SIZE == 0 && o.value + requests[i] <= DMA_POOL_BYTES
  }

  /** The region given to request `j` starts only after the one given to request `i` has ended. */
  predicate Behind(requests: seq<nat>, i: nat, j: nat)
    requires i < j < |requests| && Requests(requests)
  {
    Offset(requests, i).Some? && Offset(requests, j).Some? ==>
      Offset(requests, i).value + requests[i] <= Offset(requests, j).value
  }

  lemma {:induction false} LevelAligned(requests: seq<nat>)
    requires Requests(requests)
    ensures Level(0, requests) % PAGE_SIZE == 0
    decreases |requests|
  {
    if requests != [] {
      var before := requests[..|requests| - 1];
      LevelAligned(before);
      BumpExact(Level(0, before), requests[|requests| - 1]);
    }
  }

  /** While nothing overflows the fill level only grows. */
  lemma {:induction false} LevelGrows(requests: seq<nat>, i: nat, j: nat)
    requires i <= j <= |requests| && Requests(requests) && forall k :: 0 <= k < j ==> Fits(requests, k)
    ensures Level(0, requests[..i]) <= Level(0, requests[..j])
    decreases j
  {
    if i < j {
      LevelGrows(requests, i, j - 1);
      assert requests[..j][..j - 1] == requests[..j - 1];
      LevelAligned(requests[..j - 1]);
      assert Fits(requests, j - 1);
      BumpExact(Level(0, requests[..j - 1]), requests[j - 1]);
    }
  }

  lemma FittingRequest(requests: seq<nat>, i: nat)
    requires i < |requests| && Requests(requests) && Fits(requests, i)
    ensures InPool(requests, i)
    ensures Offset(requests, i).Some? ==> Offset(requests, i).value + requests[i] <= Level(0, requests[..i + 1])
  {
    assert requests[..i + 1][..i] == requests[..i];
    LevelAligned(requests[..i]);
    BumpExact(Level(0, requests[..i]), requests[i]);
  }

  /** A request whose own pages fit a word fits with those in use, or faults. */
  lemma FitsOrFaults(requests: seq<nat>, i: nat)
    requires i < |requests| && Requests(requests) && WholePages(requests[i]) < WORD
    ensures Fits(requests, i) || FaultsAt(requests, i)
  {
    LevelAligned(requests[..i]);
    FaultsOnOverflow(Level(0, requests[..i]), requests[i]);
  }

  /** A request whose own pages overflow a word is granted a region that the pool cannot hold. */
  lemma OverlongRequest(requests: seq<nat>, i: nat)
    requires i < |requests| && Requests(requests) && WholePages(requests[i]) >= WORD
    ensures !InPool(requests, i)
  {
    LevelAligned(requests[..i]);
    FaultsOnOverflow(Level(0, requests[..i]), requests[i]);
    WrapPasses(Level(0, requests[..i]), requests[i]);
  }

  lemma EarlierFits(requests: seq<nat>, j: nat)
    requires j < |requests| && Requests(requests) && EndsAtFault(requests)
    requires forall i :: 0 <= i < |requests| ==> WholePages(requests[i]) < WORD
    ensures forall k :: 0 <= k < j ==> Fits(requests, k)
  {
    forall k | 0 <= k < j ensures Fits(requests, k) {
      FitsOrFaults(requests, k);
    }
  }

  lemma HandedOutApart(requests: seq<nat>, i: nat, j: nat)
    requires i < j < |requests| && Requests(requests) && EndsAtFault(requests)
    requires forall i :: 0 <= i < |requests| ==> WholePages(requests[i]) < WORD
    ensures Behind(requests, i, j)
  {
    EarlierFits(requests, j);
    FittingRequest(requests, i);
    LevelGrows(requests, i + 1, j);
  }

  /** Over any run of requests, up to one that faults if there is one, the regions handed out start on page
      boundaries, lie inside the pool and never overlap, if and only if the pages of no request alone overflow a
      machine word. */
  lemma DmaRegionsDisjoint(requests: seq<nat>)
    requires Requests(requests) && EndsAtFault(requests)
    ensures (forall i :: 0 <= i < |requests| ==> InPool(requests, i))
            && (forall i, j :: 0 <= i < j < |requests| ==> Behind(requests, i, j))
       <==> forall i :: 0 <= i < |requests| ==> WholePages(requests[i]) < WORD
  {
    if i :| 0 <= i < |requests| && WholePages(requests[i]) >= WORD {
      OverlongRequest(requests, i);
    } else {
      forall i | 0 <= i < |requests| ensures InPool(requests, i) {
        FitsOrFaults(requests, i);
        if Fits(requests, i) {
          FittingRequest(requests, i);
        }
      }
      forall i, j | 0 <= i < j < |requests| ensures Behind(requests, i, j) {
        HandedOutApart(requests, i, j);
      }
    }
  }
}
