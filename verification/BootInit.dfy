/** Boot initialisation of the frame allocator (kernel/src/memory/frame_allocator.rs, `init`). */
module BootInit {
  import opened FrameAllocator
  import opened MemoryRuns

  datatype MemoryKind = Usable | BootloaderReclaimable | ExecutableAndModules | AcpiReclaimable | AcpiNvs | OtherMemory

  datatype Entry = Entry(base: nat, length: nat, kind: MemoryKind)

  const DMA_PAGES: nat := 16

  function FirstFrame(e: Entry): nat { e.base / PAGE_SIZE }
  function EndFrame(e: Entry): nat { (e.base + e.length) / PAGE_SIZE }

  /** Frame `i` lies in a usable entry. */
  ghost predicate UsableFrame(entries: seq<Entry>, i: nat) {
    exists k :: 0 <= k < |entries| && InEntry(entries[k], i)
  }

  predicate InEntry(e: Entry, i: nat) {
    e.kind.Usable? && FirstFrame(e) <= i < EndFrame(e)
  }

  /** What the boot protocol promises of the memory map: usable entries consist of whole pages and do
      not overlap. */
  ghost predicate WellFormed(entries: seq<Entry>) {
    && (forall k :: 0 <= k < |entries| && entries[k].kind.Usable? ==>
          entries[k].base % PAGE_SIZE == 0 && entries[k].length % PAGE_SIZE == 0)
    && (forall k, l, i: nat :: 0 <= k < l < |entries| && InEntry(entries[k], i) ==> !InEntry(entries[l], i))
  }

  /** The end of RAM. */
  function MaxEnd(entries: seq<Entry>): nat {
    if entries == [] then 0
    else
      var e := entries[|entries| - 1];
      var earlier := MaxEnd(entries[..|entries| - 1]);
      if !e.kind.OtherMemory? && e.base + e.length > earlier then e.base + e.length else earlier
  }

  function TotalFrames(entries: seq<Entry>): nat { MaxEnd(entries) / PAGE_SIZE }
  function BitmapBytes(entries: seq<Entry>): nat { (TotalFrames(entries) + 7) / 8 }

  /** The base of the first usable entry that can hold the bitmap, or 0. */
  function BitmapBase(entries: seq<Entry>, size: nat): nat {
    if entries == [] then 0
    else if entries[0].kind.Usable? && entries[0].length >= size then entries[0].base
    else BitmapBase(entries[1..], size)
  }

  predicate BitmapFrame(base: nat, size: nat, i: nat) {
    base / PAGE_SIZE <= i < (base + size + (PAGE_SIZE - 1)) / PAGE_SIZE
  }

  /** The frames free once the usable entries are free and the bitmap's own frames are used again. */
  ghost function FreeAfterMarking(entries: seq<Entry>): set<nat> {
    var size := BitmapBytes(entries);
    set i: nat | i < TotalFrames(entries) && UsableFrame(entries, i) && !BitmapFrame(BitmapBase(entries, size), size, i)
  }

  /** Sixteen free frames in a row, starting at `s`. */
  predicate Window(free: set<nat>, s: nat) {
    forall i :: s <= i < s + DMA_PAGES ==> i in free
  }

  ghost predicate LowestWindow(free: set<nat>, s: nat) {
    Window(free, s) && forall s': nat :: s' < s ==> !Window(free, s')
  }

  /** The frames of the window that starts at `s`. */
  function WindowFrames(s: nat): set<nat> {
    set i: nat | s <= i < s + DMA_PAGES && InWindow(s, i)
  }

  predicate InWindow(s: nat, i: nat) {
    s <= i < s + DMA_PAGES
  }

  lemma {:induction false} EntryBelowMax(entries: seq<Entry>, k: nat)
    requires k < |entries| && !entries[k].kind.OtherMemory?
    ensures entries[k].base + entries[k].length <= MaxEnd(entries)
    decreases |entries|
  {
    if k < |entries| - 1 {
      EntryBelowMax(entries[..|entries| - 1], k);
    }
  }

  /** The kinds that count as RAM. */
  predicate IsRam(kind: MemoryKind) {
    || kind == Usable || kind == BootloaderReclaimable || kind == ExecutableAndModules
    || kind == AcpiReclaimable || kind == AcpiNvs
  }

  predicate RamEndsAt(e: Entry, end: nat) { IsRam(e.kind) && e.base + e.length == end }

  /** The end of RAM is the largest end of an entry of RAM. */
  lemma {:induction false} MaxEndExact(entries: seq<Entry>)
    ensures forall k :: 0 <= k < |entries| && IsRam(entries[k].kind) ==>
              entries[k].base + entries[k].length <= MaxEnd(entries)
    ensures MaxEnd(entries) == 0 || exists k :: 0 <= k < |entries| && RamEndsAt(entries[k], MaxEnd(entries))
    decreases |entries|
  {
    if entries != [] {
      var before, e := entries[..|entries| - 1], entries[|entries| - 1];
      MaxEndExact(before);
      assert entries == before + [e];
      if MaxEnd(entries) == MaxEnd(before) && MaxEnd(before) != 0 {
        var k :| 0 <= k < |before| && RamEndsAt(before[k], MaxEnd(before));
        assert RamEndsAt(entries[k], MaxEnd(entries));
      } else if MaxEnd(entries) != 0 {
        assert RamEndsAt(entries[|entries| - 1], MaxEnd(entries));
      }
    }
  }

  lemma UsableBelowTotal(entries: seq<Entry>, i: nat)
    requires UsableFrame(entries, i)
    ensures i < TotalFrames(entries)
  {
    var k :| 0 <= k < |entries| && InEntry(entries[k], i);
    EntryBelowMax(entries, k);
  }

  lemma {:induction false} BitmapBaseFound(entries: seq<Entry>, size: nat)
    requires BitmapBase(entries, size) != 0
    ensures exists k :: 0 <= k < |entries| && entries[k].kind.Usable? && entries[k].length >= size
                        && entries[k].base == BitmapBase(entries, size)
    decreases |entries|
  {
    if !(entries[0].kind.Usable? && entries[0].length >= size) {
      BitmapBaseFound(entries[1..], size);
      var k :| 0 <= k < |entries[1..]| && entries[1..][k].kind.Usable? && entries[1..][k].length >= size
               && entries[1..][k].base == BitmapBase(entries[1..], size);
      assert entries[k + 1] == entries[1..][k];
    } else {
      assert entries[0].base == BitmapBase(entries, size);
    }
  }

  /** The entry can hold `size` bytes. */
  predicate Roomy(e: Entry, size: nat) { e.kind == Usable && e.length >= size }

  /** The bitmap goes to the first usable entry that can hold it. */
  lemma {:induction false} BitmapBaseExact(entries: seq<Entry>, size: nat, k: nat)
    requires k <= |entries| && (forall j :: 0 <= j < k ==> !Roomy(entries[j], size))
    requires k < |entries| ==> Roomy(entries[k], size)
    ensures BitmapBase(entries, size) == if k < |entries| then entries[k].base else 0
    decreases |entries|
  {
    if k > 0 {
      BitmapBaseExact(entries[1..], size, k - 1);
    }
  }

  /** All frames of the bitmap have a bit in it. */
  lemma BitmapFramesInRange(entries: seq<Entry>, i: nat)
    requires WellFormed(entries) && BitmapBase(entries, BitmapBytes(entries)) != 0
    requires BitmapFrame(BitmapBase(entries, BitmapBytes(entries)), BitmapBytes(entries), i)
    ensures i < TotalFrames(entries)
  {
    var size := BitmapBytes(entries);
    BitmapBaseFound(entries, size);
    var k :| 0 <= k < |entries| && entries[k].kind.Usable? && entries[k].length >= size
             && entries[k].base == BitmapBase(entries, size);
    EntryBelowMax(entries, k);
    RoundUpWithin(entries[k].base, entries[k].length, size);
  }

  lemma RoundUpWithin(base: nat, length: nat, size: nat)
    requires base % PAGE_SIZE == 0 && length % PAGE_SIZE == 0 && size <= length
    ensures (base + size + (PAGE_SIZE - 1)) / PAGE_SIZE <= (base + length) / PAGE_SIZE
  {
  }

  /** Phase 1: the end of RAM. */
  method FindMaxEnd(entries: seq<Entry>) returns (max: nat)
    ensures max == MaxEnd(entries)
    ensures forall k :: 0 <= k < |entries| && IsRam(entries[k].kind) ==> entries[k].base + entries[k].length <= max
    ensures max == 0 || exists k :: 0 <= k < |entries| && RamEndsAt(entries[k], max)
  {
    MaxEndExact(entries);
    max := 0;
    for n := 0 to |entries|
      invariant max == MaxEnd(entries[..n])
    {
      assert entries[..n + 1][..n] == entries[..n];
      var e := entries[n];
      if !e.kind.OtherMemory? && e.base + e.length > max {
        max := e.base + e.length;
      }
    }
    assert entries[..|entries|] == entries;
  }

  /** Phase 2: a home for the bitmap. */
  method FindBitmapBase(entries: seq<Entry>, size: nat) returns (base: nat)
    ensures base == BitmapBase(entries, size)
  {
    base := 0;
    for n := 0 to |entries|
      invariant base == 0 && BitmapBase(entries, size) == BitmapBase(entries[n..], size)
    {
      assert entries[n..][1..] == entries[n + 1..];
      if entries[n].kind.Usable? && entries[n].length >= size {
        return entries[n].base;
      }
    }
  }

  lemma FreedNextEntry(entries: seq<Entry>, n: nat, i: nat)
    requires n < |entries|
    ensures UsableFrame(entries[..n + 1], i) <==> UsableFrame(entries[..n], i) || InEntry(entries[n], i)
  {
  }

  lemma EntryIsNew(entries: seq<Entry>, n: nat, i: nat)
    requires WellFormed(entries) && n < |entries| && InEntry(entries[n], i)
    ensures !UsableFrame(entries[..n], i)
  {
  }

  method FreeFrame(a: BitmapAllocator, i: nat)
    requires a.Valid() && a.bitmap != null && i < a.totalFrames && i !in a.View().free
    modifies a`freeFrames, a.bitmap
    ensures a.Valid() && a.View() == old(a.View()).(free := old(a.View()).free + {i})
  {
    a.SetBit(i, false);
    a.freeFrames := a.freeFrames + 1;
  }

  /** One usable entry: its frames are marked free and counted. */
  method FreeEntry(a: BitmapAllocator, e: Entry)
    requires a.Valid() && a.bitmap != null && e.kind.Usable? && EndFrame(e) <= a.totalFrames
    requires forall i: nat :: InEntry(e, i) ==> i !in a.View().free
    modifies a`freeFrames, a.bitmap
    ensures a.Valid()
    ensures a.View().total == old(a.View()).total && a.View().cursor == old(a.View()).cursor
    ensures forall i: nat :: i in a.View().free <==> i in old(a.View()).free || InEntry(e, i)
  {
    var i := FirstFrame(e);
    while i < EndFrame(e)
      invariant a.Valid()
      invariant a.View().total == old(a.View()).total && a.View().cursor == old(a.View()).cursor
      invariant forall j: nat :: j in a.View().free <==> j in old(a.View()).free || (InEntry(e, j) && j < i)
    {
      FreeFrame(a, i);
      i := i + 1;
    }
  }

  /** Phase 3: all usable entries. */
  method FreeUsable(a: BitmapAllocator, entries: seq<Entry>)
    requires a.Valid() && a.bitmap != null && a.totalFrames == TotalFrames(entries) && a.View().free == {}
    requires WellFormed(entries)
    modifies a`freeFrames, a.bitmap
    ensures a.Valid()
    ensures a.View().total == old(a.View()).total && a.View().cursor == old(a.View()).cursor
    ensures forall i: nat :: i in a.View().free <==> UsableFrame(entries, i)
  {
    for n := 0 to |entries|
      invariant a.Valid()
      invariant a.View().total == old(a.View()).total && a.View().cursor == old(a.View()).cursor
      invariant forall i: nat :: i in a.View().free <==> UsableFrame(entries[..n], i)
    {
      forall i: nat
        ensures UsableFrame(entries[..n + 1], i) <==> UsableFrame(entries[..n], i) || InEntry(entries[n], i)
      {
        FreedNextEntry(entries, n, i);
      }
      if entries[n].kind.Usable? {
        EntryBelowMax(entries, n);
        forall i: nat | InEntry(entries[n], i) ensures i !in a.View().free {
          EntryIsNew(entries, n, i);
        }
        FreeEntry(a, entries[n]);
      }
    }
    assert entries[..|entries|] == entries;
  }

  /** Phases 4 and 5b: frames `from` up to `end` are marked used, those still free being counted off. */
  method ReserveFrames(a: BitmapAllocator, from: nat, end: nat)
    requires a.Valid() && a.bitmap != null && from <= end <= a.totalFrames
    modifies a`freeFrames, a.bitmap
    ensures a.Valid()
    ensures a.View().total == old(a.View()).total && a.View().cursor == old(a.View()).cursor
    ensures forall i: nat :: i in a.View().free <==> i in old(a.View()).free && !(from <= i < end)
  {
    var i := from;
    while i < end
      invariant from <= i <= end
      invariant a.Valid()
      invariant a.View().total == old(a.View()).total && a.View().cursor == old(a.View()).cursor
      invariant forall j: nat :: j in a.View().free <==> j in old(a.View()).free && !(from <= j < i)
    {
      var used := a.GetBit(i);
      if !used {
        a.SetBit(i, true);
        a.freeFrames := a.freeFrames - 1;
      }
      i := i + 1;
    }
  }

  /** Phase 5a: the start of the lowest window, or 0. */
  method FindWindow(a: BitmapAllocator) returns (start: nat)
    requires a.Valid() && a.bitmap != null
    ensures start != 0 ==> LowestWindow(a.View().free, start) && start + DMA_PAGES <= a.totalFrames
    ensures start == 0 ==> forall s: nat :: !LowestWindow(a.View().free, s) || s == 0
  {
    ghost var free := a.View().free;
    var run, runStart, i := 0, 0, 0;
    while i < a.totalFrames
      invariant run <= i <= a.totalFrames && run < DMA_PAGES
      invariant run > 0 ==> runStart == i - run
      invariant forall j: nat :: i - run <= j < i ==> j in free
      invariant run < i ==> i - run - 1 !in free
      invariant forall s: nat :: s + DMA_PAGES <= i ==> !Window(free, s)
    {
      var used := a.GetBit(i);
      if !used {
        if run == 0 {
          runStart := i;
        }
        run := run + 1;
        if run == DMA_PAGES {
          assert Window(free, runStart);
          return runStart;
        }
      } else {
        run := 0;
      }
      i := i + 1;
    }
    forall s: nat ensures !Window(free, s) {
      if i < s + DMA_PAGES {
        assert s + DMA_PAGES - 1 !in free;
      }
    }
    start := 0;
  }

  /** Phase 5: the DMA pool is reserved, if there is a window that does not start at frame 0. */
  method PlacePool(a: BitmapAllocator, dma: DmaPool) returns (ok: bool, ghost window: nat)
    requires a.Valid() && a.bitmap != null
    modifies a`freeFrames, a.bitmap, dma`phys
    ensures a.Valid() && a.View().total == old(a.View()).total
    ensures ok <==> exists s: nat :: s != 0 && LowestWindow(old(a.View()).free, s)
    ensures ok ==> LowestWindow(old(a.View()).free, window) && dma.phys == window * PAGE_SIZE
                   && a.View().free == old(a.View()).free - WindowFrames(window)
  {
    ok, window := false, 0;
    var start := FindWindow(a);
    if start != 0 {
      ok, window := true, start;
      ReserveFrames(a, start, start + DMA_PAGES);
      dma.phys := start * PAGE_SIZE;
    }
  }

  /** Boot initialisation; `ok` is false where the kernel panics. */
  method Init(a: BitmapAllocator, dma: DmaPool, entries: seq<Entry>) returns (ok: bool, ghost window: nat)
    requires WellFormed(entries)
    modifies a, dma`phys
    ensures ok <==> BitmapBase(entries, BitmapBytes(entries)) != 0
                    && exists s: nat :: s != 0 && LowestWindow(FreeAfterMarking(entries), s)
    ensures ok ==>
      && a.Valid() && a.bitmap != null && fresh(a.bitmap) && a.totalFrames == TotalFrames(entries)
      && LowestWindow(FreeAfterMarking(entries), window) && dma.phys == window * PAGE_SIZE
      && a.View().free == FreeAfterMarking(entries) - WindowFrames(window)
      && a.freeFrames == |FreeAfterMarking(entries) - WindowFrames(window)|
  {
    ok, window := false, 0;
    var max := FindMaxEnd(entries);
    var total := max / PAGE_SIZE;
    var size := (total + 7) / 8;
    var base := FindBitmapBase(entries, size);
    if base == 0 {
      return;
    }
    a.bitmap := new bv8[size](_ => 0xFF);
    a.totalFrames, a.freeFrames := total, 0;
    AllUsed(a.bitmap[..], total);
    assert a.View().free == {};
    FreeUsable(a, entries);
    ReserveBitmap(a, entries, base, size);
    ok, window := PlacePool(a, dma);
  }

  lemma AllUsed(bits: seq<bv8>, total: nat)
    requires total <= 8 * |bits| && forall i :: 0 <= i < |bits| ==> bits[i] == 0xFF
    ensures ClearBits(bits, total) == {}
  {
  }

  method ReserveBitmap(a: BitmapAllocator, entries: seq<Entry>, base: nat, size: nat)
    requires a.Valid() && a.bitmap != null && WellFormed(entries) && a.totalFrames == TotalFrames(entries)
    requires size == BitmapBytes(entries) && base == BitmapBase(entries, size) && base != 0
    requires forall i: nat :: i in a.View().free <==> UsableFrame(entries, i)
    modifies a`freeFrames, a.bitmap
    ensures a.Valid() && a.View().total == old(a.View()).total && a.View().cursor == old(a.View()).cursor
    ensures a.View().free == FreeAfterMarking(entries)
  {
    var from, end := base / PAGE_SIZE, (base + size + (PAGE_SIZE - 1)) / PAGE_SIZE;
    if from < end {
      BitmapFramesInRange(entries, end - 1);
      ReserveFrames(a, from, end);
    }
    forall i: nat | UsableFrame(entries, i) ensures i < TotalFrames(entries) {
      UsableBelowTotal(entries, i);
    }
  }

  // ---- the same in addresses ----

  function PageOf(b: nat): nat { b / 4096 }

  /** Frame `i` is one of the whole pages of the usable entry. */
  predicate Inside(e: Entry, i: nat) {
    e.kind == Usable && e.base <= i * 4096 && i * 4096 + 4096 <= e.base + e.length
  }

  ghost predicate InsideSome(entries: seq<Entry>, i: nat) {
    exists k :: 0 <= k < |entries| && Inside(entries[k], i)
  }

  /** A byte of the bitmap lies in frame `i`. */
  ghost predicate HoldsBitmap(base: nat, size: nat, i: nat) {
    exists b: nat :: PageOf(b) == i && base <= b < base + size
  }

  lemma InsideExact(e: Entry, i: nat)
    requires e.kind.Usable? ==> e.base % PAGE_SIZE == 0 && e.length % PAGE_SIZE == 0
    ensures Inside(e, i) <==> InEntry(e, i)
  {
  }

  lemma HoldsBitmapExact(base: nat, size: nat, i: nat)
    requires base % PAGE_SIZE == 0
    ensures HoldsBitmap(base, size, i) <==> BitmapFrame(base, size, i)
  {
    if BitmapFrame(base, size, i) {
      assert PageOf(i * 4096) == i;
    }
  }

  /** The bitmap has a bit for every whole frame below the end of RAM, and no byte more than that takes. */
  lemma BitmapBytesExact(entries: seq<Entry>)
    ensures var frames := TotalFrames(entries);
            && frames * 4096 <= MaxEnd(entries) < frames * 4096 + 4096
            && frames <= 8 * BitmapBytes(entries) < frames + 8
  {
  }

  /** After boot a frame is free if and only if it is a whole page of usable memory, no byte of the bitmap lies in it,
      and it is not in the 65536 bytes of the pool. */
  lemma FreeByAddress(entries: seq<Entry>, base: nat, window: nat, i: nat)
    requires WellFormed(entries) && base == BitmapBase(entries, BitmapBytes(entries)) && base != 0
    ensures i in FreeAfterMarking(entries) - WindowFrames(window) <==>
            && InsideSome(entries, i) && !HoldsBitmap(base, BitmapBytes(entries), i)
            && !(window * 4096 <= i * 4096 < window * 4096 + 65536)
  {
    forall k | 0 <= k < |entries| ensures Inside(entries[k], i) <==> InEntry(entries[k], i) {
      InsideExact(entries[k], i);
    }
    if UsableFrame(entries, i) {
      UsableBelowTotal(entries, i);
    }
    BitmapBaseFound(entries, BitmapBytes(entries));
    HoldsBitmapExact(base, BitmapBytes(entries), i);
  }

  /** The frames the allocator starts out without. */
  function Reserved(p: Pool): set<nat> {
    set i: nat | i < p.total && i !in p.free
  }

  /** After boot the bitmap's frames and the DMA pool's frames are reserved, and nothing is handed out yet:
      by `LiveFramesNeverOverlap` no live frame ever lies in either while no reserved frame is given back. */
  lemma BootReserves(entries: seq<Entry>, p: Pool, window: nat)
    requires WellFormed(entries) && BitmapBase(entries, BitmapBytes(entries)) != 0
    requires p.total == TotalFrames(entries) && LowestWindow(FreeAfterMarking(entries), window)
    requires p.free == FreeAfterMarking(entries) - WindowFrames(window)
    ensures Partition(Holding(p, multiset{}), Reserved(p))
    ensures forall i: nat :: BitmapFrame(BitmapBase(entries, BitmapBytes(entries)), BitmapBytes(entries), i) ==>
              i in Reserved(p)
    ensures forall i: nat :: InWindow(window, i) ==> i in Reserved(p)
  {
    forall i: nat | BitmapFrame(BitmapBase(entries, BitmapBytes(entries)), BitmapBytes(entries), i)
      ensures i in Reserved(p) {
      BitmapFramesInRange(entries, i);
    }
    forall i: nat | InWindow(window, i) ensures i in Reserved(p) {
      assert i in FreeAfterMarking(entries);
    }
  }
}
