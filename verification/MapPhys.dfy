/** Mapping granted physical memory (kernel/src/syscall/mod.rs, SYS_MAP_PHYS). The page table is a map from page
    numbers to frame numbers. */
module MapPhys {
  import opened Basics
  import opened Capabilities
  import opened FrameAllocator

  const U64_MAX: nat := WORD - 1
  /** Where the lower half of the canonical addresses ends. */
  const LOWER_HALF: nat := 0x8000_0000_0000

  const MAP_BASE: nat := 0x8000_0000
  const MAP_STRIDE: nat := 0x100_0000
  const STRIDE_PAGES: nat := 4096

  type U64 = x: nat | x <= U64_MAX

  // ---- the range check ----

  function SaturatingAdd(a: U64, b: U64): U64 {
    if a + b > U64_MAX then U64_MAX else a + b
  }

  predicate Allowed(start: U64, size: U64, phys: U64, len: U64) {
    phys >= start && SaturatingAdd(phys, len) <= SaturatingAdd(start, size) && SaturatingAdd(phys, len) >= phys
  }

  predicate Within(start: U64, size: U64, phys: U64, len: U64) {
    start <= phys && phys + len <= start + size
  }

  /** The saturating check lets through exactly the requests inside the grant, for every request, if and only
      if the grant ends below the largest address, or starts there and has the largest length. */
  lemma RangeCheckExact(start: U64, size: U64)
    ensures (forall phys: U64, len: U64 :: Allowed(start, size, phys, len) <==> Within(start, size, phys, len))
       <==> start + size < U64_MAX || (start == U64_MAX && size == U64_MAX)
  {
    if start + size >= U64_MAX {
      assert Allowed(start, size, U64_MAX, U64_MAX);
      assert Within(start, size, U64_MAX, U64_MAX) <==> start == U64_MAX && size == U64_MAX;
    }
  }

  // ---- what is mapped ----

  function VirtOf(handle: nat): nat { MAP_BASE + handle * MAP_STRIDE }

  /** How many pages the loop visits. The last address wraps at 2^64, and then, as for length zero, the last
      page lies before the first. */
  function PageCount(virt: nat, len: U64): nat {
    if len == 0 || virt + len > WORD then 0 else (len + PAGE_SIZE - 1) / PAGE_SIZE
  }

  predicate InWindow(virt: nat, len: U64, page: nat) {
    virt / PAGE_SIZE <= page < virt / PAGE_SIZE + PageCount(virt, len)
  }

  /** `count` pages from `page` on show the frames from `frame` on; nothing else changes. */
  function MappedTo(t: PageTable, page: nat, frame: nat, count: nat): (r: PageTable)
    ensures forall p: nat :: p in r <==> p in t || page <= p < page + count
    ensures forall p: nat :: p in r ==> r[p] == if page <= p < page + count then frame + (p - page) else t[p]
  {
    if count == 0 then t else MappedTo(t, page, frame, count - 1)[page + (count - 1) := frame + (count - 1)]
  }

  /** The request a call makes: the largest address stands for the whole grant. */
  function Request(start: U64, size: U64, phys: U64, len: U64): (U64, U64) {
    if phys == U64_MAX then (start, size) else (phys, len)
  }

  /** The capability that SYS_DMA_ALLOC leaves for a request of the largest length is one on which the check is
      inexact: a call that asks for the largest length from the next address on passes and exceeds the grant. */
  lemma LargestGrantChecked(start: U64)
    requires 0 < start < PHYS_END
    ensures var (phys, len) := Request(start, U64_MAX, start + 1, U64_MAX);
            Allowed(start, U64_MAX, phys, len) && !Within(start, U64_MAX, phys, len)
  {
  }

  /** Some call is checked wrongly if and only if the grant reaches the largest address and a call can name a
      range beyond it: a call cannot name a range that starts at the largest address. */
  lemma CallCheckExact(start: U64, size: U64)
    ensures (forall phys: U64, len: U64 ::
               Allowed(start, size, Request(start, size, phys, len).0, Request(start, size, phys, len).1)
               <==> Within(start, size, Request(start, size, phys, len).0, Request(start, size, phys, len).1))
       <==> start + size < U64_MAX || start == U64_MAX || (start == U64_MAX - 1 && size == U64_MAX)
  {
    if start + size >= U64_MAX && start < U64_MAX {
      var phys := if size < U64_MAX || start == U64_MAX - 1 then start else start + 1;
      assert Request(start, size, phys, U64_MAX) == (phys, U64_MAX);
      assert Allowed(start, size, phys, U64_MAX);
    }
  }

  /** `Panicked`: an address out of range, a page that is already mapped, or no frame for a page table. */
  datatype Outcome = Denied | Panicked | Mapped(virt: nat)

  /** Both ends of the window must be canonical addresses. */
  predicate Addressable(virt: nat, len: U64) {
    virt < LOWER_HALF && (PageCount(virt, len) > 0 ==> virt + len <= LOWER_HALF - PAGE_SIZE)
  }

  predicate PageFits(t: PageTable, virt: nat, phys: U64, page: nat)
    requires virt / PAGE_SIZE <= page
  {
    page !in t && phys + (page - virt / PAGE_SIZE) * PAGE_SIZE < PHYS_END
  }

  /** Every page of the window can be mapped; `room` is the number of pages for which page tables can be had. */
  ghost predicate Mappable(t: PageTable, virt: nat, phys: U64, len: U64, room: nat) {
    PageCount(virt, len) <= room && forall p: nat :: InWindow(virt, len, p) ==> PageFits(t, virt, phys, p)
  }

  lemma FrameAt(phys: nat, i: nat)
    ensures (phys + i * PAGE_SIZE) / PAGE_SIZE == phys / PAGE_SIZE + i
  {
  }

  /** The first `n` pages could be mapped, and are. */
  ghost predicate Progress(t: PageTable, t': PageTable, virt: nat, phys: U64, room: nat, n: nat) {
    && n <= room && t' == MappedTo(t, virt / PAGE_SIZE, phys / PAGE_SIZE, n)
    && forall p: nat :: virt / PAGE_SIZE <= p < virt / PAGE_SIZE + n ==> PageFits(t, virt, phys, p)
  }

  /** The next page can be mapped, or the window cannot. */
  lemma NextPage(t: PageTable, t': PageTable, virt: nat, phys: U64, len: U64, room: nat, n: nat)
    requires n < PageCount(virt, len) && Progress(t, t', virt, phys, room, n)
    ensures var page, currentPhys := virt / PAGE_SIZE + n, phys + n * PAGE_SIZE;
            if currentPhys >= PHYS_END || page in t' || n >= room then !Mappable(t, virt, phys, len, room)
            else Progress(t, t'[page := currentPhys / PAGE_SIZE], virt, phys, room, n + 1)
  {
    var page := virt / PAGE_SIZE + n;
    assert InWindow(virt, len, page);
    assert PageFits(t, virt, phys, page) <==> page !in t' && phys + n * PAGE_SIZE < PHYS_END;
    FrameAt(phys, n);
  }

  class AddressSpace {
    var pages: PageTable

    constructor ()
      ensures pages == map[]
    {
      pages := map[];
    }

    method MapWindow(virt: nat, phys: U64, len: U64, room: nat) returns (ok: bool)
      requires Addressable(virt, len) && virt % PAGE_SIZE == 0
      modifies this
      ensures ok == Mappable(old(pages), virt, phys, len, room)
      ensures ok ==> pages == MappedTo(old(pages), virt / PAGE_SIZE, phys / PAGE_SIZE, PageCount(virt, len))
    {
      var first, n := virt / PAGE_SIZE, 0;
      var currentPhys := phys as nat;
      while n < PageCount(virt, len)
        invariant n <= PageCount(virt, len) && currentPhys == phys + n * PAGE_SIZE
        invariant Progress(old(pages), pages, virt, phys, room, n)
      {
        NextPage(old(pages), pages, virt, phys, len, room, n);
        if currentPhys >= PHYS_END || first + n in pages || n >= room {
          return false;
        }
        pages := pages[first + n := currentPhys / PAGE_SIZE];
        n, currentPhys := n + 1, currentPhys + PAGE_SIZE;
      }
      ok := true;
    }

    method SysMapPhys(slots: Slots, handle: nat, phys: U64, len: U64, room: nat) returns (r: Outcome)
      requires forall h: nat :: Lookup(slots, h).Some? && Lookup(slots, h).value.MemoryMapCap? ==>
        Lookup(slots, h).value.base <= U64_MAX && Lookup(slots, h).value.length <= U64_MAX
      modifies this
      ensures r.Denied? ==> pages == old(pages)
      ensures var cap := Lookup(slots, handle);
              if !(cap.Some? && cap.value.MemoryMapCap?) then r == Denied
              else
                var whole := phys == 0xFFFF_FFFF_FFFF_FFFF;
                var p, n := if whole then cap.value.base else phys, if whole then cap.value.length else len;
                if !Allowed(cap.value.base, cap.value.length, p, n) then r == Denied
                else if !Addressable(VirtOf(handle), n)
                    || !Mappable(old(pages), VirtOf(handle), p, n, room) then r == Panicked
                else r == Mapped(VirtOf(handle))
                     && pages == MappedTo(old(pages), VirtOf(handle) / PAGE_SIZE, p / PAGE_SIZE,
                                          PageCount(VirtOf(handle), n))
    {
      var cap := Lookup(slots, handle);
      if cap.None? || !cap.value.MemoryMapCap? {
        return Denied;
      }
      var start: U64, size: U64 := cap.value.base, cap.value.length;
      var p: U64, n: U64 := phys, len;
      if phys == U64_MAX {
        p, n := start, size;
      }
      if !(p >= start && SaturatingAdd(p, n) <= SaturatingAdd(start, size) && SaturatingAdd(p, n) >= p) {
        return Denied;
      }
      var virt := VirtOf(handle);
      if !Addressable(virt, n) {
        return Panicked;
      }
      var ok := MapWindow(virt, p, n, room);
      r := if ok then Mapped(virt) else Panicked;
    }
  }

  // ---- what a mapping means ----

  function Translate(t: PageTable, v: nat): Option<nat> {
    if v / PAGE_SIZE in t then Some(t[v / PAGE_SIZE] * PAGE_SIZE + v % PAGE_SIZE) else None
  }

  /** Every frame mapped for an allowed request contains a byte of the grant, whatever the grant: where the check
      is inexact, what it lets through beyond the grant lies above all physical addresses and is never mapped. */
  lemma MappedFramesGranted(t: PageTable, handle: nat, start: U64, size: U64, phys: U64, len: U64, room: nat,
                            page: nat) returns (b: nat)
    requires Allowed(start, size, phys, len) && Mappable(t, VirtOf(handle), phys, len, room)
    requires InWindow(VirtOf(handle), len, page)
    ensures start <= b < start + size
    ensures MappedTo(t, VirtOf(handle) / PAGE_SIZE, phys / PAGE_SIZE, PageCount(VirtOf(handle), len))[page]
            == b / PAGE_SIZE
  {
    b := phys + (page - VirtOf(handle) / PAGE_SIZE) * PAGE_SIZE;
    assert PageFits(t, VirtOf(handle), phys, page);
  }

  /** Byte `k` of the window is byte `k` of the page that contains the requested address. */
  lemma TranslatesTo(t: PageTable, handle: nat, phys: U64, len: U64, k: nat)
    requires k < len && VirtOf(handle) + len <= WORD
    ensures var t' := MappedTo(t, VirtOf(handle) / PAGE_SIZE, phys / PAGE_SIZE, PageCount(VirtOf(handle), len));
            Translate(t', VirtOf(handle) + k) == Some(phys - phys % PAGE_SIZE + k)
  {
    var v := VirtOf(handle);
    assert v == (0x8_0000 + handle * STRIDE_PAGES) * PAGE_SIZE;
    assert (v + k) / PAGE_SIZE == v / PAGE_SIZE + k / PAGE_SIZE;
  }

  predicate Shows(t: PageTable, virt: nat, phys: nat, k: nat) {
    Translate(t, virt + k) == Some(phys + k)
  }

  /** All `len` bytes of the window are the requested ones. */
  ghost predicate ShowsAll(t: PageTable, virt: nat, phys: nat, len: nat) {
    forall k: nat :: k < len ==> Shows(t, virt, phys, k)
  }

  lemma ShowsAllOrNone(t: PageTable, virt: nat, phys: nat, len: nat, b: bool)
    requires len > 0 && forall k: nat :: k < len ==> (Shows(t, virt, phys, k) <==> b)
    ensures ShowsAll(t, virt, phys, len) <==> b
  {
    assert Shows(t, virt, phys, 0) <==> b;
  }

  /** A window that wraps maps nothing. */
  lemma NothingShows(virt: nat, phys: U64, len: U64)
    requires virt + len > WORD && len > 0
    ensures !ShowsAll(MappedTo(map[], virt / PAGE_SIZE, phys / PAGE_SIZE, PageCount(virt, len)), virt, phys, len)
  {
    var t := MappedTo(map[], virt / PAGE_SIZE, phys / PAGE_SIZE, 0);
    assert !Shows(t, virt, phys, 0);
  }

  /** The window shows the requested bytes if and only if the request is page-aligned and its window does not
      wrap around the address space. */
  lemma TranslationExact(handle: nat, phys: U64, len: U64)
    requires len > 0
    ensures var virt := VirtOf(handle);
            ShowsAll(MappedTo(map[], virt / PAGE_SIZE, phys / PAGE_SIZE, PageCount(virt, len)), virt, phys, len)
            <==> phys % PAGE_SIZE == 0 && virt + len <= WORD
  {
    var virt := VirtOf(handle);
    var t := MappedTo(map[], virt / PAGE_SIZE, phys / PAGE_SIZE, PageCount(virt, len));
    if virt + len <= WORD {
      forall k: nat | k < len ensures Shows(t, virt, phys, k) <==> phys % PAGE_SIZE == 0 {
        TranslatesTo(map[], handle, phys, len, k);
      }
      ShowsAllOrNone(t, virt, phys, len, phys % PAGE_SIZE == 0);
    } else {
      NothingShows(virt, phys, len);
    }
  }

  /** Windows of two handles share no page if and only if the lower one fits between them or one is empty. */
  lemma WindowsDisjoint(h1: nat, h2: nat, len1: U64, len2: U64)
    requires h1 < h2 && VirtOf(h1) + len1 <= WORD && VirtOf(h2) + len2 <= WORD
    ensures (forall page: nat :: !(InWindow(VirtOf(h1), len1, page) && InWindow(VirtOf(h2), len2, page)))
       <==> len2 == 0 || len1 <= (h2 - h1) * MAP_STRIDE
  {
    var first := VirtOf(h2) / PAGE_SIZE;
    assert first == VirtOf(h1) / PAGE_SIZE + (h2 - h1) * STRIDE_PAGES;
    if len2 > 0 && len1 > (h2 - h1) * MAP_STRIDE {
      assert InWindow(VirtOf(h1), len1, first) && InWindow(VirtOf(h2), len2, first);
    }
  }

  // ---- the same in addresses ----

  function PageOf(v: nat): nat { v / 4096 }

  /** The window of a handle starts at a fixed address; its pages are those on which its bytes lie. */
  lemma WindowExact(handle: nat, len: U64, page: nat)
    requires VirtOf(handle) + len <= WORD
    ensures VirtOf(handle) == 0x8000_0000 + handle * 0x100_0000
    ensures InWindow(VirtOf(handle), len, page) <==>
            exists v: nat :: PageOf(v) == page && VirtOf(handle) <= v < VirtOf(handle) + len
  {
    var virt := VirtOf(handle);
    assert virt == (0x8_0000 + handle * STRIDE_PAGES) * 4096;
    if InWindow(virt, len, page) {
      assert PageOf(page * 4096) == page;
    }
  }

  /** No byte of the window lies on a page that is mapped. */
  ghost predicate Unmapped(t: PageTable, virt: nat, len: nat) {
    forall v: nat :: virt <= v < virt + len ==> PageOf(v) !in t
  }

  lemma UnmappedExact(t: PageTable, handle: nat, len: U64)
    requires VirtOf(handle) + len <= WORD
    ensures Unmapped(t, VirtOf(handle), len) <==> forall p: nat :: InWindow(VirtOf(handle), len, p) ==> p !in t
  {
    forall p: nat | InWindow(VirtOf(handle), len, p) && Unmapped(t, VirtOf(handle), len) ensures p !in t {
      WindowExact(handle, len, p);
    }
    forall v: nat | VirtOf(handle) <= v < VirtOf(handle) + len ensures InWindow(VirtOf(handle), len, PageOf(v)) {
      WindowExact(handle, len, PageOf(v));
    }
  }

  lemma MappableExact(t: PageTable, handle: nat, phys: U64, len: U64, room: nat)
    requires len > 0 && VirtOf(handle) + len <= WORD
    ensures Mappable(t, VirtOf(handle), phys, len, room) <==>
            Unmapped(t, VirtOf(handle), len) && len <= room * 4096 && phys + (len - 1) / 4096 * 4096 < PHYS_END
  {
    var virt, last := VirtOf(handle), (len - 1) / 4096;
    UnmappedExact(t, handle, len);
    assert PageCount(virt, len) == last + 1;
    if Mappable(t, virt, phys, len, room) {
      assert InWindow(virt, len, virt / PAGE_SIZE + last);
      assert PageFits(t, virt, phys, virt / PAGE_SIZE + last);
    }
  }

  /** A request whose window does not wrap is mapped, rather than ending in a panic, if and only if the window ends one
      page below the upper half of the address space or earlier, none of it is mapped yet, the page tables for it can
      be had, and its last page starts below the end of physical memory. */
  lemma MapsExactly(t: PageTable, handle: nat, phys: U64, len: U64, room: nat)
    requires len > 0 && VirtOf(handle) + len <= WORD
    ensures var virt := 0x8000_0000 + handle * 0x100_0000;
            Addressable(VirtOf(handle), len) && Mappable(t, VirtOf(handle), phys, len, room) <==>
            && virt + len <= 0x7FFF_FFFF_F000 && Unmapped(t, virt, len)
            && len <= room * 4096 && phys + (len - 1) / 4096 * 4096 < 0x10_0000_0000_0000
  {
    var virt := VirtOf(handle);
    WindowExact(handle, len, virt / 4096);
    MappableExact(t, handle, phys, len, room);
  }

  /** A window of no bytes, or one that wraps, maps nothing; it ends in a panic if and only if it starts in the upper
      half of the address space. */
  lemma EmptyWindow(t: PageTable, handle: nat, phys: U64, len: U64, room: nat)
    requires len == 0 || VirtOf(handle) + len > WORD
    ensures var virt := 0x8000_0000 + handle * 0x100_0000;
            && (Addressable(VirtOf(handle), len) && Mappable(t, VirtOf(handle), phys, len, room) <==>
                virt < 0x8000_0000_0000)
            && MappedTo(t, VirtOf(handle) / PAGE_SIZE, phys / PAGE_SIZE, PageCount(VirtOf(handle), len)) == t
  {
  }
}
