/** Page-wise loading of ELF segments (kernel/src/elf/mod.rs, `spawn_from_elf`). */
module ElfLoader {
  import opened Basics
  import opened FrameAllocator

  /** A program header; `load` says that its type is PT_LOAD. */
  datatype Phdr = Phdr(load: bool, offset: nat, vaddr: nat, filesz: nat, memsz: nat)

  const STACK_TOP: nat := 0x7000_0000_0000
  const STACK_PAGES: nat := 4

  /** Physical memory, a page of bytes per frame. */
  class PhysicalMemory {
    var pages: map<nat, seq<Byte>>

    constructor ()
      ensures pages == map[]
    {
      pages := map[];
    }
  }

  function ZeroPage(): (p: seq<Byte>)
    ensures |p| == PAGE_SIZE && forall i :: 0 <= i < PAGE_SIZE ==> p[i] == 0
  {
    seq(PAGE_SIZE, _ => 0)
  }

  /** The page numbers a segment occupies. */
  function FirstPage(ph: Phdr): nat { ph.vaddr / PAGE_SIZE }
  function EndPage(ph: Phdr): nat {
    if ph.vaddr + ph.memsz == 0 then 0 else (ph.vaddr + ph.memsz - 1) / PAGE_SIZE + 1
  }

  predicate InSegment(ph: Phdr, page: nat) {
    ph.load && FirstPage(ph) <= page < EndPage(ph)
  }

  /** What the loader reads without checking: headers whose file range lies in the file. */
  predicate Readable(ph: Phdr, file: seq<Byte>) {
    ph.load ==> ph.offset + ph.filesz <= |file| && ph.vaddr + ph.memsz > 0
  }

  /** The byte of the flat image at address `v`: the file's byte where the segment has one, else zero. */
  function ImageByte(file: seq<Byte>, ph: Phdr, v: nat): Byte
    requires Readable(ph, file) && ph.load
  {
    if ph.vaddr <= v < ph.vaddr + ph.filesz then file[ph.offset + (v - ph.vaddr)] else 0
  }

  /** `bytes` is page number `page` of the segment's flat image. */
  predicate IsImagePage(file: seq<Byte>, ph: Phdr, page: nat, bytes: seq<Byte>)
    requires Readable(ph, file) && ph.load
  {
    |bytes| == PAGE_SIZE && forall i :: 0 <= i < PAGE_SIZE ==> bytes[i] == ImageByte(file, ph, page * PAGE_SIZE + i)
  }

  /** The bytes of one page: cleared, then overwritten where the segment's file range meets it. */
  method FillPage(file: seq<Byte>, ph: Phdr, page: nat) returns (bytes: seq<Byte>)
    requires Readable(ph, file) && ph.load
    ensures IsImagePage(file, ph, page, bytes)
  {
    bytes := ZeroPage();
    var pageAddr, end := page * PAGE_SIZE, ph.vaddr + ph.filesz;
    var copyStart := if pageAddr >= ph.vaddr then pageAddr else ph.vaddr;
    var copyEnd := if pageAddr + PAGE_SIZE <= end then pageAddr + PAGE_SIZE else end;
    if copyStart < copyEnd {
      var len, src, dst := copyEnd - copyStart, ph.offset + (copyStart - ph.vaddr), copyStart - pageAddr;
      bytes := bytes[..dst] + file[src..src + len] + bytes[dst + len..];
    }
  }

  /** Every mapped page has a frame of its own, which the allocator holds as used. */
  ghost predicate Owned(a: BitmapAllocator, pt: PageTable)
    reads a, a.bitmap
  {
    && (forall p :: p in pt ==> pt[p] !in a.View().free)
    && (forall p, p' :: p in pt && p' in pt && pt[p] == pt[p'] ==> p == p')
  }

  /** The page-table walk may take up to three more frames for tables; it fails on a page already mapped
      and when no frame is left. */
  method MapTo(a: BitmapAllocator, pt: PageTable, page: nat, frame: nat) returns (ok: bool, pt': PageTable)
    requires a.Valid() && Owned(a, pt) && frame !in a.View().free && frame !in pt.Values
    modifies a`freeFrames, a`lastAllocIdx, a.bitmap
    ensures a.Valid() && a.View().free <= old(a.View()).free
    ensures ok ==> page !in pt && pt' == pt[page := frame] && Owned(a, pt')
    ensures !ok ==> page in pt || a.View().free == {}
  {
    ok, pt' := false, pt;
    if page in pt {
      return;
    }
    var tables: nat :| tables <= 3;
    var i := 0;
    while i < tables
      invariant a.Valid() && a.View().free <= old(a.View()).free
    {
      var table := a.AllocateFrame();
      if table.None? {
        return;
      }
      i := i + 1;
    }
    assert forall p :: p in pt ==> pt[p] in pt.Values;
    ok, pt' := true, pt[page := frame];
  }

  /** One page of a segment: a fresh frame is mapped and filled; no other frame is written. */
  method LoadPage(a: BitmapAllocator, mem: PhysicalMemory, file: seq<Byte>, ph: Phdr, pt: PageTable, page: nat)
    returns (ok: bool, pt': PageTable)
    requires a.Valid() && Owned(a, pt) && Readable(ph, file) && ph.load
    modifies a`freeFrames, a`lastAllocIdx, a.bitmap, mem
    ensures a.Valid() && a.View().free <= old(a.View()).free
    ensures ok ==> page !in pt && page in pt' && pt' == pt[page := pt'[page]] && Owned(a, pt')
    ensures ok ==> pt'[page] in old(a.View()).free && pt'[page] in mem.pages
    ensures ok ==> IsImagePage(file, ph, page, mem.pages[pt'[page]])
    ensures ok ==> mem.pages == old(mem.pages)[pt'[page] := mem.pages[pt'[page]]]
    ensures !ok ==> page in pt || a.View().free == {}
  {
    ok, pt' := false, pt;
    var frame := a.AllocateFrame();
    if frame.None? {
      return;
    }
    ok, pt' := MapTo(a, pt, page, frame.value);
    if ok {
      var bytes := FillPage(file, ph, page);
      mem.pages := mem.pages[frame.value := bytes];
    }
  }

  /** The frames of the pages in `pt` hold what they held in `pages`. */
  ghost predicate Undisturbed(pt: PageTable, pages: map<nat, seq<Byte>>, pages': map<nat, seq<Byte>>) {
    forall p :: p in pt && pt[p] in pages ==> pt[p] in pages' && pages'[pt[p]] == pages[pt[p]]
  }

  /** The pages of the segment below `end` are mapped to fresh frames holding its image. */
  ghost predicate Loaded(file: seq<Byte>, ph: Phdr, end: nat, pt: PageTable, pages: map<nat, seq<Byte>>)
    requires Readable(ph, file) && ph.load
  {
    forall p: nat :: InSegment(ph, p) && p < end ==> p in pt && pt[p] in pages && IsImagePage(file, ph, p, pages[pt[p]])
  }

  /** Adding one page in a frame of its own. */
  lemma OneMorePage(file: seq<Byte>, ph: Phdr, page: nat, pt: PageTable, pages: map<nat, seq<Byte>>, frame: nat,
                    bytes: seq<Byte>)
    requires Readable(ph, file) && ph.load && InSegment(ph, page) && IsImagePage(file, ph, page, bytes)
    requires page !in pt && Loaded(file, ph, page, pt, pages) && forall p :: p in pt ==> pt[p] != frame
    ensures Loaded(file, ph, page + 1, pt[page := frame], pages[frame := bytes])
    ensures Undisturbed(pt, pages, pages[frame := bytes])
  {
  }

  lemma StillUndisturbed(pt: PageTable, pt': PageTable, pages: map<nat, seq<Byte>>, pages': map<nat, seq<Byte>>,
                         pages'': map<nat, seq<Byte>>)
    requires Undisturbed(pt, pages, pages') && Undisturbed(pt', pages', pages'')
    requires forall p :: p in pt ==> p in pt' && pt'[p] == pt[p]
    ensures Undisturbed(pt, pages, pages'')
  {
  }

  /** The table has grown by the pages of the segment below `end`, which were not mapped before. */
  ghost predicate Grown(pt: PageTable, pt': PageTable, ph: Phdr, end: nat) {
    && (forall p: nat :: p in pt' <==> p in pt || (InSegment(ph, p) && p < end))
    && (forall p: nat :: p in pt ==> pt'[p] == pt[p] && !(InSegment(ph, p) && p < end))
  }

  lemma GrownByOne(pt: PageTable, pt': PageTable, ph: Phdr, page: nat, frame: nat)
    requires Grown(pt, pt', ph, page) && InSegment(ph, page) && page !in pt'
    ensures Grown(pt, pt'[page := frame], ph, page + 1)
  {
  }

  /** One segment: all its pages hold its image and no page mapped before is disturbed. */
  method LoadSegment(a: BitmapAllocator, mem: PhysicalMemory, file: seq<Byte>, ph: Phdr, pt: PageTable)
    returns (ok: bool, pt': PageTable)
    requires a.Valid() && Owned(a, pt) && Readable(ph, file) && ph.load
    modifies a`freeFrames, a`lastAllocIdx, a.bitmap, mem
    ensures a.Valid() && a.View().free <= old(a.View()).free
    ensures ok ==> Owned(a, pt') && Undisturbed(pt, old(mem.pages), mem.pages)
    ensures ok ==> Loaded(file, ph, EndPage(ph), pt', mem.pages)
    ensures ok ==> Grown(pt, pt', ph, EndPage(ph))
    ensures !ok ==> a.View().free == {} || exists p: nat :: p in pt && InSegment(ph, p)
  {
    ok, pt' := true, pt;
    var page := FirstPage(ph);
    while page < EndPage(ph)
      invariant FirstPage(ph) <= page <= EndPage(ph)
      invariant a.Valid() && a.View().free <= old(a.View()).free && Owned(a, pt')
      invariant Undisturbed(pt, old(mem.pages), mem.pages) && Loaded(file, ph, page, pt', mem.pages)
      invariant Grown(pt, pt', ph, page)
    {
      ghost var before, pages := pt', mem.pages;
      ok, pt' := LoadPage(a, mem, file, ph, pt', page);
      if !ok {
        assert page in before ==> page in pt && InSegment(ph, page);
        return;
      }
      GrownByOne(pt, before, ph, page, pt'[page]);
      OneMorePage(file, ph, page, before, pages, pt'[page], mem.pages[pt'[page]]);
      StillUndisturbed(pt, before, old(mem.pages), pages, mem.pages);
      page := page + 1;
    }
  }

  /** Every loadable segment among the first `n` is in place. */
  ghost predicate AllLoaded(file: seq<Byte>, phdrs: seq<Phdr>, n: nat, pt: PageTable, pages: map<nat, seq<Byte>>)
    requires n <= |phdrs| && forall i :: 0 <= i < |phdrs| ==> Readable(phdrs[i], file)
  {
    forall i :: 0 <= i < n && phdrs[i].load ==> Loaded(file, phdrs[i], EndPage(phdrs[i]), pt, pages)
  }

  /** A page of one of the first `n` segments. */
  ghost predicate InSome(phdrs: seq<Phdr>, n: nat, p: nat)
    requires n <= |phdrs|
  {
    exists i :: 0 <= i < n && InSegment(phdrs[i], p)
  }

  /** Two of the first `n` segments share a page. */
  ghost predicate Overlapping(phdrs: seq<Phdr>, n: nat)
    requires n <= |phdrs|
  {
    exists i, p: nat :: 0 <= i < n && InSegment(phdrs[i], p) && InSome(phdrs, i, p)
  }

  lemma OverlappingNext(phdrs: seq<Phdr>, n: nat)
    requires n < |phdrs|
    ensures Overlapping(phdrs, n + 1) <==>
              Overlapping(phdrs, n) || exists p: nat :: InSegment(phdrs[n], p) && InSome(phdrs, n, p)
  {
  }

  lemma AllLoadedKept(file: seq<Byte>, phdrs: seq<Phdr>, n: nat, pt: PageTable, pages: map<nat, seq<Byte>>,
                      pt': PageTable, pages': map<nat, seq<Byte>>)
    requires n <= |phdrs| && forall i :: 0 <= i < |phdrs| ==> Readable(phdrs[i], file)
    requires AllLoaded(file, phdrs, n, pt, pages) && Undisturbed(pt, pages, pages')
    requires forall p :: p in pt ==> p in pt' && pt'[p] == pt[p]
    ensures AllLoaded(file, phdrs, n, pt', pages')
  {
  }

  lemma InSomeNext(phdrs: seq<Phdr>, n: nat, p: nat)
    requires n < |phdrs|
    ensures InSome(phdrs, n + 1, p) <==> InSome(phdrs, n, p) || InSegment(phdrs[n], p)
  {
  }

  /** All loadable segments, in header order. It fails when two segments share a page, and otherwise only when
      no frame is left. */
  method LoadSegments(a: BitmapAllocator, mem: PhysicalMemory, file: seq<Byte>, phdrs: seq<Phdr>)
    returns (ok: bool, pt: PageTable)
    requires a.Valid() && forall i :: 0 <= i < |phdrs| ==> Readable(phdrs[i], file)
    modifies a`freeFrames, a`lastAllocIdx, a.bitmap, mem
    ensures a.Valid() && a.View().free <= old(a.View()).free
    ensures ok ==> Owned(a, pt) && AllLoaded(file, phdrs, |phdrs|, pt, mem.pages)
    ensures ok ==> forall p: nat :: p in pt <==> InSome(phdrs, |phdrs|, p)
    ensures ok ==> !Overlapping(phdrs, |phdrs|)
    ensures !ok ==> a.View().free == {} || Overlapping(phdrs, |phdrs|)
  {
    ok, pt := true, map[];
    for n := 0 to |phdrs|
      invariant a.Valid() && a.View().free <= old(a.View()).free
      invariant Owned(a, pt) && AllLoaded(file, phdrs, n, pt, mem.pages)
      invariant forall p: nat :: p in pt <==> InSome(phdrs, n, p)
      invariant !Overlapping(phdrs, n)
    {
      OverlappingNext(phdrs, n);
      forall p: nat ensures InSome(phdrs, n + 1, p) <==> InSome(phdrs, n, p) || InSegment(phdrs[n], p) {
        InSomeNext(phdrs, n, p);
      }
      if phdrs[n].load {
        ghost var before, pages := pt, mem.pages;
        ok, pt := LoadSegment(a, mem, file, phdrs[n], pt);
        if !ok {
          return;
        }
        AllLoadedKept(file, phdrs, n, before, pages, pt, mem.pages);
      }
    }
  }

  /** The user stack: pages right below its top, in fresh frames that are not cleared. */
  method MapStack(a: BitmapAllocator, pt: PageTable) returns (ok: bool, pt': PageTable)
    requires a.Valid() && Owned(a, pt)
    modifies a`freeFrames, a`lastAllocIdx, a.bitmap
    ensures a.Valid() && a.View().free <= old(a.View()).free
    ensures ok ==> Owned(a, pt') && forall p: nat :: p in pt' <==> p in pt || StackPage(p, STACK_PAGES)
    ensures ok ==> forall p: nat :: p in pt ==> pt'[p] == pt[p] && !StackPage(p, STACK_PAGES)
    ensures !ok ==> a.View().free == {} || exists p: nat :: p in pt && StackPage(p, STACK_PAGES)
  {
    ok, pt' := true, pt;
    for i := 0 to STACK_PAGES
      invariant ok && a.Valid() && a.View().free <= old(a.View()).free && Owned(a, pt')
      invariant forall p: nat :: p in pt' <==> p in pt || StackPage(p, i)
      invariant forall p: nat :: p in pt ==> pt'[p] == pt[p] && !StackPage(p, i)
    {
      var page := (STACK_TOP - (i + 1) * PAGE_SIZE) / PAGE_SIZE;
      assert page == STACK_TOP / PAGE_SIZE - (i + 1);
      ghost var before := pt';
      var frame := a.AllocateFrame();
      if frame.None? {
        return false, pt';
      }
      ok, pt' := MapTo(a, pt', page, frame.value);
      if !ok {
        assert page in before ==> page in pt && StackPage(page, STACK_PAGES);
        return;
      }
      assert forall p: nat :: StackPage(p, i + 1) <==> StackPage(p, i) || p == page;
    }
  }

  predicate StackPage(p: nat, n: nat) {
    p < STACK_TOP / PAGE_SIZE <= p + n
  }

  // ---- the same in addresses ----

  /** The page an address lies on. */
  function PageOf(v: nat): nat { v / 4096 }

  /** An address of the segment's memory range lies on the page. A range without addresses still takes the page it
      starts in the middle of. */
  ghost predicate Touches(ph: Phdr, page: nat) {
    ph.load
    && if ph.memsz > 0 then exists v: nat :: PageOf(v) == page && ph.vaddr <= v < ph.vaddr + ph.memsz
       else page == PageOf(ph.vaddr) && ph.vaddr % 4096 != 0
  }

  lemma PageBounds(page: nat, v: nat)
    ensures PageOf(v) == page <==> page * 4096 <= v < page * 4096 + 4096
  {
  }

  lemma TouchesExact(ph: Phdr, page: nat)
    requires ph.load ==> ph.vaddr + ph.memsz > 0
    ensures Touches(ph, page) <==> InSegment(ph, page)
  {
    if ph.load && ph.memsz > 0 {
      var last := ph.vaddr + ph.memsz - 1;
      PageBounds(FirstPage(ph), ph.vaddr);
      PageBounds(PageOf(last), last);
      if FirstPage(ph) <= page <= PageOf(last) {
        var v := if page * 4096 >= ph.vaddr then page * 4096 else ph.vaddr;
        PageBounds(page, v);
      }
      forall v: nat | PageOf(v) == page && ph.vaddr <= v <= last ensures FirstPage(ph) <= page <= PageOf(last) {
        PageBounds(page, v);
      }
    }
  }

  /** A page of the sixteen kilobytes below the top of the stack. */
  predicate StackAddress(page: nat) { 0x6FFF_FFFF_C000 <= page * 4096 < 0x7000_0000_0000 }

  ghost predicate TouchedBySome(phdrs: seq<Phdr>, page: nat) {
    exists i :: 0 <= i < |phdrs| && Touches(phdrs[i], page)
  }

  /** Two segments, or a segment and the stack, share a page. */
  ghost predicate Clash(phdrs: seq<Phdr>) {
    || (exists i, j, page: nat :: 0 <= i < j < |phdrs| && Touches(phdrs[i], page) && Touches(phdrs[j], page))
    || (exists page: nat :: TouchedBySome(phdrs, page) && StackAddress(page))
  }

  lemma StackExact(page: nat)
    ensures StackAddress(page) <==> StackPage(page, STACK_PAGES)
  {
  }

  lemma TouchedExact(phdrs: seq<Phdr>, page: nat)
    requires forall i :: 0 <= i < |phdrs| && phdrs[i].load ==> phdrs[i].vaddr + phdrs[i].memsz > 0
    ensures TouchedBySome(phdrs, page) <==> InSome(phdrs, |phdrs|, page)
  {
    forall i | 0 <= i < |phdrs| ensures Touches(phdrs[i], page) <==> InSegment(phdrs[i], page) {
      TouchesExact(phdrs[i], page);
    }
  }

  lemma SharedExact(phdrs: seq<Phdr>)
    requires forall i :: 0 <= i < |phdrs| && phdrs[i].load ==> phdrs[i].vaddr + phdrs[i].memsz > 0
    ensures Overlapping(phdrs, |phdrs|) <==>
            exists i, j, page: nat :: 0 <= i < j < |phdrs| && Touches(phdrs[i], page) && Touches(phdrs[j], page)
  {
    if j, page: nat :| 0 <= j < |phdrs| && InSegment(phdrs[j], page) && InSome(phdrs, j, page) {
      var i :| 0 <= i < j && InSegment(phdrs[i], page);
      TouchesExact(phdrs[i], page);
      TouchesExact(phdrs[j], page);
    }
    if i, j, page: nat :| 0 <= i < j < |phdrs| && Touches(phdrs[i], page) && Touches(phdrs[j], page) {
      TouchesExact(phdrs[i], page);
      TouchesExact(phdrs[j], page);
      assert InSome(phdrs, j, page);
    }
  }

  lemma ClashExact(phdrs: seq<Phdr>)
    requires forall i :: 0 <= i < |phdrs| && phdrs[i].load ==> phdrs[i].vaddr + phdrs[i].memsz > 0
    ensures Clash(phdrs) <==>
            || Overlapping(phdrs, |phdrs|)
            || exists page: nat :: InSome(phdrs, |phdrs|, page) && StackPage(page, STACK_PAGES)
  {
    SharedExact(phdrs);
    forall page: nat
      ensures TouchedBySome(phdrs, page) && StackAddress(page)
         <==> InSome(phdrs, |phdrs|, page) && StackPage(page, STACK_PAGES)
    {
      TouchedExact(phdrs, page);
      StackExact(page);
    }
  }

  /** The byte at virtual address `v`. */
  function ByteAt(pt: PageTable, pages: map<nat, seq<Byte>>, v: nat): Option<Byte> {
    if v / PAGE_SIZE in pt && pt[v / PAGE_SIZE] in pages && v % PAGE_SIZE < |pages[pt[v / PAGE_SIZE]]|
    then Some(pages[pt[v / PAGE_SIZE]][v % PAGE_SIZE]) else None
  }

  /** Page-wise loading is loading the flat image: every byte on a page of the segment is the file's byte at
      the same distance from the segment's start where the file has one, and zero otherwise. */
  ghost predicate ShowsImage(file: seq<Byte>, ph: Phdr, pt: PageTable, pages: map<nat, seq<Byte>>)
    requires Readable(ph, file)
  {
    forall v: nat :: Touches(ph, PageOf(v)) ==>
      ByteAt(pt, pages, v)
      == Some(if ph.vaddr <= v < ph.vaddr + ph.filesz then file[ph.offset + (v - ph.vaddr)] else 0)
  }

  lemma SegmentImage(file: seq<Byte>, ph: Phdr, pt: PageTable, pages: map<nat, seq<Byte>>)
    requires Readable(ph, file) && (ph.load ==> Loaded(file, ph, EndPage(ph), pt, pages))
    ensures ShowsImage(file, ph, pt, pages)
  {
    forall v: nat | Touches(ph, PageOf(v))
      ensures ByteAt(pt, pages, v)
         == Some(if ph.vaddr <= v < ph.vaddr + ph.filesz then file[ph.offset + (v - ph.vaddr)] else 0)
    {
      TouchesExact(ph, PageOf(v));
    }
  }

  /** For a segment whose file size does not exceed its memory size, the memory range reads as the file
      range followed by zeros. */
  lemma FlatImage(file: seq<Byte>, ph: Phdr, pt: PageTable, pages: map<nat, seq<Byte>>, k: nat)
    requires Readable(ph, file) && ph.load && ShowsImage(file, ph, pt, pages)
    requires ph.filesz <= ph.memsz && k < ph.memsz
    ensures ByteAt(pt, pages, ph.vaddr + k) == Some(if k < ph.filesz then file[ph.offset + k] else 0)
  {
    assert Touches(ph, PageOf(ph.vaddr + k));
  }

  lemma PagesInAddresses(phdrs: seq<Phdr>, pt: PageTable)
    requires forall i :: 0 <= i < |phdrs| && phdrs[i].load ==> phdrs[i].vaddr + phdrs[i].memsz > 0
    requires forall p: nat :: p in pt <==> InSome(phdrs, |phdrs|, p) || StackPage(p, STACK_PAGES)
    ensures forall page: nat :: page in pt <==> TouchedBySome(phdrs, page) || StackAddress(page)
  {
    forall page: nat ensures page in pt <==> TouchedBySome(phdrs, page) || StackAddress(page) {
      TouchedExact(phdrs, page);
      StackExact(page);
    }
  }

  lemma ImagesInAddresses(file: seq<Byte>, phdrs: seq<Phdr>, pt: PageTable, pages: map<nat, seq<Byte>>)
    requires forall i :: 0 <= i < |phdrs| ==> Readable(phdrs[i], file)
    requires AllLoaded(file, phdrs, |phdrs|, pt, pages)
    ensures forall i :: 0 <= i < |phdrs| ==> ShowsImage(file, phdrs[i], pt, pages)
  {
    forall i | 0 <= i < |phdrs| ensures ShowsImage(file, phdrs[i], pt, pages) {
      SegmentImage(file, phdrs[i], pt, pages);
    }
  }

  /** Segments, then stack: the address space of a new process. A page is mapped if and only if an address of a
      segment or of the stack lies on it, and with frames left loading fails if and only if two of those share a
      page. */
  method LoadProgram(a: BitmapAllocator, mem: PhysicalMemory, file: seq<Byte>, phdrs: seq<Phdr>)
    returns (ok: bool, pt: PageTable)
    requires a.Valid() && forall i :: 0 <= i < |phdrs| ==> Readable(phdrs[i], file)
    modifies a`freeFrames, a`lastAllocIdx, a.bitmap, mem
    ensures a.Valid() && a.View().free <= old(a.View()).free
    ensures ok ==> Owned(a, pt)
    ensures ok ==> forall page: nat :: page in pt <==> TouchedBySome(phdrs, page) || StackAddress(page)
    ensures ok ==> forall i :: 0 <= i < |phdrs| ==> ShowsImage(file, phdrs[i], pt, mem.pages)
    ensures ok ==> !Clash(phdrs)
    ensures !ok && a.View().free != {} ==> Clash(phdrs)
  {
    ok, pt := LoadSegments(a, mem, file, phdrs);
    ClashExact(phdrs);
    if ok {
      ghost var before := pt;
      ok, pt := MapStack(a, pt);
      if ok {
        AllLoadedKept(file, phdrs, |phdrs|, before, mem.pages, pt, mem.pages);
        PagesInAddresses(phdrs, pt);
        ImagesInAddresses(file, phdrs, pt, mem.pages);
      }
    }
  }
}
