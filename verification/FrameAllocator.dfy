/** The bitmap frame allocator (kernel/src/memory/frame_allocator.rs). */
module FrameAllocator {
  import opened Basics

  const PAGE_SIZE: nat := 4096

  // ---- bits of a byte ----

  function Mask(i: nat): bv8
    requires i < 8
  {
    (1 as bv8) << i
  }

  /** Frame `i` is marked used. */
  predicate Bit(bits: seq<bv8>, i: nat)
    requires i < 8 * |bits|
  {
    bits[i / 8] & Mask(i % 8) != 0
  }

  /** The frames below `total` whose bit is clear. */
  function ClearBits(bits: seq<bv8>, total: nat): set<nat>
    requires total <= 8 * |bits|
  {
    set i: nat | i < total && !Bit(bits, i)
  }

  function ByteWith(b: bv8, i: nat, used: bool): bv8
    requires i < 8
  {
    if used then b | Mask(i) else b & !Mask(i)
  }

  /** The bytes with the bit of frame `i` set or cleared. */
  function WithBit(bits: seq<bv8>, i: nat, used: bool): (r: seq<bv8>)
    requires i < 8 * |bits|
    ensures |r| == |bits|
  {
    bits[i / 8 := ByteWith(bits[i / 8], i % 8, used)]
  }

  /** Only the bit of frame `i` changes. */
  lemma WithBitAt(bits: seq<bv8>, i: nat, used: bool, j: nat)
    requires i < 8 * |bits| && j < 8 * |bits|
    ensures Bit(WithBit(bits, i, used), j) <==> if j == i then used else Bit(bits, j)
  {
  }

  /** The byte operation changes exactly one element of the set of free frames. */
  lemma WithBitExact(bits: seq<bv8>, i: nat, used: bool, total: nat)
    requires i < total <= 8 * |bits|
    ensures ClearBits(WithBit(bits, i, used), total)
         == if used then ClearBits(bits, total) - {i} else ClearBits(bits, total) + {i}
  {
    forall j: nat | j < total ensures Bit(WithBit(bits, i, used), j) <==> if j == i then used else Bit(bits, j) {
      WithBitAt(bits, i, used, j);
    }
  }

  // ---- the allocator as a set of free frames with a cursor ----

  datatype Pool = Pool(total: nat, free: set<nat>, cursor: nat)

  /** The frame at cyclic distance `d` from the cursor. */
  function At(p: Pool, d: nat): nat
    requires p.total > 0
  {
    (p.cursor + d) % p.total
  }

  /** The first free frame at cyclic distance `d` or more from the cursor. */
  function NextFree(p: Pool, d: nat): Option<nat>
    requires d <= p.total
    decreases p.total - d
  {
    if d == p.total then None
    else if At(p, d) in p.free then Some(At(p, d))
    else NextFree(p, d + 1)
  }

  /** The scan from the cursor passes every frame, also when the cursor stands at or beyond the end. */
  lemma ScanCovers(cursor: nat, total: nat, f: nat) returns (d: nat)
    requires f < total
    ensures d < total && (cursor + d) % total == f
  {
    var r, q := cursor % total, cursor / total;
    assert cursor == q * total + r;
    if r <= f {
      d := f - r;
      ModUnique(cursor + d, total, q, f);
    } else {
      d := f + total - r;
      assert cursor + d == (q + 1) * total + f;
      ModUnique(cursor + d, total, q + 1, f);
    }
  }

  /** `x` is the distance of the first free frame at distance `d` or more. */
  predicate FirstAt(p: Pool, d: nat, x: nat)
    requires p.total > 0
  {
    d <= x < p.total && At(p, x) in p.free && forall y: nat :: d <= y < x ==> At(p, y) !in p.free
  }

  lemma {:induction false} NextFreeFinds(p: Pool, d: nat)
    requires d <= p.total && p.total > 0
    ensures NextFree(p, d).None? ==> forall x: nat :: d <= x < p.total ==> At(p, x) !in p.free
    ensures NextFree(p, d).Some? ==> exists x: nat :: FirstAt(p, d, x) && At(p, x) == NextFree(p, d).value
    decreases p.total - d
  {
    if d < p.total {
      if At(p, d) in p.free {
        assert FirstAt(p, d, d);
      } else {
        NextFreeFinds(p, d + 1);
        if NextFree(p, d).Some? {
          var x: nat :| FirstAt(p, d + 1, x) && At(p, x) == NextFree(p, d + 1).value;
          assert FirstAt(p, d, x);
        }
      }
    }
  }

  /** `f` is free and no frame between the cursor and `f`, going round, is. */
  ghost predicate NextFit(p: Pool, f: nat) {
    p.total > 0 && exists x: nat :: FirstAt(p, 0, x) && At(p, x) == f
  }

  /** Allocation is complete and next-fit: it fails exactly when no frame is free, and otherwise finds
      the first free frame in cyclic order from the cursor. */
  lemma NextFreeIsNextFit(p: Pool)
    requires forall f :: f in p.free ==> f < p.total
    ensures NextFree(p, 0).None? <==> p.free == {}
    ensures NextFree(p, 0).Some? ==> NextFit(p, NextFree(p, 0).value)
  {
    if p.total > 0 {
      NextFreeFinds(p, 0);
      if p.free != {} {
        var f :| f in p.free;
        var d := ScanCovers(p.cursor, p.total, f);
        assert At(p, d) in p.free;
      }
    }
  }

  function Allocate(p: Pool): Pool {
    match NextFree(p, 0)
    case None => p
    case Some(f) => p.(free := p.free - {f}, cursor := f + 1)
  }

  /** Two allocations in a row: the second frame is the first free one behind the first, going round. */
  lemma NextAllocation(p: Pool) returns (x: nat)
    requires (forall f :: f in p.free ==> f < p.total) && NextFree(p, 0).Some? && NextFree(Allocate(p), 0).Some?
    ensures var f, g := NextFree(p, 0).value, NextFree(Allocate(p), 0).value;
            && Allocate(p).total == p.total && Allocate(p).free == p.free - {f}
            && f in p.free && g in p.free && g != f
            && x < p.total && g == (f + 1 + x) % p.total
            && forall y: nat :: y < x ==> Around(p, f, y) !in p.free - {f}
  {
    var f, p' := NextFree(p, 0).value, Allocate(p);
    NextFreeIsNextFit(p);
    NextFreeIsNextFit(p');
    x :| FirstAt(p', 0, x) && At(p', x) == NextFree(p', 0).value;
    forall y: nat | y < x ensures Around(p, f, y) !in p.free - {f} {
      assert At(p', y) !in p'.free;
    }
  }

  /** The frame `y` places behind the one after `f`, going round. */
  function Around(p: Pool, f: nat, y: nat): nat
    requires p.total > 0
  {
    (f + 1 + y) % p.total
  }

  function Deallocate(p: Pool, f: nat): Pool {
    if f < p.total then p.(free := p.free + {f}) else p
  }

  // ---- the allocator object ----

  class BitmapAllocator {
    /** null until boot initialisation has placed the bitmap. */
    var bitmap: array?<bv8>
    var totalFrames: nat
    var freeFrames: nat
    var lastAllocIdx: nat

    ghost function View(): Pool
      reads this, bitmap
    {
      if bitmap == null then Pool(0, {}, lastAllocIdx)
      else if totalFrames <= 8 * bitmap.Length then Pool(totalFrames, ClearBits(bitmap[..], totalFrames), lastAllocIdx)
      else Pool(0, {}, 0)
    }

    /** The cached count is the number of clear bits. */
    ghost predicate Valid()
      reads this, bitmap
    {
      && (bitmap != null ==> totalFrames <= 8 * bitmap.Length)
      && (bitmap == null ==> totalFrames == 0)
      && freeFrames == |View().free|
    }

    constructor ()
      ensures Valid() && bitmap == null && View() == Pool(0, {}, 0)
    {
      bitmap, totalFrames, freeFrames, lastAllocIdx := null, 0, 0, 0;
    }

    /** Without a bitmap nothing happens. */
    method SetBit(frame: nat, used: bool)
      requires bitmap != null ==> frame < totalFrames <= 8 * bitmap.Length
      modifies bitmap
      ensures bitmap == null ==> View() == old(View())
      ensures bitmap != null ==>
        View() == old(View()).(free := if used then old(View().free) - {frame} else old(View().free) + {frame})
    {
      if bitmap == null {
        return;
      }
      WithBitExact(bitmap[..], frame, used, totalFrames);
      bitmap[frame / 8] := ByteWith(bitmap[frame / 8], frame % 8, used);
      assert bitmap[..] == WithBit(old(bitmap[..]), frame, used);
    }

    /** Without a bitmap every frame counts as used. */
    method GetBit(frame: nat) returns (used: bool)
      requires bitmap != null ==> frame < totalFrames <= 8 * bitmap.Length
      ensures used <==> frame !in View().free
    {
      if bitmap != null {
        used := bitmap[frame / 8] & Mask(frame % 8) != 0;
        assert used == Bit(bitmap[..], frame);
      } else {
        used := true;
      }
    }

    /** Marks a free frame used and moves the cursor behind it. */
    method Take(frame: nat)
      requires Valid() && bitmap != null && frame in View().free
      modifies this`freeFrames, this`lastAllocIdx, bitmap
      ensures Valid() && View() == old(View()).(free := old(View()).free - {frame}, cursor := frame + 1)
    {
      SetBit(frame, true);
      freeFrames := freeFrames - 1;
      lastAllocIdx := frame + 1;
    }

    /** The scan over the bitmap, starting at the cursor and going round once. */
    method Scan() returns (frame: Option<nat>)
      requires Valid() && bitmap != null
      ensures frame == NextFree(View(), 0)
    {
      var i := 0;
      while i < totalFrames
        invariant i <= totalFrames
        invariant NextFree(View(), 0) == NextFree(View(), i)
      {
        var idx := (lastAllocIdx + i) % totalFrames;
        var used := GetBit(idx);
        assert idx == At(View(), i);
        if !used {
          return Some(idx);
        }
        i := i + 1;
      }
      frame := None;
    }

    method AllocateFrame() returns (frame: Option<nat>)
      requires Valid()
      modifies this`freeFrames, this`lastAllocIdx, bitmap
      ensures Valid()
      ensures View() == Allocate(old(View())) && frame == NextFree(old(View()), 0)
      ensures frame.None? <==> old(View()).free == {}
      ensures frame.Some? ==> frame.value in old(View()).free && NextFit(old(View()), frame.value)
      ensures frame.Some? ==> View() == Pool(old(View()).total, old(View()).free - {frame.value}, frame.value + 1)
      ensures frame.None? ==> View() == old(View())
    {
      NextFreeIsNextFit(View());
      if freeFrames == 0 || bitmap == null {
        return None;
      }
      frame := Scan();
      Take(frame.value);
    }

    /** Freeing a frame out of range or already free does nothing. */
    method DeallocateFrame(frame: nat)
      requires Valid()
      modifies this`freeFrames, bitmap
      ensures Valid()
      ensures View() == Deallocate(old(View()), frame)
    {
      if frame < totalFrames {
        var used := GetBit(frame);
        if used {
          SetBit(frame, false);
          freeFrames := freeFrames + 1;
        }
      }
    }
  }
}
