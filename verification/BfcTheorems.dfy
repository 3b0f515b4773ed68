/** What the allocator's invariant means for its callers. */
module BfcTheorems {
  import opened BfcSizes
  import opened BfcTable
  import opened BfcRegions
  import opened BfcHeap
  import opened BfcBins
  import opened BfcState
  import opened BfcAllocator

  // ---------- Tiling ----------

  /** How far the region reaches past the start of h. */
  ghost function Room(H: Heap, h: int): nat {
    if 0 <= h < |H.cs| && H.cs[h].ptr in H.table && H.cs[h].ptr <= H.table[H.cs[h].ptr].end
    then H.table[H.cs[h].ptr].end - H.cs[h].ptr else 0
  }

  /** The chunks met by following next from h. */
  ghost function Layout(H: Heap, h: int): (s: seq<int>)
    requires Shape(H) && h in H.live
    ensures |s| > 0 && s[0] == h && forall i :: 0 <= i < |s| ==> s[i] in H.live
    decreases Room(H, h)
  {
    assert ChunkOk(H, h) && NextOk(H, h);
    var n := H.cs[h].next;
    if n == NO_CHUNK then [h]
    else
      LayoutStep(H, h);
      [h] + Layout(H, n)
  }

  lemma LayoutStep(H: Heap, h: int)
    requires Shape(H) && h in H.live && H.cs[h].next != NO_CHUNK
    ensures var n := H.cs[h].next;
            && n in H.live && H.cs[n].ptr == H.cs[h].End() > H.cs[h].ptr && H.cs[h].ptr in H.table
               && H.cs[n].ptr in H.table
            && H.table[H.cs[n].ptr].base == H.table[H.cs[h].ptr].base
            && H.table[H.cs[n].ptr].end == H.table[H.cs[h].ptr].end > H.cs[n].ptr
  {
    MergeReady(H, h, H.cs[h].next);
    assert SlotOk(H.table, H.cs[H.cs[h].next].ptr) && SlotOk(H.table, H.cs[h].ptr);
  }

  /** s covers [from, to) with consecutive chunks, leaving no gap and no overlap. */
  ghost predicate Tiles(cs: seq<Chunk>, s: seq<int>, from: nat, to: nat) {
    && |s| > 0 && (forall i :: 0 <= i < |s| ==> 0 <= s[i] < |cs|)
    && cs[s[0]].ptr == from && cs[s[|s| - 1]].End() == to
    && (forall i {:trigger s[i]} :: 0 <= i < |s| - 1 ==> cs[s[i]].End() == cs[s[i + 1]].ptr && cs[s[i]].size > 0)
  }

  lemma {:induction false} LayoutTiles(H: Heap, h: int)
    requires Shape(H) && h in H.live
    ensures ChunkOk(H, h)
    ensures Tiles(H.cs, Layout(H, h), H.cs[h].ptr, H.table[H.cs[h].ptr].end)
    decreases Room(H, h)
  {
    assert ChunkOk(H, h) && NextOk(H, h);
    var n := H.cs[h].next;
    if n != NO_CHUNK {
      LayoutStep(H, h);
      LayoutTiles(H, n);
      var rest := Layout(H, n);
      assert Layout(H, h) == [h] + rest;
      forall i | 0 <= i < |rest|
        ensures H.cs[([h] + rest)[i]].End() == H.cs[([h] + rest)[i + 1]].ptr && H.cs[([h] + rest)[i]].size > 0
      {
        if i > 0 {
          assert ([h] + rest)[i] == rest[i - 1] && ([h] + rest)[i + 1] == rest[i];
        }
      }
    }
  }

  /** Every address in a tiled span lies in one of its chunks. */
  lemma {:induction false} TileAt(cs: seq<Chunk>, s: seq<int>, from: nat, to: nat, a: nat) returns (k: nat)
    requires Tiles(cs, s, from, to) && from <= a < to
    ensures k < |s| && cs[s[k]].ptr <= a < cs[s[k]].End()
    decreases |s|
  {
    if a < cs[s[0]].End() {
      k := 0;
    } else {
      assert |s| > 1;
      assert cs[s[0]].End() == cs[s[1]].ptr;
      k := TileAt(cs, s[1..], cs[s[1]].ptr, to, a);
      k := k + 1;
    }
  }

  /** Address a lies in a chunk in use. */
  ghost predicate UsedByte(cs: seq<Chunk>, live: set<int>, a: nat) {
    exists h :: h in UsedMap(cs, live)
      && UsedMap(cs, live)[h].ptr <= a < UsedMap(cs, live)[h].ptr + UsedMap(cs, live)[h].size
  }

  /** Every byte of every region is either free or in use, and never both. */
  lemma BytePartition(A: BfcAllocator, i: nat, a: nat)
    requires A.Quiet() && i < |A.regions| && A.regions[i].ptr <= a < A.regions[i].End()
    ensures FreeByte(A.chunks, A.live, a) <==> !UsedByte(A.chunks, A.live, a)
  {
    var H := A.H();
    RepresentsStart(A.regions, A.table, i);
    assert StartOk(H, A.regions[i].ptr) && EntryOk(H, A.regions[i].ptr);
    var first := A.table[A.regions[i].ptr].handle;
    LayoutTiles(H, first);
    var k := TileAt(H.cs, Layout(H, first), A.regions[i].ptr, A.regions[i].End(), a);
    var h := Layout(H, first)[k];
    var free, used := FreeMap(A.chunks, A.live), UsedMap(A.chunks, A.live);
    if H.cs[h].InUse() {
      assert h in used && used[h].ptr <= a < used[h].ptr + used[h].size;
      assert forall g :: g in free ==> Disjoint(H.cs[g], H.cs[h]);
    } else {
      assert h in free && free[h].ptr <= a < free[h].ptr + free[h].size;
      assert forall g :: g in used ==> Disjoint(H.cs[g], H.cs[h]);
    }
  }

  /** Live allocations occupy disjoint memory, each inside one region. */
  lemma AllocationsDisjoint(A: BfcAllocator, h: int, g: int)
    requires A.Quiet()
    requires h in UsedMap(A.chunks, A.live) && g in UsedMap(A.chunks, A.live) && h != g
    ensures var used := UsedMap(A.chunks, A.live);
            used[h].ptr + used[h].size <= used[g].ptr || used[g].ptr + used[g].size <= used[h].ptr
    ensures Covered(A.regions, UsedMap(A.chunks, A.live)[h].ptr)
    ensures UsedMap(A.chunks, A.live)[h].ptr + UsedMap(A.chunks, A.live)[h].size
              <= EndOf(A.regions, UsedMap(A.chunks, A.live)[h].ptr)
  {
    assert Disjoint(A.chunks[h], A.chunks[g]) && ChunkOk(A.H(), h);
    assert SlotView(A.regions, A.table, A.chunks[h].ptr);
  }

  // ---------- Pointers and the pinned first allocation ----------

  /** The table leads from the pointer of an allocation back to its chunk. */
  lemma PointerToHandle(A: BfcAllocator, h: int)
    requires A.Quiet() && h in UsedMap(A.chunks, A.live)
    ensures var p := UsedMap(A.chunks, A.live)[h].ptr;
            p > 0 && Covered(A.regions, p) && GetHandle(A.regions, p) == h
  {
    var p := A.chunks[h].ptr;
    assert ChunkOk(A.H(), h) && SlotOk(A.table, p);
    assert SlotView(A.regions, A.table, p);
    SlotBaseOf(A.regions, A.table, p);
  }

  /**
    Freeing the pointer of a live allocation releases it if and only if its chunk is not the one
    with handle 0, because 0 also stands for a pointer that belongs to no region.
   */
  method FreeAllocation(A: BfcAllocator, ghost h: int, ptr: nat) returns (outcome: FreeOutcome)
    requires A.Valid() && h in UsedMap(A.chunks, A.live) && ptr == UsedMap(A.chunks, A.live)[h].ptr
    modifies A
    ensures A.Valid()
    ensures outcome == Freed <==> h != 0
    ensures h != 0 ==> UsedMap(A.chunks, A.live) == UsedMap(old(A.chunks), old(A.live)) - {h}
    ensures h == 0 ==> UsedMap(A.chunks, A.live) == UsedMap(old(A.chunks), old(A.live))
  {
    PointerToHandle(A, h);
    outcome := A.DeallocateRaw(ptr);
  }

  lemma StartIsLive(A: BfcAllocator, i: nat)
    requires A.Quiet() && i < |A.regions|
    ensures |A.chunks| > 0
  {
    RepresentsStart(A.regions, A.table, i);
    assert StartOk(A.H(), A.regions[i].ptr) && EntryOk(A.H(), A.regions[i].ptr);
  }

  /** An allocator without chunk records holds no region, so that there is nothing to give back. */
  lemma NoRegionsYet(A: BfcAllocator)
    requires A.Quiet() && A.chunks == []
    ensures A.regions == [] && A.totalRegionAllocatedBytes == 0
    ensures FreeMap(A.chunks, A.live) == map[] && UsedMap(A.chunks, A.live) == map[]
  {
    if A.regions != [] {
      RepresentsStart(A.regions, A.table, 0);
      StartIsLive(A, 0);
    }
  }

  /**
    The very first allocation, which succeeds whenever the sub-allocator is willing and the limit allows
    it, can never be given back: it takes handle 0.
   */
  method FirstAllocationStays(A: BfcAllocator, numBytes: nat, willing1: bool, willing2: bool)
    returns (ptr: nat, outcome: FreeOutcome)
    requires A.Valid() && A.chunks == []
    modifies A
    ensures A.Valid()
    ensures ptr != 0 <==> willing1 && 0 < numBytes && RoundedBytes(numBytes) <= A.memoryLimit
    ensures outcome == Ignored
    ensures ptr != 0 ==> 0 in UsedMap(A.chunks, A.live) && UsedMap(A.chunks, A.live)[0].ptr == ptr && A.bytesInUse > 0
  {
    NoRegionsYet(A);
    ghost var h, m;
    ptr, h, m := A.AllocateRaw(numBytes, willing1, willing2);
    if ptr != 0 {
      assert UsedMap(A.chunks, A.live).Keys == {h};
      PointerToHandle(A, 0);
    }
    outcome := Ignored;
    if ptr != 0 {
      outcome := A.DeallocateRaw(ptr);
      SumPositive(A.chunks, 0);
      assert ChunkOk(A.H(), 0);
    }
  }

  // ---------- The first region ----------

  /**
    Without growth the first allocation takes the whole limit, and no request for a region can succeed as long as
    that region is kept. With growth it takes the least doubling of 2 MiB, or of a smaller limit, that holds the
    request, or all that the limit allows.
   */
  method FirstRegion(totalMemory: nat, allowGrowth: bool, collectGarbage: bool, coalesce: bool, fraction: real,
                     numBytes: nat, willing1: bool, willing2: bool)
    returns (A: BfcAllocator, ptr: nat)
    requires totalMemory == 0 || fraction <= 0.0 || fraction * totalMemory as real >= 1.0
    ensures fresh(A) && A.Valid() && A.memoryLimit == totalMemory
    ensures ptr != 0 ==>
              if allowGrowth then GrowsTo(A.totalRegionAllocatedBytes, totalMemory, numBytes)
              else A.totalRegionAllocatedBytes == totalMemory - totalMemory % 256
  {
    A := new BfcAllocator(totalMemory, allowGrowth, collectGarbage, coalesce, fraction);
    ghost var first := A.currRegionAllocationBytes;
    ptr := FirstGrant(A, numBytes, willing1, willing2);
    if ptr != 0 {
      FirstTotal(totalMemory, allowGrowth, first, numBytes);
    }
  }

  method FirstGrant(A: BfcAllocator, numBytes: nat, willing1: bool, willing2: bool) returns (ptr: nat)
    requires A.Valid() && A.chunks == []
    modifies A
    ensures A.Valid()
    ensures ptr != 0 ==>
              && 0 < numBytes && RoundedBytes(numBytes) <= A.memoryLimit && old(A.currRegionAllocationBytes) > 0
              && A.totalRegionAllocatedBytes ==
                   Min(GrownSize(old(A.currRegionAllocationBytes), RoundedBytes(numBytes)), A.memoryLimit / 256 * 256)
  {
    NoRegionsYet(A);
    ghost var h, m;
    ptr, h, m := A.AllocateRaw(numBytes, willing1, willing2);
  }

  /** The least doubling of the first size, or that size itself, that holds the request. */
  ghost predicate LeastDoubling(size: nat, first: nat, request: nat) {
    exists k: nat {:trigger Pow2(k)} ::
      size == Pow2(k) * first && request <= size && (k > 0 ==> Pow2(k - 1) * first < RoundedBytes(request))
  }

  /** The least doubling of 2 MiB, or of a smaller limit, that holds the request; all of the limit if that is less. */
  ghost predicate GrowsTo(total: nat, limit: nat, request: nat) {
    exists size: nat {:trigger LeastDoubling(size, RoundedBytes(Min(limit, 0x20_0000)), request)} ::
      && LeastDoubling(size, RoundedBytes(Min(limit, 0x20_0000)), request)
      && total == (if size < limit - limit % 256 then size else limit - limit % 256)
  }

  lemma TwicePow(k: nat, first: nat)
    ensures Pow2(k + 1) * first == 2 * (Pow2(k) * first)
  {
    var p := Pow2(k);
    assert (2 * p) * first == 2 * (p * first);
  }

  lemma GrownExactly(first: nat, request: nat)
    requires first > 0
    ensures LeastDoubling(GrownSize(first, RoundedBytes(request)), first, request)
  {
    var rounded := RoundedBytes(request);
    var k := GrownSizeIsDoubling(first, rounded);
    if k > 0 {
      TwicePow(k - 1, first);
      if rounded <= Pow2(k - 1) * first {
        GrownSizeLeast(first, rounded, k - 1);
        assert false;
      }
    }
  }

  lemma FirstTotal(limit: nat, allowGrowth: bool, first: nat, request: nat)
    requires first == if !allowGrowth || limit < 0x20_0000 then RoundedBytes(limit) else 0x20_0000
    requires 0 < request && RoundedBytes(request) <= limit
    ensures first > 0
    ensures var total := Min(GrownSize(first, RoundedBytes(request)), limit / 256 * 256);
            if allowGrowth then GrowsTo(total, limit, request) else total == limit - limit % 256
  {
    assert limit / 256 * 256 == limit - limit % 256;
    GrownExactly(first, request);
    assert allowGrowth ==> first == RoundedBytes(Min(limit, 0x20_0000));
  }

  /** Then every further request for a region is refused. */
  method FullLimitRefuses(A: BfcAllocator, roundedBytes: nat, willing: bool) returns (ok: bool)
    requires A.Valid() && A.totalRegionAllocatedBytes == A.memoryLimit - A.memoryLimit % 256
    requires 0 < roundedBytes && Aligned(roundedBytes)
    modifies A
    ensures !ok && A.totalRegionAllocatedBytes == old(A.totalRegionAllocatedBytes)
  {
    var grant;
    ok, grant := A.Extend(roundedBytes, willing);
  }

  // ---------- Best fit in numbers ----------

  /**
    The least free chunk f that holds the rounded request is handed out whole when the waste is below the request
    and below the tolerance; else exactly the rounded request is cut from its front.
   */
  method BestFitServed(A: BfcAllocator, f: int, numBytes: nat, r: nat, willing1: bool, willing2: bool,
                       ghost used: map<int, Block>, ghost free: map<int, Run>, ghost s: nat)
    returns (ptr: nat, ghost m: int)
    requires A.Valid() && used == UsedMap(A.chunks, A.live) && free == FreeMap(A.chunks, A.live)
    requires 0 < numBytes && r == RoundedBytes(numBytes) && BestFit(free, f, r) && s == free[f].size
    modifies A
    ensures A.Valid() && ptr == free[f].ptr
    ensures s < 2 * r && s - r < A.maxInternalFragmentation ==>
              && UsedMap(A.chunks, A.live) == used[f := Block(ptr, s, numBytes, old(A.nextAllocationId))]
              && FreeMap(A.chunks, A.live) == free - {f}
    ensures s >= 2 * r || s - r >= A.maxInternalFragmentation ==>
              && UsedMap(A.chunks, A.live) == used[f := Block(ptr, r, numBytes, old(A.nextAllocationId))]
              && m !in free && FreeMap(A.chunks, A.live) == (free - {f})[m := Run(ptr + r, s - r)]
  {
    ghost var h;
    ptr, h, m := A.AllocateRaw(numBytes, willing1, willing2);
    HandedInNumbers(old(A.chunks), old(A.live), A.chunks, A.live, f, m, r, numBytes, old(A.nextAllocationId),
                    A.maxInternalFragmentation, used, free, ptr, s);
  }

  // ---------- Splitting ----------

  /** Chunk h of a sound heap, which the split test cuts to n bytes, its rest going to record m. */
  ghost predicate Cut(H: Heap, h: int, m: int, n: nat, maxFragment: nat) {
    && Shape(H) && h in H.live && m !in H.live && 0 <= m < |H.cs| && ChunkOk(H, h) && NextOk(H, h)
    && !H.cs[h].InUse() && Aligned(n) && 0 < n <= H.cs[h].size
    && (H.cs[h].size >= 2 * n || H.cs[h].size - n >= maxFragment)
  }

  /** The address of the rest is a slot of a region, and none has a chunk there yet. */
  ghost predicate SlotIsFree(H: Heap, q: nat) {
    q in H.table && H.table[q].handle == NO_CHUNK
  }

  /** A cut inside a chunk falls on a free slot, where the rest can be recorded. */
  lemma InnerCut(H: Heap, h: int, m: int, n: nat, maxFragment: nat)
    requires Cut(H, h, m, n, maxFragment) && n < H.cs[h].size
    ensures SlotIsFree(H, H.cs[h].ptr + n)
  {
    var q := H.cs[h].ptr + n;
    assert SlotOk(H.table, H.cs[h].ptr);
    SlotWithin(H.table, H.cs[h].ptr, q);
    assert EntryOk(H, q);
    if H.table[q].handle != NO_CHUNK {
      StartsElsewhere(H, h, H.table[q].handle);
    }
  }

  lemma StartsElsewhere(H: Heap, h: int, g: int)
    requires Shape(H) && h in H.live && g in H.live && g != h
    ensures H.cs[g].ptr <= H.cs[h].ptr || H.cs[h].End() <= H.cs[g].ptr
  {
    assert ChunkOk(H, g) && Disjoint(H.cs[h], H.cs[g]);
  }

  /**
    An exact fit is cut at its end, and the rest has no slot of its own: the address is that of the next chunk,
    whose handle recording the rest overwrites, or the end of the region, for which its table has no slot.
   */
  lemma ExactCut(H: Heap, h: int, m: int, n: nat, maxFragment: nat)
    requires Cut(H, h, m, n, maxFragment) && n == H.cs[h].size
    ensures var c, q := H.cs[h], H.cs[h].ptr + n;
            && (c.next == NO_CHUNK ==> q == H.table[c.ptr].end)
            && (c.next != NO_CHUNK ==>
                  && q in H.table && H.table[q].base == H.table[c.ptr].base && H.table[q].handle == c.next
                  && !SlotIsFree(H, q))
  {
    if H.cs[h].next != NO_CHUNK {
      LayoutStep(H, h);
      assert ChunkOk(H, H.cs[h].next);
    }
  }

  /**
    The end of a region belongs to the next one if that starts there, whose first chunk then loses its entry; else no
    region has a slot for it, and after the last one no region is found at all.
   */
  lemma EndOfRegion(rs: seq<Region>, i: nat)
    requires RegionsOk(rs) && i < |rs|
    ensures UpperBound(rs, rs[i].End()) == i + 1
    ensures Covered(rs, rs[i].End()) <==> i + 1 < |rs| && rs[i + 1].ptr == rs[i].End()
  {
    forall j | 0 <= j < |rs|
      ensures rs[j].End() <= rs[i].End() <==> j <= i
    {
      assert rs[i].WellFormed() && rs[j].WellFormed();
      assert j < i ==> Before(rs[j], rs[i]);
      assert i < j ==> Before(rs[i], rs[j]);
    }
    UpperBoundUnique(rs, i + 1, rs[i].End());
    assert i + 1 < |rs| ==> Before(rs[i], rs[i + 1]);
  }

  /** A region of 256 bytes that is one free chunk, with a blank record beside it. */
  ghost function OneSlotHeap(): Heap {
    Heap([Chunk(256, 0, -1, 256, NO_CHUNK, NO_CHUNK, 0, 0), FreshChunk], imap[256 := Slot(256, 512, 0)], {0})
  }

  lemma OneSlotTable()
    ensures TableWf(OneSlotHeap().table)
  {
    var t := OneSlotHeap().table;
    assert forall p :: p in t ==> p == 256;
    assert SlotOk(t, 256);
    forall q | 256 <= q < 512 && Aligned(q - 256)
      ensures SameSpan(t, 256, q)
    {
      assert q == 256;
    }
  }

  lemma OneSlotShape()
    ensures Shape(OneSlotHeap())
  {
    var H := OneSlotHeap();
    OneSlotTable();
    assert forall p :: p in H.table ==> p == 256;
    assert H.table[256] == Slot(256, 512, 0);
    assert ChunkOk(H, 0) && NextOk(H, 0) && PrevOk(H, 0);
    assert EntryOk(H, 256) && StartOk(H, 256);
  }

  /**
    In every sound heap every split finds a free slot for its rest, exactly when the tolerated waste is positive:
    with none, an exact fit is cut too, at its end.
   */
  lemma SplitFindsSlot(maxFragment: nat)
    ensures (forall H, h, m, n {:trigger Cut(H, h, m, n, maxFragment)} ::
               Cut(H, h, m, n, maxFragment) ==> SlotIsFree(H, H.cs[h].ptr + n))
            <==> maxFragment > 0
  {
    if maxFragment == 0 {
      var H := OneSlotHeap();
      OneSlotShape();
      assert Cut(H, 0, 1, 256, 0) by {
        assert ChunkOk(H, 0) && NextOk(H, 0);
      }
      assert !SlotIsFree(H, H.cs[0].ptr + 256);
    } else {
      forall H, h, m, n | Cut(H, h, m, n, maxFragment)
        ensures SlotIsFree(H, H.cs[h].ptr + n)
      {
        InnerCut(H, h, m, n, maxFragment);
      }
    }
  }
}
