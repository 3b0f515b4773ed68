/**
  The chunk heap of the allocator: chunk records, the invariant that ties them to the regions,
  and the preservation lemmas for splitting, merging, growing and dropping.
 */
module BfcHeap {
  import opened BfcSizes
  import opened BfcTable

  /** allocId is -1 when the chunk is free; bin is -1 when it is in no bin. */
  datatype Chunk = Chunk(
    size: nat, requested: nat, allocId: int, ptr: nat, prev: int, next: int, bin: int, freedAt: nat)
  {
    predicate InUse() { allocId != -1 }
    function End(): nat { ptr + size }
  }

  const FreshChunk := Chunk(0, 0, -1, 0, NO_CHUNK, NO_CHUNK, -1, 0)

  /**
    The heap as the invariant sees it: the records, the table of all slots of all regions, and the
    set of handles whose records describe memory (the other records are recycled).
   */
  datatype Heap = Heap(cs: seq<Chunk>, table: Table, live: set<int>)

  ghost predicate ChunkOk(H: Heap, h: int)
    requires 0 <= h < |H.cs|
  {
    var c := H.cs[h];
    && c.size > 0 && Aligned(c.size) && c.freedAt == 0
    && c.ptr in H.table && c.End() <= H.table[c.ptr].end
    && H.table[c.ptr].handle == h
  }

  /** next is exactly the physical successor within the region. */
  ghost predicate NextOk(H: Heap, h: int)
    requires 0 <= h < |H.cs|
  {
    var c := H.cs[h];
    && c.ptr in H.table
    && if c.next == NO_CHUNK then c.End() == H.table[c.ptr].end
       else c.next in H.live && 0 <= c.next < |H.cs|
            && H.cs[c.next].ptr == c.End() && H.cs[c.next].prev == h && c.End() < H.table[c.ptr].end
  }

  /** prev is exactly the physical predecessor within the region. */
  ghost predicate PrevOk(H: Heap, h: int)
    requires 0 <= h < |H.cs|
  {
    var c := H.cs[h];
    && c.ptr in H.table
    && if c.prev == NO_CHUNK then c.ptr == H.table[c.ptr].base
       else c.prev in H.live && 0 <= c.prev < |H.cs|
            && H.cs[c.prev].End() == c.ptr && H.cs[c.prev].next == h && c.ptr > H.table[c.ptr].base
  }

  ghost predicate HandlesOk(H: Heap) {
    forall h :: h in H.live ==> 0 <= h < |H.cs|
  }

  ghost predicate Disjoint(c: Chunk, d: Chunk) {
    c.End() <= d.ptr || d.End() <= c.ptr
  }

  ghost predicate Apart(H: Heap)
    requires HandlesOk(H)
  {
    forall h, g {:trigger Disjoint(H.cs[h], H.cs[g])} ::
      h in H.live && g in H.live && h != g ==> Disjoint(H.cs[h], H.cs[g])
  }

  /** Every table entry that is set is the handle of the chunk starting at that slot. */
  ghost predicate EntryOk(H: Heap, p: nat)
    requires HandlesOk(H) && p in H.table
  {
    var h := H.table[p].handle;
    h == NO_CHUNK || (h in H.live && H.cs[h].ptr == p)
  }

  /** Every region begins with a chunk. */
  ghost predicate StartOk(H: Heap, p: nat)
    requires p in H.table
  {
    p == H.table[p].base ==> H.table[p].handle != NO_CHUNK
  }

  ghost predicate ChunksOk(H: Heap)
    requires HandlesOk(H)
  {
    forall h {:trigger ChunkOk(H, h)} :: h in H.live ==> ChunkOk(H, h)
  }

  ghost predicate LinksOk(H: Heap)
    requires HandlesOk(H)
  {
    && (forall h {:trigger NextOk(H, h)} :: h in H.live ==> NextOk(H, h))
    && (forall h {:trigger PrevOk(H, h)} :: h in H.live ==> PrevOk(H, h))
  }

  ghost predicate EntriesOk(H: Heap)
    requires HandlesOk(H)
  {
    && (forall p {:trigger EntryOk(H, p)} :: p in H.table ==> EntryOk(H, p))
    && (forall p {:trigger StartOk(H, p)} :: p in H.table ==> StartOk(H, p))
  }

  /** Chunks tile every region, links are physical adjacency, and the tables index chunk starts. */
  ghost predicate Shape(H: Heap) {
    TableWf(H.table) && HandlesOk(H) && ChunksOk(H) && LinksOk(H) && Apart(H) && EntriesOk(H)
  }

  // ---------- Changes that do not move memory ----------

  ghost predicate SamePlace(c: Chunk, d: Chunk) {
    c.size == d.size && c.ptr == d.ptr && c.prev == d.prev && c.next == d.next && c.freedAt == d.freedAt
  }

  lemma ShapeFrame(H: Heap, H': Heap)
    requires Shape(H)
    requires H'.table == H.table && H'.live == H.live && |H'.cs| >= |H.cs|
    requires forall h :: h in H.live ==> SamePlace(H.cs[h], H'.cs[h])
    ensures Shape(H')
  {
    assert HandlesOk(H');
    forall h | h in H'.live
      ensures ChunkOk(H', h) && NextOk(H', h) && PrevOk(H', h)
    {
      assert ChunkOk(H, h) && NextOk(H, h) && PrevOk(H, h);
    }
    forall h, g | h in H'.live && g in H'.live && h != g
      ensures Disjoint(H'.cs[h], H'.cs[g])
    {
      assert Disjoint(H.cs[h], H.cs[g]);
    }
    forall p | p in H'.table
      ensures EntryOk(H', p) && StartOk(H', p)
    {
      assert EntryOk(H, p) && StartOk(H, p);
    }
  }

  // ---------- Splitting ----------

  function SplitChunks(cs: seq<Chunk>, h: int, m: int, n: nat): (r: seq<Chunk>)
    requires 0 <= h < |cs| && 0 <= m < |cs| && h != m && n <= cs[h].size
    requires cs[h].next == NO_CHUNK || 0 <= cs[h].next < |cs|
    ensures |r| == |cs|
  {
    var c := cs[h];
    var r := cs[m := cs[m].(ptr := c.ptr + n, size := c.size - n, allocId := -1,
                            freedAt := c.freedAt, prev := h, next := c.next)]
               [h := c.(size := n, next := m)];
    if c.next == NO_CHUNK then r else r[c.next := r[c.next].(prev := m)]
  }

  ghost predicate CanSplit(H: Heap, h: int, m: int, n: nat) {
    && Shape(H) && h in H.live && m !in H.live && 0 <= m < |H.cs|
    && 0 < n < H.cs[h].size && Aligned(n)
    && ChunkOk(H, h) && NextOk(H, h) && PrevOk(H, h)
  }

  ghost function SplitHeap(H: Heap, h: int, m: int, n: nat): (r: Heap)
    requires CanSplit(H, h, m, n)
    ensures HandlesOk(r)
  {
    var q := H.cs[h].ptr + n;
    Heap(SplitChunks(H.cs, h, m, n), WithHandle(H.table, q, m), H.live + {m})
  }

  lemma SplitChunksOk(H: Heap, h: int, m: int, n: nat)
    requires CanSplit(H, h, m, n)
    ensures ChunksOk(SplitHeap(H, h, m, n))
  {
    var H' := SplitHeap(H, h, m, n);
    var p, q := H.cs[h].ptr, H.cs[h].ptr + n;
    SlotWithin(H.table, p, q);
    forall x | x in H'.live
      ensures ChunkOk(H', x)
    {
      if x != m && x != h {
        assert ChunkOk(H, x) && Disjoint(H.cs[h], H.cs[x]);
      }
    }
  }

  lemma SplitLinksOk(H: Heap, h: int, m: int, n: nat)
    requires CanSplit(H, h, m, n)
    ensures LinksOk(SplitHeap(H, h, m, n))
  {
    var H' := SplitHeap(H, h, m, n);
    SlotWithin(H.table, H.cs[h].ptr, H.cs[h].ptr + n);
    forall x | x in H'.live
      ensures NextOk(H', x)
    {
      SplitNextOk(H, h, m, n, x);
    }
    forall x | x in H'.live
      ensures PrevOk(H', x)
    {
      SplitPrevOk(H, h, m, n, x);
    }
  }

  lemma SplitNextOk(H: Heap, h: int, m: int, n: nat, x: int)
    requires CanSplit(H, h, m, n) && x in SplitHeap(H, h, m, n).live
    ensures NextOk(SplitHeap(H, h, m, n), x)
  {
    SlotWithin(H.table, H.cs[h].ptr, H.cs[h].ptr + n);
    if x != m {
      assert NextOk(H, x);
    }
  }

  lemma SplitPrevOk(H: Heap, h: int, m: int, n: nat, x: int)
    requires CanSplit(H, h, m, n) && x in SplitHeap(H, h, m, n).live
    ensures PrevOk(SplitHeap(H, h, m, n), x)
  {
    SlotWithin(H.table, H.cs[h].ptr, H.cs[h].ptr + n);
    if x != m {
      assert PrevOk(H, x);
    }
  }

  lemma SplitApart(H: Heap, h: int, m: int, n: nat)
    requires CanSplit(H, h, m, n)
    ensures Apart(SplitHeap(H, h, m, n))
  {
    var H' := SplitHeap(H, h, m, n);
    forall x, y | x in H'.live && y in H'.live && x != y
      ensures Disjoint(H'.cs[x], H'.cs[y])
    {
      if x != m && y != m {
        assert Disjoint(H.cs[x], H.cs[y]);
      } else if x != h && y != h {
        assert Disjoint(H.cs[h], H.cs[if x == m then y else x]);
      }
    }
  }

  lemma SplitEntriesOk(H: Heap, h: int, m: int, n: nat)
    requires CanSplit(H, h, m, n)
    ensures EntriesOk(SplitHeap(H, h, m, n))
  {
    var H' := SplitHeap(H, h, m, n);
    forall r | r in H'.table
      ensures EntryOk(H', r) && StartOk(H', r)
    {
      assert EntryOk(H, r) && StartOk(H, r);
    }
  }

  lemma SplitShape(H: Heap, h: int, m: int, n: nat)
    requires CanSplit(H, h, m, n)
    ensures Shape(SplitHeap(H, h, m, n))
  {
    WithHandleWf(H.table, H.cs[h].ptr + n, m);
    SplitChunksOk(H, h, m, n);
    SplitLinksOk(H, h, m, n);
    SplitApart(H, h, m, n);
    SplitEntriesOk(H, h, m, n);
  }

  // ---------- Merging ----------

  function Max(a: nat, b: nat): (r: nat)
    ensures a <= r && b <= r && (r == a || r == b)
  {
    if a < b then b else a
  }

  /** The second chunk's memory joins the first; its record is handed back with any contents. */
  function MergeChunks(cs: seq<Chunk>, h1: int, h2: int): (r: seq<Chunk>)
    requires 0 <= h1 < |cs| && 0 <= h2 < |cs| && h1 != h2
    requires cs[h2].next == NO_CHUNK || 0 <= cs[h2].next < |cs|
    ensures |r| == |cs|
  {
    var h3 := cs[h2].next;
    var r := cs[h1 := cs[h1].(next := h3)];
    var r := if h3 == NO_CHUNK then r else r[h3 := r[h3].(prev := h1)];
    r[h1 := r[h1].(size := r[h1].size + r[h2].size, freedAt := Max(r[h1].freedAt, r[h2].freedAt))]
  }

  ghost predicate CanMerge(H: Heap, h1: int, h2: int) {
    && Shape(H) && h1 in H.live && h2 in H.live && H.cs[h1].next == h2
    && ChunkOk(H, h1) && NextOk(H, h1) && PrevOk(H, h1)
    && ChunkOk(H, h2) && NextOk(H, h2) && PrevOk(H, h2)
    && h1 != h2 && (H.cs[h2].next != NO_CHUNK ==> ChunkOk(H, H.cs[h2].next))
    && H.table[H.cs[h1].ptr].base == H.table[H.cs[h2].ptr].base
    && H.table[H.cs[h1].ptr].end == H.table[H.cs[h2].ptr].end
  }

  /** Everything a merge relies on follows from the invariant and the link. */
  lemma MergeReady(H: Heap, h1: int, h2: int)
    requires Shape(H) && h1 in H.live && H.cs[h1].next == h2 && h2 != NO_CHUNK
    ensures CanMerge(H, h1, h2)
  {
    assert ChunkOk(H, h1) && NextOk(H, h1) && PrevOk(H, h1);
    assert ChunkOk(H, h2) && NextOk(H, h2) && PrevOk(H, h2);
    assert SlotOk(H.table, H.cs[h1].ptr) && SlotOk(H.table, H.cs[h2].ptr);
    var h3 := H.cs[h2].next;
    if h3 != NO_CHUNK {
      assert ChunkOk(H, h3);
    }
    SlotWithin(H.table, H.cs[h1].ptr, H.cs[h2].ptr);
  }

  ghost function MergeHeap(H: Heap, h1: int, h2: int): (r: Heap)
    requires CanMerge(H, h1, h2)
    ensures HandlesOk(r)
  {
    Heap(MergeChunks(H.cs, h1, h2), WithHandle(H.table, H.cs[h2].ptr, NO_CHUNK), H.live - {h2})
  }

  lemma MergeChunksOk(H: Heap, h1: int, h2: int)
    requires CanMerge(H, h1, h2)
    ensures ChunksOk(MergeHeap(H, h1, h2))
  {
    var H' := MergeHeap(H, h1, h2);
    forall x | x in H'.live
      ensures ChunkOk(H', x)
    {
      assert ChunkOk(H, x);
    }
  }

  lemma MergeNextOk(H: Heap, h1: int, h2: int, x: int)
    requires CanMerge(H, h1, h2) && x in MergeHeap(H, h1, h2).live
    ensures NextOk(MergeHeap(H, h1, h2), x)
  {
    assert NextOk(H, x) && ChunkOk(H, x);
  }

  lemma MergePrevOk(H: Heap, h1: int, h2: int, x: int)
    requires CanMerge(H, h1, h2) && x in MergeHeap(H, h1, h2).live
    ensures PrevOk(MergeHeap(H, h1, h2), x)
  {
    assert PrevOk(H, x) && ChunkOk(H, x);
  }

  lemma MergeLinksOk(H: Heap, h1: int, h2: int)
    requires CanMerge(H, h1, h2)
    ensures LinksOk(MergeHeap(H, h1, h2))
  {
    var H' := MergeHeap(H, h1, h2);
    forall x | x in H'.live
      ensures NextOk(H', x)
    {
      MergeNextOk(H, h1, h2, x);
    }
    forall x | x in H'.live
      ensures PrevOk(H', x)
    {
      MergePrevOk(H, h1, h2, x);
    }
  }

  lemma MergeApart(H: Heap, h1: int, h2: int)
    requires CanMerge(H, h1, h2)
    ensures Apart(MergeHeap(H, h1, h2))
  {
    var H' := MergeHeap(H, h1, h2);
    forall x, y | x in H'.live && y in H'.live && x != y
      ensures Disjoint(H'.cs[x], H'.cs[y])
    {
      assert Disjoint(H.cs[x], H.cs[y]) && ChunkOk(H, x) && ChunkOk(H, y);
      if x == h1 || y == h1 {
        assert Disjoint(H.cs[h2], H.cs[if x == h1 then y else x]);
      }
    }
  }

  lemma MergeEntriesOk(H: Heap, h1: int, h2: int)
    requires CanMerge(H, h1, h2)
    ensures EntriesOk(MergeHeap(H, h1, h2))
  {
    var H' := MergeHeap(H, h1, h2);
    assert SlotOk(H.table, H.cs[h1].ptr);
    forall r | r in H'.table
      ensures EntryOk(H', r) && StartOk(H', r)
    {
      assert EntryOk(H, r) && StartOk(H, r);
    }
  }

  lemma MergeShape(H: Heap, h1: int, h2: int)
    requires CanMerge(H, h1, h2)
    ensures Shape(MergeHeap(H, h1, h2))
  {
    WithHandleWf(H.table, H.cs[h2].ptr, NO_CHUNK);
    MergeChunksOk(H, h1, h2);
    MergeLinksOk(H, h1, h2);
    MergeApart(H, h1, h2);
    MergeEntriesOk(H, h1, h2);
  }

  // ---------- Growing ----------

  /** Chunk m is the only one of a new span, or follows last at the end of an extended span. */
  ghost predicate CanAdd(H: Heap, m: int, last: int, p: nat, size: nat) {
    && Shape(H) && 0 <= m < |H.cs| && m !in H.live
    && CanGrow(H.table, AddBase(H, last, p), p, size)
    && (last != NO_CHUNK ==>
          last in H.live && H.cs[last].next == NO_CHUNK && ChunkOk(H, last) && H.cs[last].End() == p)
    && H.cs[m].ptr == p && H.cs[m].size == size && H.cs[m].freedAt == 0
    && H.cs[m].prev == NO_CHUNK && H.cs[m].next == NO_CHUNK
  }

  ghost function AddBase(H: Heap, last: int, p: nat): nat {
    if last in H.live && 0 <= last < |H.cs| && H.cs[last].ptr in H.table then H.table[H.cs[last].ptr].base
    else p
  }

  function AddChunks(cs: seq<Chunk>, m: int, last: int): (r: seq<Chunk>)
    requires 0 <= m < |cs| && (last == NO_CHUNK || (0 <= last < |cs| && last != m))
    ensures |r| == |cs|
  {
    if last == NO_CHUNK then cs else cs[m := cs[m].(prev := last)][last := cs[last].(next := m)]
  }

  ghost function AddHeap(H: Heap, m: int, last: int, p: nat, size: nat): (r: Heap)
    requires CanAdd(H, m, last, p, size)
    ensures HandlesOk(r)
  {
    Heap(AddChunks(H.cs, m, last),
         WithHandle(GrownTable(H.table, AddBase(H, last, p), p, size), p, m), H.live + {m})
  }

  lemma AddSlots(H: Heap, m: int, last: int, p: nat, size: nat, x: int)
    requires CanAdd(H, m, last, p, size) && x in H.live
    ensures ChunkOk(H, x) && H.cs[x].ptr != p
    ensures H.table[H.cs[x].ptr].base == AddBase(H, last, p) ==> last != NO_CHUNK && H.table[H.cs[x].ptr].end == p
    ensures H.cs[x].End() <= p || p + size <= H.cs[x].ptr
  {
    assert ChunkOk(H, x);
    SpanOf(H.table, H.cs[x].ptr);
    assert SlotOk(H.table, H.cs[x].ptr);
    if last != NO_CHUNK {
      SpanOf(H.table, H.cs[last].ptr);
    }
  }

  lemma AddChunksOk(H: Heap, m: int, last: int, p: nat, size: nat)
    requires CanAdd(H, m, last, p, size)
    ensures ChunksOk(AddHeap(H, m, last, p, size))
  {
    assert p in H.table ==> SlotOk(H.table, p);
    var H' := AddHeap(H, m, last, p, size);
    forall x | x in H'.live
      ensures ChunkOk(H', x)
    {
      if x != m {
        AddSlots(H, m, last, p, size, x);
      }
    }
  }

  lemma AddNextOk(H: Heap, m: int, last: int, p: nat, size: nat, x: int)
    requires CanAdd(H, m, last, p, size) && x in AddHeap(H, m, last, p, size).live
    ensures NextOk(AddHeap(H, m, last, p, size), x)
  {
    assert p in H.table ==> SlotOk(H.table, p);
    if x != m {
      AddSlots(H, m, last, p, size, x);
      assert NextOk(H, x);
      if last != NO_CHUNK && x != last {
        assert Disjoint(H.cs[x], H.cs[last]);
      }
    }
  }

  lemma AddPrevOk(H: Heap, m: int, last: int, p: nat, size: nat, x: int)
    requires CanAdd(H, m, last, p, size) && x in AddHeap(H, m, last, p, size).live
    ensures PrevOk(AddHeap(H, m, last, p, size), x)
  {
    assert p in H.table ==> SlotOk(H.table, p);
    if x != m {
      AddSlots(H, m, last, p, size, x);
      assert PrevOk(H, x);
    } else if last != NO_CHUNK {
      assert SlotOk(H.table, H.cs[last].ptr);
    }
  }

  lemma AddLinksOk(H: Heap, m: int, last: int, p: nat, size: nat)
    requires CanAdd(H, m, last, p, size)
    ensures LinksOk(AddHeap(H, m, last, p, size))
  {
    var H' := AddHeap(H, m, last, p, size);
    forall x | x in H'.live
      ensures NextOk(H', x)
    {
      AddNextOk(H, m, last, p, size, x);
    }
    forall x | x in H'.live
      ensures PrevOk(H', x)
    {
      AddPrevOk(H, m, last, p, size, x);
    }
  }

  lemma AddApart(H: Heap, m: int, last: int, p: nat, size: nat)
    requires CanAdd(H, m, last, p, size)
    ensures Apart(AddHeap(H, m, last, p, size))
  {
    var H' := AddHeap(H, m, last, p, size);
    forall x, y | x in H'.live && y in H'.live && x != y
      ensures Disjoint(H'.cs[x], H'.cs[y])
    {
      if x != m && y != m {
        assert Disjoint(H.cs[x], H.cs[y]);
      } else {
        AddSlots(H, m, last, p, size, if x == m then y else x);
      }
    }
  }

  lemma AddEntriesOk(H: Heap, m: int, last: int, p: nat, size: nat)
    requires CanAdd(H, m, last, p, size)
    ensures EntriesOk(AddHeap(H, m, last, p, size))
  {
    var H' := AddHeap(H, m, last, p, size);
    assert p in H.table ==> SlotOk(H.table, p);
    forall r | r in H'.table
      ensures EntryOk(H', r) && StartOk(H', r)
    {
      if r in H.table {
        assert EntryOk(H, r) && StartOk(H, r);
      }
    }
  }

  lemma AddShape(H: Heap, m: int, last: int, p: nat, size: nat)
    requires CanAdd(H, m, last, p, size)
    ensures Shape(AddHeap(H, m, last, p, size))
  {
    GrownTableWf(H.table, AddBase(H, last, p), p, size);
    WithHandleWf(GrownTable(H.table, AddBase(H, last, p), p, size), p, m);
    AddChunksOk(H, m, last, p, size);
    AddLinksOk(H, m, last, p, size);
    AddApart(H, m, last, p, size);
    AddEntriesOk(H, m, last, p, size);
  }

  // ---------- Dropping a region ----------

  ghost predicate InSpan(H: Heap, h: int, base: nat) {
    h in H.live && 0 <= h < |H.cs| && H.cs[h].ptr in H.table && H.table[H.cs[h].ptr].base == base
  }

  ghost function DropHeap(H: Heap, base: nat): (r: Heap)
    requires HandlesOk(H)
    ensures HandlesOk(r)
  {
    Heap(H.cs, DroppedTable(H.table, base), set h | h in H.live && !InSpan(H, h, base))
  }

  lemma DropShape(H: Heap, base: nat)
    requires Shape(H)
    ensures Shape(DropHeap(H, base))
  {
    var H' := DropHeap(H, base);
    DroppedTableWf(H.table, base);
    forall x | x in H'.live
      ensures ChunkOk(H', x)
    {
      assert ChunkOk(H, x);
    }
    forall x | x in H'.live
      ensures NextOk(H', x) && PrevOk(H', x)
    {
      DropLinks(H, base, x);
    }
    forall x, y | x in H'.live && y in H'.live && x != y
      ensures Disjoint(H'.cs[x], H'.cs[y])
    {
      assert Disjoint(H.cs[x], H.cs[y]);
    }
    forall r | r in H'.table
      ensures EntryOk(H', r) && StartOk(H', r)
    {
      assert EntryOk(H, r) && StartOk(H, r);
    }
  }

  lemma DropLinks(H: Heap, base: nat, x: int)
    requires Shape(H) && x in DropHeap(H, base).live
    ensures NextOk(DropHeap(H, base), x) && PrevOk(DropHeap(H, base), x)
  {
    assert ChunkOk(H, x) && NextOk(H, x) && PrevOk(H, x);
    var c := H.cs[x];
    assert SlotOk(H.table, c.ptr);
    if c.next != NO_CHUNK {
      assert ChunkOk(H, c.next) && SlotOk(H.table, H.cs[c.next].ptr);
      SlotWithin(H.table, c.ptr, H.cs[c.next].ptr);
    }
    if c.prev != NO_CHUNK {
      PrevSpan(H, x);
    }
  }

  lemma PrevSpan(H: Heap, x: int)
    requires Shape(H) && x in H.live && H.cs[x].prev != NO_CHUNK
    ensures PrevOk(H, x)
    ensures InSpan(H, H.cs[x].prev, H.table[H.cs[x].ptr].base)
  {
    var p := H.cs[x].prev;
    assert PrevOk(H, x) && ChunkOk(H, x);
    assert ChunkOk(H, p) && NextOk(H, p);
    assert SlotOk(H.table, H.cs[p].ptr);
    SlotWithin(H.table, H.cs[p].ptr, H.cs[x].ptr);
  }
}
