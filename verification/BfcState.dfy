/** The part of the allocator's invariant that speaks of tags, neighbours, identifiers and waste. */
module BfcState {
  import opened BfcSizes
  import opened BfcTable
  import opened BfcRegions
  import opened BfcHeap
  import opened BfcBins

  /** One live allocation as its caller knows it. */
  datatype Block = Block(ptr: nat, size: nat, requested: nat, id: int)

  /** One free chunk. */
  datatype Run = Run(ptr: nat, size: nat)

  // Maps are described, and then chosen: of comprehensions the verifier also compares the values outside the keys.

  ghost predicate AreUsed(m: map<int, Block>, cs: seq<Chunk>, live: set<int>) {
    && m.Keys == (set h | h in live && 0 <= h < |cs| && cs[h].InUse())
    && (forall h :: h in m ==> m[h] == Block(cs[h].ptr, cs[h].size, cs[h].requested, cs[h].allocId))
  }

  ghost predicate AreFree(m: map<int, Run>, cs: seq<Chunk>, live: set<int>) {
    && m.Keys == (set h | h in live && 0 <= h < |cs| && !cs[h].InUse())
    && (forall h :: h in m ==> m[h] == Run(cs[h].ptr, cs[h].size))
  }

  lemma UsedExist(cs: seq<Chunk>, live: set<int>)
    ensures exists m :: AreUsed(m, cs, live)
  {
    assert AreUsed(map h | h in live && 0 <= h < |cs| && cs[h].InUse() ::
                     Block(cs[h].ptr, cs[h].size, cs[h].requested, cs[h].allocId), cs, live);
  }

  lemma FreeExist(cs: seq<Chunk>, live: set<int>)
    ensures exists m :: AreFree(m, cs, live)
  {
    assert AreFree(map h | h in live && 0 <= h < |cs| && !cs[h].InUse() :: Run(cs[h].ptr, cs[h].size), cs, live);
  }

  /** The allocations: the live chunks in use. */
  ghost function UsedMap(cs: seq<Chunk>, live: set<int>): (m: map<int, Block>)
    ensures AreUsed(m, cs, live)
  {
    UsedExist(cs, live);
    var m :| AreUsed(m, cs, live);
    m
  }

  /** The live chunks not in use. */
  ghost function FreeMap(cs: seq<Chunk>, live: set<int>): (m: map<int, Run>)
    ensures AreFree(m, cs, live)
  {
    FreeExist(cs, live);
    var m :| AreFree(m, cs, live);
    m
  }

  /** Address a lies in a free chunk. */
  ghost predicate FreeByte(cs: seq<Chunk>, live: set<int>, a: nat) {
    exists h :: h in FreeMap(cs, live)
      && FreeMap(cs, live)[h].ptr <= a < FreeMap(cs, live)[h].ptr + FreeMap(cs, live)[h].size
  }

  /** The same allocations, and the same free bytes. */
  ghost predicate Kept(cs: seq<Chunk>, live: set<int>, cs': seq<Chunk>, live': set<int>) {
    && UsedMap(cs', live') == UsedMap(cs, live)
    && forall a: nat :: FreeByte(cs', live', a) <==> FreeByte(cs, live, a)
  }

  /** The same allocations, and n more free bytes from p on. */
  ghost predicate Gained(cs: seq<Chunk>, live: set<int>, cs': seq<Chunk>, live': set<int>, p: nat, n: nat) {
    && UsedMap(cs', live') == UsedMap(cs, live)
    && forall a: nat :: FreeByte(cs', live', a) <==> FreeByte(cs, live, a) || p <= a < p + n
  }

  lemma GainedKept(cs: seq<Chunk>, live: set<int>, cs1: seq<Chunk>, live1: set<int>, cs2: seq<Chunk>, live2: set<int>,
                   p: nat, n: nat)
    requires Gained(cs, live, cs1, live1, p, n) && Kept(cs1, live1, cs2, live2)
    ensures Gained(cs, live, cs2, live2, p, n)
  {
  }

  /** A chunk carries the bin of its size when free, and no bin when in use. */
  predicate TagOk(c: Chunk) {
    c.bin == if c.InUse() then -1 else BinNumForSize(c.size)
  }

  /** Every live chunk but x is tagged as it should be. */
  ghost predicate Tagged(cs: seq<Chunk>, live: set<int>, x: int) {
    forall h {:trigger TagOk(cs[h])} :: h in live && 0 <= h < |cs| && h != x ==> TagOk(cs[h])
  }

  ghost predicate LinkIn(cs: seq<Chunk>, live: set<int>, g: int)
    requires 0 <= g < |cs|
  {
    cs[g].next == NO_CHUNK || (cs[g].next in live && 0 <= cs[g].next < |cs|)
  }

  /** Links lead from live chunks to live chunks. */
  ghost predicate LinksIn(cs: seq<Chunk>, live: set<int>) {
    forall g {:trigger LinkIn(cs, live, g)} :: g in live && 0 <= g < |cs| ==> LinkIn(cs, live, g)
  }

  ghost predicate Parted(cs: seq<Chunk>, h: int)
    requires 0 <= h < |cs|
  {
    0 <= cs[h].next < |cs| ==> cs[h].InUse() || cs[cs[h].next].InUse()
  }

  /** No two neighbours are both free, except that x may have a free neighbour. */
  ghost predicate Separated(cs: seq<Chunk>, live: set<int>, x: int) {
    forall h {:trigger Parted(cs, h)} ::
      h in live && 0 <= h < |cs| && h != x && (cs[h].next != x || x == NO_CHUNK) ==> Parted(cs, h)
  }

  /** Enough is split off that the waste is below the request and below the threshold. */
  predicate FitOk(b: Block, maxFragment: nat) {
    && b.requested > 0
    && (b.size == RoundedBytes(b.requested)
        || (RoundedBytes(b.requested) < b.size < 2 * RoundedBytes(b.requested)
            && b.size - RoundedBytes(b.requested) < maxFragment))
  }

  ghost predicate FitsOk(used: map<int, Block>, maxFragment: nat) {
    forall h {:trigger used[h]} :: h in used ==> FitOk(used[h], maxFragment)
  }

  /** Allocation identifiers in use are distinct, positive and below the next one. */
  ghost predicate IdsOk(used: map<int, Block>, next: nat) {
    && (forall h {:trigger used[h]} :: h in used ==> 1 <= used[h].id < next)
    && (forall h, g {:trigger used[h], used[g]} :: h in used && g in used && h != g ==> used[h].id != used[g].id)
  }

  ghost predicate SameSpans(rs: seq<Region>, rs': seq<Region>) {
    && |rs'| == |rs|
    && forall i :: 0 <= i < |rs| ==> rs'[i].ptr == rs[i].ptr && rs'[i].size == rs[i].size
  }

  /** From cs to cs', chunk h was cut to n bytes and m became the free rest; nothing else moved. */
  ghost predicate SplitResult(cs: seq<Chunk>, cs': seq<Chunk>, live: set<int>, h: int, m: int, n: nat) {
    && 0 <= h < |cs| <= |cs'| && 0 <= m < |cs'| && n < cs[h].size
    && cs'[h] == cs[h].(size := n, next := m)
    && cs'[m].ptr == cs[h].ptr + n && cs'[m].size == cs[h].size - n && !cs'[m].InUse()
    && cs'[m].next == cs[h].next && cs'[m].prev == h && TagOk(cs'[m])
    && (forall g :: g in live && g != h && 0 <= g < |cs| ==> cs'[g] == cs[g].(prev := cs'[g].prev))
  }

  /** From cs to cs', chunk h2 was absorbed into h1; nothing else moved. */
  ghost predicate MergeResult(cs: seq<Chunk>, cs': seq<Chunk>, live: set<int>, h1: int, h2: int) {
    && |cs| == |cs'| && 0 <= h1 < |cs| && 0 <= h2 < |cs| && h1 != h2
    && cs'[h1] == cs[h1].(size := cs[h1].size + cs[h2].size, next := cs[h2].next, freedAt := 0)
    && (forall g :: g in live && g != h1 && g != h2 && 0 <= g < |cs| ==> cs'[g] == cs[g].(prev := cs'[g].prev))
  }

  // ---------- The structural invariant over plain values ----------

  /** The structure holds: tiling, links, tables, bins and the free list of records. */
  ghost predicate CoreOf(cs: seq<Chunk>, rs: seq<Region>, t: Table, bins: seq<seq<int>>, live: set<int>,
                         freeList: int, recycled: seq<int>)
  {
    && RegionsOk(rs) && Represents(rs, t) && Shape(Heap(cs, t, live))
    && ChainOk(cs, live, freeList, recycled)
    && BinsOk(cs, live, bins)
  }

  /** Growing the record vector by a blank record. */
  lemma AppendCore(cs: seq<Chunk>, rs: seq<Region>, t: Table, bins: seq<seq<int>>, live: set<int>, freeList: int,
                   recycled: seq<int>)
    requires CoreOf(cs, rs, t, bins, live, freeList, recycled)
    ensures CoreOf(cs + [FreshChunk], rs, t, bins, live, freeList, recycled)
    ensures |cs| !in live && |cs| !in recycled
    ensures SumInUse(cs + [FreshChunk]) == SumInUse(cs)
  {
    var cs' := cs + [FreshChunk];
    SumAppend(cs, FreshChunk);
    ChainMembers(cs, live, freeList, recycled);
    ChainFrame(cs, live, freeList, recycled, cs', live);
    ShapeFrame(Heap(cs, t, live), Heap(cs', t, live));
    BinsFrame(cs, live, bins, cs', live);
  }

  /** Rewriting a record that describes no memory and is on no list. */
  lemma LimboLists(cs: seq<Chunk>, bins: seq<seq<int>>, live: set<int>, freeList: int, recycled: seq<int>, h: int,
                   c: Chunk)
    requires ChainOk(cs, live, freeList, recycled) && BinsOk(cs, live, bins)
    requires 0 <= h < |cs| && h !in live && h !in recycled
    ensures ChainOk(cs[h := c], live, freeList, recycled) && BinsOk(cs[h := c], live, bins)
  {
    ChainFrame(cs, live, freeList, recycled, cs[h := c], live);
    BinsFrame(cs, live, bins, cs[h := c], live);
  }

  /** Rewriting a live record in place, given bins that fit the new record. */
  lemma LiveCore(cs: seq<Chunk>, rs: seq<Region>, t: Table, bins: seq<seq<int>>, live: set<int>, freeList: int,
                 recycled: seq<int>,
                 h: int, c: Chunk, bins': seq<seq<int>>)
    requires CoreOf(cs, rs, t, bins, live, freeList, recycled)
    requires h in live && 0 <= h < |cs| && SamePlace(cs[h], c)
    requires BinsOk(cs[h := c], live, bins')
    ensures CoreOf(cs[h := c], rs, t, bins', live, freeList, recycled)
  {
    ChainMembers(cs, live, freeList, recycled);
    ChainFrame(cs, live, freeList, recycled, cs[h := c], live);
    ShapeFrame(Heap(cs, t, live), Heap(cs[h := c], t, live));
  }

  ghost predicate SplitPre(cs: seq<Chunk>, rs: seq<Region>, t: Table, bins: seq<seq<int>>, live: set<int>,
                           freeList: int, recycled: seq<int>,
                           h: int, m: int, n: nat)
  {
    && CoreOf(cs, rs, t, bins, live, freeList, recycled)
    && h in live && 0 <= h < |cs| && !cs[h].InUse() && cs[h].bin == -1
    && 0 < n < cs[h].size && Aligned(n)
    && 0 <= m < |cs| && m !in live && m !in recycled && !cs[m].InUse() && cs[m].bin == -1
  }

  ghost predicate SplitShaped(cs: seq<Chunk>, live: set<int>, h: int, m: int, n: nat) {
    && 0 <= h < |cs| && 0 <= m < |cs| && h in live && m !in live && n < cs[h].size
    && !cs[h].InUse() && cs[h].bin == -1 && !cs[m].InUse() && cs[m].bin == -1
    && (cs[h].next == NO_CHUNK || (0 <= cs[h].next < |cs| && cs[h].next in live && cs[h].next != h))
  }

  lemma SplitBins(cs: seq<Chunk>, bins: seq<seq<int>>, live: set<int>, h: int, m: int, n: nat)
    requires SplitShaped(cs, live, h, m, n) && BinsOk(cs, live, bins)
    ensures BinsOk(SplitChunks(cs, h, m, n), live + {m}, bins)
  {
    BinsFrame(cs, live, bins, SplitChunks(cs, h, m, n), live + {m});
  }

  lemma SplitChain(cs: seq<Chunk>, live: set<int>, freeList: int, recycled: seq<int>, h: int, m: int, n: nat)
    requires SplitShaped(cs, live, h, m, n) && ChainOk(cs, live, freeList, recycled) && m !in recycled
    ensures ChainOk(SplitChunks(cs, h, m, n), live + {m}, freeList, recycled)
  {
    ChainFrame(cs, live, freeList, recycled, SplitChunks(cs, h, m, n), live + {m});
  }

  lemma SplitSum(cs: seq<Chunk>, live: set<int>, h: int, m: int, n: nat)
    requires SplitShaped(cs, live, h, m, n)
    ensures SumInUse(SplitChunks(cs, h, m, n)) == SumInUse(cs)
  {
    SumSame(cs, SplitChunks(cs, h, m, n));
  }

  lemma SplitReady(cs: seq<Chunk>, t: Table, live: set<int>, h: int, m: int, n: nat)
    requires Shape(Heap(cs, t, live))
    requires h in live && 0 <= h < |cs| && !cs[h].InUse() && cs[h].bin == -1
    requires 0 < n < cs[h].size && Aligned(n)
    requires 0 <= m < |cs| && m !in live && !cs[m].InUse() && cs[m].bin == -1
    ensures CanSplit(Heap(cs, t, live), h, m, n)
    ensures cs[h].ptr + n in t
    ensures SplitShaped(cs, live, h, m, n)
  {
    var H := Heap(cs, t, live);
    assert ChunkOk(H, h) && NextOk(H, h) && PrevOk(H, h);
    assert SlotOk(H.table, cs[h].ptr);
    SlotWithin(H.table, cs[h].ptr, cs[h].ptr + n);
  }

  lemma SplitTiling(cs: seq<Chunk>, t: Table, live: set<int>, h: int, m: int, n: nat)
    requires Shape(Heap(cs, t, live))
    requires h in live && 0 <= h < |cs| && !cs[h].InUse() && cs[h].bin == -1
    requires 0 < n < cs[h].size && Aligned(n)
    requires 0 <= m < |cs| && m !in live && !cs[m].InUse() && cs[m].bin == -1
    ensures cs[h].ptr + n in t
    ensures SplitShaped(cs, live, h, m, n)
    ensures Shape(Heap(SplitChunks(cs, h, m, n), WithHandle(t, cs[h].ptr + n, m), live + {m}))
  {
    SplitReady(cs, t, live, h, m, n);
    SplitShape(Heap(cs, t, live), h, m, n);
  }

  lemma SplitCore(cs: seq<Chunk>, rs: seq<Region>, t: Table, bins: seq<seq<int>>, live: set<int>, freeList: int,
                  recycled: seq<int>,
                  h: int, m: int, n: nat)
    requires SplitPre(cs, rs, t, bins, live, freeList, recycled, h, m, n)
    ensures SplitShaped(cs, live, h, m, n) && IsSlot(rs, cs[h].ptr + n)
    ensures CoreOf(SplitChunks(cs, h, m, n), SetHandle(rs, cs[h].ptr + n, m), WithHandle(t, cs[h].ptr + n, m),
                   bins, live + {m}, freeList, recycled)
    ensures SumInUse(SplitChunks(cs, h, m, n)) == SumInUse(cs)
  {
    SplitTiling(cs, t, live, h, m, n);
    RepresentsSetHandle(rs, t, cs[h].ptr + n, m);
    SplitChain(cs, live, freeList, recycled, h, m, n);
    SplitBins(cs, bins, live, h, m, n);
    SplitSum(cs, live, h, m, n);
  }

  /** Appending at most a blank record, splitting, and tagging the rest amounts to a split. */
  lemma SplitSummary(cs0: seq<Chunk>, cs: seq<Chunk>, cs': seq<Chunk>, live: set<int>, h: int, m: int, n: nat)
    requires cs == cs0 || cs == cs0 + [FreshChunk]
    requires SplitShaped(cs, live, h, m, n) && h < |cs0| && m < |cs|
    requires |cs'| == |cs| && cs' == SplitChunks(cs, h, m, n)[m := cs'[m]]
    requires cs'[m] == SplitChunks(cs, h, m, n)[m].(bin := BinNumForSize(cs[h].size - n))
    ensures SplitResult(cs0, cs', live, h, m, n)
  {
  }

  ghost predicate MergePre(cs: seq<Chunk>, rs: seq<Region>, t: Table, bins: seq<seq<int>>, live: set<int>,
                           freeList: int, recycled: seq<int>,
                           h1: int, h2: int)
  {
    && CoreOf(cs, rs, t, bins, live, freeList, recycled)
    && h1 in live && 0 <= h1 < |cs| && h2 != NO_CHUNK && cs[h1].next == h2 && h2 in live && 0 <= h2 < |cs|
    && !cs[h1].InUse() && !cs[h2].InUse() && cs[h1].bin == -1 && cs[h2].bin == -1
  }

  ghost predicate MergeShaped(cs: seq<Chunk>, live: set<int>, h1: int, h2: int) {
    && 0 <= h1 < |cs| && 0 <= h2 < |cs| && h1 in live && h2 in live && h1 != h2
    && !cs[h1].InUse() && !cs[h2].InUse() && cs[h1].bin == -1 && cs[h2].bin == -1
    && (cs[h2].next == NO_CHUNK ||
        (0 <= cs[h2].next < |cs| && cs[h2].next in live && cs[h2].next != h1 && cs[h2].next != h2))
  }

  lemma MergeBins(cs: seq<Chunk>, bins: seq<seq<int>>, live: set<int>, h1: int, h2: int)
    requires MergeShaped(cs, live, h1, h2) && BinsOk(cs, live, bins)
    ensures BinsOk(MergeChunks(cs, h1, h2), live - {h2}, bins)
  {
    BinsFrame(cs, live, bins, MergeChunks(cs, h1, h2), live - {h2});
  }

  lemma MergeChain(cs: seq<Chunk>, live: set<int>, freeList: int, recycled: seq<int>, h1: int, h2: int)
    requires MergeShaped(cs, live, h1, h2) && ChainOk(cs, live, freeList, recycled)
    ensures ChainOk(MergeChunks(cs, h1, h2), live - {h2}, freeList, recycled)
    ensures h2 !in recycled
  {
    ChainMembers(cs, live, freeList, recycled);
    ChainFrame(cs, live, freeList, recycled, MergeChunks(cs, h1, h2), live - {h2});
  }

  lemma MergeSum(cs: seq<Chunk>, live: set<int>, h1: int, h2: int)
    requires MergeShaped(cs, live, h1, h2)
    ensures SumInUse(MergeChunks(cs, h1, h2)) == SumInUse(cs)
  {
    SumSame(cs, MergeChunks(cs, h1, h2));
  }

  lemma MergeLinks(cs: seq<Chunk>, t: Table, live: set<int>, h1: int, h2: int)
    requires Shape(Heap(cs, t, live))
    requires h1 in live && 0 <= h1 < |cs| && h2 != NO_CHUNK && cs[h1].next == h2 && h2 in live && 0 <= h2 < |cs|
    requires !cs[h1].InUse() && !cs[h2].InUse() && cs[h1].bin == -1 && cs[h2].bin == -1
    ensures CanMerge(Heap(cs, t, live), h1, h2)
    ensures cs[h2].ptr in t && cs[h1].freedAt == 0 && cs[h2].freedAt == 0
    ensures cs[h2].prev == h1 && cs[h2].ptr == cs[h1].End()
    ensures MergeShaped(cs, live, h1, h2)
  {
    MergeReady(Heap(cs, t, live), h1, h2);
  }

  lemma MergeCore(cs: seq<Chunk>, rs: seq<Region>, t: Table, bins: seq<seq<int>>, live: set<int>, freeList: int,
                  recycled: seq<int>,
                  h1: int, h2: int)
    requires MergePre(cs, rs, t, bins, live, freeList, recycled, h1, h2)
    ensures MergeShaped(cs, live, h1, h2) && cs[h1].freedAt == 0 && cs[h2].freedAt == 0
    ensures IsSlot(rs, cs[h2].ptr) && h2 !in recycled && cs[h2].ptr == cs[h1].End()
    ensures CoreOf(MergeChunks(cs, h1, h2), SetHandle(rs, cs[h2].ptr, NO_CHUNK), WithHandle(t, cs[h2].ptr, NO_CHUNK),
                   bins, live - {h2}, freeList, recycled)
    ensures SumInUse(MergeChunks(cs, h1, h2)) == SumInUse(cs)
  {
    MergeLinks(cs, t, live, h1, h2);
    RepresentsSetHandle(rs, t, cs[h2].ptr, NO_CHUNK);
    MergeShape(Heap(cs, t, live), h1, h2);
    MergeChain(cs, live, freeList, recycled, h1, h2);
    MergeBins(cs, bins, live, h1, h2);
    MergeSum(cs, live, h1, h2);
  }

  lemma MergeSummary(cs: seq<Chunk>, cs': seq<Chunk>, live: set<int>, h1: int, h2: int)
    requires MergeShaped(cs, live, h1, h2) && cs[h1].freedAt == 0 && cs[h2].freedAt == 0
    requires |cs'| == |cs| && cs' == MergeChunks(cs, h1, h2)[h2 := cs'[h2]]
    ensures MergeResult(cs, cs', live, h1, h2)
  {
  }

  // ---------- Absorbing a neighbour: unbinning one of two free chunks and merging them ----------

  ghost predicate Absorbs(cs: seq<Chunk>, cs': seq<Chunk>, live: set<int>, h1: int, h2: int, k: int) {
    && (k == h1 || k == h2) && 0 <= k < |cs|
    && 0 <= h1 < |cs| && 0 <= h2 < |cs| && h1 in live && h2 in live && h1 != h2
    && !cs[h1].InUse() && !cs[h2].InUse() && cs[h1].End() == cs[h2].ptr && cs[h2].prev == h1
    && MergeResult(cs[k := cs[k].(bin := -1)], cs', live, h1, h2)
  }

  lemma AbsorbTagged(cs: seq<Chunk>, cs': seq<Chunk>, live: set<int>, h1: int, h2: int, k: int, x: int)
    requires Absorbs(cs, cs', live, h1, h2, k) && Tagged(cs, live, x) && (x == h1 || x == h2) && x != k
    ensures Tagged(cs', live - {h2}, h1)
  {
    forall g | g in live - {h2} && 0 <= g < |cs'| && g != h1
      ensures TagOk(cs'[g])
    {
      assert TagOk(cs[g]);
    }
  }

  lemma AbsorbMaps(cs: seq<Chunk>, cs': seq<Chunk>, live: set<int>, h1: int, h2: int, k: int)
    requires Absorbs(cs, cs', live, h1, h2, k)
    ensures UsedMap(cs', live - {h2}) == UsedMap(cs, live)
    ensures h1 in FreeMap(cs, live) && h2 in FreeMap(cs, live)
    ensures FreeMap(cs', live - {h2}) ==
              (FreeMap(cs, live) - {h2})[h1 := Run(cs[h1].ptr, cs[h1].size + cs[h2].size)]
  {
  }

  lemma AbsorbBytes(cs: seq<Chunk>, cs': seq<Chunk>, live: set<int>, h1: int, h2: int, k: int, a: nat)
    requires Absorbs(cs, cs', live, h1, h2, k)
    ensures FreeByte(cs', live - {h2}, a) <==> FreeByte(cs, live, a)
  {
    AbsorbMaps(cs, cs', live, h1, h2, k);
    var f, f' := FreeMap(cs, live), FreeMap(cs', live - {h2});
    if FreeByte(cs, live, a) {
      var h :| h in f && f[h].ptr <= a < f[h].ptr + f[h].size;
      var g := if h == h2 then h1 else h;
      assert g in f' && f'[g].ptr <= a < f'[g].ptr + f'[g].size;
    }
    if FreeByte(cs', live - {h2}, a) {
      var h :| h in f' && f'[h].ptr <= a < f'[h].ptr + f'[h].size;
      var g := if h == h1 && a >= cs[h2].ptr then h2 else h;
      assert g in f && f[g].ptr <= a < f[g].ptr + f[g].size;
    }
  }

  /** Links lead to live chunks, and only h1 is linked to h2. */
  ghost predicate OnlyNext(cs: seq<Chunk>, live: set<int>, h1: int, h2: int) {
    forall g {:trigger cs[g].next} :: g in live && 0 <= g < |cs| ==>
      && (cs[g].next == h2 ==> g == h1)
      && (cs[g].next == NO_CHUNK || (cs[g].next in live && 0 <= cs[g].next < |cs|))
  }

  lemma OnlyNextOf(cs: seq<Chunk>, t: Table, live: set<int>, h2: int)
    requires Shape(Heap(cs, t, live)) && h2 in live && h2 != NO_CHUNK
    ensures OnlyNext(cs, live, cs[h2].prev, h2)
  {
    forall g | g in live && 0 <= g < |cs|
      ensures cs[g].next == h2 ==> g == cs[h2].prev
      ensures cs[g].next == NO_CHUNK || (cs[g].next in live && 0 <= cs[g].next < |cs|)
    {
      assert NextOk(Heap(cs, t, live), g);
    }
  }

  lemma AbsorbNextSeparated(cs: seq<Chunk>, cs': seq<Chunk>, live: set<int>, h1: int, h2: int)
    requires Absorbs(cs, cs', live, h1, h2, h2) && Separated(cs, live, h1) && OnlyNext(cs, live, h1, h2)
    ensures Separated(cs', live - {h2}, h1)
  {
    forall g | g in live - {h2} && 0 <= g < |cs'| && g != h1 && cs'[g].next != h1
      ensures Parted(cs', g)
    {
      assert Parted(cs, g);
    }
  }

  lemma AbsorbPrevSeparated(cs: seq<Chunk>, cs': seq<Chunk>, live: set<int>, h1: int, h2: int)
    requires Absorbs(cs, cs', live, h1, h2, h1) && Separated(cs, live, h2) && OnlyNext(cs, live, h1, h2)
    requires h2 != NO_CHUNK && cs[h2].next != h1 && cs[h2].next != h2
    requires cs[h2].next == NO_CHUNK || (0 <= cs[h2].next < |cs| && cs[h2].next in live && cs[cs[h2].next].InUse())
    ensures Separated(cs', live - {h2}, NO_CHUNK)
  {
    forall g | g in live - {h2} && 0 <= g < |cs'|
      ensures Parted(cs', g)
    {
      if g != h1 {
        assert Parted(cs, g);
      }
    }
  }

  /** With no free successor and no free predecessor of x, the exemption is not needed. */
  lemma SeparatedAlone(cs: seq<Chunk>, t: Table, live: set<int>, x: int)
    requires Shape(Heap(cs, t, live)) && x in live && x != NO_CHUNK && Separated(cs, live, x)
    requires cs[x].next == NO_CHUNK || (0 <= cs[x].next < |cs| && cs[cs[x].next].InUse())
    requires cs[x].prev == NO_CHUNK || (0 <= cs[x].prev < |cs| && cs[cs[x].prev].InUse())
    ensures Separated(cs, live, NO_CHUNK)
  {
    OnlyNextOf(cs, t, live, x);
    forall g | g in live && 0 <= g < |cs|
      ensures Parted(cs, g)
    {
      if g != x && cs[g].next != x {
        assert Parted(cs, g);
      }
    }
  }

  // ---------- Choosing and taking a chunk ----------

  /** From used to used', exactly one allocation was added: num bytes at ptr under handle h and identifier id. */
  ghost predicate Allocated(used: map<int, Block>, used': map<int, Block>, h: int, ptr: nat, num: nat, id: nat) {
    && h !in used && h in used' && used' == used[h := used'[h]]
    && used'[h].ptr == ptr && used'[h].requested == num && used'[h].id == id
  }

  /** h is the least free chunk, by size and then address, that holds n bytes. */
  ghost predicate BestFit(free: map<int, Run>, h: int, n: nat) {
    && h in free && free[h].size >= n
    && (forall g {:trigger free[g]} :: g in free && g != h && free[g].size >= n ==>
          free[h].size < free[g].size || (free[h].size == free[g].size && free[h].ptr < free[g].ptr))
  }

  /**
    Free chunk h is handed out as allocation id: whole when the waste is below the request and below the tolerance,
    else cut to the request, its rest as chunk m.
   */
  ghost predicate Handed(cs: seq<Chunk>, live: set<int>, cs': seq<Chunk>, live': set<int>, h: int, m: int,
                         rounded: nat, num: nat, id: nat, maxFragment: nat)
  {
    && h in FreeMap(cs, live) && rounded <= FreeMap(cs, live)[h].size
    && var found := FreeMap(cs, live)[h];
       if found.size < 2 * rounded && found.size - rounded < maxFragment
       then && UsedMap(cs', live') == UsedMap(cs, live)[h := Block(found.ptr, found.size, num, id)]
            && FreeMap(cs', live') == FreeMap(cs, live) - {h}
       else && m !in live
            && UsedMap(cs', live') == UsedMap(cs, live)[h := Block(found.ptr, rounded, num, id)]
            && FreeMap(cs', live') ==
                 (FreeMap(cs, live) - {h})[m := Run(found.ptr + rounded, found.size - rounded)]
  }

  lemma HandedAllocates(cs: seq<Chunk>, live: set<int>, cs': seq<Chunk>, live': set<int>, h: int, m: int,
                        rounded: nat, num: nat, id: nat, maxFragment: nat)
    requires Handed(cs, live, cs', live', h, m, rounded, num, id, maxFragment)
    ensures h in FreeMap(cs, live)
    ensures Allocated(UsedMap(cs, live), UsedMap(cs', live'), h, FreeMap(cs, live)[h].ptr, num, id)
  {
  }

  lemma HandedInNumbers(cs: seq<Chunk>, live: set<int>, cs': seq<Chunk>, live': set<int>, f: int, m: int, r: nat,
                        num: nat, id: nat, tolerated: nat, used: map<int, Block>, free: map<int, Run>, ptr: nat, s: nat)
    requires Handed(cs, live, cs', live', f, m, r, num, id, tolerated)
    requires used == UsedMap(cs, live) && free == FreeMap(cs, live) && f in free && free[f] == Run(ptr, s)
    ensures r <= s
    ensures s < 2 * r && s - r < tolerated ==>
              && UsedMap(cs', live') == used[f := Block(ptr, s, num, id)] && FreeMap(cs', live') == free - {f}
    ensures s >= 2 * r || s - r >= tolerated ==>
              && UsedMap(cs', live') == used[f := Block(ptr, r, num, id)]
              && m !in free && FreeMap(cs', live') == (free - {f})[m := Run(ptr + r, s - r)]
  {
  }

  lemma TakeWhole(cs: seq<Chunk>, live: set<int>, h: int, num: nat, id: nat)
    requires Tagged(cs, live, NO_CHUNK) && Separated(cs, live, NO_CHUNK)
    requires h in live && 0 <= h < |cs| && !cs[h].InUse()
    ensures var cs' := cs[h := cs[h].(bin := -1, requested := num, allocId := id)];
            && Tagged(cs', live, NO_CHUNK) && Separated(cs', live, NO_CHUNK)
            && UsedMap(cs', live) == UsedMap(cs, live)[h := Block(cs[h].ptr, cs[h].size, num, id)]
            && FreeMap(cs', live) == FreeMap(cs, live) - {h}
            && SumInUse(cs') == SumInUse(cs) + cs[h].size
  {
    var cs' := cs[h := cs[h].(bin := -1, requested := num, allocId := id)];
    SumUpdate(cs, h, cs'[h]);
    forall g | g in live && 0 <= g < |cs'|
      ensures TagOk(cs'[g]) && Parted(cs', g)
    {
      assert TagOk(cs[g]) && Parted(cs, g);
    }
  }

  /** Chunk h of cs, unbinned and split into cs2, is marked in use. */
  function Marked(cs2: seq<Chunk>, h: int, num: nat, id: nat): seq<Chunk>
    requires 0 <= h < |cs2|
  {
    cs2[h := cs2[h].(requested := num, allocId := id)]
  }

  lemma TakePartSum(cs2: seq<Chunk>, h: int, num: nat, id: nat)
    requires 0 <= h < |cs2| && !cs2[h].InUse()
    ensures SumInUse(Marked(cs2, h, num, id)) == SumInUse(cs2) + cs2[h].size
  {
    SumUpdate(cs2, h, cs2[h].(requested := num, allocId := id));
  }

  lemma TakePartTagged(cs: seq<Chunk>, cs2: seq<Chunk>, live: set<int>, h: int, m: int, n: nat, num: nat, id: nat)
    requires Tagged(cs, live, NO_CHUNK) && h in live && 0 <= h < |cs| && !cs[h].InUse() && m !in live
    requires forall g :: g in live ==> 0 <= g < |cs|
    requires SplitResult(cs[h := cs[h].(bin := -1)], cs2, live, h, m, n)
    ensures Tagged(Marked(cs2, h, num, id), live + {m}, NO_CHUNK)
  {
    var cs' := Marked(cs2, h, num, id);
    forall g | g in live + {m} && 0 <= g < |cs'|
      ensures TagOk(cs'[g])
    {
      if g != m {
        assert TagOk(cs[g]);
      }
    }
  }

  lemma TakePartSeparated(cs: seq<Chunk>, cs2: seq<Chunk>, live: set<int>, h: int, m: int, n: nat, num: nat, id: nat)
    requires Separated(cs, live, NO_CHUNK) && h in live && 0 <= h < |cs| && !cs[h].InUse() && m !in live
    requires forall g :: g in live ==> 0 <= g < |cs|
    requires SplitResult(cs[h := cs[h].(bin := -1)], cs2, live, h, m, n)
    requires LinksIn(cs, live)
    ensures Separated(Marked(cs2, h, num, id), live + {m}, NO_CHUNK)
  {
    var cs' := Marked(cs2, h, num, id);
    forall g | g in live + {m} && 0 <= g < |cs'|
      ensures Parted(cs', g)
    {
      var g' := if g == m then h else g;
      assert Parted(cs, g') && LinkIn(cs, live, g');
    }
  }

  lemma TakePartMaps(cs: seq<Chunk>, cs2: seq<Chunk>, live: set<int>, h: int, m: int, n: nat, num: nat, id: nat)
    requires h in live && 0 <= h < |cs| && !cs[h].InUse() && m !in live
    requires forall g :: g in live ==> 0 <= g < |cs|
    requires SplitResult(cs[h := cs[h].(bin := -1)], cs2, live, h, m, n)
    ensures var cs' := Marked(cs2, h, num, id);
            && UsedMap(cs', live + {m}) == UsedMap(cs, live)[h := Block(cs[h].ptr, n, num, id)]
            && FreeMap(cs', live + {m}) == (FreeMap(cs, live) - {h})[m := Run(cs[h].ptr + n, cs[h].size - n)]
  {
  }

  lemma UsedAdd(used: map<int, Block>, h: int, b: Block, maxFragment: nat, next: nat)
    requires FitsOk(used, maxFragment) && IdsOk(used, next) && next >= 1
    requires FitOk(b, maxFragment) && b.id == next
    ensures FitsOk(used[h := b], maxFragment) && IdsOk(used[h := b], next + 1)
  {
  }

  /** From cs to cs', free chunk h was unbinned and cut to n bytes. */
  ghost predicate FreeSplit(cs: seq<Chunk>, cs': seq<Chunk>, live: set<int>, h: int, m: int, n: nat) {
    && h in live && 0 <= h < |cs| && !cs[h].InUse() && m !in live && SumInUse(cs') == SumInUse(cs)
    && (forall g :: g in live ==> 0 <= g < |cs|) && LinksIn(cs, live)
    && SplitResult(cs[h := cs[h].(bin := -1)], cs', live, h, m, n)
  }

  /** From cs to cs', the first n bytes of free chunk h were taken and the rest left to chunk m. */
  ghost predicate Front(cs: seq<Chunk>, live: set<int>, cs': seq<Chunk>, live': set<int>, h: int, m: int, n: nat,
                        num: nat, id: nat)
  {
    && 0 <= h < |cs| <= |cs'| && n <= cs[h].size && m !in live
    && Tagged(cs', live', NO_CHUNK) && Separated(cs', live', NO_CHUNK)
    && UsedMap(cs', live') == UsedMap(cs, live)[h := Block(cs[h].ptr, n, num, id)]
    && FreeMap(cs', live') == (FreeMap(cs, live) - {h})[m := Run(cs[h].ptr + n, cs[h].size - n)]
    && SumInUse(cs') == SumInUse(cs) + n && cs'[h].size == n
  }

  /** Splitting an unbinned free chunk and marking its front in use, as one change. */
  lemma TakePart(cs: seq<Chunk>, cs2: seq<Chunk>, live: set<int>, h: int, m: int, n: nat, num: nat, id: nat)
    requires Tagged(cs, live, NO_CHUNK) && Separated(cs, live, NO_CHUNK) && FreeSplit(cs, cs2, live, h, m, n)
    ensures Front(cs, live, Marked(cs2, h, num, id), live + {m}, h, m, n, num, id)
  {
    TakePartSum(cs2, h, num, id);
    TakePartTagged(cs, cs2, live, h, m, n, num, id);
    TakePartSeparated(cs, cs2, live, h, m, n, num, id);
    TakePartMaps(cs, cs2, live, h, m, n, num, id);
  }

  /** Marking an unbinned live chunk in use leaves the structure alone. */
  lemma MarkCore(cs: seq<Chunk>, rs: seq<Region>, t: Table, bins: seq<seq<int>>, live: set<int>, freeList: int,
                 recycled: seq<int>,
                 h: int, num: nat, id: int)
    requires CoreOf(cs, rs, t, bins, live, freeList, recycled)
    requires h in live && 0 <= h < |cs| && cs[h].bin == -1
    ensures CoreOf(cs[h := cs[h].(requested := num, allocId := id)], rs, t, bins, live, freeList, recycled)
  {
    var c := cs[h].(requested := num, allocId := id);
    BinsFrame(cs, live, bins, cs[h := c], live);
    LiveCore(cs, rs, t, bins, live, freeList, recycled, h, c, bins);
  }

  lemma LinksLive(cs: seq<Chunk>, t: Table, live: set<int>)
    requires Shape(Heap(cs, t, live))
    ensures LinksIn(cs, live)
  {
    forall g | g in live && 0 <= g < |cs|
      ensures LinkIn(cs, live, g)
    {
      assert NextOk(Heap(cs, t, live), g);
    }
  }

  /** The first chunk of its bin that is large enough is the best fit of all bins. */
  lemma FirstFitIsBest(cs: seq<Chunk>, bins: seq<seq<int>>, live: set<int>, b: nat, k: nat, n: nat)
    requires BinsOk(cs, live, bins) && Tagged(cs, live, NO_CHUNK)
    requires forall g :: g in live ==> 0 <= g < |cs|
    requires b < NUM_BINS && k < |bins[b]| && 0 <= bins[b][k] < |cs| && cs[bins[b][k]].size >= n
    requires forall i :: 0 <= i < k ==> 0 <= bins[b][i] < |cs| && cs[bins[b][i]].size < n
    requires forall g {:trigger FreeMap(cs, live)[g]} :: g in FreeMap(cs, live) && cs[g].bin < b ==> cs[g].size < n
    ensures bins[b][k] in live && cs[bins[b][k]].bin == b && !cs[bins[b][k]].InUse()
    ensures BestFit(FreeMap(cs, live), bins[b][k], n)
  {
    var h := bins[b][k];
    assert BinOk(cs, live, bins[b], b) && Holds(cs, live, bins[b], b, h);
    assert TagOk(cs[h]);
    var free := FreeMap(cs, live);
    forall g | g in free && g != h && free[g].size >= n
      ensures Smaller(cs[h], cs[g])
    {
      assert TagOk(cs[g]);
      assert cs[g].bin >= b;
      if cs[g].bin == b {
        assert Holds(cs, live, bins[b], b, g);
        var j :| 0 <= j < |bins[b]| && bins[b][j] == g;
        assert Smaller(cs[bins[b][k]], cs[bins[b][j]]);
      } else if cs[g].size <= cs[h].size {
        BinNumMonotone(cs[g].size, cs[h].size);
        assert false;
      }
    }
  }

  // ---------- Releasing a chunk ----------

  lemma MarkFreed(cs: seq<Chunk>, live: set<int>, h: int)
    requires Tagged(cs, live, NO_CHUNK) && Separated(cs, live, NO_CHUNK)
    requires h in live && 0 <= h < |cs| && cs[h].InUse() && h != NO_CHUNK
    ensures var cs' := cs[h := cs[h].(allocId := -1)];
            && Tagged(cs', live, h) && Separated(cs', live, h) && cs'[h].bin == -1
            && UsedMap(cs', live) == UsedMap(cs, live) - {h}
            && FreeMap(cs', live) == FreeMap(cs, live)[h := Run(cs[h].ptr, cs[h].size)]
            && SumInUse(cs') == SumInUse(cs) - cs[h].size
  {
    var cs' := cs[h := cs[h].(allocId := -1)];
    assert TagOk(cs[h]);
    SumUpdate(cs, h, cs'[h]);
    forall g | g in live && 0 <= g < |cs'| && g != h
      ensures TagOk(cs'[g]) && (cs'[g].next != h ==> Parted(cs', g))
    {
      assert TagOk(cs[g]) && Parted(cs, g);
    }
  }

  lemma MarkFreedBytes(cs: seq<Chunk>, live: set<int>, h: int, a: nat)
    requires h in live && 0 <= h < |cs| && cs[h].InUse()
    ensures var cs' := cs[h := cs[h].(allocId := -1)];
            FreeByte(cs', live, a) <==> FreeByte(cs, live, a) || cs[h].ptr <= a < cs[h].End()
  {
    var cs' := cs[h := cs[h].(allocId := -1)];
    var f, f' := FreeMap(cs, live), FreeMap(cs', live);
    assert f' == f[h := Run(cs[h].ptr, cs[h].size)];
    if FreeByte(cs, live, a) {
      var g :| g in f && f[g].ptr <= a < f[g].ptr + f[g].size;
      assert g in f' && f'[g] == f[g];
    }
    if cs[h].ptr <= a < cs[h].End() {
      assert h in f' && f'[h].ptr <= a < f'[h].ptr + f'[h].size;
    }
  }

  /** Filing a loose chunk under the bin of its size changes no map. */
  lemma FileTagged(cs: seq<Chunk>, live: set<int>, h: int)
    requires Tagged(cs, live, h) && Separated(cs, live, NO_CHUNK) && h in live && 0 <= h < |cs| && !cs[h].InUse()
    ensures var cs' := cs[h := cs[h].(bin := BinNumForSize(cs[h].size))];
            && Tagged(cs', live, NO_CHUNK) && Separated(cs', live, NO_CHUNK)
            && UsedMap(cs', live) == UsedMap(cs, live) && FreeMap(cs', live) == FreeMap(cs, live)
  {
    var cs' := cs[h := cs[h].(bin := BinNumForSize(cs[h].size))];
    forall g | g in live && 0 <= g < |cs'|
      ensures TagOk(cs'[g]) && Parted(cs', g)
    {
      assert g != h ==> TagOk(cs[g]);
      assert Parted(cs, g);
    }
  }

  lemma UsedRemove(used: map<int, Block>, h: int, maxFragment: nat, next: nat)
    requires FitsOk(used, maxFragment) && IdsOk(used, next)
    ensures FitsOk(used - {h}, maxFragment) && IdsOk(used - {h}, next)
  {
  }

  // ---------- Adding the chunk of a new grant ----------

  /** A record for a whole grant: free, in no bin, linked to nothing. */
  function GrantChunk(c: Chunk, p: nat, size: nat): Chunk {
    c.(ptr := p, size := size, allocId := -1, prev := NO_CHUNK, next := NO_CHUNK, freedAt := 0)
  }

  lemma AddTiling(cs: seq<Chunk>, rs: seq<Region>, t: Table, live: set<int>, m: int, last: int, p: nat, size: nat)
    requires RegionsOk(rs) && Represents(rs, t) && Shape(Heap(cs, t, live))
    requires 0 <= m < |cs| && m !in live && 0 < p && 0 < size && Aligned(size) && SpanFree(rs, p, size)
    requires last != NO_CHUNK ==> last in live && 0 <= last < |cs| && cs[last].next == NO_CHUNK && cs[last].End() == p
    ensures last == NO_CHUNK || (last != m && cs[last].ptr in t)
    ensures var base := if last == NO_CHUNK then p else t[cs[last].ptr].base;
            Shape(Heap(AddChunks(cs[m := GrantChunk(cs[m], p, size)], m, last),
                       WithHandle(GrownTable(t, base, p, size), p, m), live + {m}))
  {
    var cs1 := cs[m := GrantChunk(cs[m], p, size)];
    var H, H1 := Heap(cs, t, live), Heap(cs1, t, live);
    ShapeFrame(H, H1);
    RepresentsVacant(rs, t, p, size);
    if last != NO_CHUNK {
      assert ChunkOk(H1, last) && NextOk(H1, last);
      SpanOf(t, cs[last].ptr);
    }
    assert AddBase(H1, last, p) == if last == NO_CHUNK then p else t[cs[last].ptr].base;
    assert CanAdd(H1, m, last, p, size);
    AddShape(H1, m, last, p, size);
  }

  lemma AddLists(cs: seq<Chunk>, bins: seq<seq<int>>, live: set<int>, freeList: int, recycled: seq<int>,
                 m: int, last: int, p: nat, size: nat)
    requires ChainOk(cs, live, freeList, recycled) && BinsOk(cs, live, bins)
    requires 0 <= m < |cs| && m !in live && m !in recycled && cs[m].bin == -1
    requires last == NO_CHUNK || (last in live && 0 <= last < |cs| && last != m)
    ensures var cs' := AddChunks(cs[m := GrantChunk(cs[m], p, size)], m, last);
            ChainOk(cs', live + {m}, freeList, recycled) && BinsOk(cs', live + {m}, bins)
  {
    var cs' := AddChunks(cs[m := GrantChunk(cs[m], p, size)], m, last);
    ChainMembers(cs, live, freeList, recycled);
    ChainFrame(cs, live, freeList, recycled, cs', live + {m});
    BinsFrame(cs, live, bins, cs', live + {m});
  }

  ghost predicate CanList(cs: seq<Chunk>, live: set<int>, m: int, last: int) {
    && (forall g :: g in live ==> 0 <= g < |cs|)
    && 0 <= m < |cs| && m !in live && !cs[m].InUse()
    && (last == NO_CHUNK || (last in live && 0 <= last < |cs| && last != m))
  }

  lemma AddTags(cs: seq<Chunk>, live: set<int>, m: int, last: int, p: nat, size: nat)
    requires Tagged(cs, live, NO_CHUNK) && Separated(cs, live, NO_CHUNK) && CanList(cs, live, m, last)
    requires LinksIn(cs, live)
    ensures var cs' := AddChunks(cs[m := GrantChunk(cs[m], p, size)], m, last);
            Tagged(cs', live + {m}, m) && Separated(cs', live + {m}, m)
  {
    var cs' := AddChunks(cs[m := GrantChunk(cs[m], p, size)], m, last);
    forall g | g in live + {m} && 0 <= g < |cs'| && g != m
      ensures TagOk(cs'[g])
    {
      assert TagOk(cs[g]);
    }
    forall g | g in live + {m} && 0 <= g < |cs'| && g != m && cs'[g].next != m
      ensures Parted(cs', g)
    {
      assert Parted(cs, g) && LinkIn(cs, live, g);
    }
  }

  lemma AddMaps(cs: seq<Chunk>, live: set<int>, m: int, last: int, p: nat, size: nat)
    requires CanList(cs, live, m, last)
    ensures var cs' := AddChunks(cs[m := GrantChunk(cs[m], p, size)], m, last);
            && UsedMap(cs', live + {m}) == UsedMap(cs, live)
            && FreeMap(cs', live + {m}) == FreeMap(cs, live)[m := Run(p, size)]
  {
  }

  lemma AddSum(cs: seq<Chunk>, live: set<int>, m: int, last: int, p: nat, size: nat)
    requires CanList(cs, live, m, last)
    ensures SumInUse(AddChunks(cs[m := GrantChunk(cs[m], p, size)], m, last)) == SumInUse(cs)
  {
    SumSame(cs, AddChunks(cs[m := GrantChunk(cs[m], p, size)], m, last));
  }

  /** A granted chunk adds its bytes to the free ones, and no others. */
  lemma AddBytes(cs: seq<Chunk>, cs': seq<Chunk>, live: set<int>, m: int, p: nat, size: nat)
    requires FreeMap(cs', live + {m}) == FreeMap(cs, live)[m := Run(p, size)] && m !in live
    ensures forall a: nat :: FreeByte(cs', live + {m}, a) <==> FreeByte(cs, live, a) || p <= a < p + size
  {
    var f, f' := FreeMap(cs, live), FreeMap(cs', live + {m});
    forall a: nat
      ensures FreeByte(cs', live + {m}, a) <==> FreeByte(cs, live, a) || p <= a < p + size
    {
      if FreeByte(cs, live, a) {
        var g :| g in f && f[g].ptr <= a < f[g].ptr + f[g].size;
        assert g in f' && f'[g] == f[g];
      }
      if p <= a < p + size {
        assert m in f' && f'[m].ptr <= a < f'[m].ptr + f'[m].size;
      }
    }
  }

  /** A grant only adds a free chunk. */
  lemma AddFree(cs: seq<Chunk>, cs': seq<Chunk>, live: set<int>, m: int, last: int, p: nat, size: nat)
    requires Tagged(cs, live, NO_CHUNK) && Separated(cs, live, NO_CHUNK) && LinksIn(cs, live)
    requires CanList(cs, live, m, last) && cs' == AddChunks(cs[m := GrantChunk(cs[m], p, size)], m, last)
    ensures Tagged(cs', live + {m}, m) && Separated(cs', live + {m}, m)
    ensures Gained(cs, live, cs', live + {m}, p, size) && SumInUse(cs') == SumInUse(cs)
  {
    AddTags(cs, live, m, last, p, size);
    AddMaps(cs, live, m, last, p, size);
    AddSum(cs, live, m, last, p, size);
    AddBytes(cs, cs', live, m, p, size);
  }

  function SumRegions(rs: seq<Region>): nat {
    if |rs| == 0 then 0 else SumRegions(rs[..|rs| - 1]) + rs[|rs| - 1].size
  }

  lemma SumRegionsConcat(a: seq<Region>, b: seq<Region>)
    ensures SumRegions(a + b) == SumRegions(a) + SumRegions(b)
  {
    if |b| == 0 {
      assert a + b == a;
    } else {
      assert (a + b)[..|a + b| - 1] == a + b[..|b| - 1];
      SumRegionsConcat(a, b[..|b| - 1]);
    }
  }

  lemma SumRegionsSame(rs: seq<Region>, rs': seq<Region>)
    requires SameSpans(rs, rs')
    ensures SumRegions(rs') == SumRegions(rs)
  {
    if |rs| > 0 {
      SumRegionsSame(rs[..|rs| - 1], rs'[..|rs| - 1]);
    }
  }

  lemma SumRegionsPositive(rs: seq<Region>)
    requires RegionsOk(rs) && |rs| > 0
    ensures SumRegions(rs) > 0
  {
    assert rs[|rs| - 1].WellFormed();
  }

  lemma SumRegionsOne(r: Region)
    ensures SumRegions([r]) == r.size
  {
    assert [r][..0] == [];
  }

  lemma SumRegionsInsert(rs: seq<Region>, r: Region)
    ensures SumRegions(Insert(rs, r)) == SumRegions(rs) + r.size
  {
    var i := UpperBound(rs, r.ptr);
    SumRegionsConcat(rs[..i] + [r], rs[i..]);
    SumRegionsConcat(rs[..i], [r]);
    SumRegionsOne(r);
    SumRegionsConcat(rs[..i], rs[i..]);
    assert rs[..i] + rs[i..] == rs;
  }

  lemma {:induction false} SumRegionsSplit(rs: seq<Region>, i: nat)
    requires i < |rs|
    ensures SumRegions(rs) == SumRegions(rs[..i]) + rs[i].size + SumRegions(rs[i + 1..])
  {
    SumRegionsStep(rs, i);
    SumRegionsConcat(rs[..i + 1], rs[i + 1..]);
    assert rs[..i + 1] + rs[i + 1..] == rs;
  }

  lemma {:induction false} SumRegionsStep(rs: seq<Region>, i: nat)
    requires i < |rs|
    ensures SumRegions(rs[..i + 1]) == SumRegions(rs[..i]) + rs[i].size
  {
    assert rs[..i + 1][..i] == rs[..i];
  }

  lemma {:induction false} SumRegionsWithout(rs: seq<Region>, i: nat)
    requires i < |rs|
    ensures SumRegions(Without(rs, i)) == SumRegions(rs) - rs[i].size
  {
    SumRegionsSplit(rs, i);
    SumRegionsConcat(rs[..i], rs[i + 1..]);
  }

  lemma {:induction false} SumRegionsExtended(rs: seq<Region>, i: nat, size: nat)
    requires i < |rs|
    ensures SumRegions(Extended(rs, i, size)) == SumRegions(rs) + size
  {
    var rs' := Extended(rs, i, size);
    SumRegionsSplit(rs, i);
    SumRegionsSplit(rs', i);
    assert rs'[..i] == rs[..i] && rs'[i + 1..] == rs[i + 1..];
  }

  // ---------- Regions in use ----------

  /** Some chunk of the region based at base is in use. */
  ghost predicate Busy(used: map<int, Block>, t: Table, base: nat) {
    exists h :: h in used && used[h].ptr in t && t[used[h].ptr].base == base
  }

  lemma BusyWitness(used: map<int, Block>, t: Table, base: nat, h: int)
    ensures h in used && used[h].ptr in t && t[used[h].ptr].base == base ==> Busy(used, t, base)
  {
  }

  /** The bytes of the regions that hold a chunk in use. */
  ghost function SumBusy(rs: seq<Region>, used: map<int, Block>, t: Table): nat {
    if |rs| == 0 then 0
    else SumBusy(rs[..|rs| - 1], used, t) + (if Busy(used, t, rs[|rs| - 1].ptr) then rs[|rs| - 1].size else 0)
  }

  lemma SumBusyBound(rs: seq<Region>, used: map<int, Block>, t: Table)
    ensures SumBusy(rs, used, t) <= SumRegions(rs)
  {
    if |rs| > 0 {
      SumBusyBound(rs[..|rs| - 1], used, t);
    }
  }

  /** The bytes of the regions that do not start at an address of ptrs. */
  function SumKept(rs: seq<Region>, ptrs: set<nat>): nat {
    if |rs| == 0 then 0
    else SumKept(rs[..|rs| - 1], ptrs) + (if rs[|rs| - 1].ptr in ptrs then 0 else rs[|rs| - 1].size)
  }

  lemma SumKeptConcat(a: seq<Region>, b: seq<Region>, ptrs: set<nat>)
    ensures SumKept(a + b, ptrs) == SumKept(a, ptrs) + SumKept(b, ptrs)
  {
    if |b| == 0 {
      assert a + b == a;
    } else {
      assert (a + b)[..|a + b| - 1] == a + b[..|b| - 1];
      SumKeptConcat(a, b[..|b| - 1], ptrs);
    }
  }

  lemma SumKeptWithout(rs: seq<Region>, i: nat, ptrs: set<nat>)
    requires i < |rs| && rs[i].ptr in ptrs
    ensures SumKept(Without(rs, i), ptrs) == SumKept(rs, ptrs)
  {
    var a, b, c := rs[..i], [rs[i]], rs[i + 1..];
    SumKeptConcat(a, c, ptrs);
    SumKeptConcat(a, b, ptrs);
    SumKeptConcat(a + b, c, ptrs);
    assert a + b + c == rs;
    assert b[..0] == [];
  }

  lemma SumKeptAll(rs: seq<Region>, ptrs: set<nat>)
    requires forall i :: 0 <= i < |rs| ==> rs[i].ptr !in ptrs
    ensures SumKept(rs, ptrs) == SumRegions(rs)
  {
    if |rs| > 0 {
      SumKeptAll(rs[..|rs| - 1], ptrs);
    }
  }

  lemma SumKeptBusy(rs: seq<Region>, ptrs: set<nat>, used: map<int, Block>, t: Table)
    requires forall i {:trigger rs[i].ptr in ptrs} :: 0 <= i < |rs| ==>
               (rs[i].ptr in ptrs <==> !Busy(used, t, rs[i].ptr))
    ensures SumKept(rs, ptrs) == SumBusy(rs, used, t) <= SumRegions(rs)
  {
    if |rs| > 0 {
      var k := |rs| - 1;
      assert rs[k].ptr in ptrs <==> !Busy(used, t, rs[k].ptr);
      forall i | 0 <= i < k
        ensures rs[..k][i].ptr in ptrs <==> !Busy(used, t, rs[..k][i].ptr)
      {
        assert rs[i].ptr in ptrs <==> !Busy(used, t, rs[i].ptr);
      }
      SumKeptBusy(rs[..k], ptrs, used, t);
    }
  }

  // ---------- Dropping the chunks of a region ----------

  /** In the walk over the region based at base, the chunks before h (all of them for NO_CHUNK) are gone. */
  ghost predicate Dropping(H: Heap, cs: seq<Chunk>, live: set<int>, base: nat, h: int) {
    && |cs| == |H.cs| && live <= H.live && HandlesOk(H)
    && (forall x :: x in live ==> cs[x] == H.cs[x])
    && (h != NO_CHUNK ==> h in live && InSpan(H, h, base))
    && (forall x {:trigger InSpan(H, x, base)} :: x in H.live ==>
          (x in live <==> !(InSpan(H, x, base) && (h == NO_CHUNK || H.cs[x].ptr < H.cs[h].ptr))))
  }

  /** No chunk lies between h and its successor, and none after the last. */
  lemma DroppingStep(H: Heap, base: nat, h: int, x: int)
    requires Shape(H) && InSpan(H, h, base) && InSpan(H, x, base) && x != h
    ensures var n := H.cs[h].next;
            if n == NO_CHUNK then H.cs[x].ptr < H.cs[h].ptr
            else InSpan(H, n, base) && H.cs[n].ptr == H.cs[h].End()
                 && (H.cs[x].ptr < H.cs[n].ptr <==> H.cs[x].ptr < H.cs[h].ptr)
  {
    assert ChunkOk(H, h) && ChunkOk(H, x) && NextOk(H, h) && Disjoint(H.cs[h], H.cs[x]);
    SpanOf(H.table, H.cs[h].ptr);
    SpanOf(H.table, H.cs[x].ptr);
    NextInSpan(H, base, h);
  }

  lemma NextInSpan(H: Heap, base: nat, h: int)
    requires Shape(H) && InSpan(H, h, base)
    ensures var n := H.cs[h].next; n != NO_CHUNK ==> InSpan(H, n, base) && n != h && H.cs[n].ptr == H.cs[h].End()
    ensures H.cs[h].size > 0
  {
    assert ChunkOk(H, h) && NextOk(H, h);
    var n := H.cs[h].next;
    if n != NO_CHUNK {
      assert ChunkOk(H, n);
      assert SlotOk(H.table, H.cs[n].ptr) && SlotOk(H.table, H.cs[h].ptr);
      SlotWithin(H.table, H.cs[h].ptr, H.cs[n].ptr);
    }
  }

  lemma DroppingNext(H: Heap, cs: seq<Chunk>, live: set<int>, base: nat, h: int, cs': seq<Chunk>)
    requires Shape(H) && Dropping(H, cs, live, base, h) && h != NO_CHUNK
    requires |cs'| == |cs| && (forall x :: x in live && x != h ==> cs'[x] == cs[x])
    ensures Dropping(H, cs', live - {h}, base, H.cs[h].next)
  {
    NextInSpan(H, base, h);
    var n := H.cs[h].next;
    forall x | x in H.live
      ensures x in live - {h} <==> !(InSpan(H, x, base) && (n == NO_CHUNK || H.cs[x].ptr < H.cs[n].ptr))
    {
      if InSpan(H, x, base) && x != h {
        DroppingStep(H, base, h, x);
      }
    }
  }

  /** When the walk is over, what remains is the heap without the region. */
  lemma DroppedShape(H: Heap, cs: seq<Chunk>, live: set<int>, base: nat)
    requires Shape(H) && Dropping(H, cs, live, base, NO_CHUNK)
    ensures Shape(Heap(cs, DroppedTable(H.table, base), live))
  {
    DropShape(H, base);
    assert live == DropHeap(H, base).live;
    ShapeFrame(DropHeap(H, base), Heap(cs, DroppedTable(H.table, base), live));
  }

  lemma DroppedTags(H: Heap, cs: seq<Chunk>, live: set<int>, base: nat)
    requires Dropping(H, cs, live, base, NO_CHUNK)
    requires Shape(Heap(cs, DroppedTable(H.table, base), live))
    requires Tagged(H.cs, H.live, NO_CHUNK) && Separated(H.cs, H.live, NO_CHUNK)
    ensures Tagged(cs, live, NO_CHUNK) && Separated(cs, live, NO_CHUNK)
  {
    LinksLive(cs, DroppedTable(H.table, base), live);
    forall g | g in live && 0 <= g < |cs|
      ensures TagOk(cs[g]) && Parted(cs, g)
    {
      assert TagOk(H.cs[g]) && Parted(H.cs, g);
      assert LinkIn(cs, live, g);
    }
  }

  lemma DroppedMaps(H: Heap, cs: seq<Chunk>, live: set<int>, base: nat)
    requires Dropping(H, cs, live, base, NO_CHUNK) && !Busy(UsedMap(H.cs, H.live), H.table, base)
    ensures UsedMap(cs, live) == UsedMap(H.cs, H.live)
  {
    var used, used' := UsedMap(H.cs, H.live), UsedMap(cs, live);
    forall h | h in used
      ensures h in used' && used'[h] == used[h]
    {
      BusyWitness(used, H.table, base, h);
      assert !InSpan(H, h, base);
    }
  }

  /** What stays true of the chunks when those of the region based at base are gone. */
  ghost predicate Dropped(H: Heap, cs: seq<Chunk>, live: set<int>, base: nat) {
    && Shape(Heap(cs, DroppedTable(H.table, base), live))
    && Tagged(cs, live, NO_CHUNK) && Separated(cs, live, NO_CHUNK)
    && |cs| == |H.cs| && UsedMap(cs, live) == UsedMap(H.cs, H.live)
  }

  lemma AllDropped(H: Heap, cs: seq<Chunk>, live: set<int>, base: nat)
    requires Shape(H) && Tagged(H.cs, H.live, NO_CHUNK) && Separated(H.cs, H.live, NO_CHUNK)
    requires Dropping(H, cs, live, base, NO_CHUNK) && !Busy(UsedMap(H.cs, H.live), H.table, base)
    ensures Dropped(H, cs, live, base)
  {
    DroppedShape(H, cs, live, base);
    DroppedTags(H, cs, live, base);
    DroppedMaps(H, cs, live, base);
  }

  /** The regions and the table without region i. */
  ghost predicate RegionGone(rs: seq<Region>, table: Table, i: nat, rs': seq<Region>, table': Table) {
    && i < |rs| && rs' == Without(rs, i) && table' == DroppedTable(table, rs[i].ptr)
    && RegionsOk(rs') && Represents(rs', table')
    && SumRegions(rs') == SumRegions(rs) - rs[i].size
  }

  lemma WithoutRegion(rs: seq<Region>, table: Table, i: nat, rs': seq<Region>)
    requires i < |rs| == |rs'| && RegionsOk(rs) && Represents(rs, table)
    requires rs'[i].ptr == rs[i].ptr && rs'[i].size == rs[i].size && Without(rs', i) == Without(rs, i)
    ensures RegionGone(rs, table, i, Without(rs', i), DroppedTable(table, rs'[i].ptr))
  {
    RepresentsWithout(rs, table, i);
    SumRegionsWithout(rs, i);
  }
}
