/** The best-fit-with-coalescing device memory allocator. */
module BfcAllocator {
  import opened BfcSizes
  import opened BfcTable
  import opened BfcRegions
  import opened BfcHeap
  import opened BfcBins
  import opened BfcState

  /**
    The sub-allocator: 0 when it refuses; when it is willing, an arbitrary address for a span that
    meets none of the spans it has handed out and not got back.
   */
  method SubAllocate(bytes: nat, held: seq<Region>, willing: bool) returns (ptr: nat)
    ensures ptr != 0 <==> willing
    ensures willing ==> SpanFree(held, ptr, bytes)
  {
    if !willing {
      return 0;
    }
    ptr := *;
    if ptr == 0 || !SpanFree(held, ptr, bytes) {
      ptr := AddressPast(held);
    }
  }

  /** An address beyond every region. */
  function AddressPast(held: seq<Region>): (a: nat)
    ensures a > 0 && forall i :: 0 <= i < |held| ==> held[i].End() <= a
  {
    if held == [] then 1
    else
      var rest := AddressPast(held[..|held| - 1]);
      var end := held[|held| - 1].End();
      if end > rest then end else rest
  }

  /** What a deallocation did: released a chunk, nothing, or failed an enforced check. */
  datatype FreeOutcome = Freed | Ignored | Rejected

  class BfcAllocator {
    const memoryLimit: nat
    const garbageCollection: bool
    const coalesceRegions: bool
    const maxInternalFragmentation: nat

    var chunks: seq<Chunk>
    var bins: seq<seq<int>>
    var regions: seq<Region>
    var freeChunksList: int
    var nextAllocationId: nat
    var currRegionAllocationBytes: nat
    var totalRegionAllocatedBytes: nat
    var bytesInUse: int

    ghost var table: Table
    ghost var live: set<int>
    ghost var recycled: seq<int>

    ghost function H(): Heap
      reads this
    {
      Heap(chunks, table, live)
    }

    ghost predicate Core()
      reads this
    {
      CoreOf(chunks, regions, table, bins, live, freeChunksList, recycled)
    }

    method AllocateChunk() returns (h: int)
      requires Core() && Conserved(chunks, live, recycled, NO_CHUNK)
      modifies this`chunks, this`freeChunksList, this`recycled
      ensures Core() && Conserved(chunks, live, recycled, h)
      ensures 0 <= h < |chunks| && h !in live && h !in recycled
      ensures !chunks[h].InUse() && chunks[h].bin == -1
      ensures chunks == old(chunks) || (chunks == old(chunks) + [FreshChunk] && h == |old(chunks)|)
      ensures |recycled| <= |old(recycled)| && SumInUse(chunks) == SumInUse(old(chunks))
    {
      if freeChunksList != NO_CHUNK {
        ChainPop(chunks, live, freeChunksList, recycled);
        h := freeChunksList;
        freeChunksList := chunks[h].next;
        recycled := recycled[1..];
      } else {
        AppendCore(chunks, regions, table, bins, live, freeChunksList, recycled);
        h := |chunks|;
        chunks := chunks + [FreshChunk];
      }
    }

    /** The free list of records and the bins are in order. */
    ghost predicate Lists()
      reads this
    {
      ChainOk(chunks, live, freeChunksList, recycled) && BinsOk(chunks, live, bins)
    }

    method DeallocateChunk(h: int)
      requires Lists() && Conserved(chunks, live, recycled, h)
      requires 0 <= h < |chunks| && h !in live && h !in recycled
      modifies this`chunks, this`freeChunksList, this`recycled
      ensures Lists() && Conserved(chunks, live, recycled, NO_CHUNK)
      ensures old(Core()) ==> Core()
      ensures chunks == old(chunks)[h := old(chunks)[h].(allocId := -1, bin := -1, next := old(freeChunksList))]
      ensures recycled == [h] + old(recycled)
      ensures !old(chunks)[h].InUse() ==> SumInUse(chunks) == SumInUse(old(chunks))
    {
      var c := chunks[h].(allocId := -1, bin := -1, next := freeChunksList);
      SumUpdate(chunks, h, c);
      LimboLists(chunks, bins, live, freeChunksList, recycled, h, c);
      if Core() {
        ShapeFrame(H(), Heap(chunks[h := c], table, live));
      }
      chunks := chunks[h := c];
      ChainPush(chunks, live, freeChunksList, recycled, h);
      freeChunksList := h;
      recycled := [h] + recycled;
    }

    method InsertFreeChunkIntoBin(h: int)
      requires Core() && h in live && 0 <= h < |chunks| && !chunks[h].InUse() && chunks[h].bin == -1
      modifies this`chunks, this`bins
      ensures Core()
      ensures chunks == old(chunks)[h := old(chunks)[h].(bin := BinNumForSize(old(chunks)[h].size))]
      ensures SumInUse(chunks) == SumInUse(old(chunks))
    {
      var b := BinNumForSize(chunks[h].size);
      var c := chunks[h].(bin := b);
      DistinctPtrs(H(), h);
      InsertKeepsBins(chunks, live, bins, h, b);
      var bins' := bins[b := Inserted(bins[b], InsertPosition(chunks, bins[b], chunks[h], 0), h)];
      SumUpdate(chunks, h, c);
      LiveCore(chunks, regions, table, bins, live, freeChunksList, recycled, h, c, bins');
      chunks, bins := chunks[h := c], bins';
    }

    method RemoveFreeChunkFromBin(h: int)
      requires Lists() && h in live && 0 <= h < |chunks| && !chunks[h].InUse() && 0 <= chunks[h].bin < NUM_BINS
      modifies this`chunks, this`bins
      ensures Lists()
      ensures old(Core()) ==> Core()
      ensures chunks == old(chunks)[h := old(chunks)[h].(bin := -1)]
      ensures SumInUse(chunks) == SumInUse(old(chunks))
    {
      var b := chunks[h].bin;
      var c := chunks[h].(bin := -1);
      RemoveKeepsBins(chunks, live, bins, h, b);
      var bins' := bins[b := RemovedAt(bins[b], IndexIn(bins[b], h, 0))];
      SumUpdate(chunks, h, c);
      ChainMembers(chunks, live, freeChunksList, recycled);
      ChainFrame(chunks, live, freeChunksList, recycled, chunks[h := c], live);
      if Core() {
        ShapeFrame(H(), Heap(chunks[h := c], table, live));
      }
      chunks, bins := chunks[h := c], bins';
    }

    method SplitChunk(h: int, numBytes: nat) returns (ghost m: int)
      requires Core() && Conserved(chunks, live, recycled, NO_CHUNK)
      requires h in live && 0 <= h < |chunks| && !chunks[h].InUse() && chunks[h].bin == -1
      requires 0 < numBytes < chunks[h].size && Aligned(numBytes)
      modifies this`chunks, this`bins, this`regions, this`table, this`freeChunksList, this`live, this`recycled
      ensures Core() && Conserved(chunks, live, recycled, NO_CHUNK)
      ensures m !in old(live) && live == old(live) + {m}
      ensures SplitResult(old(chunks), chunks, old(live), h, m, numBytes)
      ensures SameSpans(old(regions), regions)
      ensures SumInUse(chunks) == SumInUse(old(chunks))
    {
      var hNew := AllocateChunk();
      m := hNew;
      ghost var cs := chunks;
      LinkSplit(h, hNew, numBytes);
      InsertFreeChunkIntoBin(hNew);
      SplitSummary(old(chunks), cs, chunks, old(live), h, m, numBytes);
    }

    /** Creates the new chunk numBytes after c, registers it, and links c <-> new <-> neighbour. */
    method LinkSplit(h: int, hNew: int, numBytes: nat)
      requires SplitPre(chunks, regions, table, bins, live, freeChunksList, recycled, h, hNew, numBytes)
      modifies this`chunks, this`regions, this`table, this`live
      ensures SplitShaped(old(chunks), old(live), h, hNew, numBytes)
      ensures Core() && SumInUse(chunks) == SumInUse(old(chunks))
      ensures chunks == SplitChunks(old(chunks), h, hNew, numBytes)
      ensures SameSpans(old(regions), regions)
      ensures live == old(live) + {hNew}
    {
      SplitCore(chunks, regions, table, bins, live, freeChunksList, recycled, h, hNew, numBytes);
      var newPtr := chunks[h].ptr + numBytes;
      regions, table := SetHandle(regions, newPtr, hNew), WithHandle(table, newPtr, hNew);
      CutRecords(h, hNew, numBytes);
      live := live + {hNew};
    }

    method CutRecords(h: int, hNew: int, numBytes: nat)
      requires SplitShaped(chunks, live, h, hNew, numBytes)
      modifies this`chunks
      ensures chunks == SplitChunks(old(chunks), h, hNew, numBytes)
    {
      var neighbor, size, freedAt := chunks[h].next, chunks[h].size, chunks[h].freedAt;
      chunks := chunks[hNew := chunks[hNew].(ptr := chunks[h].ptr + numBytes, size := size - numBytes, allocId := -1,
                                             freedAt := freedAt, prev := h, next := neighbor)];
      chunks := chunks[h := chunks[h].(size := numBytes, next := hNew)];
      if neighbor != NO_CHUNK {
        chunks := chunks[neighbor := chunks[neighbor].(prev := hNew)];
      }
    }

    method Merge(h1: int, h2: int)
      requires MergePre(chunks, regions, table, bins, live, freeChunksList, recycled, h1, h2)
      requires Conserved(chunks, live, recycled, NO_CHUNK)
      modifies this`chunks, this`regions, this`table, this`freeChunksList, this`live, this`recycled
      ensures Core() && Conserved(chunks, live, recycled, NO_CHUNK)
      ensures live == old(live) - {h2}
      ensures MergeResult(old(chunks), chunks, old(live), h1, h2)
      ensures SameSpans(old(regions), regions)
      ensures SumInUse(chunks) == SumInUse(old(chunks))
    {
      LinkMerge(h1, h2);
      DeallocateChunk(h2);
      MergeSummary(old(chunks), chunks, old(live), h1, h2);
    }

    method LinkMerge(h1: int, h2: int)
      requires MergePre(chunks, regions, table, bins, live, freeChunksList, recycled, h1, h2)
      modifies this`chunks, this`regions, this`table, this`live
      ensures MergeShaped(old(chunks), old(live), h1, h2)
      ensures old(chunks)[h1].freedAt == 0 && old(chunks)[h2].freedAt == 0
      ensures Core() && SumInUse(chunks) == SumInUse(old(chunks))
      ensures chunks == MergeChunks(old(chunks), h1, h2)
      ensures SameSpans(old(regions), regions)
      ensures live == old(live) - {h2} && h2 !in recycled
    {
      MergeCore(chunks, regions, table, bins, live, freeChunksList, recycled, h1, h2);
      JoinRecords(h1, h2);
      live := live - {h2};
      table := WithHandle(table, chunks[h2].ptr, NO_CHUNK);
      regions := SetHandle(regions, chunks[h2].ptr, NO_CHUNK);
    }

    /** c1 <-> c2 <-> c3 becomes c1 <-> c3. */
    method JoinRecords(h1: int, h2: int)
      requires MergeShaped(chunks, live, h1, h2)
      modifies this`chunks
      ensures chunks == MergeChunks(old(chunks), h1, h2) && chunks[h2].ptr == old(chunks)[h2].ptr
    {
      var h3 := chunks[h2].next;
      chunks := chunks[h1 := chunks[h1].(next := h3)];
      if h3 != NO_CHUNK {
        chunks := chunks[h3 := chunks[h3].(prev := h1)];
      }
      chunks := chunks[h1 := chunks[h1].(size := chunks[h1].size + chunks[h2].size,
                                         freedAt := Max(chunks[h1].freedAt, chunks[h2].freedAt))];
    }

    /** A free chunk outside the bins, whose neighbours may be free, is merged with those that are. */
    ghost predicate Loose(h: int)
      reads this
    {
      && Core() && Conserved(chunks, live, recycled, NO_CHUNK)
      && h in live && 0 <= h < |chunks| && !chunks[h].InUse() && chunks[h].bin == -1
      && Tagged(chunks, live, h) && Separated(chunks, live, h)
    }

    lemma LooseLinks(h: int)
      requires Loose(h)
      ensures OnlyNext(chunks, live, chunks[h].prev, h) && h != NO_CHUNK && chunks[h].freedAt == 0
      ensures var n := chunks[h].next;
              n != NO_CHUNK ==>
                && n in live && 0 <= n < |chunks| && n != h && chunks[n].prev == h && chunks[n].freedAt == 0
                && OnlyNext(chunks, live, h, n) && chunks[h].End() == chunks[n].ptr && TagOk(chunks[n])
      ensures var p := chunks[h].prev;
              p != NO_CHUNK ==>
                && p in live && 0 <= p < |chunks| && p != h && chunks[p].next == h && chunks[p].freedAt == 0
                && chunks[h].next != p && chunks[p].End() == chunks[h].ptr && TagOk(chunks[p])
    {
      var cs := chunks;
      OnlyNextOf(cs, table, live, h);
      assert ChunkOk(H(), h) && NextOk(H(), h) && PrevOk(H(), h);
      var n, p := cs[h].next, cs[h].prev;
      if n != NO_CHUNK {
        OnlyNextOf(cs, table, live, n);
        assert ChunkOk(H(), n);
      }
      if p != NO_CHUNK {
        assert ChunkOk(H(), p) && NextOk(H(), p);
      }
    }

    /** If the next chunk is free, merge it into h. */
    method CoalesceNext(h: int)
      requires Loose(h)
      modifies this`chunks, this`bins, this`regions, this`table, this`freeChunksList, this`live, this`recycled
      ensures Loose(h)
      ensures chunks[h].next == NO_CHUNK || (0 <= chunks[h].next < |chunks| && chunks[chunks[h].next].InUse())
      ensures SameSpans(old(regions), regions) && SumInUse(chunks) == SumInUse(old(chunks))
      ensures UsedMap(chunks, live) == UsedMap(old(chunks), old(live))
      ensures forall a: nat :: FreeByte(chunks, live, a) <==> FreeByte(old(chunks), old(live), a)
      ensures chunks[h].size >= old(chunks)[h].size && |chunks| == |old(chunks)| && live <= old(live)
    {
      LooseLinks(h);
      var n := chunks[h].next;
      if n != NO_CHUNK && !chunks[n].InUse() && chunks[n].freedAt == 0 {
        AbsorbNext(h, n);
      }
    }

    method AbsorbNext(h: int, n: int)
      requires Loose(h) && n == chunks[h].next && n != NO_CHUNK && 0 <= n < |chunks| && !chunks[n].InUse()
      modifies this`chunks, this`bins, this`regions, this`table, this`freeChunksList, this`live, this`recycled
      ensures Loose(h)
      ensures chunks[h].next == NO_CHUNK || (0 <= chunks[h].next < |chunks| && chunks[chunks[h].next].InUse())
      ensures SameSpans(old(regions), regions) && SumInUse(chunks) == SumInUse(old(chunks))
      ensures UsedMap(chunks, live) == UsedMap(old(chunks), old(live))
      ensures forall a: nat :: FreeByte(chunks, live, a) <==> FreeByte(old(chunks), old(live), a)
      ensures chunks[h].size >= old(chunks)[h].size && |chunks| == |old(chunks)| && live <= old(live)
    {
      LooseLinks(h);
      ghost var cs, live0 := chunks, live;
      NextOfNext(h, n);
      RemoveFreeChunkFromBin(n);
      Merge(h, n);
      assert Absorbs(cs, chunks, live0, h, n, n);
      AbsorbTagged(cs, chunks, live0, h, n, n, h);
      AbsorbNextSeparated(cs, chunks, live0, h, n);
      AbsorbMaps(cs, chunks, live0, h, n, n);
      forall a: nat
        ensures FreeByte(chunks, live, a) <==> FreeByte(cs, live0, a)
      {
        AbsorbBytes(cs, chunks, live0, h, n, n, a);
      }
    }

    /** The successor of a free successor is in use. */
    lemma NextOfNext(h: int, n: int)
      requires Loose(h) && n == chunks[h].next && n != NO_CHUNK && 0 <= n < |chunks| && !chunks[n].InUse()
      ensures var n2 := chunks[n].next;
              n2 == NO_CHUNK || (n2 in live && 0 <= n2 < |chunks| && n2 != h && n2 != n && chunks[n2].InUse())
    {
      LooseLinks(h);
      assert ChunkOk(H(), n) && NextOk(H(), n) && ChunkOk(H(), h);
      var n2 := chunks[n].next;
      if n2 != NO_CHUNK {
        assert ChunkOk(H(), n2);
        assert Parted(chunks, n);
      }
    }

    method TryToCoalesce(h: int) returns (coalesced: int)
      requires Loose(h)
      modifies this`chunks, this`bins, this`regions, this`table, this`freeChunksList, this`live, this`recycled
      ensures Loose(coalesced) && Separated(chunks, live, NO_CHUNK)
      ensures SameSpans(old(regions), regions) && SumInUse(chunks) == SumInUse(old(chunks))
      ensures UsedMap(chunks, live) == UsedMap(old(chunks), old(live))
      ensures forall a: nat :: FreeByte(chunks, live, a) <==> FreeByte(old(chunks), old(live), a)
      ensures chunks[coalesced].size >= old(chunks)[h].size && |chunks| == |old(chunks)| && live <= old(live)
    {
      CoalesceNext(h);
      LooseLinks(h);
      coalesced := h;
      var p := chunks[h].prev;
      if p != NO_CHUNK && !chunks[p].InUse() && chunks[p].freedAt == 0 {
        coalesced := CoalescePrev(h, p);
      } else {
        SeparatedAlone(chunks, table, live, h);
      }
    }

    /** Merge h into its free predecessor p. */
    method CoalescePrev(h: int, p: int) returns (coalesced: int)
      requires Loose(h) && p == chunks[h].prev && p != NO_CHUNK && 0 <= p < |chunks| && !chunks[p].InUse()
      requires chunks[h].next == NO_CHUNK || (0 <= chunks[h].next < |chunks| && chunks[chunks[h].next].InUse())
      modifies this`chunks, this`bins, this`regions, this`table, this`freeChunksList, this`live, this`recycled
      ensures Loose(coalesced) && Separated(chunks, live, NO_CHUNK)
      ensures SameSpans(old(regions), regions) && SumInUse(chunks) == SumInUse(old(chunks))
      ensures UsedMap(chunks, live) == UsedMap(old(chunks), old(live))
      ensures forall a: nat :: FreeByte(chunks, live, a) <==> FreeByte(old(chunks), old(live), a)
      ensures chunks[coalesced].size >= old(chunks)[h].size && |chunks| == |old(chunks)| && live <= old(live)
    {
      LooseLinks(h);
      coalesced := p;
      RemoveFreeChunkFromBin(p);
      Merge(p, h);
      ghost var cs, live0 := old(chunks), old(live);
      assert Absorbs(cs, chunks, live0, p, h, p);
      AbsorbTagged(cs, chunks, live0, p, h, p, h);
      AbsorbPrevSeparated(cs, chunks, live0, p, h);
      AbsorbMaps(cs, chunks, live0, p, h, p);
      forall a: nat
        ensures FreeByte(chunks, live, a) <==> FreeByte(cs, live0, a)
      {
        AbsorbBytes(cs, chunks, live0, p, h, p, a);
      }
    }

    /** The invariant between the allocator's steps. */
    ghost predicate Quiet()
      reads this
    {
      && Core() && Conserved(chunks, live, recycled, NO_CHUNK)
      && Tagged(chunks, live, NO_CHUNK) && Separated(chunks, live, NO_CHUNK)
      && FitsOk(UsedMap(chunks, live), maxInternalFragmentation)
      && nextAllocationId >= 1 && IdsOk(UsedMap(chunks, live), nextAllocationId)
      && bytesInUse == SumInUse(chunks)
      && totalRegionAllocatedBytes == SumRegions(regions) <= memoryLimit
      && (memoryLimit > 0 ==> currRegionAllocationBytes > 0) && Aligned(currRegionAllocationBytes)
      && (memoryLimit > 0 ==> maxInternalFragmentation > 0)
    }

    lemma ChunkNeedsMemory(h: int)
      requires Quiet() && h in live
      ensures memoryLimit > 0
    {
      assert ChunkOk(H(), h);
      assert SlotView(regions, table, chunks[h].ptr);
      SumRegionsPositive(regions);
    }

    /** Hands out free chunk h, splitting it first when too much would be wasted. */
    method TakeChunk(h: int, roundedBytes: nat, numBytes: nat) returns (ptr: nat, ghost m: int)
      requires Quiet() && 0 < numBytes && roundedBytes == RoundedBytes(numBytes)
      requires h in live && 0 <= h < |chunks| && !chunks[h].InUse() && chunks[h].size >= roundedBytes
      modifies this`chunks, this`bins, this`regions, this`table, this`freeChunksList, this`live, this`recycled,
               this`nextAllocationId, this`bytesInUse
      ensures Quiet() && SameSpans(old(regions), regions)
      ensures ptr == old(chunks)[h].ptr
      ensures Handed(old(chunks), old(live), chunks, live, h, m, roundedBytes, numBytes, old(nextAllocationId),
                     maxInternalFragmentation)
      ensures nextAllocationId == old(nextAllocationId) + 1
      ensures |chunks| >= |old(chunks)|
    {
      ptr := chunks[h].ptr;
      ChunkNeedsMemory(h);
      // Split when the rest is as large as the request or exceeds the tolerated waste.
      if chunks[h].size >= roundedBytes * 2 || chunks[h].size - roundedBytes >= maxInternalFragmentation {
        m := TakeFront(h, roundedBytes, numBytes);
      } else {
        m := h;
        TakeAll(h, numBytes);
      }
    }

    method TakeAll(h: int, numBytes: nat)
      requires Quiet() && 0 < numBytes
      requires h in live && 0 <= h < |chunks| && !chunks[h].InUse()
      requires FitOk(Block(0, chunks[h].size, numBytes, 0), maxInternalFragmentation)
      modifies this`chunks, this`bins, this`nextAllocationId, this`bytesInUse
      ensures Quiet()
      ensures UsedMap(chunks, live) == UsedMap(old(chunks), old(live))
                [h := Block(old(chunks)[h].ptr, old(chunks)[h].size, numBytes, old(nextAllocationId))]
      ensures FreeMap(chunks, live) == FreeMap(old(chunks), old(live)) - {h}
      ensures nextAllocationId == old(nextAllocationId) + 1 && |chunks| == |old(chunks)|
    {
      UsedAdd(UsedMap(chunks, live), h, Block(chunks[h].ptr, chunks[h].size, numBytes, nextAllocationId),
              maxInternalFragmentation, nextAllocationId);
      UnbinWhole(h, numBytes);
      nextAllocationId := nextAllocationId + 1;
      bytesInUse := bytesInUse + chunks[h].size;
    }

    method TakeFront(h: int, roundedBytes: nat, numBytes: nat) returns (ghost m: int)
      requires Quiet() && 0 < numBytes && roundedBytes == RoundedBytes(numBytes)
      requires h in live && 0 <= h < |chunks| && !chunks[h].InUse() && roundedBytes < chunks[h].size
      modifies this`chunks, this`bins, this`regions, this`table, this`freeChunksList, this`live, this`recycled,
               this`nextAllocationId, this`bytesInUse
      ensures Quiet() && SameSpans(old(regions), regions)
      ensures Front(old(chunks), old(live), chunks, live, h, m, roundedBytes, numBytes, old(nextAllocationId))
      ensures nextAllocationId == old(nextAllocationId) + 1 && |chunks| >= |old(chunks)|
    {
      UsedAdd(UsedMap(chunks, live), h, Block(chunks[h].ptr, roundedBytes, numBytes, nextAllocationId),
              maxInternalFragmentation, nextAllocationId);
      m := UnbinAndSplit(h, roundedBytes, numBytes);
      SumRegionsSame(old(regions), regions);
      nextAllocationId := nextAllocationId + 1;
      bytesInUse := bytesInUse + chunks[h].size;
    }

    method UnbinWhole(h: int, numBytes: nat)
      requires Quiet() && 0 < numBytes
      requires h in live && 0 <= h < |chunks| && !chunks[h].InUse()
      modifies this`chunks, this`bins
      ensures Core() && Conserved(chunks, live, recycled, NO_CHUNK)
      ensures Tagged(chunks, live, NO_CHUNK) && Separated(chunks, live, NO_CHUNK)
      ensures UsedMap(chunks, live) == UsedMap(old(chunks), old(live))
                [h := Block(old(chunks)[h].ptr, old(chunks)[h].size, numBytes, nextAllocationId)]
      ensures FreeMap(chunks, live) == FreeMap(old(chunks), old(live)) - {h}
      ensures SumInUse(chunks) == SumInUse(old(chunks)) + old(chunks)[h].size
      ensures |chunks| == |old(chunks)| && chunks[h].size == old(chunks)[h].size
    {
      assert TagOk(chunks[h]);
      TakeWhole(chunks, live, h, numBytes, nextAllocationId);
      ghost var cs := chunks;
      RemoveFreeChunkFromBin(h);
      MarkCore(chunks, regions, table, bins, live, freeChunksList, recycled, h, numBytes, nextAllocationId);
      chunks := chunks[h := chunks[h].(requested := numBytes, allocId := nextAllocationId)];
      assert chunks == cs[h := cs[h].(bin := -1, requested := numBytes, allocId := nextAllocationId)];
    }

    method UnbinAndSplit(h: int, roundedBytes: nat, numBytes: nat) returns (ghost m: int)
      requires Core() && Conserved(chunks, live, recycled, NO_CHUNK)
      requires Tagged(chunks, live, NO_CHUNK) && Separated(chunks, live, NO_CHUNK)
      requires 0 < numBytes && Aligned(roundedBytes) && 0 < roundedBytes
      requires h in live && 0 <= h < |chunks| && !chunks[h].InUse() && roundedBytes < chunks[h].size
      modifies this`chunks, this`bins, this`regions, this`table, this`freeChunksList, this`live, this`recycled
      ensures Core() && Conserved(chunks, live, recycled, NO_CHUNK) && SameSpans(old(regions), regions)
      ensures Front(old(chunks), old(live), chunks, live, h, m, roundedBytes, numBytes, nextAllocationId)
    {
      m := SplitFree(h, roundedBytes);
      TakePart(old(chunks), chunks, old(live), h, m, roundedBytes, numBytes, nextAllocationId);
      MarkTaken(h, numBytes);
    }

    method MarkTaken(h: int, numBytes: nat)
      requires Core() && h in live && 0 <= h < |chunks| && chunks[h].bin == -1
      modifies this`chunks
      ensures Core() && chunks == Marked(old(chunks), h, numBytes, nextAllocationId)
    {
      MarkCore(chunks, regions, table, bins, live, freeChunksList, recycled, h, numBytes, nextAllocationId);
      chunks := chunks[h := chunks[h].(requested := numBytes, allocId := nextAllocationId)];
    }

    method SplitFree(h: int, roundedBytes: nat) returns (ghost m: int)
      requires Core() && Conserved(chunks, live, recycled, NO_CHUNK) && Tagged(chunks, live, NO_CHUNK)
      requires Aligned(roundedBytes) && 0 < roundedBytes
      requires h in live && 0 <= h < |chunks| && !chunks[h].InUse() && roundedBytes < chunks[h].size
      modifies this`chunks, this`bins, this`regions, this`table, this`freeChunksList, this`live, this`recycled
      ensures Core() && Conserved(chunks, live, recycled, NO_CHUNK)
      ensures FreeSplit(old(chunks), chunks, old(live), h, m, roundedBytes) && live == old(live) + {m}
      ensures SameSpans(old(regions), regions)
    {
      LinksLive(chunks, table, live);
      assert TagOk(chunks[h]) && ChunkOk(H(), h);
      RemoveFreeChunkFromBin(h);
      m := SplitChunk(h, roundedBytes);
    }

    /** Searches the bins from binNum up for the smallest chunk that holds the request. */
    method FindBestChunk(binNum: nat, roundedBytes: nat) returns (h: int)
      requires Quiet() && binNum == BinNumForSize(roundedBytes)
      ensures h == NO_CHUNK <==> forall g :: g in FreeMap(chunks, live) ==> FreeMap(chunks, live)[g].size < roundedBytes
      ensures h != NO_CHUNK ==> BestFit(FreeMap(chunks, live), h, roundedBytes)
      ensures h != NO_CHUNK ==> h in live && 0 <= h < |chunks| && !chunks[h].InUse() && chunks[h].ptr > 0
    {
      ghost var free := FreeMap(chunks, live);
      LowerBinsTooSmall(roundedBytes);
      var b := binNum;
      while b < NUM_BINS
        invariant binNum <= b <= NUM_BINS
        invariant forall g {:trigger free[g]} :: g in free && chunks[g].bin < b ==> chunks[g].size < roundedBytes
      {
        assert BinOk(chunks, live, bins[b], b);
        var k := 0;
        while k < |bins[b]|
          invariant 0 <= k <= |bins[b]|
          invariant forall i :: 0 <= i < k ==> 0 <= bins[b][i] < |chunks| && chunks[bins[b][i]].size < roundedBytes
        {
          h := bins[b][k];
          if chunks[h].size >= roundedBytes {
            FirstFitIsBest(chunks, bins, live, b, k, roundedBytes);
            NonNull(h);
            return;
          }
          k := k + 1;
        }
        ExhaustedBin(b, roundedBytes);
        b := b + 1;
      }
      forall g | g in free
        ensures free[g].size < roundedBytes
      {
        assert TagOk(chunks[g]);
      }
      h := NO_CHUNK;
    }

    /** Takes the best-fitting free chunk; null when no free chunk holds the request. */
    method FindChunkPtr(binNum: nat, roundedBytes: nat, numBytes: nat) returns (ptr: nat, ghost h: int, ghost m: int)
      requires Quiet() && 0 < numBytes && roundedBytes == RoundedBytes(numBytes)
               && binNum == BinNumForSize(roundedBytes)
      modifies this`chunks, this`bins, this`regions, this`table, this`freeChunksList, this`live, this`recycled,
               this`nextAllocationId, this`bytesInUse
      ensures Quiet() && SameSpans(old(regions), regions) && |chunks| >= |old(chunks)|
      ensures ptr == 0 <==> forall g :: g in FreeMap(old(chunks), old(live)) ==>
                                FreeMap(old(chunks), old(live))[g].size < roundedBytes
      ensures ptr == 0 ==> chunks == old(chunks) && live == old(live) && regions == old(regions) && table == old(table)
                           && nextAllocationId == old(nextAllocationId) && bytesInUse == old(bytesInUse)
      ensures ptr != 0 ==>
                && BestFit(FreeMap(old(chunks), old(live)), h, roundedBytes)
                && ptr == FreeMap(old(chunks), old(live))[h].ptr
                && nextAllocationId == old(nextAllocationId) + 1
                && Handed(old(chunks), old(live), chunks, live, h, m, roundedBytes, numBytes, old(nextAllocationId),
                          maxInternalFragmentation)
    {
      ptr, m := 0, NO_CHUNK;
      var c := FindBestChunk(binNum, roundedBytes);
      h := c;
      if c != NO_CHUNK {
        ptr, m := TakeChunk(c, roundedBytes, numBytes);
      }
    }

    lemma NonNull(c: int)
      requires Core() && c in live && 0 <= c < |chunks|
      ensures chunks[c].ptr > 0
    {
      assert ChunkOk(H(), c);
      assert SlotOk(table, chunks[c].ptr);
    }

    lemma LowerBinsTooSmall(roundedBytes: nat)
      requires Quiet()
      ensures forall g {:trigger FreeMap(chunks, live)[g]} ::
                g in FreeMap(chunks, live) && chunks[g].bin < BinNumForSize(roundedBytes) ==>
                    chunks[g].size < roundedBytes
    {
      forall g | g in FreeMap(chunks, live) && chunks[g].bin < BinNumForSize(roundedBytes)
        ensures chunks[g].size < roundedBytes
      {
        assert TagOk(chunks[g]);
        if chunks[g].size >= roundedBytes {
          BinNumMonotone(roundedBytes, chunks[g].size);
          assert false;
        }
      }
    }

    lemma ExhaustedBin(b: nat, roundedBytes: nat)
      requires Quiet() && b < NUM_BINS
      requires forall i :: 0 <= i < |bins[b]| ==> 0 <= bins[b][i] < |chunks| && chunks[bins[b][i]].size < roundedBytes
      requires forall g {:trigger FreeMap(chunks, live)[g]} ::
                 g in FreeMap(chunks, live) && chunks[g].bin < b ==> chunks[g].size < roundedBytes
      ensures forall g {:trigger FreeMap(chunks, live)[g]} ::
                g in FreeMap(chunks, live) && chunks[g].bin < b + 1 ==> chunks[g].size < roundedBytes
    {
      assert BinOk(chunks, live, bins[b], b);
      forall g | g in FreeMap(chunks, live) && chunks[g].bin < b + 1
        ensures chunks[g].size < roundedBytes
      {
        if chunks[g].bin == b {
          assert Holds(chunks, live, bins[b], b, g);
        } else {
          var r := FreeMap(chunks, live)[g];
        }
      }
    }

    /** Files a loose chunk that has no free neighbour. */
    method FileChunk(h: int)
      requires Loose(h) && Separated(chunks, live, NO_CHUNK)
      modifies this`chunks, this`bins
      ensures Core() && Conserved(chunks, live, recycled, NO_CHUNK)
      ensures Tagged(chunks, live, NO_CHUNK) && Separated(chunks, live, NO_CHUNK)
      ensures UsedMap(chunks, live) == UsedMap(old(chunks), live)
      ensures FreeMap(chunks, live) == FreeMap(old(chunks), live)
      ensures SumInUse(chunks) == SumInUse(old(chunks)) && |chunks| == |old(chunks)|
    {
      FileTagged(chunks, live, h);
      InsertFreeChunkIntoBin(h);
    }

    /** Merges a loose chunk with its free neighbours and files the result. */
    method Settle(h: int)
      requires Loose(h)
      modifies this`chunks, this`bins, this`regions, this`table, this`freeChunksList, this`live, this`recycled
      ensures Core() && Conserved(chunks, live, recycled, NO_CHUNK)
      ensures Tagged(chunks, live, NO_CHUNK) && Separated(chunks, live, NO_CHUNK)
      ensures SameSpans(old(regions), regions) && SumRegions(regions) == SumRegions(old(regions))
      ensures Kept(old(chunks), old(live), chunks, live)
      ensures SumInUse(chunks) == SumInUse(old(chunks)) && |chunks| == |old(chunks)|
      ensures exists g :: g in FreeMap(chunks, live) && FreeMap(chunks, live)[g].size >= old(chunks)[h].size
    {
      var c := TryToCoalesce(h);
      assert c in FreeMap(chunks, live) && FreeMap(chunks, live)[c].size >= old(chunks)[h].size;
      FileChunk(c);
      SumRegionsSame(old(regions), regions);
    }

    /** Frees the chunk that the table records for ptr, merging it with free neighbours. */
    method DeallocateRaw(ptr: nat) returns (outcome: FreeOutcome)
      requires Valid()
      requires ptr == 0 || UpperBound(regions, ptr) == |regions| || Covered(regions, ptr)
      modifies this`chunks, this`bins, this`regions, this`table, this`freeChunksList, this`live, this`recycled,
               this`bytesInUse
      ensures Valid() && SameSpans(old(regions), regions) && |chunks| == |old(chunks)|
      ensures outcome == Ignored <==> ptr == 0 || GetHandle(old(regions), ptr) == 0
      ensures outcome == Freed <==> ptr != 0 && GetHandle(old(regions), ptr) != 0
                                    && GetHandle(old(regions), ptr) in UsedMap(old(chunks), old(live))
      ensures outcome != Freed ==> chunks == old(chunks) && live == old(live) && bytesInUse == old(bytesInUse)
      ensures outcome == Freed ==>
                var h := GetHandle(old(regions), ptr);
                var b := UsedMap(old(chunks), old(live))[h];
                && UsedMap(chunks, live) == UsedMap(old(chunks), old(live)) - {h}
                && bytesInUse == old(bytesInUse) - b.size
                && (forall a: nat :: FreeByte(chunks, live, a) <==>
                                       FreeByte(old(chunks), old(live), a) || b.ptr <= a < b.ptr + b.size)
    {
      if ptr == 0 {
        return Ignored;
      }
      var h := GetHandle(regions, ptr);
      if h == 0 {
        return Ignored;
      }
      if h == NO_CHUNK {
        return Rejected;
      }
      RecordedHandle(ptr);
      if !chunks[h].InUse() {
        return Rejected;
      }
      outcome := Freed;
      Release(h);
    }

    /** A handle found in a table is live. */
    lemma RecordedHandle(ptr: nat)
      requires Core() && Covered(regions, ptr) && GetHandle(regions, ptr) != NO_CHUNK
      ensures var h := GetHandle(regions, ptr);
              h in live && 0 <= h < |chunks| && chunks[h].ptr == SlotBase(regions, ptr)
    {
      SlotBaseOf(regions, table, ptr);
      assert EntryOk(H(), SlotBase(regions, ptr));
    }

    method Release(h: int)
      requires Quiet() && h in live && 0 <= h < |chunks| && chunks[h].InUse()
      modifies this`chunks, this`bins, this`regions, this`table, this`freeChunksList, this`live, this`recycled,
               this`bytesInUse
      ensures Quiet() && SameSpans(old(regions), regions) && |chunks| == |old(chunks)|
      ensures UsedMap(chunks, live) == UsedMap(old(chunks), old(live)) - {h}
      ensures bytesInUse == old(bytesInUse) - old(chunks)[h].size
      ensures forall a: nat :: FreeByte(chunks, live, a) <==>
                FreeByte(old(chunks), old(live), a) || old(chunks)[h].ptr <= a < old(chunks)[h].End()
    {
      UsedRemove(UsedMap(chunks, live), h, maxInternalFragmentation, nextAllocationId);
      MarkFree(h);
      Settle(h);
    }

    /** Marks the chunk as no longer in use and updates the byte counter. */
    method MarkFree(h: int)
      requires Quiet() && h in live && 0 <= h < |chunks| && chunks[h].InUse()
      modifies this`chunks, this`bytesInUse
      ensures Loose(h) && bytesInUse == SumInUse(chunks) && |chunks| == |old(chunks)|
      ensures UsedMap(chunks, live) == UsedMap(old(chunks), live) - {h}
      ensures bytesInUse == old(bytesInUse) - old(chunks)[h].size
      ensures forall a: nat :: FreeByte(chunks, live, a) <==>
                FreeByte(old(chunks), live, a) || old(chunks)[h].ptr <= a < old(chunks)[h].End()
    {
      ghost var cs := chunks;
      MarkFreed(chunks, live, h);
      MarkCore(chunks, regions, table, bins, live, freeChunksList, recycled, h, chunks[h].requested, -1);
      chunks := chunks[h := chunks[h].(allocId := -1)];
      bytesInUse := bytesInUse - chunks[h].size;
      forall a: nat
        ensures FreeByte(chunks, live, a) <==> FreeByte(cs, live, a) || cs[h].ptr <= a < cs[h].End()
      {
        MarkFreedBytes(cs, live, h, a);
      }
    }

    /** How many bytes may still be asked for. */
    function AvailableBytes(): nat
      requires totalRegionAllocatedBytes <= memoryLimit
      reads this
    {
      (memoryLimit - totalRegionAllocatedBytes) / 256 * 256
    }

    /** The size of the region asked for: the current one, doubled as needed, or all that is available. */
    ghost function Asked(total: nat, current: nat, roundedBytes: nat): nat
      requires total <= memoryLimit && current > 0
    {
      Min(GrownSize(current, roundedBytes), (memoryLimit - total) / 256 * 256)
    }

    /** The current region size after a refusal: grown if the limit allowed asking at all. */
    ghost function Refused(total: nat, current: nat, roundedBytes: nat): nat
      requires roundedBytes <= memoryLimit - total ==> current > 0
    {
      if roundedBytes <= memoryLimit - total then GrownSize(current, roundedBytes) else current
    }

    /** The region total after a request for a region, if any succeeded. */
    ghost predicate Reached(before: nat, after: nat, ok: bool, current: nat, roundedBytes: nat) {
      if ok then before <= memoryLimit && current > 0 && after == before + Asked(before, current, roundedBytes)
      else after == before
    }

    /** A refused request does not change the size asked for next. */
    lemma AskedAgain(before: nat, total: nat, current: nat, roundedBytes: nat)
      requires memoryLimit > 0 ==> current > 0
      requires 0 < roundedBytes
      ensures memoryLimit > 0 ==> Refused(before, current, roundedBytes) > 0
      ensures memoryLimit > 0 && total <= memoryLimit ==>
                Asked(total, Refused(before, current, roundedBytes), roundedBytes) ==
                Asked(total, current, roundedBytes)
    {
    }

    lemma AvailableFits(roundedBytes: nat)
      requires Aligned(roundedBytes) && totalRegionAllocatedBytes <= memoryLimit
      ensures Aligned(AvailableBytes()) && AvailableBytes() <= memoryLimit - totalRegionAllocatedBytes
      ensures roundedBytes <= AvailableBytes() <==> roundedBytes <= memoryLimit - totalRegionAllocatedBytes
    {
    }

    /** Tries to add a region that can serve roundedBytes; false when the limit or the sub-allocator refuses. */
    method Extend(roundedBytes: nat, willing: bool) returns (ok: bool, grant: Run)
      requires Quiet() && 0 < roundedBytes && Aligned(roundedBytes)
      modifies this`chunks, this`bins, this`regions, this`table, this`freeChunksList, this`live, this`recycled,
               this`currRegionAllocationBytes, this`totalRegionAllocatedBytes
      ensures Quiet() && |old(chunks)| <= |chunks| <= |old(chunks)| + 1
      ensures ok <==> willing && roundedBytes <= memoryLimit - old(totalRegionAllocatedBytes)
      ensures UsedMap(chunks, live) == UsedMap(old(chunks), old(live))
      ensures !ok ==> chunks == old(chunks) && live == old(live) && regions == old(regions) && table == old(table)
                      && totalRegionAllocatedBytes == old(totalRegionAllocatedBytes)
                      && currRegionAllocationBytes ==
                           Refused(old(totalRegionAllocatedBytes), old(currRegionAllocationBytes), roundedBytes)
      ensures ok ==>
                && roundedBytes <= grant.size && SpanFree(old(regions), grant.ptr, grant.size)
                && grant.size == Asked(old(totalRegionAllocatedBytes), old(currRegionAllocationBytes), roundedBytes)
                && totalRegionAllocatedBytes == old(totalRegionAllocatedBytes) + grant.size
                && (exists h :: h in FreeMap(chunks, live) && FreeMap(chunks, live)[h].size >= grant.size)
                && (forall a: nat :: FreeByte(chunks, live, a) <==>
                      FreeByte(old(chunks), old(live), a) || grant.ptr <= a < grant.ptr + grant.size)
    {
      grant := ObtainGrant(roundedBytes, willing);
      ok := grant.size != 0;
      if ok {
        AddGrant(grant.ptr, grant.size);
      }
    }

    /** Asks the sub-allocator for a region; an empty grant when the limit or the sub-allocator refuses. */
    method ObtainGrant(roundedBytes: nat, willing: bool) returns (grant: Run)
      requires Quiet() && 0 < roundedBytes && Aligned(roundedBytes)
      modifies this`currRegionAllocationBytes
      ensures Quiet()
      ensures grant.size != 0 <==> willing && roundedBytes <= memoryLimit - totalRegionAllocatedBytes
      ensures grant.size != 0 ==>
                && roundedBytes <= grant.size && Aligned(grant.size) && 0 < grant.ptr
                && SpanFree(regions, grant.ptr, grant.size)
                && grant.size <= memoryLimit - totalRegionAllocatedBytes
                && grant.size == Asked(totalRegionAllocatedBytes, old(currRegionAllocationBytes), roundedBytes)
      ensures roundedBytes > memoryLimit - totalRegionAllocatedBytes ==>
                currRegionAllocationBytes == old(currRegionAllocationBytes)
      ensures roundedBytes <= memoryLimit - totalRegionAllocatedBytes ==>
                var grown := GrownSize(old(currRegionAllocationBytes), roundedBytes);
                currRegionAllocationBytes ==
                  if willing && grown == old(currRegionAllocationBytes) then 2 * grown else grown
    {
      grant := Run(0, 0);
      AvailableFits(roundedBytes);
      var availableBytes := AvailableBytes();
      if roundedBytes > availableBytes {
        return;
      }
      AlignedDoubling();
      grant := AskFor(roundedBytes, availableBytes, willing);
    }

    /** The request for a region of the current size, doubled as needed, or of all that is available. */
    method AskFor(roundedBytes: nat, availableBytes: nat, willing: bool) returns (grant: Run)
      requires currRegionAllocationBytes > 0 && Aligned(currRegionAllocationBytes)
      requires 0 < roundedBytes <= availableBytes && Aligned(availableBytes)
      modifies this`currRegionAllocationBytes
      ensures grant.size != 0 <==> willing
      ensures willing ==>
                && 0 < grant.ptr && SpanFree(regions, grant.ptr, grant.size) && Aligned(grant.size)
                && grant.size == Min(GrownSize(old(currRegionAllocationBytes), roundedBytes), availableBytes)
      ensures var grown := GrownSize(old(currRegionAllocationBytes), roundedBytes);
              currRegionAllocationBytes ==
                if willing && grown == old(currRegionAllocationBytes) then 2 * grown else grown
    {
      grant := Run(0, 0);
      var increasedAllocation := GrowRegionRequest(roundedBytes);
      var bytes := Min(currRegionAllocationBytes, availableBytes);
      var memAddr := SubAllocate(bytes, regions, willing);
      if memAddr == 0 {
        return;
      }
      if !increasedAllocation {
        // Increase the region size of the next required allocation.
        currRegionAllocationBytes := currRegionAllocationBytes * 2;
      }
      grant := Run(memAddr, bytes);
    }

    lemma AlignedDoubling()
      ensures forall n: nat :: Aligned(n) ==> Aligned(2 * n)
    {
    }

    /** Doubles the size of the next region until it can hold the request. */
    method GrowRegionRequest(roundedBytes: nat) returns (increased: bool)
      requires currRegionAllocationBytes > 0 && Aligned(currRegionAllocationBytes)
      modifies this`currRegionAllocationBytes
      ensures currRegionAllocationBytes == GrownSize(old(currRegionAllocationBytes), roundedBytes)
      ensures increased <==> roundedBytes > old(currRegionAllocationBytes)
    {
      increased := false;
      while roundedBytes > currRegionAllocationBytes
        invariant currRegionAllocationBytes > 0
        invariant GrownSize(currRegionAllocationBytes, roundedBytes)
               == GrownSize(old(currRegionAllocationBytes), roundedBytes)
        invariant currRegionAllocationBytes >= old(currRegionAllocationBytes)
        invariant increased <==> currRegionAllocationBytes > old(currRegionAllocationBytes)
        invariant increased ==> roundedBytes > old(currRegionAllocationBytes)
        decreases roundedBytes - currRegionAllocationBytes
      {
        currRegionAllocationBytes := currRegionAllocationBytes * 2;
        increased := true;
      }
    }

    /** Registers a grant and makes it one free chunk, joined to what precedes it when regions coalesce. */
    method AddGrant(memAddr: nat, bytes: nat)
      requires Quiet() && 0 < memAddr && 0 < bytes && Aligned(bytes) && SpanFree(regions, memAddr, bytes)
      requires totalRegionAllocatedBytes + bytes <= memoryLimit
      modifies this`chunks, this`bins, this`regions, this`table, this`freeChunksList, this`live, this`recycled,
               this`totalRegionAllocatedBytes
      ensures Quiet() && |old(chunks)| <= |chunks| <= |old(chunks)| + 1
      ensures totalRegionAllocatedBytes == old(totalRegionAllocatedBytes) + bytes
      ensures Gained(old(chunks), old(live), chunks, live, memAddr, bytes)
      ensures exists h :: h in FreeMap(chunks, live) && FreeMap(chunks, live)[h].size >= bytes
    {
      totalRegionAllocatedBytes := totalRegionAllocatedBytes + bytes;
      var last := LastBefore(memAddr);
      var h := PlaceGrant(memAddr, bytes, last);
      ghost var cs, live0 := chunks, live;
      Settle(h);
      GainedKept(old(chunks), old(live), cs, live0, chunks, live, memAddr, bytes);
    }

    /** When regions coalesce and one ends at memAddr, its last chunk. */
    method LastBefore(memAddr: nat) returns (last: int)
      requires Core()
      ensures last == NO_CHUNK || (last in live && 0 <= last < |chunks| && chunks[last].next == NO_CHUNK)
      ensures last != NO_CHUNK ==>
                && coalesceRegions && chunks[last].End() == memAddr && chunks[last].ptr in table
                && 0 < UpperBound(regions, memAddr)
                && regions[UpperBound(regions, memAddr) - 1].End() == memAddr
                && table[chunks[last].ptr].base == regions[UpperBound(regions, memAddr) - 1].ptr
      ensures last == NO_CHUNK ==>
                !(coalesceRegions && 0 < UpperBound(regions, memAddr)
                  && regions[UpperBound(regions, memAddr) - 1].End() == memAddr)
    {
      last := NO_CHUNK;
      var i := UpperBound(regions, memAddr);
      if coalesceRegions && i > 0 && regions[i - 1].End() == memAddr {
        last := FindLastChunk(i - 1);
        assert NextOk(H(), last) && last != NO_CHUNK;
      }
    }

    /** The last recorded chunk of region i. */
    method FindLastChunk(i: nat) returns (last: int)
      requires Core() && i < |regions|
      ensures last in live && 0 <= last < |chunks| && chunks[last].next == NO_CHUNK
      ensures chunks[last].ptr in table && table[chunks[last].ptr].base == regions[i].ptr
      ensures chunks[last].End() == regions[i].End()
    {
      last := FirstChunk(i);
      while chunks[last].next != NO_CHUNK
        invariant InSpan(H(), last, regions[i].ptr)
        decreases regions[i].End() - chunks[last].ptr
      {
        StepInSpan(i, last);
        last := chunks[last].next;
      }
      StepInSpan(i, last);
    }

    /** The chunk at the start of region i. */
    method FirstChunk(i: nat) returns (h: int)
      requires Core() && i < |regions|
      ensures InSpan(H(), h, regions[i].ptr) && chunks[h].ptr == regions[i].ptr && h != NO_CHUNK
    {
      RepresentsStart(regions, table, i);
      assert StartOk(H(), regions[i].ptr) && EntryOk(H(), regions[i].ptr);
      assert regions[i].WellFormed();
      h := HandleAt(regions, regions[i].ptr);
    }

    lemma StepInSpan(i: nat, h: int)
      requires Core() && i < |regions| && InSpan(H(), h, regions[i].ptr)
      ensures regions[i].ptr <= chunks[h].ptr < chunks[h].End() <= regions[i].End()
      ensures chunks[h].next == NO_CHUNK ==> chunks[h].End() == regions[i].End()
      ensures chunks[h].next != NO_CHUNK ==>
                InSpan(H(), chunks[h].next, regions[i].ptr) && chunks[chunks[h].next].ptr == chunks[h].End()
    {
      assert ChunkOk(H(), h) && NextOk(H(), h);
      RepresentsStart(regions, table, i);
      RepresentsWf(regions, table);
      SpanOf(table, chunks[h].ptr);
      assert SlotOk(table, chunks[h].ptr);
      var n := chunks[h].next;
      if n != NO_CHUNK {
        assert ChunkOk(H(), n);
        assert SlotOk(table, chunks[n].ptr);
        SlotWithin(table, chunks[h].ptr, chunks[n].ptr);
      }
    }

    method PlaceGrant(memAddr: nat, bytes: nat, last: int) returns (h: int)
      requires Core() && Conserved(chunks, live, recycled, NO_CHUNK)
      requires Tagged(chunks, live, NO_CHUNK) && Separated(chunks, live, NO_CHUNK)
      requires 0 < memAddr && 0 < bytes && Aligned(bytes) && SpanFree(regions, memAddr, bytes)
      requires last == NO_CHUNK || (last in live && 0 <= last < |chunks| && chunks[last].next == NO_CHUNK)
      requires last != NO_CHUNK ==>
                 && chunks[last].End() == memAddr && chunks[last].ptr in table
                 && 0 < UpperBound(regions, memAddr)
                 && regions[UpperBound(regions, memAddr) - 1].End() == memAddr
                 && table[chunks[last].ptr].base == regions[UpperBound(regions, memAddr) - 1].ptr
      modifies this`chunks, this`regions, this`table, this`freeChunksList, this`live, this`recycled
      ensures Loose(h) && chunks[h].size == bytes && |old(chunks)| <= |chunks| <= |old(chunks)| + 1
      ensures SumRegions(regions) == SumRegions(old(regions)) + bytes && SumInUse(chunks) == SumInUse(old(chunks))
      ensures Gained(old(chunks), old(live), chunks, live, memAddr, bytes)
    {
      // The record is taken first; it does not depend on the regions.
      h := AllocateChunk();
      LinksLive(chunks, table, live);
      TaggedAppend(old(chunks), chunks, live);
      FillGrant(memAddr, bytes, last, h);
    }

    /** Makes a record that is not in use the free chunk of a grant. */
    method FillGrant(memAddr: nat, bytes: nat, last: int, h: int)
      requires Core() && Conserved(chunks, live, recycled, h)
      requires 0 <= h < |chunks| && h !in live && h !in recycled && !chunks[h].InUse() && chunks[h].bin == -1
      requires Tagged(chunks, live, NO_CHUNK) && Separated(chunks, live, NO_CHUNK)
      requires 0 < memAddr && 0 < bytes && Aligned(bytes) && SpanFree(regions, memAddr, bytes)
      requires last == NO_CHUNK || (last in live && 0 <= last < |chunks| && chunks[last].next == NO_CHUNK)
      requires last != NO_CHUNK ==>
                 && chunks[last].End() == memAddr && chunks[last].ptr in table
                 && 0 < UpperBound(regions, memAddr)
                 && regions[UpperBound(regions, memAddr) - 1].End() == memAddr
                 && table[chunks[last].ptr].base == regions[UpperBound(regions, memAddr) - 1].ptr
      modifies this`chunks, this`regions, this`table, this`live
      ensures Loose(h) && chunks[h].size == bytes && |chunks| == |old(chunks)|
      ensures SumRegions(regions) == SumRegions(old(regions)) + bytes && SumInUse(chunks) == SumInUse(old(chunks))
      ensures Gained(old(chunks), old(live), chunks, live, memAddr, bytes)
    {
      ghost var cs, live0 := chunks, live;
      LinksLive(cs, table, live);
      AddTiling(cs, regions, table, live, h, last, memAddr, bytes);
      AddLists(cs, bins, live, freeChunksList, recycled, h, last, memAddr, bytes);
      RegisterGrant(memAddr, bytes, last, h);
      AddFree(cs, chunks, live0, h, last, memAddr, bytes);
    }

    /** Adds or extends the region of a grant, fills in its record h, and links it after last. */
    method RegisterGrant(memAddr: nat, bytes: nat, last: int, h: int)
      requires RegionsOk(regions) && Represents(regions, table)
      requires 0 < memAddr && 0 < bytes && Aligned(bytes) && SpanFree(regions, memAddr, bytes)
      requires 0 <= h < |chunks| && (last == NO_CHUNK || (0 <= last < |chunks| && last != h))
      requires last != NO_CHUNK ==>
                 && chunks[last].ptr in table && 0 < UpperBound(regions, memAddr)
                 && regions[UpperBound(regions, memAddr) - 1].End() == memAddr
                 && table[chunks[last].ptr].base == regions[UpperBound(regions, memAddr) - 1].ptr
      modifies this`chunks, this`regions, this`table, this`live
      ensures chunks == AddChunks(old(chunks)[h := GrantChunk(old(chunks)[h], memAddr, bytes)], h, last)
      ensures live == old(live) + {h}
      ensures var base := if last == NO_CHUNK then memAddr else old(table[chunks[last].ptr].base);
              table == WithHandle(GrownTable(old(table), base, memAddr, bytes), memAddr, h)
      ensures RegionsOk(regions) && Represents(regions, table)
      ensures SumRegions(regions) == SumRegions(old(regions)) + bytes
    {
      ghost var base := if last == NO_CHUNK then memAddr else table[chunks[last].ptr].base;
      RegisterRegion(memAddr, bytes, last != NO_CHUNK, base);

      chunks := chunks[h := chunks[h].(ptr := memAddr, size := bytes, allocId := -1,
                                       prev := NO_CHUNK, next := NO_CHUNK, freedAt := 0)];
      RepresentsSetHandle(regions, table, memAddr, h);
      SumRegionsSame(regions, SetHandle(regions, memAddr, h));
      regions, table := SetHandle(regions, memAddr, h), WithHandle(table, memAddr, h);
      if last != NO_CHUNK {
        chunks := chunks[h := chunks[h].(prev := last)];
        chunks := chunks[last := chunks[last].(next := h)];
      }
      live := live + {h};
    }

    /** Inserts a region for the grant, or extends the one that ends where the grant begins. */
    method RegisterRegion(memAddr: nat, bytes: nat, extend: bool, ghost base: nat)
      requires RegionsOk(regions) && Represents(regions, table)
      requires 0 < memAddr && 0 < bytes && Aligned(bytes) && SpanFree(regions, memAddr, bytes)
      requires extend ==>
                 && 0 < UpperBound(regions, memAddr)
                 && regions[UpperBound(regions, memAddr) - 1].End() == memAddr
                 && base == regions[UpperBound(regions, memAddr) - 1].ptr
      requires !extend ==> base == memAddr
      modifies this`regions, this`table
      ensures table == GrownTable(old(table), base, memAddr, bytes) && memAddr in table
      ensures RegionsOk(regions) && Represents(regions, table)
      ensures SumRegions(regions) == SumRegions(old(regions)) + bytes
    {
      var i := UpperBound(regions, memAddr);
      if extend {
        RepresentsExtended(regions, table, i - 1, bytes);
        SumRegionsExtended(regions, i - 1, bytes);
        regions := Extended(regions, i - 1, bytes);
      } else {
        var r := Region(memAddr, bytes, NewTable(bytes));
        RepresentsInsert(regions, table, r);
        SumRegionsInsert(regions, r);
        regions := Insert(regions, r);
      }
      table := GrownTable(table, base, memAddr, bytes);
    }

    /** Blank records at the end of the vector concern no live chunk. */
    lemma TaggedAppend(cs: seq<Chunk>, cs': seq<Chunk>, lv: set<int>)
      requires cs' == cs || cs' == cs + [FreshChunk]
      requires forall g :: g in lv ==> 0 <= g < |cs|
      requires Tagged(cs, lv, NO_CHUNK) && Separated(cs, lv, NO_CHUNK)
      requires LinksIn(cs', lv)
      ensures Tagged(cs', lv, NO_CHUNK) && Separated(cs', lv, NO_CHUNK)
      ensures UsedMap(cs', lv) == UsedMap(cs, lv) && FreeMap(cs', lv) == FreeMap(cs, lv)
    {
      forall g | g in lv && 0 <= g < |cs'|
        ensures TagOk(cs'[g]) && Parted(cs', g)
      {
        assert TagOk(cs[g]) && Parted(cs, g) && LinkIn(cs', lv, g);
      }
    }

    /** Gives the memory of idle regions back so that a larger region can be had. */
    method DeallocateFreeRegions(roundedBytes: nat) returns (freed: bool)
      requires Quiet()
      modifies this`chunks, this`bins, this`regions, this`table, this`freeChunksList, this`live, this`recycled,
               this`totalRegionAllocatedBytes
      ensures Quiet() && |chunks| == |old(chunks)| && (old(Valid()) ==> Valid())
      ensures UsedMap(chunks, live) == UsedMap(old(chunks), old(live))
      ensures freed <==> old(Collectable(roundedBytes))
      ensures freed ==> totalRegionAllocatedBytes == old(BusyBytes())
      ensures !freed ==> chunks == old(chunks) && live == old(live) && regions == old(regions) && table == old(table)
                         && totalRegionAllocatedBytes == old(totalRegionAllocatedBytes)
    {
      if !garbageCollection {
        return false;
      }
      var freeRegionPtrs, totalFreeBytes := FindIdleRegions();
      if totalFreeBytes == 0 {
        return false;
      }
      // Rough estimation to check whether deallocation can help.
      var availableBytes := memoryLimit - totalRegionAllocatedBytes + totalFreeBytes;
      if roundedBytes > availableBytes {
        return false;
      }
      DeallocateRegions(freeRegionPtrs);
      return true;
    }

    /** The starts and total size of the regions without a chunk in use. */
    method FindIdleRegions() returns (freeRegionPtrs: set<nat>, totalFreeBytes: nat)
      requires Quiet()
      ensures forall p :: p in freeRegionPtrs ==> !Busy(UsedMap(chunks, live), table, p)
      ensures totalFreeBytes == SumRegions(regions) - SumBusy(regions, UsedMap(chunks, live), table)
      ensures SumKept(regions, freeRegionPtrs) == SumBusy(regions, UsedMap(chunks, live), table)
    {
      ghost var used := UsedMap(chunks, live);
      freeRegionPtrs, totalFreeBytes := {}, 0;
      var i := 0;
      while i < |regions|
        invariant 0 <= i <= |regions|
        invariant IdleStarts(regions[..i], freeRegionPtrs, used, table)
        invariant totalFreeBytes == SumRegions(regions[..i]) - SumKept(regions[..i], freeRegionPtrs)
      {
        freeRegionPtrs, totalFreeBytes := NoteRegion(i, freeRegionPtrs, totalFreeBytes);
        i := i + 1;
      }
      assert regions[..i] == regions;
      SumKeptBusy(regions, freeRegionPtrs, used, table);
    }

    /** Lists region i and counts its bytes if it is idle. */
    method NoteRegion(i: nat, ptrs: set<nat>, bytes: nat) returns (more: set<nat>, moreBytes: nat)
      requires Quiet() && i < |regions| && IdleStarts(regions[..i], ptrs, UsedMap(chunks, live), table)
      requires bytes == SumRegions(regions[..i]) - SumKept(regions[..i], ptrs)
      ensures IdleStarts(regions[..i + 1], more, UsedMap(chunks, live), table)
      ensures moreBytes == SumRegions(regions[..i + 1]) - SumKept(regions[..i + 1], more)
    {
      var anyUse := RegionInUse(i);
      more := if anyUse then ptrs else ptrs + {regions[i].ptr};
      moreBytes := if anyUse then bytes else bytes + regions[i].size;
      StartNotListed(i, ptrs, UsedMap(chunks, live));
      SumKeptFrame(regions, i, ptrs, more);
      IdleMore(regions[..i], regions[i], ptrs, UsedMap(chunks, live), table, anyUse);
      assert regions[..i + 1] == regions[..i] + [regions[i]];
    }

    lemma IdleMore(rs: seq<Region>, r: Region, ptrs: set<nat>, used: map<int, Block>, t: Table, anyUse: bool)
      requires IdleStarts(rs, ptrs, used, t) && r.ptr !in ptrs && (anyUse <==> Busy(used, t, r.ptr))
      requires forall j :: 0 <= j < |rs| ==> rs[j].ptr != r.ptr
      ensures IdleStarts(rs + [r], if anyUse then ptrs else ptrs + {r.ptr}, used, t)
    {
      var all, more := rs + [r], if anyUse then ptrs else ptrs + {r.ptr};
      forall i | 0 <= i < |all|
        ensures all[i].ptr in more <==> !Busy(used, t, all[i].ptr)
      {
        assert i < |rs| ==> (rs[i].ptr in ptrs <==> !Busy(used, t, rs[i].ptr));
      }
      forall p | p in more
        ensures exists i :: 0 <= i < |all| && all[i].ptr == p
      {
        if p in ptrs {
          var i :| 0 <= i < |rs| && rs[i].ptr == p;
          assert all[i].ptr == p;
        } else {
          assert all[|rs|].ptr == p;
        }
      }
    }

    ghost predicate IdleStarts(rs: seq<Region>, ptrs: set<nat>, used: map<int, Block>, t: Table) {
      && (forall i {:trigger rs[i].ptr in ptrs} :: 0 <= i < |rs| ==> (rs[i].ptr in ptrs <==> !Busy(used, t, rs[i].ptr)))
      && (forall p :: p in ptrs ==> exists i :: 0 <= i < |rs| && rs[i].ptr == p)
    }

    lemma StartNotListed(i: nat, ptrs: set<nat>, used: map<int, Block>)
      requires RegionsOk(regions) && i < |regions| && IdleStarts(regions[..i], ptrs, used, table)
      ensures regions[i].ptr !in ptrs
      ensures forall j :: 0 <= j < i ==> regions[..i][j].ptr != regions[i].ptr
    {
      forall j | 0 <= j < i
        ensures regions[..i][j].ptr != regions[i].ptr
      {
        DistinctBases(regions, j, i);
      }
    }

    /** Listing one more region start changes the kept bytes by that region only. */
    lemma SumKeptFrame(rs: seq<Region>, i: nat, ptrs: set<nat>, more: set<nat>)
      requires RegionsOk(rs) && i < |rs| && (more == ptrs || more == ptrs + {rs[i].ptr})
      ensures SumKept(rs[..i + 1], more) == SumKept(rs[..i], ptrs) + (if rs[i].ptr in more then 0 else rs[i].size)
      ensures SumRegions(rs[..i + 1]) == SumRegions(rs[..i]) + rs[i].size
    {
      assert rs[..i + 1][..i] == rs[..i];
      forall j | 0 <= j < i
        ensures rs[j].ptr in more <==> rs[j].ptr in ptrs
      {
        DistinctBases(rs, j, i);
      }
      SumKeptSame(rs[..i], ptrs, more);
    }

    lemma SumKeptSame(rs: seq<Region>, ptrs: set<nat>, more: set<nat>)
      requires forall j :: 0 <= j < |rs| ==> (rs[j].ptr in more <==> rs[j].ptr in ptrs)
      ensures SumKept(rs, more) == SumKept(rs, ptrs)
    {
      if |rs| > 0 {
        SumKeptSame(rs[..|rs| - 1], ptrs, more);
      }
    }

    /** Walks the chunks of region i for one in use. */
    method RegionInUse(i: nat) returns (anyUse: bool)
      requires Core() && i < |regions|
      ensures anyUse <==> Busy(UsedMap(chunks, live), table, regions[i].ptr)
    {
      ghost var base, used := regions[i].ptr, UsedMap(chunks, live);
      var h := FirstChunk(i);
      ghost var first := h;
      FirstIsLeast(i, h);
      while h != NO_CHUNK
        invariant h != NO_CHUNK ==> InSpan(H(), h, base)
        invariant forall x {:trigger InSpan(H(), x, base)} ::
                    InSpan(H(), x, base) && (h == NO_CHUNK || chunks[x].ptr < chunks[h].ptr) ==> !chunks[x].InUse()
        decreases if h == NO_CHUNK then 0 else 1 + regions[i].End() - chunks[h].ptr
      {
        if chunks[h].InUse() {
          assert h in used && used[h].ptr in table;
          return true;
        }
        StepInSpan(i, h);
        forall x | InSpan(H(), x, base) && x != h
          ensures chunks[h].next == NO_CHUNK ==> chunks[x].ptr < chunks[h].ptr
          ensures chunks[h].next != NO_CHUNK ==>
                    (chunks[x].ptr < chunks[chunks[h].next].ptr <==> chunks[x].ptr < chunks[h].ptr)
        {
          DroppingStep(H(), base, h, x);
        }
        h := chunks[h].next;
      }
      anyUse := false;
      if Busy(used, table, base) {
        var x :| x in used && used[x].ptr in table && table[used[x].ptr].base == base;
        assert InSpan(H(), x, base);
        assert false;
      }
    }

    lemma FirstIsLeast(i: nat, h: int)
      requires Core() && i < |regions| && InSpan(H(), h, regions[i].ptr) && chunks[h].ptr == regions[i].ptr
      ensures forall x {:trigger InSpan(H(), x, regions[i].ptr)} ::
                InSpan(H(), x, regions[i].ptr) ==> chunks[x].ptr >= chunks[h].ptr
    {
      forall x | InSpan(H(), x, regions[i].ptr)
        ensures chunks[x].ptr >= chunks[h].ptr
      {
        assert SlotOk(table, chunks[x].ptr);
      }
    }

    /** Removes every region whose start is listed; none of them holds a chunk in use. */
    method DeallocateRegions(regionPtrs: set<nat>)
      requires Quiet()
      requires forall p :: p in regionPtrs ==> !Busy(UsedMap(chunks, live), table, p)
      modifies this`chunks, this`bins, this`regions, this`table, this`freeChunksList, this`live, this`recycled,
               this`totalRegionAllocatedBytes
      ensures Quiet() && |chunks| == |old(chunks)|
      ensures UsedMap(chunks, live) == UsedMap(old(chunks), old(live))
      ensures totalRegionAllocatedBytes == SumKept(old(regions), regionPtrs)
      ensures forall i :: 0 <= i < |regions| ==> regions[i].ptr !in regionPtrs
    {
      ghost var used := UsedMap(chunks, live);
      var it := 0;
      while it < |regions|
        invariant 0 <= it <= |regions|
        invariant Quiet() && |chunks| == |old(chunks)| && UsedMap(chunks, live) == used
        invariant forall p :: p in regionPtrs ==> !Busy(used, table, p)
        invariant SumKept(regions, regionPtrs) == SumKept(old(regions), regionPtrs)
        invariant forall i :: 0 <= i < it ==> regions[i].ptr !in regionPtrs
        decreases |regions| - it
      {
        if regions[it].ptr !in regionPtrs {
          it := it + 1;
        } else {
          ghost var t := table;
          SumKeptWithout(regions, it, regionPtrs);
          DropRegion(it);
          BusyShrinks(used, t, table);
        }
      }
      SumKeptAll(regions, regionPtrs);
    }

    lemma BusyShrinks(used: map<int, Block>, t: Table, t': Table)
      requires forall q :: q in t' ==> q in t && t'[q] == t[q]
      ensures forall p: nat :: Busy(used, t', p) ==> Busy(used, t, p)
    {
    }

    /** Removes the chunks of idle region i one by one, then the region. */
    method DropRegion(i: nat)
      requires Quiet() && i < |regions| && !Busy(UsedMap(chunks, live), table, regions[i].ptr)
      modifies this`chunks, this`bins, this`regions, this`table, this`freeChunksList, this`live, this`recycled,
               this`totalRegionAllocatedBytes
      ensures Quiet() && |chunks| == |old(chunks)|
      ensures regions == Without(old(regions), i) && table == DroppedTable(old(table), old(regions)[i].ptr)
      ensures UsedMap(chunks, live) == UsedMap(old(chunks), old(live))
      ensures totalRegionAllocatedBytes == old(totalRegionAllocatedBytes) - old(regions)[i].size
    {
      ghost var H0, rs0, base := H(), regions, regions[i].ptr;
      DropChunks(i);
      assert Without(regions, i) == Without(rs0, i);
      AllDropped(H0, chunks, live, base);
      WithoutRegion(rs0, table, i, regions);
      totalRegionAllocatedBytes := totalRegionAllocatedBytes - regions[i].size;
      regions, table := Without(regions, i), DroppedTable(table, base);
    }

    method DropChunks(i: nat)
      requires Quiet() && i < |regions| && !Busy(UsedMap(chunks, live), table, regions[i].ptr)
      modifies this`chunks, this`bins, this`regions, this`freeChunksList, this`live, this`recycled
      ensures Dropping(old(H()), chunks, live, old(regions)[i].ptr, NO_CHUNK)
      ensures Lists() && Conserved(chunks, live, recycled, NO_CHUNK) && SumInUse(chunks) == SumInUse(old(chunks))
      ensures OthersKept(old(regions), regions, i)
    {
      ghost var H0, rs0, base := H(), regions, regions[i].ptr;
      var h := FirstChunk(i);
      FirstIsLeast(i, h);
      while h != NO_CHUNK
        invariant Dropping(H0, chunks, live, base, h)
        invariant Lists() && Conserved(chunks, live, recycled, NO_CHUNK) && SumInUse(chunks) == SumInUse(old(chunks))
        invariant OthersKept(rs0, regions, i) && RegionsOk(regions)
        decreases live
      {
        h := DropOne(i, h, H0, rs0);
      }
    }

    ghost predicate OthersKept(rs: seq<Region>, rs': seq<Region>, i: nat) {
      && SameSpans(rs, rs') && forall j :: 0 <= j < |rs| && j != i ==> rs'[j] == rs[j]
    }

    /** One step of the walk: unbin, erase, recycle. */
    method DropOne(i: nat, h: int, ghost H0: Heap, ghost rs0: seq<Region>) returns (next: int)
      requires RegionsOk(rs0) && Represents(rs0, H0.table) && Shape(H0) && i < |rs0|
      requires Tagged(H0.cs, H0.live, NO_CHUNK) && !Busy(UsedMap(H0.cs, H0.live), H0.table, rs0[i].ptr)
      requires Dropping(H0, chunks, live, rs0[i].ptr, h) && h != NO_CHUNK
      requires Lists() && Conserved(chunks, live, recycled, NO_CHUNK)
      requires OthersKept(rs0, regions, i) && RegionsOk(regions)
      modifies this`chunks, this`bins, this`regions, this`freeChunksList, this`live, this`recycled
      ensures Dropping(H0, chunks, live, rs0[i].ptr, next) && live < old(live)
      ensures Lists() && Conserved(chunks, live, recycled, NO_CHUNK) && SumInUse(chunks) == SumInUse(old(chunks))
      ensures OthersKept(rs0, regions, i) && RegionsOk(regions)
    {
      ghost var cs := chunks;
      IdleChunk(H0, rs0[i].ptr, h);
      InRegion(H0, rs0, i, h);
      UpperBoundIs(regions, i, chunks[h].ptr);
      if chunks[h].bin != -1 {
        RemoveFreeChunkFromBin(h);
      }
      next := chunks[h].next;
      ChainMembers(chunks, live, freeChunksList, recycled);
      BinsFrame(chunks, live, bins, chunks, live - {h});
      ChainFrame(chunks, live, freeChunksList, recycled, chunks, live - {h});
      live := live - {h};
      SetHandleOk(regions, chunks[h].ptr, NO_CHUNK);
      regions := SetHandle(regions, chunks[h].ptr, NO_CHUNK);
      DeallocateChunk(h);
      DroppingNext(H0, cs, old(live), rs0[i].ptr, h, chunks);
    }

    lemma IdleChunk(H0: Heap, base: nat, h: int)
      requires Shape(H0) && InSpan(H0, h, base) && Tagged(H0.cs, H0.live, NO_CHUNK)
      requires !Busy(UsedMap(H0.cs, H0.live), H0.table, base)
      ensures !H0.cs[h].InUse() && 0 <= H0.cs[h].bin < NUM_BINS && h != NO_CHUNK
    {
      assert TagOk(H0.cs[h]);
      BusyWitness(UsedMap(H0.cs, H0.live), H0.table, base, h);
    }

    lemma InRegion(H0: Heap, rs0: seq<Region>, i: nat, h: int)
      requires RegionsOk(rs0) && Represents(rs0, H0.table) && Shape(H0) && i < |rs0| && InSpan(H0, h, rs0[i].ptr)
      ensures rs0[i].ptr <= H0.cs[h].ptr < rs0[i].End()
    {
      RepresentsStart(rs0, H0.table, i);
      SpanOf(H0.table, H0.cs[h].ptr);
      assert SlotOk(H0.table, H0.cs[h].ptr);
    }

    /**
      The invariant between the calls of a client. Handle 0 names the first record ever used, and
      its chunk is pinned: it stays in use for ever.
     */
    ghost predicate Valid()
      reads this
    {
      Quiet() && (|chunks| > 0 ==> 0 in UsedMap(chunks, live))
    }

    /** The configuration: a fraction of the limit, or 128 MiB, as the tolerated waste. */
    constructor (totalMemory: nat, allowGrowth: bool, collectGarbage: bool, coalesce: bool, fragmentationFraction: real)
      requires totalMemory == 0 || fragmentationFraction <= 0.0 || fragmentationFraction * totalMemory as real >= 1.0
      ensures Valid() && memoryLimit == totalMemory && garbageCollection == collectGarbage
      ensures coalesceRegions == coalesce && chunks == [] && regions == [] && bytesInUse == 0
      ensures totalRegionAllocatedBytes == 0 && UsedMap(chunks, live) == map[]
      ensures currRegionAllocationBytes
           == (if !allowGrowth || totalMemory < 2 * 1024 * 1024 then RoundedBytes(totalMemory) else 2 * 1024 * 1024)
      ensures maxInternalFragmentation
           == (if fragmentationFraction <= 0.0 then 128 * 1024 * 1024
               else (fragmentationFraction * totalMemory as real).Floor)
    {
      memoryLimit, garbageCollection, coalesceRegions := totalMemory, collectGarbage, coalesce;
      maxInternalFragmentation := FragmentThreshold(fragmentationFraction, totalMemory);
      chunks, bins, regions := [], seq(NUM_BINS, _ => []), [];
      freeChunksList, nextAllocationId := NO_CHUNK, 1;
      currRegionAllocationBytes := RoundedBytes(if allowGrowth then Min(totalMemory, 0x20_0000) else totalMemory);
      totalRegionAllocatedBytes, bytesInUse := 0, 0;
      table, live, recycled := imap[], {}, [];
      new;
      EmptyCore();
    }

    lemma EmptyCore()
      requires chunks == [] && regions == [] && live == {} && recycled == [] && table == imap[]
      requires freeChunksList == NO_CHUNK && |bins| == NUM_BINS && forall b :: 0 <= b < NUM_BINS ==> bins[b] == []
      ensures Core()
    {
      forall p: nat
        ensures SlotView(regions, table, p)
      {
      }
      assert Shape(H());
      forall b | 0 <= b < NUM_BINS
        ensures BinOk(chunks, live, bins[b], b)
      {
      }
    }

    /** The best fit, as the allocation of a caller. */
    method Fit(binNum: nat, roundedBytes: nat, numBytes: nat) returns (ptr: nat, ghost h: int, ghost m: int)
      requires Quiet() && 0 < numBytes && roundedBytes == RoundedBytes(numBytes)
               && binNum == BinNumForSize(roundedBytes)
      modifies this
      ensures Quiet() && |chunks| >= |old(chunks)|
      ensures ptr == 0 <==> forall g :: g in FreeMap(old(chunks), old(live)) ==>
                                FreeMap(old(chunks), old(live))[g].size < roundedBytes
      ensures ptr == 0 ==> chunks == old(chunks) && live == old(live) && regions == old(regions) && table == old(table)
                           && nextAllocationId == old(nextAllocationId) && bytesInUse == old(bytesInUse)
                           && totalRegionAllocatedBytes == old(totalRegionAllocatedBytes)
      ensures ptr != 0 ==>
                && BestFit(FreeMap(old(chunks), old(live)), h, roundedBytes)
                && ptr == FreeMap(old(chunks), old(live))[h].ptr
                && Allocated(UsedMap(old(chunks), old(live)), UsedMap(chunks, live), h, ptr, numBytes,
                             old(nextAllocationId))
                && Handed(old(chunks), old(live), chunks, live, h, m, roundedBytes, numBytes, old(nextAllocationId),
                          maxInternalFragmentation)
      ensures SameSpans(old(regions), regions) && totalRegionAllocatedBytes == old(totalRegionAllocatedBytes)
      ensures currRegionAllocationBytes == old(currRegionAllocationBytes)
    {
      ptr, h, m := FindChunkPtr(binNum, roundedBytes, numBytes);
      if ptr != 0 {
        HandedAllocates(old(chunks), old(live), chunks, live, h, m, roundedBytes, numBytes, old(nextAllocationId),
                        maxInternalFragmentation);
      }
    }

    /** Extends, and then serves the request from the new region. */
    method ExtendAndFit(binNum: nat, roundedBytes: nat, numBytes: nat, willing: bool)
      returns (ok: bool, ptr: nat, ghost h: int)
      requires Quiet() && 0 < numBytes && roundedBytes == RoundedBytes(numBytes)
               && binNum == BinNumForSize(roundedBytes)
      modifies this
      ensures Quiet() && |chunks| >= |old(chunks)|
      ensures ok <==> willing && roundedBytes <= memoryLimit - old(totalRegionAllocatedBytes)
      ensures Reached(old(totalRegionAllocatedBytes), totalRegionAllocatedBytes, ok, old(currRegionAllocationBytes),
                      roundedBytes)
      ensures !ok ==> ptr == 0 && chunks == old(chunks) && live == old(live) && regions == old(regions)
                      && table == old(table)
                      && nextAllocationId == old(nextAllocationId) && bytesInUse == old(bytesInUse)
                      && currRegionAllocationBytes ==
                           Refused(old(totalRegionAllocatedBytes), old(currRegionAllocationBytes), roundedBytes)
      ensures ok ==>
                && ptr != 0 && (old(chunks) == [] ==> h == 0)
                && Allocated(UsedMap(old(chunks), old(live)), UsedMap(chunks, live), h, ptr, numBytes,
                             old(nextAllocationId))
    {
      ptr, h := 0, NO_CHUNK;
      var grant;
      ok, grant := Extend(roundedBytes, willing);
      if ok {
        assert forall g :: g in FreeMap(chunks, live) ==> 0 <= g < |chunks|;
        ghost var m;
        ptr, h, m := Fit(binNum, roundedBytes, numBytes);
      }
    }

    /** The bytes of the regions that hold a chunk in use. */
    ghost function BusyBytes(): nat
      reads this
    {
      SumBusy(regions, UsedMap(chunks, live), table)
    }

    /** Whether giving idle regions back makes room for the request. */
    ghost predicate Collectable(roundedBytes: nat)
      reads this
    {
      garbageCollection && BusyBytes() < totalRegionAllocatedBytes && roundedBytes <= memoryLimit - BusyBytes()
    }

    /** The region total on which the last request for a region is made. */
    ghost function LastTotal(roundedBytes: nat, willing1: bool): nat
      reads this
    {
      if willing1 && roundedBytes <= memoryLimit - totalRegionAllocatedBytes then totalRegionAllocatedBytes
      else if Collectable(roundedBytes) then BusyBytes()
      else totalRegionAllocatedBytes
    }

    /**
      Whether room can be made for a request that fits no free chunk: within the limit at once, or
      within it after the idle regions have been given back; willing1 and willing2 say whether the
      sub-allocator serves the first and the second request for a region.
     */
    ghost predicate Recoverable(roundedBytes: nat, willing1: bool, willing2: bool)
      reads this
    {
      || (willing1 && roundedBytes <= memoryLimit - totalRegionAllocatedBytes)
      || (willing2 && Collectable(roundedBytes))
    }

    /**
      A willing sub-allocator leaves only the bytes of the regions in use out of reach, or all regions' without
      collection.
     */
    lemma WillingRecovery(roundedBytes: nat)
      requires Quiet()
      ensures Recoverable(roundedBytes, true, true) <==>
                roundedBytes <= memoryLimit -
                  (if garbageCollection then BusyBytes() else totalRegionAllocatedBytes)
    {
      SumBusyBound(regions, UsedMap(chunks, live), table);
    }

    /**
      Serves numBytes from the best-fitting free chunk, else from a new region, else from a new
      region after idle regions have been given back.
     */
    method AllocateRaw(numBytes: nat, willing1: bool, willing2: bool) returns (ptr: nat, ghost h: int, ghost m: int)
      requires Valid()
      modifies this
      ensures Valid()
      ensures ptr == 0 ==> UsedMap(chunks, live) == UsedMap(old(chunks), old(live))
      ensures ptr != 0 ==>
                Allocated(UsedMap(old(chunks), old(live)), UsedMap(chunks, live), h, ptr, numBytes,
                          old(nextAllocationId))
      ensures ptr == 0 <==>
                || numBytes == 0
                || (&& (forall g :: g in FreeMap(old(chunks), old(live)) ==>
                          FreeMap(old(chunks), old(live))[g].size < RoundedBytes(numBytes))
                    && !old(Recoverable(RoundedBytes(numBytes), willing1, willing2)))
      ensures numBytes > 0 ==>
                forall f :: BestFit(FreeMap(old(chunks), old(live)), f, RoundedBytes(numBytes)) ==>
                  && h == f && ptr == FreeMap(old(chunks), old(live))[f].ptr
                  && Handed(old(chunks), old(live), chunks, live, f, m, RoundedBytes(numBytes), numBytes,
                            old(nextAllocationId), maxInternalFragmentation)
                  && SameSpans(old(regions), regions) && totalRegionAllocatedBytes == old(totalRegionAllocatedBytes)
      ensures numBytes > 0 && (forall g :: g in FreeMap(old(chunks), old(live)) ==>
                                 FreeMap(old(chunks), old(live))[g].size < RoundedBytes(numBytes)) ==>
                Reached(old(LastTotal(RoundedBytes(numBytes), willing1)), totalRegionAllocatedBytes, ptr != 0,
                        old(currRegionAllocationBytes), RoundedBytes(numBytes))
      ensures numBytes == 0 ==> chunks == old(chunks) && live == old(live) && regions == old(regions)
                                && totalRegionAllocatedBytes == old(totalRegionAllocatedBytes)
    {
      ptr, h, m := 0, NO_CHUNK, NO_CHUNK;
      if numBytes == 0 {
        return;
      }
      var roundedBytes := RoundedBytes(numBytes);
      var binNum := BinNumForSize(roundedBytes);
      ptr, h, m := Fit(binNum, roundedBytes, numBytes);
      if ptr != 0 {
        return;
      }
      ptr, h := Recover(binNum, roundedBytes, numBytes, willing1, willing2);
    }

    /** No free chunk fits: extend, or give idle regions back and then extend. */
    method Recover(binNum: nat, roundedBytes: nat, numBytes: nat, willing1: bool, willing2: bool)
      returns (ptr: nat, ghost h: int)
      requires Valid() && 0 < numBytes && roundedBytes == RoundedBytes(numBytes)
               && binNum == BinNumForSize(roundedBytes)
      modifies this
      ensures Valid()
      ensures ptr == 0 ==> UsedMap(chunks, live) == UsedMap(old(chunks), old(live))
      ensures ptr != 0 ==>
                Allocated(UsedMap(old(chunks), old(live)), UsedMap(chunks, live), h, ptr, numBytes,
                          old(nextAllocationId))
      ensures ptr != 0 <==> old(Recoverable(roundedBytes, willing1, willing2))
      ensures Reached(old(LastTotal(roundedBytes, willing1)), totalRegionAllocatedBytes, ptr != 0,
                      old(currRegionAllocationBytes), roundedBytes)
    {
      var ok;
      ghost var before, current := totalRegionAllocatedBytes, currRegionAllocationBytes;
      ok, ptr, h := ExtendAndFit(binNum, roundedBytes, numBytes, willing1);
      if ok {
        return;
      }
      // Before giving up, try deallocating free regions.
      AskedAgain(before, BusyBytes(), current, roundedBytes);
      ptr, h := CollectAndExtend(binNum, roundedBytes, numBytes, willing2);
    }

    /** Gives idle regions back if that can help, and then extends. */
    method CollectAndExtend(binNum: nat, roundedBytes: nat, numBytes: nat, willing: bool)
      returns (ptr: nat, ghost h: int)
      requires Valid() && 0 < numBytes && roundedBytes == RoundedBytes(numBytes)
               && binNum == BinNumForSize(roundedBytes)
      modifies this
      ensures Valid()
      ensures ptr == 0 ==> UsedMap(chunks, live) == UsedMap(old(chunks), old(live))
      ensures ptr != 0 ==>
                Allocated(UsedMap(old(chunks), old(live)), UsedMap(chunks, live), h, ptr, numBytes,
                          old(nextAllocationId))
      ensures ptr != 0 <==> willing && old(Collectable(roundedBytes))
      ensures Reached(if old(Collectable(roundedBytes)) then old(BusyBytes()) else old(totalRegionAllocatedBytes),
                      totalRegionAllocatedBytes, ptr != 0, old(currRegionAllocationBytes), roundedBytes)
    {
      ptr, h := 0, NO_CHUNK;
      var freed := DeallocateFreeRegions(roundedBytes);
      if freed {
        var ok;
        ok, ptr, h := ExtendAndFit(binNum, roundedBytes, numBytes, willing);
      }
    }

    /** The size of the largest free chunk, found from the top bin down; 0 when nothing is free. */
    method LargestFreeChunk() returns (size: nat)
      requires Quiet()
      ensures forall g :: g in FreeMap(chunks, live) ==> FreeMap(chunks, live)[g].size <= size
      ensures size == 0 <==> FreeMap(chunks, live) == map[]
      ensures size != 0 ==> exists g :: g in FreeMap(chunks, live) && FreeMap(chunks, live)[g].size == size
    {
      ghost var free := FreeMap(chunks, live);
      forall g | g in free
        ensures 0 <= chunks[g].bin < NUM_BINS
      {
        assert TagOk(chunks[g]);
      }
      var i := NUM_BINS - 1;
      while i >= 0
        invariant -1 <= i < NUM_BINS
        invariant forall g {:trigger g in free} :: g in free ==> 0 <= chunks[g].bin <= i
      {
        if |bins[i]| > 0 {
          LastIsLargest(i);
          return chunks[bins[i][|bins[i]| - 1]].size;
        }
        forall g | g in free
          ensures chunks[g].bin <= i - 1
        {
          assert BinOk(chunks, live, bins[i], i) && Holds(chunks, live, bins[i], i, g);
        }
        i := i - 1;
      }
      size := 0;
    }

    lemma LastIsLargest(i: nat)
      requires Quiet() && i < NUM_BINS && |bins[i]| > 0
      requires forall g {:trigger g in FreeMap(chunks, live)} :: g in FreeMap(chunks, live) ==> 0 <= chunks[g].bin <= i
      ensures var h := bins[i][|bins[i]| - 1];
              && h in FreeMap(chunks, live) && 0 <= h < |chunks| && chunks[h].size > 0
              && FreeMap(chunks, live)[h].size == chunks[h].size
              && (forall g :: g in FreeMap(chunks, live) ==> FreeMap(chunks, live)[g].size <= chunks[h].size)
    {
      var bin, h := bins[i], bins[i][|bins[i]| - 1];
      assert BinOk(chunks, live, bins[i], i) && Holds(chunks, live, bin, i, h);
      assert TagOk(chunks[h]) && ChunkOk(H(), h);
      forall g | g in FreeMap(chunks, live)
        ensures chunks[g].size <= chunks[h].size
      {
        assert TagOk(chunks[g]);
        if chunks[g].bin == i {
          assert Holds(chunks, live, bin, i, g);
          var j :| 0 <= j < |bin| && bin[j] == g;
          assert j < |bin| - 1 ==> Smaller(chunks[bin[j]], chunks[bin[|bin| - 1]]);
        } else if chunks[g].size > chunks[h].size {
          BinNumMonotone(chunks[h].size, chunks[g].size);
        }
      }
    }
  }

  /** The tolerated waste: the given fraction of the limit, truncated, or 128 MiB by default. */
  function FragmentThreshold(fraction: real, memoryLimit: nat): (r: nat)
    ensures r > 0 <==> fraction <= 0.0 || fraction * memoryLimit as real >= 1.0
  {
    if fraction > 0.0 then (fraction * memoryLimit as real).Floor else 0x800_0000
  }

  lemma DistinctPtrs(H: Heap, h: int)
    requires Shape(H) && h in H.live
    ensures forall g :: g in H.live && g != h ==> H.cs[g].ptr != H.cs[h].ptr
  {
    forall g | g in H.live && g != h
      ensures H.cs[g].ptr != H.cs[h].ptr
    {
      assert Disjoint(H.cs[h], H.cs[g]) && ChunkOk(H, h) && ChunkOk(H, g);
    }
  }
}
