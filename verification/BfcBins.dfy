/**
  The size-ordered bins of free chunks, the free list of recycled chunk records, and the sums
  behind the allocator's byte counters.
 */
module BfcBins {
  import opened BfcSizes
  import opened BfcTable
  import opened BfcHeap

  // ---------- Ordered bins ----------

  /** The order of a bin: by size, then by address. */
  predicate Smaller(c: Chunk, d: Chunk) {
    c.size < d.size || (c.size == d.size && c.ptr < d.ptr)
  }

  ghost predicate BinSorted(cs: seq<Chunk>, bin: seq<int>) {
    && (forall i {:trigger bin[i]} :: 0 <= i < |bin| ==> 0 <= bin[i] < |cs|)
    && (forall i, j {:trigger Smaller(cs[bin[i]], cs[bin[j]])} ::
          0 <= i < j < |bin| ==> Smaller(cs[bin[i]], cs[bin[j]]))
  }

  /** Where an ordered set with this comparator places a new chunk. */
  function InsertPosition(cs: seq<Chunk>, bin: seq<int>, c: Chunk, k: nat): (r: nat)
    requires k <= |bin|
    requires forall i :: 0 <= i < |bin| ==> 0 <= bin[i] < |cs|
    requires forall i :: 0 <= i < k ==> !Smaller(c, cs[bin[i]])
    ensures k <= r <= |bin|
    ensures r < |bin| ==> Smaller(c, cs[bin[r]])
    ensures forall i :: 0 <= i < r ==> !Smaller(c, cs[bin[i]])
    decreases |bin| - k
  {
    if k == |bin| || Smaller(c, cs[bin[k]]) then k else InsertPosition(cs, bin, c, k + 1)
  }

  function Inserted(bin: seq<int>, k: nat, h: int): seq<int>
    requires k <= |bin|
  {
    bin[..k] + [h] + bin[k..]
  }

  lemma InsertedMembers(bin: seq<int>, k: nat, h: int, g: int)
    requires k <= |bin|
    ensures g in Inserted(bin, k, h) <==> g in bin || g == h
  {
    var r := Inserted(bin, k, h);
    assert r[k] == h;
    assert forall i :: 0 <= i < |bin| ==> bin[i] == r[if i < k then i else i + 1];
  }

  lemma InsertedSorted(cs: seq<Chunk>, bin: seq<int>, h: int)
    requires BinSorted(cs, bin) && 0 <= h < |cs|
    requires forall i :: 0 <= i < |bin| ==> cs[bin[i]].ptr != cs[h].ptr
    ensures BinSorted(cs, Inserted(bin, InsertPosition(cs, bin, cs[h], 0), h))
  {
    var k := InsertPosition(cs, bin, cs[h], 0);
    forall i | 0 <= i < k
      ensures Smaller(cs[bin[i]], cs[h])
    {
      assert !Smaller(cs[h], cs[bin[i]]);
    }
    InsertedSortedAt(cs, bin, h, k);
  }

  lemma InsertedSortedAt(cs: seq<Chunk>, bin: seq<int>, h: int, k: nat)
    requires BinSorted(cs, bin) && 0 <= h < |cs| && k <= |bin|
    requires k < |bin| ==> Smaller(cs[h], cs[bin[k]])
    requires forall i {:trigger Smaller(cs[bin[i]], cs[h])} :: 0 <= i < k ==> Smaller(cs[bin[i]], cs[h])
    ensures BinSorted(cs, Inserted(bin, k, h))
  {
    var r := Inserted(bin, k, h);
    forall i, j | 0 <= i < j < |r|
      ensures Smaller(cs[r[i]], cs[r[j]])
    {
      assert r[i] == InsertedAt(bin, k, h, i) && r[j] == InsertedAt(bin, k, h, j);
      if i < k { assert Smaller(cs[bin[i]], cs[h]); }
      InsertedPair(cs, bin, h, k, i, j);
    }
  }

  function InsertedAt(bin: seq<int>, k: nat, h: int, i: nat): int
    requires k <= |bin| && i < |bin| + 1
  {
    if i < k then bin[i] else if i == k then h else bin[i - 1]
  }

  lemma InsertedPair(cs: seq<Chunk>, bin: seq<int>, h: int, k: nat, i: nat, j: nat)
    requires BinSorted(cs, bin) && 0 <= h < |cs| && k <= |bin| && i < j < |bin| + 1
    requires k < |bin| ==> Smaller(cs[h], cs[bin[k]])
    requires i < k ==> 0 <= bin[i] < |cs| && Smaller(cs[bin[i]], cs[h])
    ensures 0 <= InsertedAt(bin, k, h, i) < |cs| && 0 <= InsertedAt(bin, k, h, j) < |cs|
    ensures Smaller(cs[InsertedAt(bin, k, h, i)], cs[InsertedAt(bin, k, h, j)])
  {
    if i == k {
      NewBeforeRest(cs, bin, h, k, j - 1);
    } else if j != k {
      assert Smaller(cs[bin[if i < k then i else i - 1]], cs[bin[if j < k then j else j - 1]]);
    }
  }

  lemma NewBeforeRest(cs: seq<Chunk>, bin: seq<int>, h: int, k: nat, j: nat)
    requires BinSorted(cs, bin) && 0 <= h < |cs| && k <= j < |bin| && Smaller(cs[h], cs[bin[k]])
    ensures Smaller(cs[h], cs[bin[j]])
  {
    if k < j {
      assert Smaller(cs[bin[k]], cs[bin[j]]);
    }
  }

  function IndexIn(bin: seq<int>, h: int, k: nat): (r: nat)
    requires k <= |bin| && h in bin[k..]
    ensures k <= r < |bin| && bin[r] == h
    decreases |bin| - k
  {
    if bin[k] == h then k else IndexIn(bin, h, k + 1)
  }

  function RemovedAt(bin: seq<int>, k: nat): seq<int>
    requires k < |bin|
  {
    bin[..k] + bin[k + 1..]
  }

  lemma RemovedSorted(cs: seq<Chunk>, bin: seq<int>, k: nat)
    requires BinSorted(cs, bin) && k < |bin|
    ensures BinSorted(cs, RemovedAt(bin, k))
  {
    var r := RemovedAt(bin, k);
    forall i, j | 0 <= i < j < |r|
      ensures Smaller(cs[r[i]], cs[r[j]])
    {
      var i', j' := if i < k then i else i + 1, if j < k then j else j + 1;
      assert r[i] == bin[i'] && r[j] == bin[j'];
      assert Smaller(cs[bin[i']], cs[bin[j']]);
    }
  }

  lemma RemovedMembers(cs: seq<Chunk>, bin: seq<int>, k: nat, g: int)
    requires BinSorted(cs, bin) && k < |bin|
    ensures g in RemovedAt(bin, k) <==> g in bin && g != bin[k]
  {
    var r := RemovedAt(bin, k);
    assert forall i :: 0 <= i < |r| ==> r[i] == bin[if i < k then i else i + 1];
    forall i | 0 <= i < |bin| && i != k
      ensures bin[i] in r && bin[i] != bin[k]
    {
      assert r[if i < k then i else i - 1] == bin[i];
      assert Smaller(cs[bin[if i < k then i else k]], cs[bin[if i < k then k else i]]);
    }
  }

  /** Bin b holds exactly the live chunks tagged b, in order. */
  ghost predicate BinOk(cs: seq<Chunk>, live: set<int>, bin: seq<int>, b: int) {
    && BinSorted(cs, bin)
    && (forall h {:trigger Holds(cs, live, bin, b, h)} :: Holds(cs, live, bin, b, h))
  }

  ghost predicate Holds(cs: seq<Chunk>, live: set<int>, bin: seq<int>, b: int, h: int) {
    h in bin <==> h in live && 0 <= h < |cs| && cs[h].bin == b
  }

  ghost predicate BinsOk(cs: seq<Chunk>, live: set<int>, bins: seq<seq<int>>) {
    && |bins| == NUM_BINS
    && (forall b {:trigger BinOk(cs, live, bins[b], b)} :: 0 <= b < NUM_BINS ==> BinOk(cs, live, bins[b], b))
  }

  /** A change that keeps the tag, size and address of every tagged live chunk keeps the bins. */
  ghost predicate SameTagged(cs: seq<Chunk>, live: set<int>, cs': seq<Chunk>, live': set<int>, h: int) {
    var a := h in live && 0 <= h < |cs| && 0 <= cs[h].bin;
    var a' := h in live' && 0 <= h < |cs'| && 0 <= cs'[h].bin;
    && (a <==> a')
    && (a ==> cs'[h].bin == cs[h].bin && cs'[h].size == cs[h].size && cs'[h].ptr == cs[h].ptr)
  }

  lemma BinsFrame(cs: seq<Chunk>, live: set<int>, bins: seq<seq<int>>, cs': seq<Chunk>, live': set<int>)
    requires BinsOk(cs, live, bins)
    requires forall h {:trigger SameTagged(cs, live, cs', live', h)} :: SameTagged(cs, live, cs', live', h)
    ensures BinsOk(cs', live', bins)
  {
    forall b | 0 <= b < NUM_BINS
      ensures BinOk(cs', live', bins[b], b)
    {
      BinFrame(cs, live, bins[b], b, cs', live');
    }
  }

  lemma BinFrame(cs: seq<Chunk>, live: set<int>, bin: seq<int>, b: nat, cs': seq<Chunk>, live': set<int>)
    requires BinOk(cs, live, bin, b)
    requires forall h {:trigger SameTagged(cs, live, cs', live', h)} :: SameTagged(cs, live, cs', live', h)
    ensures BinOk(cs', live', bin, b)
  {
    forall h
      ensures Holds(cs', live', bin, b, h)
    {
      assert SameTagged(cs, live, cs', live', h) && Holds(cs, live, bin, b, h);
    }
    forall i | 0 <= i < |bin|
      ensures 0 <= bin[i] < |cs'|
    {
      assert Holds(cs', live', bin, b, bin[i]);
    }
    forall i, j | 0 <= i < j < |bin|
      ensures Smaller(cs'[bin[i]], cs'[bin[j]])
    {
      assert Smaller(cs[bin[i]], cs[bin[j]]);
      assert Holds(cs, live, bin, b, bin[i]) && Holds(cs, live, bin, b, bin[j]);
      assert SameTagged(cs, live, cs', live', bin[i]) && SameTagged(cs, live, cs', live', bin[j]);
    }
  }

  lemma InsertKeepsBins(cs: seq<Chunk>, live: set<int>, bins: seq<seq<int>>, h: int, b: nat)
    requires BinsOk(cs, live, bins) && h in live && 0 <= h < |cs| && cs[h].bin == -1 && b < NUM_BINS
    requires forall g :: g in live && g != h && 0 <= g < |cs| ==> cs[g].ptr != cs[h].ptr
    ensures BinOk(cs, live, bins[b], b)
    ensures BinsOk(cs[h := cs[h].(bin := b)], live,
                   bins[b := Inserted(bins[b], InsertPosition(cs, bins[b], cs[h], 0), h)])
  {
    assert BinOk(cs, live, bins[b], b);
    var cs' := cs[h := cs[h].(bin := b)];
    var k := InsertPosition(cs, bins[b], cs[h], 0);
    var bins' := bins[b := Inserted(bins[b], k, h)];
    forall c | 0 <= c < NUM_BINS
      ensures BinOk(cs', live, bins'[c], c)
    {
      assert BinOk(cs, live, bins[c], c);
      if c == b {
        forall i | 0 <= i < |bins[b]|
          ensures cs[bins[b][i]].ptr != cs[h].ptr
        {
          assert Holds(cs, live, bins[b], b, bins[b][i]);
        }
        InsertedSorted(cs, bins[b], h);
        assert BinSorted(cs', bins'[b]) by {
          SortedSamePlaces(cs, cs', bins'[b]);
        }
        forall g
          ensures Holds(cs', live, bins'[b], b, g)
        {
          assert Holds(cs, live, bins[b], b, g);
          InsertedMembers(bins[b], k, h, g);
        }
      } else {
        SortedSamePlaces(cs, cs', bins[c]);
        forall g
          ensures Holds(cs', live, bins[c], c, g)
        {
          assert Holds(cs, live, bins[c], c, g);
        }
      }
    }
  }

  lemma SortedSamePlaces(cs: seq<Chunk>, cs': seq<Chunk>, bin: seq<int>)
    requires BinSorted(cs, bin) && |cs| == |cs'|
    requires forall i :: 0 <= i < |cs| ==> cs'[i].ptr == cs[i].ptr && cs'[i].size == cs[i].size
    ensures BinSorted(cs', bin)
  {
    forall i, j | 0 <= i < j < |bin|
      ensures Smaller(cs'[bin[i]], cs'[bin[j]])
    {
      assert Smaller(cs[bin[i]], cs[bin[j]]);
    }
  }

  lemma RemoveKeepsBins(cs: seq<Chunk>, live: set<int>, bins: seq<seq<int>>, h: int, b: nat)
    requires BinsOk(cs, live, bins) && h in live && 0 <= h < |cs| && b < NUM_BINS && cs[h].bin == b
    ensures h in bins[b][0..] && BinSorted(cs, bins[b])
    ensures forall k :: 0 <= k < |bins[b]| && bins[b][k] == h ==>
              BinsOk(cs[h := cs[h].(bin := -1)], live, bins[b := RemovedAt(bins[b], k)])
  {
    assert BinOk(cs, live, bins[b], b) && Holds(cs, live, bins[b], b, h);
    forall k | 0 <= k < |bins[b]| && bins[b][k] == h
      ensures BinsOk(cs[h := cs[h].(bin := -1)], live, bins[b := RemovedAt(bins[b], k)])
    {
      RemoveAtKeepsBins(cs, live, bins, h, b, k);
    }
  }

  lemma RemoveAtKeepsBins(cs: seq<Chunk>, live: set<int>, bins: seq<seq<int>>, h: int, b: nat, k: nat)
    requires BinsOk(cs, live, bins) && h in live && 0 <= h < |cs| && b < NUM_BINS && cs[h].bin == b
    requires k < |bins[b]| && bins[b][k] == h
    ensures BinsOk(cs[h := cs[h].(bin := -1)], live, bins[b := RemovedAt(bins[b], k)])
  {
    var cs' := cs[h := cs[h].(bin := -1)];
    var bins' := bins[b := RemovedAt(bins[b], k)];
    forall c | 0 <= c < NUM_BINS
      ensures BinOk(cs', live, bins'[c], c)
    {
      assert BinOk(cs, live, bins[c], c);
      if c == b {
        RemovedSorted(cs, bins[b], k);
      }
      SortedSamePlaces(cs, cs', bins'[c]);
      forall g
        ensures Holds(cs', live, bins'[c], c, g)
      {
        assert Holds(cs, live, bins[c], c, g);
        if c == b {
          RemovedMembers(cs, bins[b], k, g);
        }
      }
    }
  }

  // ---------- Recycled records ----------

  /** recycled lists, from the head freeList, the records linked through their next fields. */
  ghost predicate ChainOk(cs: seq<Chunk>, live: set<int>, freeList: int, recycled: seq<int>) {
    && freeList == (if recycled == [] then NO_CHUNK else recycled[0])
    && (forall i {:trigger LinkedAt(cs, live, recycled, i)} :: 0 <= i < |recycled| ==> LinkedAt(cs, live, recycled, i))
    && (forall i, j :: 0 <= i < j < |recycled| ==> recycled[i] != recycled[j])
  }

  ghost predicate LinkedAt(cs: seq<Chunk>, live: set<int>, recycled: seq<int>, i: int)
    requires 0 <= i < |recycled|
  {
    var h := recycled[i];
    && 0 <= h < |cs| && h !in live && cs[h].allocId == -1 && cs[h].bin == -1
    && cs[h].next == (if i + 1 < |recycled| then recycled[i + 1] else NO_CHUNK)
  }

  /** Every record is live or waits on the free list; x is exempt. */
  ghost predicate Conserved(cs: seq<Chunk>, live: set<int>, recycled: seq<int>, x: int) {
    forall h :: 0 <= h < |cs| && h != x ==> h in live || h in recycled
  }

  lemma ChainMembers(cs: seq<Chunk>, live: set<int>, freeList: int, recycled: seq<int>)
    requires ChainOk(cs, live, freeList, recycled)
    ensures forall g :: g in recycled ==> 0 <= g < |cs| && g !in live && cs[g].allocId == -1
  {
    forall i | 0 <= i < |recycled|
      ensures 0 <= recycled[i] < |cs| && recycled[i] !in live && cs[recycled[i]].allocId == -1
    {
      assert LinkedAt(cs, live, recycled, i);
    }
  }

  lemma ChainFrame(cs: seq<Chunk>, live: set<int>, freeList: int, recycled: seq<int>, cs': seq<Chunk>, live': set<int>)
    requires ChainOk(cs, live, freeList, recycled) && |cs'| >= |cs|
    requires forall g :: g in recycled && 0 <= g < |cs| && g !in live ==> g !in live' && cs'[g] == cs[g]
    ensures ChainOk(cs', live', freeList, recycled)
  {
    forall i | 0 <= i < |recycled|
      ensures LinkedAt(cs', live', recycled, i)
    {
      assert LinkedAt(cs, live, recycled, i) && recycled[i] in recycled;
    }
  }

  lemma ChainPush(cs: seq<Chunk>, live: set<int>, freeList: int, recycled: seq<int>, h: int)
    requires ChainOk(cs, live, freeList, recycled) && 0 <= h < |cs| && h !in live && h !in recycled
    requires cs[h].allocId == -1 && cs[h].bin == -1 && cs[h].next == freeList
    ensures ChainOk(cs, live, h, [h] + recycled)
  {
    forall i | 0 <= i < |recycled| + 1
      ensures LinkedAt(cs, live, [h] + recycled, i)
    {
      if i > 0 {
        assert LinkedAt(cs, live, recycled, i - 1);
      }
    }
  }

  lemma ChainPop(cs: seq<Chunk>, live: set<int>, freeList: int, recycled: seq<int>)
    requires ChainOk(cs, live, freeList, recycled) && recycled != []
    ensures LinkedAt(cs, live, recycled, 0)
    ensures ChainOk(cs, live, cs[freeList].next, recycled[1..])
  {
    assert LinkedAt(cs, live, recycled, 0);
    forall i | 0 <= i < |recycled| - 1
      ensures LinkedAt(cs, live, recycled[1..], i)
    {
      assert LinkedAt(cs, live, recycled, i + 1);
    }
  }

  // ---------- Sums ----------

  function UsedBytes(c: Chunk): nat {
    if c.InUse() then c.size else 0
  }

  /** The bytes of all chunks in use; free and recycled records count nothing. */
  function SumInUse(cs: seq<Chunk>): nat {
    if |cs| == 0 then 0 else SumInUse(cs[..|cs| - 1]) + UsedBytes(cs[|cs| - 1])
  }

  lemma SumUpdate(cs: seq<Chunk>, i: nat, c: Chunk)
    requires i < |cs|
    ensures SumInUse(cs[i := c]) == SumInUse(cs) - UsedBytes(cs[i]) + UsedBytes(c)
  {
    var n := |cs| - 1;
    if i == n {
      assert cs[i := c][..n] == cs[..n];
    } else {
      assert cs[i := c][..n] == cs[..n][i := c];
      SumUpdate(cs[..n], i, c);
    }
  }

  lemma SumSame(cs: seq<Chunk>, cs': seq<Chunk>)
    requires |cs'| == |cs|
    requires forall i :: 0 <= i < |cs| ==> UsedBytes(cs'[i]) == UsedBytes(cs[i])
    ensures SumInUse(cs') == SumInUse(cs)
  {
    if |cs| > 0 {
      SumSame(cs[..|cs| - 1], cs'[..|cs| - 1]);
    }
  }

  lemma SumAppend(cs: seq<Chunk>, c: Chunk)
    ensures SumInUse(cs + [c]) == SumInUse(cs) + UsedBytes(c)
  {
    assert (cs + [c])[..|cs|] == cs;
  }

  lemma SumPositive(cs: seq<Chunk>, i: nat)
    requires i < |cs|
    ensures SumInUse(cs) >= UsedBytes(cs[i])
  {
    if i < |cs| - 1 {
      SumPositive(cs[..|cs| - 1], i);
    }
  }
}
