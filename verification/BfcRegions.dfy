/**
  Allocation regions and the pointer-to-handle tables of the allocator.

  A region is one span of memory obtained from the sub-allocator. Its table holds, for every
  256-byte slot, the handle of the chunk that starts there, or NO_CHUNK.
 */
module BfcRegions {
  import opened BfcSizes
  import opened BfcTable

  datatype Region = Region(ptr: nat, size: nat, handles: seq<int>) {
    function End(): nat { ptr + size }

    predicate WellFormed() {
      ptr > 0 && size > 0 && Aligned(size) && |handles| == size / 256
    }
  }

  predicate Before(r: Region, s: Region) {
    r.End() <= s.ptr
  }

  /** Regions are kept sorted by address and do not overlap. */
  ghost predicate RegionsOk(rs: seq<Region>) {
    && (forall i {:trigger rs[i].WellFormed()} :: 0 <= i < |rs| ==> rs[i].WellFormed())
    && (forall i, j {:trigger Before(rs[i], rs[j])} :: 0 <= i < j < |rs| ==> Before(rs[i], rs[j]))
  }

  function NewTable(size: nat): (t: seq<int>)
    ensures |t| == (size + 255) / 256 && forall k :: 0 <= k < |t| ==> t[k] == NO_CHUNK
  {
    seq((size + 256 - 1) / 256, _ => NO_CHUNK)
  }

  /** The position of the first region whose end lies beyond p. */
  function UpperBound(rs: seq<Region>, p: nat): (i: nat)
    ensures i <= |rs|
    ensures i < |rs| ==> p < rs[i].End()
    ensures forall j :: 0 <= j < i ==> rs[j].End() <= p
  {
    UpperBoundFrom(rs, p, 0)
  }

  function UpperBoundFrom(rs: seq<Region>, p: nat, k: nat): (i: nat)
    requires k <= |rs|
    requires forall j :: 0 <= j < k ==> rs[j].End() <= p
    ensures k <= i <= |rs|
    ensures i < |rs| ==> p < rs[i].End()
    ensures forall j :: 0 <= j < i ==> rs[j].End() <= p
    decreases |rs| - k
  {
    if k == |rs| || p < rs[k].End() then k else UpperBoundFrom(rs, p, k + 1)
  }

  predicate Covered(rs: seq<Region>, p: nat) {
    var i := UpperBound(rs, p);
    i < |rs| && rs[i].ptr <= p
  }

  function BaseOf(rs: seq<Region>, p: nat): nat {
    var i := UpperBound(rs, p);
    if i < |rs| then rs[i].ptr else 0
  }

  function EndOf(rs: seq<Region>, p: nat): nat {
    var i := UpperBound(rs, p);
    if i < |rs| then rs[i].End() else 0
  }

  /** p is a multiple of 256 bytes away from the start of the region that holds it. */
  predicate IsSlot(rs: seq<Region>, p: nat) {
    Covered(rs, p) && Aligned(p - BaseOf(rs, p))
  }

  function IndexFor(r: Region, p: nat): (k: nat)
    requires r.ptr <= p
  {
    (p - r.ptr) / 256
  }

  /** What the table of the region holding p records for the slot of p; NO_CHUNK outside all regions. */
  function HandleAt(rs: seq<Region>, p: nat): int {
    var i := UpperBound(rs, p);
    if i < |rs| && rs[i].ptr <= p && IndexFor(rs[i], p) < |rs[i].handles|
    then rs[i].handles[IndexFor(rs[i], p)]
    else NO_CHUNK
  }

  /** The handle recorded for p; a pointer past every region yields 0, which is also a handle. */
  function GetHandle(rs: seq<Region>, p: nat): int
    requires RegionsOk(rs)
    requires UpperBound(rs, p) == |rs| || Covered(rs, p)
  {
    var i := UpperBound(rs, p);
    if i < |rs| then
      assert rs[i].WellFormed();
      SlotInTable(rs[i], p);
      rs[i].handles[IndexFor(rs[i], p)]
    else 0
  }

  function SetHandle(rs: seq<Region>, p: nat, h: int): (r: seq<Region>)
    requires Covered(rs, p)
    requires RegionsOk(rs)
    ensures |r| == |rs|
  {
    var i := UpperBound(rs, p);
    var k := IndexFor(rs[i], p);
    assert rs[i].WellFormed();
    SlotInTable(rs[i], p);
    rs[i := rs[i].(handles := rs[i].handles[k := h])]
  }

  lemma SlotInTable(r: Region, p: nat)
    requires r.WellFormed() && r.ptr <= p < r.End()
    ensures IndexFor(r, p) < |r.handles|
  {
  }

  lemma UpperBoundUnique(rs: seq<Region>, i: nat, p: nat)
    requires i <= |rs|
    requires i < |rs| ==> p < rs[i].End()
    requires forall j :: 0 <= j < i ==> rs[j].End() <= p
    ensures UpperBound(rs, p) == i
  {
    var j := UpperBound(rs, p);
    assert !(j < i) && !(i < j);
  }

  lemma UpperBoundIs(rs: seq<Region>, i: nat, p: nat)
    requires RegionsOk(rs) && i < |rs| && rs[i].ptr <= p < rs[i].End()
    ensures UpperBound(rs, p) == i
  {
    forall j | 0 <= j < i
      ensures rs[j].End() <= p
    {
      assert Before(rs[j], rs[i]);
    }
    UpperBoundUnique(rs, i, p);
  }

  lemma SameRegion(rs: seq<Region>, p: nat, q: nat)
    requires RegionsOk(rs) && Covered(rs, p) && BaseOf(rs, p) <= q < EndOf(rs, p)
    ensures Covered(rs, q) && BaseOf(rs, q) == BaseOf(rs, p) && EndOf(rs, q) == EndOf(rs, p)
  {
    UpperBoundIs(rs, UpperBound(rs, p), q);
  }

  /** The two region lists look the same from address q. */
  ghost predicate SameView(rs: seq<Region>, rs': seq<Region>, q: nat) {
    && Covered(rs', q) == Covered(rs, q)
    && BaseOf(rs', q) == BaseOf(rs, q)
    && EndOf(rs', q) == EndOf(rs, q)
    && HandleAt(rs', q) == HandleAt(rs, q)
  }

  lemma SetHandleOk(rs: seq<Region>, p: nat, h: int)
    requires RegionsOk(rs) && Covered(rs, p)
    ensures RegionsOk(SetHandle(rs, p, h))
  {
    var rs' := SetHandle(rs, p, h);
    forall a | 0 <= a < |rs'|
      ensures rs'[a].WellFormed()
    {
      assert rs[a].WellFormed();
    }
    forall a, b | 0 <= a < b < |rs'|
      ensures Before(rs'[a], rs'[b])
    {
      assert Before(rs[a], rs[b]);
    }
  }

  lemma SetHandleView(rs: seq<Region>, p: nat, h: int, q: nat)
    requires RegionsOk(rs) && IsSlot(rs, p)
    ensures Covered(SetHandle(rs, p, h), q) == Covered(rs, q)
    ensures BaseOf(SetHandle(rs, p, h), q) == BaseOf(rs, q)
    ensures EndOf(SetHandle(rs, p, h), q) == EndOf(rs, q)
    ensures IsSlot(rs, q) ==> HandleAt(SetHandle(rs, p, h), q) == if q == p then h else HandleAt(rs, q)
  {
    var rs' := SetHandle(rs, p, h);
    SameSpansSameBound(rs, rs', q);
    if IsSlot(rs, q) {
      var i := UpperBound(rs, q);
      assert rs[i].WellFormed();
      SlotInTable(rs[i], q);
      if i == UpperBound(rs, p) && q != p {
        DistinctSlots(rs[i], p, q);
      }
    }
  }

  lemma DistinctSlots(r: Region, p: nat, q: nat)
    requires r.ptr <= p && r.ptr <= q && p != q
    requires Aligned(p - r.ptr) && Aligned(q - r.ptr)
    ensures IndexFor(r, p) != IndexFor(r, q)
  {
  }

  lemma SameSpansSameBound(rs: seq<Region>, rs': seq<Region>, q: nat)
    requires |rs| == |rs'|
    requires forall i :: 0 <= i < |rs| ==> rs[i].ptr == rs'[i].ptr && rs[i].size == rs'[i].size
    ensures UpperBound(rs, q) == UpperBound(rs', q)
  {
    UpperBoundUnique(rs', UpperBound(rs, q), q);
  }

  predicate SpanFree(rs: seq<Region>, ptr: nat, size: nat) {
    forall i :: 0 <= i < |rs| ==> ptr + size <= rs[i].ptr || rs[i].End() <= ptr
  }

  function Insert(rs: seq<Region>, r: Region): seq<Region> {
    var i := UpperBound(rs, r.ptr);
    rs[..i] + [r] + rs[i..]
  }

  lemma InsertOk(rs: seq<Region>, r: Region)
    requires RegionsOk(rs) && r.WellFormed() && SpanFree(rs, r.ptr, r.size)
    ensures RegionsOk(Insert(rs, r))
  {
    var i := UpperBound(rs, r.ptr);
    var rs' := Insert(rs, r);
    forall a, b | 0 <= a < b < |rs'|
      ensures Before(rs'[a], rs'[b])
    {
      if a != i && b != i {
        assert Before(rs[if a < i then a else a - 1], rs[if b < i then b else b - 1]);
      } else if a == i {
        assert rs'[b] == rs[b - 1];
        if b - 1 > i { assert Before(rs[i], rs[b - 1]); }
      }
    }
    forall a | 0 <= a < |rs'|
      ensures rs'[a].WellFormed()
    {
      if a != i {
        assert rs[if a < i then a else a - 1].WellFormed();
      }
    }
  }

  lemma InsertBound(rs: seq<Region>, r: Region, q: nat)
    requires RegionsOk(rs) && r.WellFormed() && SpanFree(rs, r.ptr, r.size)
    ensures var i, j := UpperBound(rs, r.ptr), UpperBound(rs, q);
            UpperBound(Insert(rs, r), q) == if j < i || (j == i && q < r.End()) then j else j + 1
  {
    var i, j := UpperBound(rs, r.ptr), UpperBound(rs, q);
    var rs' := Insert(rs, r);
    var j' := if j < i || (j == i && q < r.End()) then j else j + 1;
    if j' < |rs'| && j' != i {
      assert rs'[j'] == rs[j];
    }
    forall k | 0 <= k < j'
      ensures rs'[k].End() <= q
    {
      if k != i {
        assert rs'[k] == rs[if k < i then k else k - 1];
      } else if i < |rs| && i < j {
        assert rs[i].End() <= q;
      }
    }
    UpperBoundUnique(rs', j', q);
  }

  lemma InsertView(rs: seq<Region>, r: Region, q: nat)
    requires RegionsOk(rs) && r.WellFormed() && SpanFree(rs, r.ptr, r.size)
    requires forall k :: 0 <= k < |r.handles| ==> r.handles[k] == NO_CHUNK
    ensures r.ptr <= q < r.End() ==>
              && !Covered(rs, q) && Covered(Insert(rs, r), q)
              && BaseOf(Insert(rs, r), q) == r.ptr && EndOf(Insert(rs, r), q) == r.End()
              && HandleAt(Insert(rs, r), q) == NO_CHUNK
    ensures Covered(rs, q) ==> SameView(rs, Insert(rs, r), q)
    ensures !Covered(rs, q) && !(r.ptr <= q < r.End()) ==> !Covered(Insert(rs, r), q)
  {
    var i, j := UpperBound(rs, r.ptr), UpperBound(rs, q);
    var rs' := Insert(rs, r);
    InsertBound(rs, r, q);
    assert rs'[i] == r;
    if j < |rs| {
      assert rs'[if j < i then j else j + 1] == rs[j];
      if j == i && q < r.ptr {
        assert !Covered(rs', q);
      }
    }
  }

  /** Growing region i in place by size bytes, as when the next grant starts at its end. */
  function Extended(rs: seq<Region>, i: nat, size: nat): seq<Region>
    requires i < |rs|
  {
    var r := rs[i];
    var n := (r.size + size + 256 - 1) / 256;
    var table := if n <= |r.handles| then r.handles[..n]
                 else r.handles + seq(n - |r.handles|, _ => NO_CHUNK);
    rs[i := Region(r.ptr, r.size + size, table)]
  }

  lemma ExtendedOk(rs: seq<Region>, i: nat, size: nat)
    requires RegionsOk(rs) && i < |rs| && size > 0 && Aligned(size)
    requires SpanFree(rs, rs[i].End(), size)
    ensures RegionsOk(Extended(rs, i, size))
    ensures forall k :: 0 <= k < |Extended(rs, i, size)[i].handles| ==>
              Extended(rs, i, size)[i].handles[k] ==
                if k < |rs[i].handles| then rs[i].handles[k] else NO_CHUNK
  {
    var rs' := Extended(rs, i, size);
    assert rs[i].WellFormed();
    forall a | 0 <= a < |rs'|
      ensures rs'[a].WellFormed()
    {
      assert rs[a].WellFormed();
    }
    forall a, b | 0 <= a < b < |rs'|
      ensures Before(rs'[a], rs'[b])
    {
      assert Before(rs[a], rs[b]);
      assert rs[b].WellFormed();
    }
  }

  lemma ExtendedBound(rs: seq<Region>, i: nat, size: nat, q: nat)
    requires RegionsOk(rs) && i < |rs|
    ensures rs[i].End() <= q < rs[i].End() + size ==> UpperBound(Extended(rs, i, size), q) == i
    ensures !(rs[i].End() <= q < rs[i].End() + size) ==>
              UpperBound(Extended(rs, i, size), q) == UpperBound(rs, q)
  {
    var rs' := Extended(rs, i, size);
    if rs[i].End() <= q < rs[i].End() + size {
      forall j | 0 <= j < i
        ensures rs'[j].End() <= q
      {
        assert Before(rs[j], rs[i]);
      }
      UpperBoundUnique(rs', i, q);
    } else {
      UpperBoundUnique(rs', UpperBound(rs, q), q);
    }
  }

  lemma ExtendedViewNew(rs: seq<Region>, i: nat, size: nat, q: nat)
    requires RegionsOk(rs) && i < |rs| && size > 0 && Aligned(size)
    requires SpanFree(rs, rs[i].End(), size)
    requires rs[i].End() <= q < rs[i].End() + size
    ensures !Covered(rs, q) && Covered(Extended(rs, i, size), q)
    ensures BaseOf(Extended(rs, i, size), q) == rs[i].ptr
    ensures EndOf(Extended(rs, i, size), q) == rs[i].End() + size
    ensures HandleAt(Extended(rs, i, size), q) == NO_CHUNK
  {
    var rs' := Extended(rs, i, size);
    ExtendedOk(rs, i, size);
    ExtendedBound(rs, i, size, q);
    assert rs[i].WellFormed() && rs'[i].WellFormed();
    SlotInTable(rs'[i], q);
    assert IndexFor(rs'[i], q) >= |rs[i].handles|;
  }

  lemma ExtendedViewOld(rs: seq<Region>, i: nat, size: nat, q: nat)
    requires RegionsOk(rs) && i < |rs| && size > 0 && Aligned(size)
    requires SpanFree(rs, rs[i].End(), size)
    requires !(rs[i].End() <= q < rs[i].End() + size)
    ensures Covered(Extended(rs, i, size), q) == Covered(rs, q)
    ensures Covered(rs, q) ==>
              && BaseOf(Extended(rs, i, size), q) == BaseOf(rs, q)
              && HandleAt(Extended(rs, i, size), q) == HandleAt(rs, q)
              && EndOf(Extended(rs, i, size), q) ==
                   EndOf(rs, q) + (if BaseOf(rs, q) == rs[i].ptr then size else 0)
  {
    var rs' := Extended(rs, i, size);
    ExtendedOk(rs, i, size);
    ExtendedBound(rs, i, size, q);
    var j := UpperBound(rs, q);
    if Covered(rs, q) {
      assert rs[j].WellFormed() && rs'[j].WellFormed();
      SlotInTable(rs[j], q);
      SlotInTable(rs'[j], q);
      if j != i {
        DistinctBases(rs, i, j);
      }
    }
  }

  lemma DistinctBases(rs: seq<Region>, i: nat, j: nat)
    requires RegionsOk(rs) && i < |rs| && j < |rs| && i != j
    ensures rs[i].ptr != rs[j].ptr
  {
    assert rs[i].WellFormed() && rs[j].WellFormed();
    assert Before(rs[if i < j then i else j], rs[if i < j then j else i]);
  }

  function Without(rs: seq<Region>, i: nat): seq<Region>
    requires i < |rs|
  {
    rs[..i] + rs[i + 1..]
  }

  lemma WithoutOk(rs: seq<Region>, i: nat)
    requires RegionsOk(rs) && i < |rs|
    ensures RegionsOk(Without(rs, i))
  {
    var rs' := Without(rs, i);
    forall a | 0 <= a < |rs'|
      ensures rs'[a].WellFormed()
    {
      assert rs[if a < i then a else a + 1].WellFormed();
    }
    forall a, b | 0 <= a < b < |rs'|
      ensures Before(rs'[a], rs'[b])
    {
      var a', b' := if a < i then a else a + 1, if b < i then b else b + 1;
      assert rs'[a] == rs[a'] && rs'[b] == rs[b'];
      assert Before(rs[a'], rs[b']);
    }
  }

  lemma WithoutBound(rs: seq<Region>, i: nat, q: nat)
    requires RegionsOk(rs) && i < |rs|
    ensures var j := UpperBound(rs, q);
            UpperBound(Without(rs, i), q) == if j <= i then j else j - 1
  {
    var rs' := Without(rs, i);
    var j := UpperBound(rs, q);
    var j' := if j <= i then j else j - 1;
    if j' < |rs'| {
      if j == i {
        assert rs'[j'] == rs[i + 1];
        assert Before(rs[i], rs[i + 1]);
      } else {
        assert rs'[j'] == rs[j];
      }
    }
    forall k | 0 <= k < j'
      ensures rs'[k].End() <= q
    {
      assert rs'[k] == rs[if k < i then k else k + 1];
    }
    UpperBoundUnique(rs', j', q);
  }

  lemma WithoutView(rs: seq<Region>, i: nat, q: nat)
    requires RegionsOk(rs) && i < |rs|
    ensures rs[i].ptr <= q < rs[i].End() ==> !Covered(Without(rs, i), q)
    ensures !(rs[i].ptr <= q < rs[i].End()) && Covered(rs, q) ==> SameView(rs, Without(rs, i), q)
    ensures !Covered(rs, q) ==> !Covered(Without(rs, i), q)
  {
    var rs' := Without(rs, i);
    WithoutBound(rs, i, q);
    if rs[i].ptr <= q < rs[i].End() {
      UpperBoundIs(rs, i, q);
    }
    var j := UpperBound(rs, q);
    if j == i {
      if i + 1 < |rs| {
        assert rs'[i] == rs[i + 1];
        assert Before(rs[i], rs[i + 1]);
      }
    } else if j < |rs| {
      assert rs'[if j < i then j else j - 1] == rs[j];
    }
  }

  // ---------- The abstract table of a region list ----------

  ghost predicate SlotView(rs: seq<Region>, t: Table, p: nat) {
    && (p in t <==> IsSlot(rs, p))
    && (p in t ==> t[p] == Slot(BaseOf(rs, p), EndOf(rs, p), HandleAt(rs, p)))
  }

  /** t is the table of all slots of the regions. */
  ghost predicate Represents(rs: seq<Region>, t: Table) {
    forall p: nat {:trigger SlotView(rs, t, p)} :: SlotView(rs, t, p)
  }

  lemma RepresentsWf(rs: seq<Region>, t: Table)
    requires RegionsOk(rs) && Represents(rs, t)
    ensures TableWf(t)
  {
    forall p | p in t
      ensures SlotOk(t, p)
    {
      assert SlotView(rs, t, p);
      assert rs[UpperBound(rs, p)].WellFormed();
    }
    forall p, q | p in t && t[p].base <= q < t[p].end && Aligned(q - t[p].base)
      ensures SameSpan(t, p, q)
    {
      assert SlotView(rs, t, p) && SlotView(rs, t, q);
      SameRegion(rs, p, q);
    }
  }

  lemma RepresentsSetHandle(rs: seq<Region>, t: Table, p: nat, h: int)
    requires RegionsOk(rs) && Represents(rs, t) && p in t
    ensures IsSlot(rs, p) && RegionsOk(SetHandle(rs, p, h))
    ensures Represents(SetHandle(rs, p, h), WithHandle(t, p, h))
  {
    assert SlotView(rs, t, p);
    var rs', t' := SetHandle(rs, p, h), WithHandle(t, p, h);
    SetHandleOk(rs, p, h);
    forall q: nat
      ensures SlotView(rs', t', q)
    {
      assert SlotView(rs, t, q);
      SetHandleView(rs, p, h, q);
    }
  }

  lemma RepresentsInsert(rs: seq<Region>, t: Table, r: Region)
    requires RegionsOk(rs) && Represents(rs, t) && r.WellFormed() && SpanFree(rs, r.ptr, r.size)
    requires forall k :: 0 <= k < |r.handles| ==> r.handles[k] == NO_CHUNK
    ensures RegionsOk(Insert(rs, r))
    ensures Represents(Insert(rs, r), GrownTable(t, r.ptr, r.ptr, r.size))
  {
    InsertOk(rs, r);
    forall q: nat
      ensures SlotView(Insert(rs, r), GrownTable(t, r.ptr, r.ptr, r.size), q)
    {
      assert SlotView(rs, t, q);
      InsertSlot(rs, r, q);
    }
  }

  lemma InsertSlot(rs: seq<Region>, r: Region, q: nat)
    requires RegionsOk(rs) && r.WellFormed() && SpanFree(rs, r.ptr, r.size)
    requires forall k :: 0 <= k < |r.handles| ==> r.handles[k] == NO_CHUNK
    ensures IsSlot(rs, q) ==> BaseOf(rs, q) != r.ptr && IsSlot(Insert(rs, r), q) && SameView(rs, Insert(rs, r), q)
    ensures !IsSlot(rs, q) ==> (IsSlot(Insert(rs, r), q) <==> r.ptr <= q < r.End() && Aligned(q - r.ptr))
    ensures !IsSlot(rs, q) && IsSlot(Insert(rs, r), q) ==>
              && BaseOf(Insert(rs, r), q) == r.ptr && EndOf(Insert(rs, r), q) == r.End()
              && HandleAt(Insert(rs, r), q) == NO_CHUNK
  {
    InsertView(rs, r, q);
    if Covered(rs, q) {
      assert rs[UpperBound(rs, q)].WellFormed();
    }
  }

  lemma RepresentsExtended(rs: seq<Region>, t: Table, i: nat, size: nat)
    requires RegionsOk(rs) && Represents(rs, t) && i < |rs| && size > 0 && Aligned(size)
    requires SpanFree(rs, rs[i].End(), size)
    ensures RegionsOk(Extended(rs, i, size))
    ensures Represents(Extended(rs, i, size), GrownTable(t, rs[i].ptr, rs[i].End(), size))
  {
    ExtendedOk(rs, i, size);
    forall q: nat
      ensures SlotView(Extended(rs, i, size), GrownTable(t, rs[i].ptr, rs[i].End(), size), q)
    {
      assert SlotView(rs, t, q);
      ExtendedSlot(rs, i, size, q);
    }
  }

  lemma ExtendedSlot(rs: seq<Region>, i: nat, size: nat, q: nat)
    requires RegionsOk(rs) && i < |rs| && size > 0 && Aligned(size)
    requires SpanFree(rs, rs[i].End(), size)
    ensures var rs', p := Extended(rs, i, size), rs[i].End();
            && (IsSlot(rs, q) ==>
                  && IsSlot(rs', q) && BaseOf(rs', q) == BaseOf(rs, q) && HandleAt(rs', q) == HandleAt(rs, q)
                  && EndOf(rs', q) == if BaseOf(rs, q) == rs[i].ptr then p + size else EndOf(rs, q))
            && (!IsSlot(rs, q) ==> (IsSlot(rs', q) <==> p <= q < p + size && Aligned(q - p)))
            && (!IsSlot(rs, q) && IsSlot(rs', q) ==>
                  BaseOf(rs', q) == rs[i].ptr && EndOf(rs', q) == p + size && HandleAt(rs', q) == NO_CHUNK)
  {
    assert rs[i].WellFormed();
    if rs[i].End() <= q < rs[i].End() + size {
      ExtendedViewNew(rs, i, size, q);
    } else {
      ExtendedViewOld(rs, i, size, q);
      if Covered(rs, q) && UpperBound(rs, q) != i {
        DistinctBases(rs, UpperBound(rs, q), i);
      }
    }
  }

  lemma RepresentsWithout(rs: seq<Region>, t: Table, i: nat)
    requires RegionsOk(rs) && Represents(rs, t) && i < |rs|
    ensures RegionsOk(Without(rs, i))
    ensures Represents(Without(rs, i), DroppedTable(t, rs[i].ptr))
  {
    WithoutOk(rs, i);
    forall q: nat
      ensures SlotView(Without(rs, i), DroppedTable(t, rs[i].ptr), q)
    {
      assert SlotView(rs, t, q);
      WithoutSlot(rs, i, q);
    }
  }

  lemma WithoutSlot(rs: seq<Region>, i: nat, q: nat)
    requires RegionsOk(rs) && i < |rs|
    ensures IsSlot(Without(rs, i), q) <==> IsSlot(rs, q) && BaseOf(rs, q) != rs[i].ptr
    ensures IsSlot(Without(rs, i), q) ==> SameView(rs, Without(rs, i), q)
  {
    WithoutView(rs, i, q);
    if rs[i].ptr <= q < rs[i].End() {
      UpperBoundIs(rs, i, q);
    } else if Covered(rs, q) && UpperBound(rs, q) != i {
      DistinctBases(rs, UpperBound(rs, q), i);
    }
  }

  /** A span that meets no region meets no span of the table. */
  lemma RepresentsVacant(rs: seq<Region>, t: Table, p: nat, size: nat)
    requires RegionsOk(rs) && Represents(rs, t) && SpanFree(rs, p, size)
    ensures Vacant(t, p, size)
  {
    forall q | q in t
      ensures t[q].end <= p || p + size <= t[q].base
    {
      assert SlotView(rs, t, q);
    }
  }

  /** The start of every region is a slot based at itself. */
  lemma RepresentsStart(rs: seq<Region>, t: Table, i: nat)
    requires RegionsOk(rs) && Represents(rs, t) && i < |rs|
    ensures rs[i].ptr in t && t[rs[i].ptr].base == rs[i].ptr && t[rs[i].ptr].end == rs[i].End()
    ensures HandleAt(rs, rs[i].ptr) == t[rs[i].ptr].handle
  {
    assert rs[i].WellFormed();
    UpperBoundIs(rs, i, rs[i].ptr);
    assert SlotView(rs, t, rs[i].ptr);
  }

  /** The slot that the table lookup of a covered address reads. */
  function SlotBase(rs: seq<Region>, p: nat): nat
    requires Covered(rs, p)
  {
    BaseOf(rs, p) + 256 * ((p - BaseOf(rs, p)) / 256)
  }

  lemma SlotBaseOf(rs: seq<Region>, t: Table, p: nat)
    requires RegionsOk(rs) && Represents(rs, t) && Covered(rs, p)
    ensures SlotBase(rs, p) in t && GetHandle(rs, p) == t[SlotBase(rs, p)].handle
    ensures p in t ==> SlotBase(rs, p) == p
  {
    var q := SlotBase(rs, p);
    assert BaseOf(rs, p) <= q <= p;
    SameRegion(rs, p, q);
    UpperBoundIs(rs, UpperBound(rs, p), q);
    assert SlotView(rs, t, q) && SlotView(rs, t, p);
    var i := UpperBound(rs, p);
    assert rs[i].WellFormed();
    assert IndexFor(rs[i], p) == IndexFor(rs[i], q);
  }
}
