/**
  The slots of all regions as one abstract table. A slot is an address a multiple of 256 bytes
  past the start of its region; it knows the span of the region and the handle recorded for it.
 */
module BfcTable {
  import opened BfcSizes

  const NO_CHUNK: int := -1

  datatype Slot = Slot(base: nat, end: nat, handle: int)

  type Table = imap<nat, Slot>

  ghost predicate SlotOk(t: Table, p: nat)
    requires p in t
  {
    && 0 < t[p].base <= p < t[p].end
    && Aligned(p - t[p].base)
    && Aligned(t[p].end - t[p].base)
  }

  /** Two slots of one span agree on it, and no slot of a span is missing. */
  ghost predicate TableWf(t: Table) {
    && (forall p {:trigger SlotOk(t, p)} :: p in t ==> SlotOk(t, p))
    && (forall p, q {:trigger SameSpan(t, p, q)} ::
          (p in t && t[p].base <= q < t[p].end && Aligned(q - t[p].base)) ==>
            SameSpan(t, p, q))
  }

  ghost predicate SameSpan(t: Table, p: nat, q: nat)
    requires p in t
  {
    q in t && t[q].base == t[p].base && t[q].end == t[p].end
  }

  ghost predicate HandleIsSet(r: Table, t: Table, p: nat, h: int) {
    && (forall q :: q in r <==> q in t)
    && (forall q :: q in t ==> r[q] == if q == p then t[q].(handle := h) else t[q])
  }

  lemma HandleCanBeSet(t: Table, p: nat, h: int)
    ensures exists r :: HandleIsSet(r, t, p, h)
  {
    assert HandleIsSet(imap q | q in t :: if q == p then t[q].(handle := h) else t[q], t, p, h);
  }

  ghost function WithHandle(t: Table, p: nat, h: int): (r: Table)
    ensures HandleIsSet(r, t, p, h)
  {
    HandleCanBeSet(t, p, h);
    var r :| HandleIsSet(r, t, p, h);
    r
  }

  lemma WithHandleWf(t: Table, p: nat, h: int)
    requires TableWf(t)
    ensures TableWf(WithHandle(t, p, h))
  {
    var r := WithHandle(t, p, h);
    forall q | q in r
      ensures SlotOk(r, q)
    {
      assert SlotOk(t, q);
    }
    forall x, y | x in r && r[x].base <= y < r[x].end && Aligned(y - r[x].base)
      ensures SameSpan(r, x, y)
    {
      assert SameSpan(t, x, y);
    }
  }

  lemma SlotWithin(t: Table, p: nat, q: nat)
    requires TableWf(t) && p in t && t[p].base <= q < t[p].end && Aligned(q - p)
    ensures q in t && t[q].base == t[p].base && t[q].end == t[p].end
  {
    assert SlotOk(t, p);
    AlignedSum(p - t[p].base, q - p);
    assert SameSpan(t, p, q);
  }

  lemma AlignedSum(a: int, b: int)
    requires Aligned(a) && Aligned(b)
    ensures Aligned(a + b)
  {
  }

  /** No span of the table meets [p, p + size). */
  ghost predicate Vacant(t: Table, p: nat, size: nat) {
    forall q :: q in t ==> t[q].end <= p || p + size <= t[q].base
  }

  /** The span based at base now reaches p + size; the slots of [p, p + size) are new and unset. */
  ghost predicate HasGrown(r: Table, t: Table, base: nat, p: nat, size: nat) {
    && (forall q: nat :: q in r <==> q in t || NewSlot(p, size, q))
    && (forall q :: q in r ==> r[q] == GrownEntry(t, base, p, size, q))
  }

  predicate NewSlot(p: nat, size: nat, q: nat) {
    p <= q < p + size && Aligned(q - p)
  }

  ghost function GrownEntry(t: Table, base: nat, p: nat, size: nat, q: nat): Slot {
    if q in t then (if t[q].base == base then t[q].(end := p + size) else t[q])
    else Slot(base, p + size, NO_CHUNK)
  }

  lemma CanHaveGrown(t: Table, base: nat, p: nat, size: nat)
    ensures exists r :: HasGrown(r, t, base, p, size)
  {
    assert HasGrown(imap q: nat | q in t || NewSlot(p, size, q) :: GrownEntry(t, base, p, size, q), t, base, p, size);
  }

  ghost function GrownTable(t: Table, base: nat, p: nat, size: nat): (r: Table)
    ensures HasGrown(r, t, base, p, size)
  {
    CanHaveGrown(t, base, p, size);
    var r :| HasGrown(r, t, base, p, size);
    r
  }

  ghost predicate CanGrow(t: Table, base: nat, p: nat, size: nat) {
    && TableWf(t) && Vacant(t, p, size) && 0 < p && 0 < size && Aligned(size)
    && (base == p || (base in t && t[base].base == base && t[base].end == p))
  }

  lemma GrownTableWf(t: Table, base: nat, p: nat, size: nat)
    requires CanGrow(t, base, p, size)
    ensures TableWf(GrownTable(t, base, p, size))
  {
    var r := GrownTable(t, base, p, size);
    forall q | q in r
      ensures SlotOk(r, q)
    {
      GrownSlot(t, base, p, size, q);
    }
    forall x, y | x in r && r[x].base <= y < r[x].end && Aligned(y - r[x].base)
      ensures SameSpan(r, x, y)
    {
      GrownSpan(t, base, p, size, x, y);
    }
  }

  lemma GrownSlot(t: Table, base: nat, p: nat, size: nat, q: nat)
    requires CanGrow(t, base, p, size) && q in GrownTable(t, base, p, size)
    ensures SlotOk(GrownTable(t, base, p, size), q)
  {
    if base != p {
      assert SlotOk(t, base);
      AlignedSum(p - base, size);
    }
    if q in t {
      assert SlotOk(t, q);
      SpanOf(t, q);
    } else if base != p {
      AlignedSum(p - base, q - p);
    }
  }

  lemma SpanOf(t: Table, q: nat)
    requires TableWf(t) && q in t
    ensures t[q].base in t && t[t[q].base].base == t[q].base && t[t[q].base].end == t[q].end
  {
    assert SlotOk(t, q);
    assert SameSpan(t, q, t[q].base);
  }

  lemma GrownSpan(t: Table, base: nat, p: nat, size: nat, x: nat, y: nat)
    requires CanGrow(t, base, p, size)
    requires x in GrownTable(t, base, p, size)
    requires var r := GrownTable(t, base, p, size); r[x].base <= y < r[x].end && Aligned(y - r[x].base)
    ensures SameSpan(GrownTable(t, base, p, size), x, y)
  {
    if x in t && t[x].base != base {
      assert SlotOk(t, x);
      assert SameSpan(t, x, y);
    } else {
      if x in t {
        SpanOf(t, x);
        assert SlotOk(t, x);
      }
      GrownSpanAt(t, base, p, size, y);
    }
  }

  /** Every slot address of the span that starts at base leads to that span. */
  lemma GrownSpanAt(t: Table, base: nat, p: nat, size: nat, y: nat)
    requires CanGrow(t, base, p, size) && base <= y < p + size && Aligned(y - base)
    ensures var r := GrownTable(t, base, p, size); y in r && r[y].base == base && r[y].end == p + size
  {
    if y < p {
      assert SameSpan(t, base, y);
    } else {
      if base != p {
        assert SlotOk(t, base);
        AlignedRest(p - base, y - base);
      }
      assert y in t ==> SlotOk(t, y);
    }
  }

  lemma AlignedRest(a: int, b: int)
    requires Aligned(a) && Aligned(b)
    ensures Aligned(b - a)
  {
  }

  ghost predicate IsDropped(r: Table, t: Table, base: nat) {
    && (forall q :: q in r <==> q in t && t[q].base != base)
    && (forall q :: q in r ==> r[q] == t[q])
  }

  lemma CanBeDropped(t: Table, base: nat)
    ensures exists r :: IsDropped(r, t, base)
  {
    assert IsDropped(imap q | q in t && t[q].base != base :: t[q], t, base);
  }

  ghost function DroppedTable(t: Table, base: nat): (r: Table)
    ensures IsDropped(r, t, base)
  {
    CanBeDropped(t, base);
    var r :| IsDropped(r, t, base);
    r
  }

  lemma DroppedTableWf(t: Table, base: nat)
    requires TableWf(t)
    ensures TableWf(DroppedTable(t, base))
  {
    var r := DroppedTable(t, base);
    forall q | q in r
      ensures SlotOk(r, q)
    {
      assert SlotOk(t, q);
    }
    forall x, y | x in r && r[x].base <= y < r[x].end && Aligned(y - r[x].base)
      ensures SameSpan(r, x, y)
    {
      assert SameSpan(t, x, y);
    }
  }
}
