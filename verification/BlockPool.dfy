/** Device memory blocks and the pool that recycles them. */
module BlockPool {

  /** A block of device memory. Its address never changes; its size only grows. */
  class Block {
    const addr: nat
    var size: nat

    constructor (addr: nat, size: nat)
      ensures this.addr == addr && this.size == size
    {
      this.addr, this.size := addr, size;
    }

    /** Reallocates when the block is too small; never shrinks. */
    method Resize(newSize: nat)
      modifies this
      ensures size == if old(size) < newSize then newSize else old(size)
    {
      if size < newSize {
        size := newSize;
      }
    }
  }

  /** The order of the free pool: by size, then by address. */
  predicate Less(s: nat, a: nat, t: nat, b: nat) {
    s < t || (s == t && a < b)
  }

  ghost predicate Ordered(free: seq<Block>)
    reads free
  {
    forall i, j {:trigger Less(free[i].size, free[i].addr, free[j].size, free[j].addr)} ::
      0 <= i < j < |free| ==> Less(free[i].size, free[i].addr, free[j].size, free[j].addr)
  }

  /** The position of the first block that does not precede a block of the given size and address. */
  function LowerBound(free: seq<Block>, size: nat, addr: nat, k: nat): (r: nat)
    requires k <= |free|
    requires forall i :: 0 <= i < k ==> Less(free[i].size, free[i].addr, size, addr)
    reads free
    ensures k <= r <= |free|
    ensures forall i :: 0 <= i < r ==> Less(free[i].size, free[i].addr, size, addr)
    ensures r < |free| ==> !Less(free[r].size, free[r].addr, size, addr)
    decreases |free| - k
  {
    if k < |free| && Less(free[k].size, free[k].addr, size, addr)
    then LowerBound(free, size, addr, k + 1)
    else k
  }

  function Removed(free: seq<Block>, k: nat): seq<Block>
    requires k < |free|
  {
    free[..k] + free[k + 1..]
  }

  function Inserted(free: seq<Block>, k: nat, b: Block): seq<Block>
    requires k <= |free|
  {
    free[..k] + [b] + free[k..]
  }

  lemma RemovedOrdered(free: seq<Block>, k: nat)
    requires k < |free| && Ordered(free)
    ensures Ordered(Removed(free, k))
  {
    var r := Removed(free, k);
    forall i, j | 0 <= i < j < |r|
      ensures Less(r[i].size, r[i].addr, r[j].size, r[j].addr)
    {
      var i', j' := if i < k then i else i + 1, if j < k then j else j + 1;
      assert Less(free[i'].size, free[i'].addr, free[j'].size, free[j'].addr);
    }
  }

  lemma RemovedMembers(free: seq<Block>, k: nat)
    requires k < |free| && Ordered(free)
    ensures forall b :: b in Removed(free, k) <==> b in free && b != free[k]
  {
    var r := Removed(free, k);
    assert forall i :: 0 <= i < |r| ==> r[i] == free[if i < k then i else i + 1];
    forall i | 0 <= i < |free| && i != k
      ensures free[i] in r && free[i] != free[k]
    {
      assert r[if i < k then i else i - 1] == free[i];
      var a, b := if i < k then i else k, if i < k then k else i;
      assert Less(free[a].size, free[a].addr, free[b].size, free[b].addr);
    }
  }

  lemma InsertedOrdered(free: seq<Block>, b: Block)
    requires Ordered(free) && forall i :: 0 <= i < |free| ==> free[i].addr != b.addr
    ensures Ordered(Inserted(free, LowerBound(free, b.size, b.addr, 0), b))
  {
    var k := LowerBound(free, b.size, b.addr, 0);
    var r := Inserted(free, k, b);
    forall i, j | 0 <= i < j < |r|
      ensures Less(r[i].size, r[i].addr, r[j].size, r[j].addr)
    {
      InsertedPair(free, b, k, i, j);
    }
  }

  lemma InsertedPair(free: seq<Block>, b: Block, k: nat, i: nat, j: nat)
    requires Ordered(free) && k <= |free| && i < j < |free| + 1
    requires i < k ==> Less(free[i].size, free[i].addr, b.size, b.addr)
    requires k < |free| ==> !Less(free[k].size, free[k].addr, b.size, b.addr) && free[k].addr != b.addr
    ensures var r := Inserted(free, k, b); Less(r[i].size, r[i].addr, r[j].size, r[j].addr)
  {
    var r := Inserted(free, k, b);
    if i < k {
      assert r[i] == free[i];
      if j != k {
        var j' := if j < k then j else j - 1;
        assert r[j] == free[j'];
        assert Less(free[i].size, free[i].addr, free[j'].size, free[j'].addr);
      }
    } else {
      assert r[j] == free[j - 1];
      if i == k {
        if j - 1 > k {
          assert Less(free[k].size, free[k].addr, free[j - 1].size, free[j - 1].addr);
        }
      } else {
        assert r[i] == free[i - 1];
        assert Less(free[i - 1].size, free[i - 1].addr, free[j - 1].size, free[j - 1].addr);
      }
    }
  }

  lemma InsertedMembers(free: seq<Block>, k: nat, b: Block)
    requires k <= |free|
    ensures forall x :: x in Inserted(free, k, b) <==> x in free || x == b
  {
    var r := Inserted(free, k, b);
    assert r[k] == b;
    assert forall i :: 0 <= i < |free| ==> free[i] == r[if i < k then i else i + 1];
  }

  /** Some address is carried by none of finitely many blocks. */
  lemma FreshAddress(s: set<Block>) returns (a: nat)
    ensures forall b :: b in s ==> b.addr < a
  {
    if s == {} {
      a := 0;
    } else {
      var b :| b in s;
      a := FreshAddress(s - {b});
      if a <= b.addr {
        a := b.addr + 1;
      }
    }
  }

  ghost predicate Told(b: Block, c: Block) {
    b != c ==> b.addr != c.addr
  }

  /** Different blocks have different addresses. */
  ghost predicate Apart(blocks: set<Block>) {
    forall b, c {:trigger Told(b, c)} :: b in blocks && c in blocks ==> Told(b, c)
  }

  predicate Unused(blocks: set<Block>, a: nat) {
    forall b :: b in blocks ==> b.addr != a
  }

  lemma ApartExtended(blocks: set<Block>, block: Block)
    requires Apart(blocks) && Unused(blocks, block.addr)
    ensures Apart(blocks + {block})
  {
    forall b, c | b in blocks + {block} && c in blocks + {block}
      ensures Told(b, c)
    {
      assert b in blocks && c in blocks ==> Told(b, c);
    }
  }

  class BlockAllocator {
    var free: seq<Block>
    var handedOut: set<Block>
    /** Every block ever made, and how many there are. */
    ghost var blocks: set<Block>
    ghost var created: nat

    ghost predicate Valid()
      reads this, blocks
    {
      && (forall b :: b in free ==> b in blocks)
      && handedOut <= blocks
      && (forall b :: b in blocks ==> b in free || b in handedOut)
      && Ordered(free)
      && (forall b :: b in free ==> b !in handedOut)
      && Apart(blocks)
      && created == |free| + |handedOut|
    }

    constructor ()
      ensures Valid() && free == [] && handedOut == {} && blocks == {} && created == 0
    {
      free, handedOut, blocks, created := [], {}, {}, 0;
    }

    /**
      Takes the first free block not below the request in the pool's order; failing that, grows the
      largest free block; only an empty pool makes a new one. keyAddr is the address the search key
      happens to have.
     */
    method Alloc(size: nat, keyAddr: nat) returns (block: Block)
      requires Valid()
      modifies this, blocks
      ensures Valid() && block.size >= size && fresh(blocks - old(blocks)) && old(blocks) <= blocks
      ensures block !in old(handedOut) && handedOut == old(handedOut) + {block}
      ensures old(free) == [] ==> fresh(block) && created == old(created) + 1 && block.size == size && free == []
      ensures old(free) != [] ==>
                && created == old(created) && block in old(free)
                && (forall b :: b in free <==> b in old(free) && b != block)
                && (forall b :: b in old(free) && b != block ==> b.size == old(b.size))
                && (block.size == old(block.size)
                    || (block.size == size && forall b :: b in old(free) ==> old(b.size) <= old(block.size)))
                && (forall b :: b in old(free) && old(b.size) > size ==> block.size <= old(b.size))
    {
      var it := LowerBound(free, size, keyAddr, 0);
      if it != |free| {
        FoundLeast(it);
        block := Take(it);
      } else if it != 0 {
        it := it - 1;
        AllBelow(size, keyAddr);
        GrowLast(size);
        block := Take(it);
      } else {
        block := Create(size);
      }
    }

    /** Moves the free block at position it to the blocks handed out. */
    method Take(it: nat) returns (block: Block)
      requires Valid() && it < |free|
      modifies this
      ensures Valid() && created == old(created) && blocks == old(blocks) && block == old(free)[it]
      ensures handedOut == old(handedOut) + {block}
      ensures forall b :: b in free <==> b in old(free) && b != block
    {
      block := free[it];
      assert block in free;
      RemovedOrdered(free, it);
      RemovedMembers(free, it);
      free := Removed(free, it);
      handedOut := handedOut + {block};
    }

    method Create(size: nat) returns (block: Block)
      requires Valid() && free == []
      modifies this
      ensures Valid() && created == old(created) + 1 && fresh(block) && block.size == size
      ensures handedOut == old(handedOut) + {block} && free == [] && blocks == old(blocks) + {block}
    {
      ghost var bound := FreshAddress(handedOut);
      assert Unused(handedOut, bound);
      var addr: nat :| Unused(handedOut, addr);
      assert blocks == handedOut;
      block := new Block(addr, size);
      ApartExtended(handedOut, block);
      created := created + 1;
      handedOut, blocks := handedOut + {block}, blocks + {block};
    }

    lemma FoundLeast(it: nat)
      requires Ordered(free) && it < |free|
      ensures forall i :: it <= i < |free| ==> free[it].size <= free[i].size
    {
      forall i | it < i < |free|
        ensures free[it].size <= free[i].size
      {
        assert Less(free[it].size, free[it].addr, free[i].size, free[i].addr);
      }
    }

    lemma AllBelow(size: nat, keyAddr: nat)
      requires Ordered(free) && free != [] && LowerBound(free, size, keyAddr, 0) == |free|
      ensures forall b :: b in free ==> b.size <= size && b.size <= free[|free| - 1].size
    {
      var k := |free| - 1;
      forall i | 0 <= i < k
        ensures free[i].size <= free[k].size
      {
        assert Less(free[i].size, free[i].addr, free[k].size, free[k].addr);
      }
    }

    /** Growing the last free block in place keeps the pool ordered. */
    method GrowLast(size: nat)
      requires Valid() && free != [] && free[|free| - 1].size <= size
      modifies free[|free| - 1]
      ensures Valid() && free[|free| - 1].size == size
    {
      var it := |free| - 1;
      free[it].Resize(size);
      forall i, j | 0 <= i < j < |free|
        ensures Less(free[i].size, free[i].addr, free[j].size, free[j].addr)
      {
        assert old(Less(free[i].size, free[i].addr, free[j].size, free[j].addr));
        assert old(Less(free[i].size, free[i].addr, free[it].size, free[it].addr));
        assert j != it ==> old(Less(free[j].size, free[j].addr, free[it].size, free[it].addr));
      }
    }

    /** Returns a block to the pool; null and blocks not handed out are ignored. */
    method Free(block: Block?)
      requires Valid()
      modifies this
      ensures Valid() && created == old(created)
      ensures block == null || block !in old(handedOut) ==> free == old(free) && handedOut == old(handedOut)
      ensures blocks == old(blocks)
      ensures block != null && block in old(handedOut) ==>
                && handedOut == old(handedOut) - {block}
                && (forall b :: b in free <==> b in old(free) || b == block)
    {
      if block == null {
        return;
      }
      if block !in handedOut {
        return;
      }
      Recycle(block);
    }

    /** Returns every handed-out block to the pool. */
    method Reset()
      requires Valid()
      modifies this
      ensures Valid() && created == old(created)
      ensures handedOut == {} && (forall b :: b in free <==> b in old(blocks))
    {
      while handedOut != {}
        invariant Valid() && created == old(created) && blocks == old(blocks)
        decreases |handedOut|
      {
        var block :| block in handedOut;
        Free(block);
      }
    }

    method Recycle(block: Block)
      requires Valid() && block in handedOut
      modifies this
      ensures Valid() && created == old(created) && blocks == old(blocks)
      ensures handedOut == old(handedOut) - {block}
      ensures forall b :: b in free <==> b in old(free) || b == block
    {
      FreeElsewhere(block);
      var k := LowerBound(free, block.size, block.addr, 0);
      InsertedOrdered(free, block);
      InsertedMembers(free, k, block);
      free := Inserted(free, k, block);
      handedOut := handedOut - {block};
    }

    lemma FreeElsewhere(block: Block)
      requires Valid() && block in handedOut
      ensures forall i :: 0 <= i < |free| ==> free[i].addr != block.addr
    {
      forall i | 0 <= i < |free|
        ensures free[i].addr != block.addr
      {
        assert free[i] in free;
        assert Told(free[i], block);
      }
    }
  }
}
