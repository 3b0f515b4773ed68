/** Linear-scan binding of tensors to recycled memory blocks. */
module MemoryReuser {
  import opened BlockPool

  /** A tensor, told from others by its identity. */
  datatype Tensor = Tensor(id: nat, name: string)

  const NO_REUSE: seq<string> := [
    "cross_attention.key_value.out",
    "input_ids",
    "attention_mask",
    "fusion_input_ids",
    "fusion_attention_mask",
    "fusion_relative_position",
    "batch_offset",
    "transmask.out",
    "max_dec_ids",
    "generated_ids_global",
    "dec_ids",
    "next_beam_id",
    "hyps_ids",
    "hyps_beam_score"]

  predicate Contains(text: string, part: string) {
    exists i {:trigger text[i..]} :: 0 <= i <= |text| && part <= text[i..]
  }

  /** Tensors whose name has one of these as a part keep memory of their own. */
  predicate Reserved(part: string) {
    || part == "cross_attention.key_value.out" || part == "input_ids" || part == "attention_mask"
    || part == "fusion_input_ids" || part == "fusion_attention_mask" || part == "fusion_relative_position"
    || part == "batch_offset" || part == "transmask.out" || part == "max_dec_ids"
    || part == "generated_ids_global" || part == "dec_ids" || part == "next_beam_id"
    || part == "hyps_ids" || part == "hyps_beam_score"
  }

  ghost predicate Reusable(t: Tensor) {
    forall i, j {:trigger t.name[i..j]} :: 0 <= i <= j <= |t.name| ==> !Reserved(t.name[i..j])
  }

  lemma ListIsReserved(s: string)
    ensures s in NO_REUSE <==> Reserved(s)
  {
    if Reserved(s) {
      assert s == NO_REUSE[0] || s == NO_REUSE[1] || s == NO_REUSE[2] || s == NO_REUSE[3] || s == NO_REUSE[4]
          || s == NO_REUSE[5] || s == NO_REUSE[6] || s == NO_REUSE[7] || s == NO_REUSE[8] || s == NO_REUSE[9]
          || s == NO_REUSE[10] || s == NO_REUSE[11] || s == NO_REUSE[12] || s == NO_REUSE[13];
    }
  }

  lemma ContainsSlice(text: string, part: string)
    ensures Contains(text, part) <==> exists i, j {:trigger text[i..j]} :: 0 <= i <= j <= |text| && text[i..j] == part
  {
    if Contains(text, part) {
      var i :| 0 <= i <= |text| && part <= text[i..];
      assert text[i..i + |part|] == text[i..][..|part|] == part;
    }
    if i, j :| 0 <= i <= j <= |text| && text[i..j] == part {
      assert text[i..][..|part|] == part;
    }
  }

  lemma NoReservedPart(name: string)
    ensures (forall i, j {:trigger name[i..j]} :: 0 <= i <= j <= |name| ==> !Reserved(name[i..j])) <==>
            forall a, part, b {:trigger a + part + b} :: Reserved(part) ==> name != a + part + b
  {
    forall a, part, b | name == a + part + b
      ensures name[|a|..|a| + |part|] == part
    {
    }
    forall i, j | 0 <= i <= j <= |name|
      ensures name == name[..i] + name[i..j] + name[j..]
    {
    }
  }

  /** Whether a tensor with this name is not to be reused. */
  method CheckNoUsed(name: string) returns (found: bool)
    ensures found <==> exists i, j {:trigger name[i..j]} :: 0 <= i <= j <= |name| && Reserved(name[i..j])
  {
    found := false;
    for k := 0 to |NO_REUSE|
      invariant forall m :: 0 <= m < k ==> !Contains(name, NO_REUSE[m])
    {
      if Contains(name, NO_REUSE[k]) {
        ContainsSlice(name, NO_REUSE[k]);
        ListIsReserved(NO_REUSE[k]);
        return true;
      }
    }
    forall i, j | 0 <= i <= j <= |name|
      ensures !Reserved(name[i..j])
    {
      ListIsReserved(name[i..j]);
      ContainsSlice(name, name[i..j]);
    }
  }

  type VisitList = seq<seq<Tensor>>

  // Visits, and the interval of steps in which a tensor is live.

  ghost predicate Seen(visits: VisitList, t: Tensor, i: nat) {
    exists j {:trigger visits[j]} :: 0 <= j < |visits| && j < i && t in visits[j]
  }

  /** How often a tensor occurs in a step from position k on. */
  function CountFrom(step: seq<Tensor>, t: Tensor, k: nat): nat
    decreases |step| - k
  {
    if k >= |step| then 0 else (if step[k] == t then 1 else 0) + CountFrom(step, t, k + 1)
  }

  lemma CountPositive(step: seq<Tensor>, t: Tensor, k: nat)
    ensures CountFrom(step, t, k) > 0 <==> exists m :: k <= m < |step| && step[m] == t
    decreases |step| - k
  {
  }

  /** How often a tensor is visited from step i on. */
  function Rest(visits: VisitList, t: Tensor, i: nat): nat
    decreases |visits| - i
  {
    if i >= |visits| then 0 else CountFrom(visits[i], t, 0) + Rest(visits, t, i + 1)
  }

  /** A tensor occurs before position k of a step. */
  ghost predicate Earlier(step: seq<Tensor>, t: Tensor, k: nat) {
    exists m {:trigger step[m]} :: 0 <= m < |step| && m < k && step[m] == t
  }

  lemma RestPositive(visits: VisitList, t: Tensor, i: nat)
    ensures Rest(visits, t, i) > 0 <==> exists j {:trigger visits[j]} :: i <= j < |visits| && t in visits[j]
    decreases |visits| - i
  {
    if i < |visits| {
      RestPositive(visits, t, i + 1);
      CountPositive(visits[i], t, 0);
    }
  }

  lemma SeenNext(visits: VisitList, t: Tensor, i: nat)
    requires i < |visits|
    ensures Seen(visits, t, i + 1) <==> Seen(visits, t, i) || t in visits[i]
  {
  }

  /** A tensor is live from the step of its first visit to the step of its last. */
  ghost predicate Live(visits: VisitList, t: Tensor, i: nat) {
    Seen(visits, t, i + 1) && Rest(visits, t, i) > 0
  }

  /** Every visit of t comes strictly before every visit of u. */
  ghost predicate Before(visits: VisitList, t: Tensor, u: Tensor) {
    forall i, j {:trigger visits[i], visits[j]} ::
      0 <= i < |visits| && 0 <= j < |visits| && t in visits[i] && u in visits[j] ==> i < j
  }

  ghost function Tensors(visits: VisitList): set<Tensor> {
    set i, t | 0 <= i < |visits| && t in visits[i] :: t
  }

  /** The reusable tensors live at a step. */
  ghost function LiveSet(visits: VisitList, i: nat): set<Tensor> {
    set t | t in Tensors(visits) && Reusable(t) && Live(visits, t, i)
  }

  /** The largest number of reusable tensors live at once in the first n steps. */
  ghost function PeakTo(visits: VisitList, n: nat): nat {
    if n == 0 then 0 else Max(PeakTo(visits, n - 1), |LiveSet(visits, n - 1)|)
  }

  ghost function Peak(visits: VisitList): nat {
    PeakTo(visits, |visits|)
  }

  function Max(a: nat, b: nat): nat {
    if a < b then b else a
  }

  /** Two tensors share a block only when one is done before the other starts. */
  ghost predicate Safe<B>(visits: VisitList, binding: map<Tensor, B>) {
    forall t, u {:trigger SharesSafely(visits, binding, t, u)} ::
      t in binding && u in binding ==> SharesSafely(visits, binding, t, u)
  }

  ghost predicate SharesSafely<B>(visits: VisitList, binding: map<Tensor, B>, t: Tensor, u: Tensor)
    requires t in binding && u in binding
  {
    t != u && binding[t] == binding[u] ==> Before(visits, t, u) || Before(visits, u, t)
  }

  lemma LiveTogether(visits: VisitList, t: Tensor, u: Tensor, i: nat)
    requires Live(visits, t, i) && Live(visits, u, i)
    ensures !Before(visits, t, u)
  {
    RestPositive(visits, t, i);
    var j :| i <= j < |visits| && t in visits[j];
    var k :| 0 <= k < |visits| && k < i + 1 && u in visits[k];
  }

  // What the pass knows between two steps, and within one.

  /** The visit count of a tensor when steps before i are over and k visits of step i are done. */
  ghost predicate Counted(visits: VisitList, t: Tensor, n: int, i: nat, k: nat)
    requires i < |visits| && k <= |visits[i]|
  {
    if !Reusable(t) then n == Rest(visits, t, 0)
    else if Rest(visits, t, i) == 0 then n == -1
    else n == CountFrom(visits[i], t, k) + Rest(visits, t, i + 1)
  }

  /** The visit count of a tensor when steps before i are over: finished tensors are marked -1. */
  ghost predicate Settled(visits: VisitList, t: Tensor, n: int, i: nat) {
    if !Reusable(t) then n == Rest(visits, t, 0)
    else if Rest(visits, t, i) == 0 then n == -1
    else n == Rest(visits, t, i)
  }

  ghost predicate Covers(visits: VisitList, ts: set<Tensor>) {
    forall i, k {:trigger visits[i][k]} :: 0 <= i < |visits| && 0 <= k < |visits[i]| ==> visits[i][k] in ts
  }

  ghost predicate Counts(visits: VisitList, vis: map<Tensor, int>, i: nat) {
    Covers(visits, vis.Keys) && forall t {:trigger vis[t]} :: t in vis ==> Settled(visits, t, vis[t], i)
  }

  /** Exactly the reusable tensors seen so far are bound. */
  ghost predicate BoundSeen(visits: VisitList, bound: set<Tensor>, i: nat) {
    forall t {:trigger t in bound} :: t in bound <==> Reusable(t) && Seen(visits, t, i)
  }

  /** Different held tensors hold different blocks, and these are the ones handed out beside the base. */
  ghost predicate Holding(binding: map<Tensor, Block>, held: set<Tensor>, out: set<Block>, base: set<Block>) {
    && held <= binding.Keys
    && base <= out
    && |out| == |base| + |held|
    && (forall t {:trigger binding[t]} :: t in held ==> binding[t] in out && binding[t] !in base)
    && (forall t, u {:trigger Differ(binding, t, u)} :: t in held && u in held ==> Differ(binding, t, u))
  }

  ghost predicate Differ(binding: map<Tensor, Block>, t: Tensor, u: Tensor)
    requires t in binding && u in binding
  {
    t != u ==> binding[t] != binding[u]
  }

  /** The held tensors are the bound ones with visits left from step i on. */
  ghost predicate HeldFrom(visits: VisitList, bound: set<Tensor>, held: set<Tensor>, i: nat) {
    held <= bound
    && forall t {:trigger t in held} :: t in bound ==> (t in held <==> Rest(visits, t, i) > 0)
  }

  // Single steps of the proof.

  lemma BindKeepsSafe(visits: VisitList, i: nat, binding: map<Tensor, Block>, held: set<Tensor>, out: set<Block>,
                      base: set<Block>, t: Tensor, b: Block)
    requires Safe(visits, binding) && Holding(binding, held, out, base) && HeldFrom(visits, binding.Keys, held, i)
    requires !Seen(visits, t, i) && b !in out
    ensures Safe(visits, binding[t := b])
  {
    var next := binding[t := b];
    forall u, v | u in next && v in next
      ensures SharesSafely(visits, next, u, v)
    {
      if u == t {
        DoneBefore(visits, i, v, t);
      } else if v == t {
        DoneBefore(visits, i, u, t);
      } else {
        assert SharesSafely(visits, binding, u, v);
      }
    }
  }

  lemma DoneBefore(visits: VisitList, i: nat, u: Tensor, t: Tensor)
    requires !Seen(visits, t, i)
    ensures Rest(visits, u, i) == 0 ==> Before(visits, u, t)
  {
    RestPositive(visits, u, i);
  }

  lemma BindKeepsHolding(binding: map<Tensor, Block>, held: set<Tensor>, out: set<Block>, base: set<Block>,
                         t: Tensor, b: Block)
    requires Holding(binding, held, out, base) && t !in binding && b !in out
    ensures Holding(binding[t := b], held + {t}, out + {b}, base)
  {
    var next := binding[t := b];
    forall u, v | u in held + {t} && v in held + {t}
      ensures Differ(next, u, v)
    {
      assert u in held && v in held ==> Differ(binding, u, v);
      assert u in held ==> binding[u] in out;
      assert v in held ==> binding[v] in out;
    }
  }

  lemma FreeKeepsHolding(binding: map<Tensor, Block>, held: set<Tensor>, out: set<Block>, base: set<Block>, t: Tensor)
    requires Holding(binding, held, out, base) && t in held
    ensures binding[t] in out && Holding(binding, held - {t}, out - {binding[t]}, base)
  {
    forall u | u in held && u != t
      ensures binding[u] != binding[t]
    {
      assert Differ(binding, u, t);
    }
  }

  /** Exactly the reusable tensors seen before step i or in the first k visits of step i are bound. */
  ghost predicate BoundWithin(visits: VisitList, bound: set<Tensor>, i: nat, k: nat)
    requires i < |visits| && k <= |visits[i]|
  {
    forall t {:trigger t in bound} :: t in bound <==> Reusable(t) && (Seen(visits, t, i) || Earlier(visits[i], t, k))
  }

  ghost predicate CountsWithin(visits: VisitList, vis: map<Tensor, int>, i: nat, k: nat)
    requires i < |visits| && k <= |visits[i]|
  {
    Covers(visits, vis.Keys) && forall t {:trigger vis[t]} :: t in vis ==> Counted(visits, t, vis[t], i, k)
  }

  lemma VisitCounts(visits: VisitList, vis: map<Tensor, int>, i: nat, k: nat, t: Tensor)
    requires i < |visits| && k < |visits[i]| && CountsWithin(visits, vis, i, k) && t == visits[i][k]
    ensures t in vis
    ensures Reusable(t) ==> CountsWithin(visits, vis[t := vis[t] - 1], i, k + 1)
    ensures !Reusable(t) ==> CountsWithin(visits, vis, i, k + 1)
  {
    var next := if Reusable(t) then vis[t := vis[t] - 1] else vis;
    RestPositive(visits, t, i);
    forall u | u in next
      ensures Counted(visits, u, next[u], i, k + 1)
    {
      assert Counted(visits, u, vis[u], i, k);
    }
  }

  lemma VisitBound(visits: VisitList, bound: set<Tensor>, i: nat, k: nat, t: Tensor)
    requires i < |visits| && k < |visits[i]| && BoundWithin(visits, bound, i, k) && t == visits[i][k]
    ensures Reusable(t) ==> BoundWithin(visits, bound + {t}, i, k + 1)
    ensures !Reusable(t) ==> BoundWithin(visits, bound, i, k + 1)
    ensures Rest(visits, t, i) > 0
    ensures Reusable(t) && t !in bound ==> !Seen(visits, t, i)
  {
    var next := if Reusable(t) then bound + {t} else bound;
    RestPositive(visits, t, i);
    forall u
      ensures u in next <==> Reusable(u) && (Seen(visits, u, i) || Earlier(visits[i], u, k + 1))
    {
      EarlierNext(visits[i], u, k);
      assert u in bound <==> Reusable(u) && (Seen(visits, u, i) || Earlier(visits[i], u, k));
    }
  }

  lemma EarlierNext(step: seq<Tensor>, t: Tensor, k: nat)
    requires k < |step|
    ensures Earlier(step, t, k + 1) <==> Earlier(step, t, k) || step[k] == t
  {
  }

  lemma EndOfVisits(visits: VisitList, i: nat, vis: map<Tensor, int>, bound: set<Tensor>, held: set<Tensor>)
    requires i < |visits| && CountsWithin(visits, vis, i, |visits[i]|)
    requires BoundWithin(visits, bound, i, |visits[i]|) && HeldFrom(visits, bound, held, i)
    ensures BoundSeen(visits, bound, i + 1) && held == LiveSet(visits, i)
    ensures forall t :: t in vis ==> Visited(visits, t, vis[t], i)
  {
    forall t
      ensures t in bound <==> Reusable(t) && Seen(visits, t, i + 1)
    {
      SeenNext(visits, t, i);
    }
    forall t
      ensures t in held <==> t in LiveSet(visits, i)
    {
      assert t in held ==> t in bound;
      SeenNext(visits, t, i);
    }
    forall t | t in vis
      ensures Visited(visits, t, vis[t], i)
    {
      assert Counted(visits, t, vis[t], i, |visits[i]|);
    }
  }

  /** The visit count of a tensor at the end of step i, before tensors are released. */
  ghost predicate Visited(visits: VisitList, t: Tensor, n: int, i: nat) {
    if !Reusable(t) then n == Rest(visits, t, 0)
    else if Rest(visits, t, i) == 0 then n == -1
    else n == Rest(visits, t, i + 1)
  }

  ghost predicate Owned(binding: map<Tensor, Block>, blocks: set<Block>) {
    forall t {:trigger binding[t]} :: t in binding ==> binding[t] in blocks
  }

  /** A block from the pool; a new one is made only when all blocks are handed out. */
  method AllocBlock(pool: BlockAllocator) returns (block: Block)
    requires pool.Valid()
    modifies pool, pool.blocks
    ensures pool.Valid() && block !in old(pool.handedOut) && pool.handedOut == old(pool.handedOut) + {block}
    ensures pool.created == Max(old(pool.created), |pool.handedOut|)
    ensures fresh(pool.blocks - old(pool.blocks)) && old(pool.blocks) <= pool.blocks && block in pool.blocks
  {
    var keyAddr: nat := *;
    block := pool.Alloc(0, keyAddr);
  }

  /** What the bound and held tensors and the blocks handed out have to do with each other during step i. */
  ghost predicate Consistent(visits: VisitList, i: nat, binding: map<Tensor, Block>, held: set<Tensor>,
                             out: set<Block>, base: set<Block>, created: nat, floor: nat)
  {
    && HeldFrom(visits, binding.Keys, held, i)
    && Holding(binding, held, out, base)
    && Safe(visits, binding)
    && created == Max(floor, |base| + |held|)
  }

  lemma BindKeepsConsistent(visits: VisitList, i: nat, binding: map<Tensor, Block>, held: set<Tensor>, out: set<Block>,
                            base: set<Block>, created: nat, floor: nat, t: Tensor, b: Block)
    requires Consistent(visits, i, binding, held, out, base, created, floor)
    requires t !in binding && !Seen(visits, t, i) && Rest(visits, t, i) > 0 && b !in out
    ensures Consistent(visits, i, binding[t := b], held + {t}, out + {b}, base, Max(created, |out + {b}|), floor)
  {
    BindKeepsSafe(visits, i, binding, held, out, base, t, b);
    BindKeepsHolding(binding, held, out, base, t, b);
  }

  /** The state of the pass when k visits of step i are done. */
  ghost predicate Within(visits: VisitList, i: nat, k: nat, vis: map<Tensor, int>, bound: set<Tensor>,
                         binding: map<Tensor, Block>, held: set<Tensor>, out: set<Block>, base: set<Block>,
                         created: nat, floor: nat)
    requires i < |visits| && k <= |visits[i]|
  {
    && CountsWithin(visits, vis, i, k)
    && bound == binding.Keys
    && BoundWithin(visits, bound, i, k)
    && Consistent(visits, i, binding, held, out, base, created, floor)
  }

  lemma VisitNoReuse(visits: VisitList, i: nat, k: nat, vis: map<Tensor, int>, bound: set<Tensor>,
                     binding: map<Tensor, Block>, held: set<Tensor>, out: set<Block>, base: set<Block>, created: nat,
                     floor: nat)
    requires i < |visits| && k < |visits[i]| && !Reusable(visits[i][k])
    requires Within(visits, i, k, vis, bound, binding, held, out, base, created, floor)
    ensures Within(visits, i, k + 1, vis, bound, binding, held, out, base, created, floor)
  {
    VisitCounts(visits, vis, i, k, visits[i][k]);
    VisitBound(visits, bound, i, k, visits[i][k]);
  }

  lemma VisitAgain(visits: VisitList, i: nat, k: nat, vis: map<Tensor, int>, bound: set<Tensor>,
                   binding: map<Tensor, Block>, held: set<Tensor>, out: set<Block>, base: set<Block>, created: nat,
                   floor: nat)
    requires i < |visits| && k < |visits[i]| && Reusable(visits[i][k])
    requires Within(visits, i, k, vis, bound, binding, held, out, base, created, floor) && visits[i][k] in bound
    ensures visits[i][k] in vis
    ensures Within(visits, i, k + 1, vis[visits[i][k] := vis[visits[i][k]] - 1], bound, binding, held, out, base,
                   created, floor)
  {
    VisitCounts(visits, vis, i, k, visits[i][k]);
    VisitBound(visits, bound, i, k, visits[i][k]);
    assert bound + {visits[i][k]} == bound;
  }

  lemma VisitFirst(visits: VisitList, i: nat, k: nat, vis: map<Tensor, int>, bound: set<Tensor>,
                   binding: map<Tensor, Block>, held: set<Tensor>, out: set<Block>, base: set<Block>, created: nat,
                   floor: nat, t: Tensor, b: Block)
    requires i < |visits| && k < |visits[i]| && t == visits[i][k] && Reusable(t) && t !in bound && b !in out
    requires Within(visits, i, k, vis, bound, binding, held, out, base, created, floor)
    ensures t in vis
    ensures Within(visits, i, k + 1, vis[t := vis[t] - 1], bound + {t}, binding[t := b], held + {t}, out + {b},
                   base, Max(created, |out + {b}|), floor)
  {
    VisitCounts(visits, vis, i, k, t);
    VisitBound(visits, bound, i, k, t);
    assert binding[t := b].Keys == bound + {t};
    BindKeepsConsistent(visits, i, binding, held, out, base, created, floor, t, b);
  }

  /** One visit: the first one binds a block, and every one counts down; tensors not to be reused are skipped. */
  method Visit(visits: VisitList, i: nat, k: nat, t: Tensor, pool: BlockAllocator, vis0: map<Tensor, int>,
               bound0: set<Tensor>,
               binding0: map<Tensor, Block>, ghost held0: set<Tensor>, ghost base: set<Block>, ghost floor: nat)
    returns (vis: map<Tensor, int>, bound: set<Tensor>, binding: map<Tensor, Block>, ghost held: set<Tensor>)
    requires i < |visits| && k < |visits[i]| && t == visits[i][k] && pool.Valid() && Owned(binding0, pool.blocks)
    requires Within(visits, i, k, vis0, bound0, binding0, held0, pool.handedOut, base, pool.created, floor)
    modifies pool, pool.blocks
    ensures pool.Valid() && Owned(binding, pool.blocks)
    ensures fresh(pool.blocks - old(pool.blocks))
    ensures Within(visits, i, k + 1, vis, bound, binding, held, pool.handedOut, base, pool.created, floor)
    ensures vis.Keys == vis0.Keys
  {
    vis, bound, binding, held := vis0, bound0, binding0, held0;
    ghost var out, created := pool.handedOut, pool.created;
    var noUse := CheckNoUsed(t.name);
    if noUse {
      VisitNoReuse(visits, i, k, vis, bound, binding, held, out, base, created, floor);
      return;
    }
    if t !in bound {
      vis, bound, binding, held := FirstVisit(visits, i, k, t, pool, vis, bound, binding, held, base, floor);
    } else {
      VisitAgain(visits, i, k, vis, bound, binding, held, out, base, created, floor);
      vis := vis[t := vis[t] - 1];
    }
  }

  /** The first visit to a tensor binds it to a block. */
  method FirstVisit(visits: VisitList, i: nat, k: nat, t: Tensor, pool: BlockAllocator, vis0: map<Tensor, int>,
                    bound0: set<Tensor>, binding0: map<Tensor, Block>, ghost held0: set<Tensor>,
                    ghost base: set<Block>, ghost floor: nat)
    returns (vis: map<Tensor, int>, bound: set<Tensor>, binding: map<Tensor, Block>, ghost held: set<Tensor>)
    requires i < |visits| && k < |visits[i]| && t == visits[i][k] && pool.Valid() && Owned(binding0, pool.blocks)
    requires Within(visits, i, k, vis0, bound0, binding0, held0, pool.handedOut, base, pool.created, floor)
    requires Reusable(t) && t !in bound0
    modifies pool, pool.blocks
    ensures pool.Valid() && Owned(binding, pool.blocks)
    ensures fresh(pool.blocks - old(pool.blocks))
    ensures Within(visits, i, k + 1, vis, bound, binding, held, pool.handedOut, base, pool.created, floor)
    ensures vis.Keys == vis0.Keys
  {
    ghost var out, created := pool.handedOut, pool.created;
    var block := AllocBlock(pool);
    VisitFirst(visits, i, k, vis0, bound0, binding0, held0, out, base, created, floor, t, block);
    bound, binding, held := bound0 + {t}, binding0[t := block], held0 + {t};
    vis := vis0[t := vis0[t] - 1];
  }

  /** Allocates a block for every reusable tensor first visited at step i, and counts the visits down. */
  method BindStep(visits: VisitList, i: nat, pool: BlockAllocator, vis0: map<Tensor, int>, bound0: set<Tensor>,
                  binding0: map<Tensor, Block>, ghost held0: set<Tensor>, ghost base: set<Block>, ghost floor: nat)
    returns (vis: map<Tensor, int>, bound: set<Tensor>, binding: map<Tensor, Block>, ghost held: set<Tensor>)
    requires i < |visits| && pool.Valid() && Owned(binding0, pool.blocks)
    requires Within(visits, i, 0, vis0, bound0, binding0, held0, pool.handedOut, base, pool.created, floor)
    modifies pool, pool.blocks
    ensures pool.Valid() && Owned(binding, pool.blocks) && fresh(pool.blocks - old(pool.blocks))
    ensures Within(visits, i, |visits[i]|, vis, bound, binding, held, pool.handedOut, base, pool.created, floor)
    ensures vis.Keys == vis0.Keys
  {
    vis, bound, binding, held := vis0, bound0, binding0, held0;
    for k := 0 to |visits[i]|
      invariant pool.Valid() && Owned(binding, pool.blocks)
      invariant fresh(pool.blocks - old(pool.blocks))
      invariant Within(visits, i, k, vis, bound, binding, held, pool.handedOut, base, pool.created, floor)
      invariant vis.Keys == vis0.Keys
    {
      vis, bound, binding, held := Visit(visits, i, k, visits[i][k], pool, vis, bound, binding, held, base, floor);
    }
  }

  // Counting all visits beforehand.

  ghost predicate AllVisited(visits: VisitList, ts: set<Tensor>) {
    forall t {:trigger t in ts} :: t in ts ==> Rest(visits, t, 0) > 0
  }

  function Tally(vis: map<Tensor, int>, t: Tensor): int {
    if t in vis then vis[t] else 0
  }

  /** What is counted so far and what is left make up all visits. */
  ghost predicate Tallied(visits: VisitList, vis: map<Tensor, int>, i: nat) {
    && (forall t {:trigger Rest(visits, t, i)} :: Tally(vis, t) + Rest(visits, t, i) == Rest(visits, t, 0))
    && (forall t :: t in vis ==> vis[t] > 0)
  }

  ghost predicate TalliedWithin(visits: VisitList, vis: map<Tensor, int>, i: nat, k: nat)
    requires i < |visits|
  {
    && (forall t {:trigger CountFrom(visits[i], t, k)} ::
          Tally(vis, t) + CountFrom(visits[i], t, k) + Rest(visits, t, i + 1) == Rest(visits, t, 0))
    && (forall t :: t in vis ==> vis[t] > 0)
  }

  lemma TallyOne(visits: VisitList, vis: map<Tensor, int>, i: nat, k: nat)
    requires i < |visits| && k < |visits[i]| && TalliedWithin(visits, vis, i, k)
    ensures var t := visits[i][k]; TalliedWithin(visits, vis[t := Tally(vis, t) + 1], i, k + 1)
  {
    var t := visits[i][k];
    var next := vis[t := Tally(vis, t) + 1];
    forall u
      ensures Tally(next, u) + CountFrom(visits[i], u, k + 1) + Rest(visits, u, i + 1) == Rest(visits, u, 0)
    {
      assert Tally(vis, u) + CountFrom(visits[i], u, k) + Rest(visits, u, i + 1) == Rest(visits, u, 0);
    }
  }

  lemma TalliedStart(visits: VisitList, vis: map<Tensor, int>, i: nat)
    requires i < |visits| && Tallied(visits, vis, i)
    ensures TalliedWithin(visits, vis, i, 0)
  {
    forall t
      ensures Tally(vis, t) + CountFrom(visits[i], t, 0) + Rest(visits, t, i + 1) == Rest(visits, t, 0)
    {
      assert Tally(vis, t) + Rest(visits, t, i) == Rest(visits, t, 0);
    }
  }

  lemma TalliedEnd(visits: VisitList, vis: map<Tensor, int>, i: nat)
    requires i < |visits| && TalliedWithin(visits, vis, i, |visits[i]|)
    ensures Tallied(visits, vis, i + 1)
  {
    forall t
      ensures Tally(vis, t) + Rest(visits, t, i + 1) == Rest(visits, t, 0)
    {
      assert Tally(vis, t) + CountFrom(visits[i], t, |visits[i]|) + Rest(visits, t, i + 1) == Rest(visits, t, 0);
    }
  }

  lemma TalliedAll(visits: VisitList, vis: map<Tensor, int>)
    requires Tallied(visits, vis, |visits|)
    ensures Counts(visits, vis, 0) && AllVisited(visits, vis.Keys)
  {
    forall t
      ensures t in vis ==> Settled(visits, t, vis[t], 0) && Rest(visits, t, 0) > 0
    {
      assert Tally(vis, t) + Rest(visits, t, |visits|) == Rest(visits, t, 0);
    }
    forall i, k | 0 <= i < |visits| && 0 <= k < |visits[i]|
      ensures visits[i][k] in vis.Keys
    {
      RestPositive(visits, visits[i][k], 0);
      assert Tally(vis, visits[i][k]) + Rest(visits, visits[i][k], |visits|) > 0;
    }
  }

  method CountVisits(visits: VisitList) returns (vis: map<Tensor, int>)
    ensures Counts(visits, vis, 0) && AllVisited(visits, vis.Keys)
  {
    vis := map[];
    for i := 0 to |visits|
      invariant Tallied(visits, vis, i)
    {
      TalliedStart(visits, vis, i);
      for k := 0 to |visits[i]|
        invariant TalliedWithin(visits, vis, i, k)
      {
        TallyOne(visits, vis, i, k);
        vis := vis[visits[i][k] := Tally(vis, visits[i][k]) + 1];
      }
      TalliedEnd(visits, vis, i);
    }
    TalliedAll(visits, vis);
  }

  // Releasing tensors after their last visit.

  /** The count of a tensor while step i releases tensors; those in todo are still to be looked at. */
  ghost predicate Releasing(visits: VisitList, i: nat, vis: map<Tensor, int>, todo: set<Tensor>) {
    forall t {:trigger vis[t]} :: t in vis ==>
      if t in todo then Visited(visits, t, vis[t], i) else Settled(visits, t, vis[t], i + 1)
  }

  ghost predicate HeldYet(visits: VisitList, i: nat, bound: set<Tensor>, held: set<Tensor>, todo: set<Tensor>) {
    held <= bound
    && forall t {:trigger t in held} :: t in bound ==>
         (t in held <==> Rest(visits, t, if t in todo then i else i + 1) > 0)
  }

  /** A tensor whose count is zero had its last visit in this step. */
  lemma LastVisit(visits: VisitList, i: nat, bound: set<Tensor>, t: Tensor)
    requires i < |visits| && BoundSeen(visits, bound, i + 1) && Visited(visits, t, 0, i) && Rest(visits, t, 0) > 0
    ensures t in bound && Rest(visits, t, i) > 0 && Rest(visits, t, i + 1) == 0
  {
    RestPositive(visits, t, i);
    RestPositive(visits, t, i + 1);
  }

  lemma StayedLive(visits: VisitList, i: nat, t: Tensor, n: int)
    requires i < |visits| && Visited(visits, t, n, i) && n != 0 && Rest(visits, t, 0) > 0
    ensures Settled(visits, t, n, i + 1)
    ensures Reusable(t) ==> (Rest(visits, t, i) > 0 <==> Rest(visits, t, i + 1) > 0)
  {
  }

  /** The state of the pass while step i releases tensors. */
  ghost predicate Midway(visits: VisitList, i: nat, vis: map<Tensor, int>, todo: set<Tensor>,
                         binding: map<Tensor, Block>, held: set<Tensor>, out: set<Block>, base: set<Block>)
  {
    && todo <= vis.Keys
    && Releasing(visits, i, vis, todo)
    && HeldYet(visits, i, binding.Keys, held, todo)
    && Holding(binding, held, out, base)
  }

  lemma ReleaseOne(visits: VisitList, i: nat, vis: map<Tensor, int>, todo: set<Tensor>, binding: map<Tensor, Block>,
                   held: set<Tensor>, out: set<Block>, base: set<Block>, t: Tensor)
    requires i < |visits| && BoundSeen(visits, binding.Keys, i + 1) && AllVisited(visits, vis.Keys)
    requires Midway(visits, i, vis, todo, binding, held, out, base) && t in todo && vis[t] == 0
    ensures t in binding && binding[t] in out
    ensures Midway(visits, i, vis[t := -1], todo - {t}, binding, held - {t}, out - {binding[t]}, base)
  {
    LastVisit(visits, i, binding.Keys, t);
    FreeKeepsHolding(binding, held, out, base, t);
  }

  lemma KeepOne(visits: VisitList, i: nat, vis: map<Tensor, int>, todo: set<Tensor>, binding: map<Tensor, Block>,
                held: set<Tensor>, out: set<Block>, base: set<Block>, t: Tensor)
    requires i < |visits| && BoundSeen(visits, binding.Keys, i + 1) && AllVisited(visits, vis.Keys)
    requires Midway(visits, i, vis, todo, binding, held, out, base) && t in todo && vis[t] != 0
    ensures Midway(visits, i, vis, todo - {t}, binding, held, out, base)
  {
    StayedLive(visits, i, t, vis[t]);
  }

  /** Looks at one tensor: frees its block, and marks it finished, when it has no visits left. */
  method Release(visits: VisitList, i: nat, pool: BlockAllocator, t: Tensor, vis0: map<Tensor, int>,
                 ghost todo: set<Tensor>,
                 binding: map<Tensor, Block>, ghost held0: set<Tensor>, ghost base: set<Block>)
    returns (vis: map<Tensor, int>, ghost held: set<Tensor>)
    requires i < |visits| && pool.Valid() && AllVisited(visits, vis0.Keys) && BoundSeen(visits, binding.Keys, i + 1)
    requires Midway(visits, i, vis0, todo, binding, held0, pool.handedOut, base) && t in todo
    modifies pool
    ensures pool.Valid() && pool.created == old(pool.created) && pool.blocks == old(pool.blocks)
    ensures vis.Keys == vis0.Keys && Midway(visits, i, vis, todo - {t}, binding, held, pool.handedOut, base)
  {
    vis, held := vis0, held0;
    if vis[t] == 0 {
      ReleaseOne(visits, i, vis, todo, binding, held, pool.handedOut, base, t);
      pool.Free(binding[t]);
      vis, held := vis[t := -1], held - {t};
    } else {
      KeepOne(visits, i, vis, todo, binding, held, pool.handedOut, base, t);
    }
  }

  /** Frees the blocks of the tensors that have no visits left, in any order. */
  method ReleaseStep(visits: VisitList, i: nat, pool: BlockAllocator, vis0: map<Tensor, int>,
                     binding: map<Tensor, Block>, ghost held0: set<Tensor>, ghost base: set<Block>)
    returns (vis: map<Tensor, int>, ghost held: set<Tensor>)
    requires i < |visits| && pool.Valid() && AllVisited(visits, vis0.Keys) && BoundSeen(visits, binding.Keys, i + 1)
    requires Midway(visits, i, vis0, vis0.Keys, binding, held0, pool.handedOut, base)
    modifies pool
    ensures pool.Valid() && pool.created == old(pool.created) && pool.blocks == old(pool.blocks)
    ensures vis.Keys == vis0.Keys && Midway(visits, i, vis, {}, binding, held, pool.handedOut, base)
  {
    vis, held := vis0, held0;
    var todo := vis.Keys;
    while todo != {}
      invariant pool.Valid() && pool.created == old(pool.created) && pool.blocks == old(pool.blocks)
      invariant vis.Keys == vis0.Keys && Midway(visits, i, vis, todo, binding, held, pool.handedOut, base)
      decreases |todo|
    {
      var t :| t in todo;
      vis, held := Release(visits, i, pool, t, vis, todo, binding, held, base);
      todo := todo - {t};
    }
  }

  // The whole pass.

  /** The state of the pass between two steps. */
  ghost predicate Between(visits: VisitList, i: nat, vis: map<Tensor, int>, bound: set<Tensor>,
                          binding: map<Tensor, Block>, held: set<Tensor>, out: set<Block>, base: set<Block>)
  {
    && Counts(visits, vis, i)
    && AllVisited(visits, vis.Keys)
    && bound == binding.Keys
    && BoundSeen(visits, bound, i)
    && HeldFrom(visits, bound, held, i)
    && Holding(binding, held, out, base)
    && Safe(visits, binding)
  }

  lemma StepBegins(visits: VisitList, i: nat, vis: map<Tensor, int>, bound: set<Tensor>, binding: map<Tensor, Block>,
                   held: set<Tensor>, out: set<Block>, base: set<Block>, floor: nat)
    requires i < |visits| && Between(visits, i, vis, bound, binding, held, out, base) && |out| <= floor
    ensures Within(visits, i, 0, vis, bound, binding, held, out, base, floor, floor)
  {
    forall t | t in vis
      ensures Counted(visits, t, vis[t], i, 0)
    {
      assert Settled(visits, t, vis[t], i);
    }
  }

  lemma ReleaseBegins(visits: VisitList, i: nat, vis: map<Tensor, int>, bound: set<Tensor>, binding: map<Tensor, Block>,
                      held: set<Tensor>, out: set<Block>, base: set<Block>, created: nat, floor: nat)
    requires i < |visits| && Within(visits, i, |visits[i]|, vis, bound, binding, held, out, base, created, floor)
    ensures BoundSeen(visits, bound, i + 1) && Midway(visits, i, vis, vis.Keys, binding, held, out, base)
    ensures Safe(visits, binding) && created == Max(floor, |base| + |LiveSet(visits, i)|)
  {
    EndOfVisits(visits, i, vis, bound, held);
    forall t | t in bound
      ensures t in vis.Keys
    {
      SeenIsCovered(visits, vis.Keys, t, i + 1);
    }
  }

  lemma SeenIsCovered(visits: VisitList, ts: set<Tensor>, t: Tensor, i: nat)
    requires Covers(visits, ts)
    ensures Seen(visits, t, i) ==> t in ts
  {
  }

  lemma StepEnds(visits: VisitList, i: nat, vis: map<Tensor, int>, bound: set<Tensor>, binding: map<Tensor, Block>,
                 held: set<Tensor>, out: set<Block>, base: set<Block>)
    requires i < |visits| && Covers(visits, vis.Keys) && AllVisited(visits, vis.Keys)
    requires bound == binding.Keys && BoundSeen(visits, bound, i + 1) && Safe(visits, binding)
    requires Midway(visits, i, vis, {}, binding, held, out, base)
    ensures Between(visits, i + 1, vis, bound, binding, held, out, base)
  {
  }

  /** A step makes new blocks only to serve the tensors live at it. */
  ghost predicate Rises(visits: VisitList, i: nat, others: nat, before: nat, after: nat) {
    after == Max(before, others + |LiveSet(visits, i)|)
  }

  /** The numbers of blocks after each step. */
  ghost predicate Trace(visits: VisitList, others: nat, made: seq<nat>) {
    && 0 < |made| <= |visits| + 1
    && forall j {:trigger Rises(visits, j, others, made[j], made[j + 1])} :: 0 <= j < |made| - 1 ==>
         Rises(visits, j, others, made[j], made[j + 1])
  }

  lemma MaxRegroup(a: nat, others: nat, x: nat, y: nat)
    ensures Max(Max(a, others + x), others + y) == Max(a, others + Max(x, y))
  {
  }

  lemma {:induction false} TracePeak(visits: VisitList, others: nat, made: seq<nat>, n: nat)
    requires Trace(visits, others, made) && n < |made| && others <= made[0]
    ensures made[n] == Max(made[0], others + PeakTo(visits, n))
  {
    if n > 0 {
      var j := n - 1;
      TracePeak(visits, others, made, j);
      assert Rises(visits, j, others, made[j], made[j + 1]);
      MaxRegroup(made[0], others, PeakTo(visits, j), |LiveSet(visits, j)|);
    }
  }

  lemma TraceGrows(visits: VisitList, others: nat, made: seq<nat>, after: nat)
    requires Trace(visits, others, made) && |made| <= |visits|
    requires Rises(visits, |made| - 1, others, made[|made| - 1], after)
    ensures Trace(visits, others, made + [after])
  {
    var more := made + [after];
    forall j | 0 <= j < |made|
      ensures Rises(visits, j, others, more[j], more[j + 1])
    {
      assert j < |made| - 1 ==> Rises(visits, j, others, made[j], made[j + 1]);
    }
  }

  /** One step of the pass: bind what is first visited, then release what is visited for the last time. */
  method Step(visits: VisitList, i: nat, pool: BlockAllocator, vis0: map<Tensor, int>, bound0: set<Tensor>,
              binding0: map<Tensor, Block>, ghost held0: set<Tensor>, ghost base: set<Block>)
    returns (vis: map<Tensor, int>, bound: set<Tensor>, binding: map<Tensor, Block>, ghost held: set<Tensor>)
    requires i < |visits| && pool.Valid() && Owned(binding0, pool.blocks)
    requires Between(visits, i, vis0, bound0, binding0, held0, pool.handedOut, base)
    modifies pool, pool.blocks
    ensures pool.Valid() && Owned(binding, pool.blocks) && fresh(pool.blocks - old(pool.blocks))
    ensures Between(visits, i + 1, vis, bound, binding, held, pool.handedOut, base)
    ensures Rises(visits, i, |base|, old(pool.created), pool.created)
  {
    ghost var floor := pool.created;
    StepBegins(visits, i, vis0, bound0, binding0, held0, pool.handedOut, base, floor);
    vis, bound, binding, held := BindStep(visits, i, pool, vis0, bound0, binding0, held0, base, floor);
    ReleaseBegins(visits, i, vis, bound, binding, held, pool.handedOut, base, pool.created, floor);
    vis, held := ReleaseStep(visits, i, pool, vis, binding, held, base);
    StepEnds(visits, i, vis, bound, binding, held, pool.handedOut, base);
  }

  lemma PassBegins(visits: VisitList, vis: map<Tensor, int>, base: set<Block>)
    requires Counts(visits, vis, 0) && AllVisited(visits, vis.Keys)
    ensures Between(visits, 0, vis, {}, map[], {}, base, base)
  {
  }

  lemma PassEnds(visits: VisitList, vis: map<Tensor, int>, bound: set<Tensor>, binding: map<Tensor, Block>,
                 held: set<Tensor>, out: set<Block>, base: set<Block>)
    requires Between(visits, |visits|, vis, bound, binding, held, out, base)
    ensures out == base && Safe(visits, binding) && Complete(visits, binding.Keys)
  {
    assert held == {};
    SubsetOfSameSize(base, out);
    forall t
      ensures t in binding.Keys <==> Reusable(t) && Rest(visits, t, 0) > 0
    {
      RestPositive(visits, t, 0);
      assert t in bound <==> Reusable(t) && Seen(visits, t, |visits|);
    }
  }

  lemma SubsetOfSameSize<T>(a: set<T>, b: set<T>)
    requires a <= b && |a| == |b|
    ensures a == b
  {
    assert |b - a| == |b| - |a|;
  }

  /** Exactly the reusable tensors that are visited at all. */
  ghost predicate Complete(visits: VisitList, ts: set<Tensor>) {
    forall t {:trigger t in ts} :: t in ts <==> Reusable(t) && Rest(visits, t, 0) > 0
  }

  method BindingWithAlgo0(visits: VisitList, pool: BlockAllocator) returns (binding: map<Tensor, Block>)
    requires pool.Valid()
    modifies pool, pool.blocks
    ensures pool.Valid() && fresh(pool.blocks - old(pool.blocks)) && pool.handedOut == old(pool.handedOut)
    ensures Complete(visits, binding.Keys) && Safe(visits, binding) && Owned(binding, pool.blocks)
    ensures pool.created == Max(old(pool.created), |old(pool.handedOut)| + Peak(visits))
    ensures forall t {:trigger t in binding} :: t in binding <==>
              && (exists i {:trigger visits[i]} :: 0 <= i < |visits| && t in visits[i])
              && (forall a, part, b {:trigger a + part + b} :: Reserved(part) ==> t.name != a + part + b)
  {
    ghost var base, held := pool.handedOut, {};
    var vis := CountVisits(visits);
    var bound: set<Tensor> := {};
    binding := map[];
    ghost var made := [pool.created];
    PassBegins(visits, vis, base);
    for i := 0 to |visits|
      invariant pool.Valid() && Owned(binding, pool.blocks) && fresh(pool.blocks - old(pool.blocks))
      invariant Between(visits, i, vis, bound, binding, held, pool.handedOut, base)
      invariant Trace(visits, |base|, made) && |made| == i + 1
      invariant made[0] == old(pool.created) && made[i] == pool.created
    {
      vis, bound, binding, held := Step(visits, i, pool, vis, bound, binding, held, base);
      TraceGrows(visits, |base|, made, pool.created);
      made := made + [pool.created];
    }
    TracePeak(visits, |base|, made, |visits|);
    PassEnds(visits, vis, bound, binding, held, pool.handedOut, base);
    CompleteByName(visits, binding.Keys);
  }

  lemma CompleteByName(visits: VisitList, ts: set<Tensor>)
    requires Complete(visits, ts)
    ensures forall t {:trigger t in ts} :: t in ts <==>
              && (exists i {:trigger visits[i]} :: 0 <= i < |visits| && t in visits[i])
              && (forall a, part, b {:trigger a + part + b} :: Reserved(part) ==> t.name != a + part + b)
  {
    forall t
      ensures t in ts <==>
                && (exists i {:trigger visits[i]} :: 0 <= i < |visits| && t in visits[i])
                && (forall a, part, b {:trigger a + part + b} :: Reserved(part) ==> t.name != a + part + b)
    {
      RestPositive(visits, t, 0);
      NoReservedPart(t.name);
    }
  }

  // Why no binding can do with fewer blocks.

  lemma {:induction false} PeakAttained(visits: VisitList, n: nat)
    ensures PeakTo(visits, n) == 0 ||
            exists i {:trigger LiveSet(visits, i)} :: 0 <= i < n && |LiveSet(visits, i)| == PeakTo(visits, n)
    ensures forall i {:trigger LiveSet(visits, i)} :: 0 <= i < n ==> |LiveSet(visits, i)| <= PeakTo(visits, n)
  {
    if n > 0 {
      PeakAttained(visits, n - 1);
      assert |LiveSet(visits, n - 1)| <= PeakTo(visits, n);
    }
  }

  ghost function Image<B>(binding: map<Tensor, B>, ts: set<Tensor>): set<B>
    requires ts <= binding.Keys
  {
    set t | t in ts :: binding[t]
  }

  ghost predicate OneToOne<B>(binding: map<Tensor, B>, ts: set<Tensor>)
    requires ts <= binding.Keys
  {
    forall t, u {:trigger binding[t], binding[u]} :: t in ts && u in ts && t != u ==> binding[t] != binding[u]
  }

  lemma ImageSize<B>(binding: map<Tensor, B>, ts: set<Tensor>)
    requires ts <= binding.Keys && OneToOne(binding, ts)
    ensures |Image(binding, ts)| == |ts|
    decreases |ts|
  {
    if ts != {} {
      var t :| t in ts;
      ImageSize(binding, ts - {t});
      assert Image(binding, ts) == Image(binding, ts - {t}) + {binding[t]};
    }
  }

  lemma SmallerSet<T>(a: set<T>, b: set<T>)
    requires a <= b
    ensures |a| <= |b|
  {
    assert b == a + (b - a);
  }

  /** The tensors live at one step need as many blocks, whatever safe binding is chosen. */
  lemma LiveNeed<B>(visits: VisitList, binding: map<Tensor, B>, i: nat)
    requires Complete(visits, binding.Keys) && Safe(visits, binding) && i < |visits|
    ensures |LiveSet(visits, i)| <= |binding.Values|
  {
    var live := LiveSet(visits, i);
    forall t | t in live
      ensures t in binding.Keys
    {
      RestPositive(visits, t, i);
      RestPositive(visits, t, 0);
    }
    forall t, u | t in live && u in live && t != u
      ensures binding[t] != binding[u]
    {
      assert SharesSafely(visits, binding, t, u);
      LiveTogether(visits, t, u, i);
      LiveTogether(visits, u, t, i);
    }
    ImageSize(binding, live);
    SmallerSet(Image(binding, live), binding.Values);
  }

  /** Any safe binding of the reusable tensors, to blocks of any kind, uses at least the peak number of blocks. */
  lemma PeakNeeded<B>(visits: VisitList, binding: map<Tensor, B>)
    requires Complete(visits, binding.Keys) && Safe(visits, binding)
    ensures Peak(visits) <= |binding.Values|
  {
    PeakAttained(visits, |visits|);
    if Peak(visits) != 0 {
      var i :| 0 <= i < |visits| && |LiveSet(visits, i)| == Peak(visits);
      LiveNeed(visits, binding, i);
    }
  }

  /** Sharing a block safely: the last visit of one comes strictly before the first visit of the other. */
  lemma SharersDisjoint<B>(visits: VisitList, binding: map<Tensor, B>, t: Tensor, u: Tensor, i: nat)
    requires Safe(visits, binding) && t in binding && u in binding && t != u && binding[t] == binding[u]
    ensures !(Live(visits, t, i) && Live(visits, u, i))
  {
    assert SharesSafely(visits, binding, t, u);
    if Live(visits, t, i) && Live(visits, u, i) {
      LiveTogether(visits, t, u, i);
      LiveTogether(visits, u, t, i);
      assert false;
    }
  }
}
