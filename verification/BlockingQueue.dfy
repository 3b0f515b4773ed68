/**
  A blocking queue made of a lock-free queue, first in first out for each producer, and a counting
  semaphore. Threads interleave between the access to the queue and the access to the semaphore.
 */
module BlockingQueue {
  type Item = int

  /**
    What a thread is in the middle of: it has put items into the queue and not yet signalled them, or
    it has taken permits and not yet redeemed them all for items.
   */
  datatype Thread = Free | Signalling(count: nat) | Redeeming(need: nat)

  /** The lock-free queue holds one sequence for each producer; the histories are in queue order. */
  datatype State = State(
    inner: seq<seq<Item>>,
    permits: nat,
    threads: seq<Thread>,
    enqueued: seq<seq<Item>>,
    delivered: seq<seq<Item>>)

  datatype Step =
    | Enqueue(t: nat, p: nat, items: seq<Item>)
    | Signal(t: nat)
    | Acquire(t: nat, count: nat)
    | Redeem(t: nat, p: nat)

  function Initial(producers: nat, threads: nat): State {
    State(seq(producers, i => []), 0, seq(threads, i => Free), seq(producers, i => []), seq(producers, i => []))
  }

  /**
    A consumer takes one permit, or several at once for a bulk read. An attempt on the lock-free queue that
    finds nothing changes nothing and is no step; a bulk attempt is a run of single ones.
   */
  predicate Enabled(s: State, step: Step) {
    match step
    case Enqueue(t, p, _) =>
      t < |s.threads| && s.threads[t].Free? && p < |s.inner| == |s.enqueued| == |s.delivered|
    case Signal(t) => t < |s.threads| && s.threads[t].Signalling?
    case Acquire(t, count) => t < |s.threads| && s.threads[t].Free? && 0 < count <= s.permits
    case Redeem(t, p) =>
      && t < |s.threads| && s.threads[t].Redeeming? && s.threads[t].need > 0
      && p < |s.inner| == |s.enqueued| == |s.delivered| && s.inner[p] != []
  }

  function Apply(s: State, step: Step): State
    requires Enabled(s, step)
  {
    match step
    case Enqueue(t, p, items) =>
      s.(inner := s.inner[p := s.inner[p] + items],
         enqueued := s.enqueued[p := s.enqueued[p] + items],
         threads := s.threads[t := Signalling(|items|)])
    case Signal(t) => s.(permits := s.permits + s.threads[t].count, threads := s.threads[t := Free])
    case Acquire(t, count) => s.(permits := s.permits - count, threads := s.threads[t := Redeeming(count)])
    case Redeem(t, p) =>
      s.(inner := s.inner[p := s.inner[p][1..]],
         delivered := s.delivered[p := s.delivered[p] + [s.inner[p][0]]],
         threads := s.threads[t := if s.threads[t].need == 1 then Free else Redeeming(s.threads[t].need - 1)])
  }

  // The balance.

  /** The items a thread stands for: not yet signalled, or reserved by its permits. */
  function Claim(t: Thread): nat {
    match t
    case Free => 0
    case Signalling(count) => count
    case Redeeming(need) => need
  }

  function Claims(threads: seq<Thread>): nat {
    if threads == [] then 0 else Claim(threads[0]) + Claims(threads[1..])
  }

  function Total(inner: seq<seq<Item>>): nat {
    if inner == [] then 0 else |inner[0]| + Total(inner[1..])
  }

  lemma {:induction false} ClaimsUpdate(threads: seq<Thread>, t: nat, x: Thread)
    requires t < |threads|
    ensures Claims(threads[t := x]) == Claims(threads) - Claim(threads[t]) + Claim(x)
  {
    if t > 0 {
      ClaimsUpdate(threads[1..], t - 1, x);
      assert threads[t := x][1..] == threads[1..][t - 1 := x];
    } else {
      assert threads[t := x][1..] == threads[1..];
    }
  }

  lemma {:induction false} TotalUpdate(inner: seq<seq<Item>>, p: nat, items: seq<Item>)
    requires p < |inner|
    ensures Total(inner[p := items]) == Total(inner) - |inner[p]| + |items|
  {
    if p > 0 {
      TotalUpdate(inner[1..], p - 1, items);
      assert inner[p := items][1..] == inner[1..][p - 1 := items];
    } else {
      assert inner[p := items][1..] == inner[1..];
    }
  }

  lemma {:induction false} ClaimBounded(threads: seq<Thread>, t: nat)
    requires t < |threads|
    ensures Claim(threads[t]) <= Claims(threads)
  {
    if t > 0 {
      ClaimBounded(threads[1..], t - 1);
    }
  }

  lemma {:induction false} SomeNonEmpty(inner: seq<seq<Item>>)
    requires Total(inner) > 0
    ensures exists p :: 0 <= p < |inner| && inner[p] != []
  {
    if inner[0] == [] {
      SomeNonEmpty(inner[1..]);
      var p :| 0 <= p < |inner[1..]| && inner[1..][p] != [];
      assert inner[p + 1] != [];
    }
  }

  /** Items in the queue are available, not yet signalled, or reserved. */
  ghost predicate Balanced(s: State) {
    Total(s.inner) == s.permits + Claims(s.threads)
  }

  /** For each producer, what was delivered and what is left make up what was put in, in order. */
  ghost predicate Kept(s: State) {
    && |s.inner| == |s.enqueued| == |s.delivered|
    && forall p {:trigger s.inner[p]} :: 0 <= p < |s.inner| ==> s.delivered[p] + s.inner[p] == s.enqueued[p]
  }

  lemma StepKeepsBalance(s: State, step: Step)
    requires Balanced(s) && Enabled(s, step)
    ensures Balanced(Apply(s, step))
  {
    var after := Apply(s, step);
    ClaimsUpdate(s.threads, step.t, after.threads[step.t]);
    if step.Enqueue? || step.Redeem? {
      TotalUpdate(s.inner, step.p, after.inner[step.p]);
    }
  }

  lemma StepKeepsItems(s: State, step: Step)
    requires Kept(s) && Enabled(s, step)
    ensures Kept(Apply(s, step))
  {
    var after := Apply(s, step);
    if step.Redeem? {
      assert s.inner[step.p] == [s.inner[step.p][0]] + s.inner[step.p][1..];
    }
    forall p | 0 <= p < |after.inner|
      ensures after.delivered[p] + after.inner[p] == after.enqueued[p]
    {
      assert s.delivered[p] + s.inner[p] == s.enqueued[p];
    }
  }

  // Runs.

  predicate Possible(s: State, steps: seq<Step>)
    decreases |steps|
  {
    steps == [] || (Enabled(s, steps[0]) && Possible(Apply(s, steps[0]), steps[1..]))
  }

  function Run(s: State, steps: seq<Step>): State
    requires Possible(s, steps)
    decreases |steps|
  {
    if steps == [] then s else Run(Apply(s, steps[0]), steps[1..])
  }

  lemma {:induction false} RunKeeps(s: State, steps: seq<Step>)
    requires Balanced(s) && Kept(s) && Possible(s, steps)
    ensures Balanced(Run(s, steps)) && Kept(Run(s, steps))
    decreases |steps|
  {
    if steps != [] {
      StepKeepsBalance(s, steps[0]);
      StepKeepsItems(s, steps[0]);
      RunKeeps(Apply(s, steps[0]), steps[1..]);
    }
  }

  lemma {:induction false} NothingClaimed(n: nat)
    ensures Claims(seq(n, i => Free)) == 0
  {
    if n > 0 {
      NothingClaimed(n - 1);
      assert seq(n, i => Free)[1..] == seq(n - 1, i => Free);
    }
  }

  lemma {:induction false} NothingHeld(n: nat)
    ensures Total(seq(n, i => [])) == 0
  {
    if n > 0 {
      NothingHeld(n - 1);
      var none: seq<seq<Item>> := seq(n, i => []);
      assert none[1..] == seq(n - 1, i => []);
    }
  }

  /** Some interleaving of the threads leads to the state. */
  ghost predicate Reachable(producers: nat, threads: nat, s: State) {
    exists steps {:trigger Possible(Initial(producers, threads), steps)} ::
      Possible(Initial(producers, threads), steps) && Run(Initial(producers, threads), steps) == s
  }

  lemma ReachableInv(producers: nat, threads: nat, s: State)
    requires Reachable(producers, threads, s)
    ensures Balanced(s) && Kept(s)
  {
    var steps :| Possible(Initial(producers, threads), steps) && Run(Initial(producers, threads), steps) == s;
    NothingClaimed(threads);
    NothingHeld(producers);
    RunKeeps(Initial(producers, threads), steps);
  }

  /** In every run the items in the queue are available, not yet signalled, or reserved. */
  lemma AlwaysBalanced(producers: nat, threads: nat, s: State)
    requires Reachable(producers, threads, s)
    ensures Total(s.inner) == s.permits + Claims(s.threads)
  {
    ReachableInv(producers, threads, s);
  }

  /** A consumer spinning after the semaphore always has an item to find. */
  lemma SpinnerHasItem(producers: nat, threads: nat, s: State, t: nat)
    requires Reachable(producers, threads, s) && t < |s.threads| && s.threads[t].Redeeming? && s.threads[t].need > 0
    ensures exists p :: Enabled(s, Redeem(t, p))
  {
    ReachableInv(producers, threads, s);
    ClaimBounded(s.threads, t);
    SomeNonEmpty(s.inner);
    var p :| 0 <= p < |s.inner| && s.inner[p] != [];
    assert Enabled(s, Redeem(t, p));
  }

  /** For each producer the delivered items are exactly a prefix of its own, the rest waiting in the queue. */
  lemma NoLossNoRepeat(producers: nat, threads: nat, s: State, p: nat)
    requires Reachable(producers, threads, s) && p < |s.inner|
    ensures |s.delivered| == |s.inner| == |s.enqueued|
    ensures s.delivered[p] <= s.enqueued[p] && s.enqueued[p][|s.delivered[p]|..] == s.inner[p]
  {
    ReachableInv(producers, threads, s);
    assert s.delivered[p] + s.inner[p] == s.enqueued[p];
  }

  /** With no thread inside, a consumer can take n permits exactly when the queue holds n items. */
  lemma QuietPermitIffItem(producers: nat, threads: nat, s: State, t: nat, n: nat)
    requires Reachable(producers, threads, s) && forall u :: 0 <= u < |s.threads| ==> s.threads[u].Free?
    ensures Enabled(s, Acquire(t, n)) <==> t < |s.threads| && 0 < n <= Total(s.inner)
    ensures Total(s.inner) > 0 <==> exists p :: 0 <= p < |s.inner| && s.inner[p] != []
  {
    ReachableInv(producers, threads, s);
    AllFree(s.threads);
    if Total(s.inner) > 0 {
      SomeNonEmpty(s.inner);
    }
    if p :| 0 <= p < |s.inner| && s.inner[p] != [] {
      ItemCounts(s.inner, p);
    }
  }

  /** A thread that is in the middle of nothing may always enqueue for any producer. */
  lemma EnqueueIsPossible(producers: nat, threads: nat, s: State, t: nat, p: nat, items: seq<Item>)
    requires Reachable(producers, threads, s)
    ensures |s.threads| == threads
    ensures Enabled(s, Enqueue(t, p, items)) <==> t < threads && s.threads[t] == Free && p < producers
  {
    ReachableInv(producers, threads, s);
    SameSizes(producers, threads, s);
  }

  lemma {:induction false} RunKeepsSizes(s: State, steps: seq<Step>)
    requires Possible(s, steps)
    ensures |Run(s, steps).threads| == |s.threads| && |Run(s, steps).inner| == |s.inner|
    decreases |steps|
  {
    if steps != [] {
      RunKeepsSizes(Apply(s, steps[0]), steps[1..]);
    }
  }

  lemma SameSizes(producers: nat, threads: nat, s: State)
    requires Reachable(producers, threads, s)
    ensures |s.threads| == threads && |s.inner| == producers
  {
    var steps :| Possible(Initial(producers, threads), steps) && Run(Initial(producers, threads), steps) == s;
    RunKeepsSizes(Initial(producers, threads), steps);
  }

  // The histories are those of the run.

  function PutBy(step: Step, p: nat): seq<Item> {
    if step.Enqueue? && step.p == p then step.items else []
  }

  function TakenBy(step: Step, p: nat): nat {
    if step.Redeem? && step.p == p then 1 else 0
  }

  /** What the steps enqueue for producer p. */
  function EnqueuedBy(steps: seq<Step>, p: nat): seq<Item> {
    if steps == [] then [] else PutBy(steps[0], p) + EnqueuedBy(steps[1..], p)
  }

  /** How many items the steps take from producer p. */
  function TakenFrom(steps: seq<Step>, p: nat): nat {
    if steps == [] then 0 else TakenBy(steps[0], p) + TakenFrom(steps[1..], p)
  }

  /** Producer p's histories have grown by the items put and by the number of those taken. */
  ghost predicate Grown(s: State, t: State, p: nat, put: seq<Item>, taken: nat) {
    && p < |s.enqueued| && p < |t.enqueued| == |s.enqueued| && p < |t.delivered| == |s.delivered|
    && |s.inner| == |t.inner| && t.enqueued[p] == s.enqueued[p] + put
    && |t.delivered[p]| == |s.delivered[p]| + taken
  }

  lemma StepHistory(s: State, step: Step, p: nat)
    requires Enabled(s, step) && p < |s.enqueued| && p < |s.delivered|
    ensures Grown(s, Apply(s, step), p, PutBy(step, p), TakenBy(step, p))
  {
  }

  lemma GrownTwice(s: State, t: State, u: State, p: nat, put: seq<Item>, taken: nat, put': seq<Item>, taken': nat)
    requires Grown(s, t, p, put, taken) && Grown(t, u, p, put', taken')
    ensures Grown(s, u, p, put + put', taken + taken')
  {
    assert s.enqueued[p] + put + put' == s.enqueued[p] + (put + put');
  }

  lemma {:induction false} RunHistory(s: State, steps: seq<Step>, p: nat)
    requires Possible(s, steps) && p < |s.enqueued| && p < |s.delivered|
    ensures Grown(s, Run(s, steps), p, EnqueuedBy(steps, p), TakenFrom(steps, p))
    decreases |steps|
  {
    if steps != [] {
      var t := Apply(s, steps[0]);
      StepHistory(s, steps[0], p);
      RunHistory(t, steps[1..], p);
      GrownTwice(s, t, Run(t, steps[1..]), p, PutBy(steps[0], p), TakenBy(steps[0], p),
                 EnqueuedBy(steps[1..], p), TakenFrom(steps[1..], p));
    }
  }

  /** From empty histories: what is delivered is a beginning of what was put, and the rest is in the queue. */
  lemma HistoryCut(s: State, t: State, p: nat, put: seq<Item>, taken: nat)
    requires Grown(s, t, p, put, taken) && s.enqueued[p] == s.delivered[p] == [] && Kept(t)
    ensures p < |t.inner| && taken <= |put| && t.delivered[p] == put[..taken] && t.inner[p] == put[taken..]
  {
    assert t.delivered[p] + t.inner[p] == t.enqueued[p] == put;
  }

  /** In every run each producer's items are delivered in the order enqueued, one for each that was taken. */
  lemma DeliveredOfRun(producers: nat, threads: nat, steps: seq<Step>, p: nat)
    requires Possible(Initial(producers, threads), steps) && p < producers
    ensures var s := Run(Initial(producers, threads), steps);
            && p < |s.delivered| && p < |s.inner|
            && TakenFrom(steps, p) <= |EnqueuedBy(steps, p)|
            && s.delivered[p] == EnqueuedBy(steps, p)[..TakenFrom(steps, p)]
            && s.inner[p] == EnqueuedBy(steps, p)[TakenFrom(steps, p)..]
  {
    var start := Initial(producers, threads);
    ReachableInv(producers, threads, Run(start, steps));
    RunHistory(start, steps, p);
    HistoryCut(start, Run(start, steps), p, EnqueuedBy(steps, p), TakenFrom(steps, p));
  }

  lemma {:induction false} AllFree(threads: seq<Thread>)
    requires forall t :: 0 <= t < |threads| ==> threads[t].Free?
    ensures Claims(threads) == 0
  {
    if threads != [] {
      AllFree(threads[1..]);
    }
  }

  lemma {:induction false} ItemCounts(inner: seq<seq<Item>>, p: nat)
    requires p < |inner|
    ensures |inner[p]| <= Total(inner)
  {
    if p > 0 {
      ItemCounts(inner[1..], p - 1);
    }
  }
}
