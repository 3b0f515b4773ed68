/** One result queue between its producer and its reader: what any interleaving of their steps makes of it. */
module Interleavings {
  import RQ = ResultQueue
  import opened Publishing

  predicate IsProducer(step: RQ.Step) {
    step.Append? || step.SetStatus?
  }

  /** The producer's steps among those of producer and reader. */
  function Producers(steps: seq<RQ.Step>): (r: seq<RQ.Step>)
    ensures |r| <= |steps|
  {
    if steps == [] then [] else (if IsProducer(steps[0]) then [steps[0]] else []) + Producers(steps[1..])
  }

  /** What a step does to the producer's view of the queue. */
  function Put(q: Queue, step: RQ.Step): Queue {
    match step
    case Append(e) => q.(elements := q.elements + [e])
    case SetStatus(status) => q.(status := status)
    case _ => q
  }

  function PutAll(q: Queue, steps: seq<RQ.Step>): Queue
    decreases |steps|
  {
    if steps == [] then q else PutAll(Put(q, steps[0]), steps[1..])
  }

  /** Whatever the reader does in between, the producer's steps alone decide status and elements. */
  lemma {:induction false} RunPuts(s: RQ.State, q: Queue, mixed: seq<RQ.Step>)
    requires Matches(s, q) && RQ.Possible(s, mixed)
    ensures Matches(RQ.Run(s, mixed), PutAll(q, Producers(mixed)))
    decreases |mixed|
  {
    if mixed != [] {
      RunPuts(RQ.Apply(s, mixed[0]), Put(q, mixed[0]), mixed[1..]);
      if IsProducer(mixed[0]) {
        assert Producers(mixed)[1..] == Producers(mixed[1..]);
      } else {
        assert Producers(mixed) == Producers(mixed[1..]);
      }
      assert RQ.Run(s, mixed) == RQ.Run(RQ.Apply(s, mixed[0]), mixed[1..]);
    }
  }

  // Producer steps none of which follows an end.

  /** The views of the queue between the steps. */
  ghost predicate Trace(qs: seq<Queue>, steps: seq<RQ.Step>) {
    && |qs| == |steps| + 1
    && forall k {:trigger steps[k]} :: 0 <= k < |steps| ==>
         IsProducer(steps[k]) && !qs[k].status.Terminal() && qs[k + 1] == Put(qs[k], steps[k])
  }

  /** Producer steps that lead from one view of the queue to another. */
  ghost predicate Leads(q: Queue, steps: seq<RQ.Step>, r: Queue) {
    exists qs :: Trace(qs, steps) && qs[0] == q && qs[|steps|] == r
  }

  lemma LeadsNowhere(q: Queue)
    ensures Leads(q, [], q)
  {
    assert Trace([q], []);
  }

  lemma LeadsOne(q: Queue, step: RQ.Step)
    requires IsProducer(step) && !q.status.Terminal()
    ensures Leads(q, [step], Put(q, step))
  {
    assert Trace([q, Put(q, step)], [step]);
  }

  lemma LeadsOn(q: Queue, a: seq<RQ.Step>, r: Queue, b: seq<RQ.Step>, t: Queue)
    requires Leads(q, a, r) && Leads(r, b, t)
    ensures Leads(q, a + b, t)
  {
    var qs: seq<Queue> :| Trace(qs, a) && qs[0] == q && qs[|a|] == r;
    var ts: seq<Queue> :| Trace(ts, b) && ts[0] == r && ts[|b|] == t;
    var all: seq<Queue> := qs + ts[1..];
    var steps := a + b;
    forall k | 0 <= k < |steps|
      ensures IsProducer(steps[k]) && !all[k].status.Terminal() && all[k + 1] == Put(all[k], steps[k])
    {
      if k < |a| {
        assert steps[k] == a[k] && all[k] == qs[k] && all[k + 1] == qs[k + 1];
      } else {
        assert steps[k] == b[k - |a|] && all[k] == ts[k - |a|] && all[k + 1] == ts[k - |a| + 1];
      }
    }
    assert Trace(all, steps);
  }

  lemma {:induction false} TracePuts(qs: seq<Queue>, steps: seq<RQ.Step>)
    requires Trace(qs, steps)
    ensures PutAll(qs[0], steps) == qs[|steps|]
    decreases |steps|
  {
    if steps != [] {
      assert qs[1] == Put(qs[0], steps[0]);
      assert Trace(qs[1..], steps[1..]);
      TracePuts(qs[1..], steps[1..]);
    }
  }

  /** Such steps can all be done, and end where they lead. */
  lemma LeadsPuts(q: Queue, steps: seq<RQ.Step>, r: Queue)
    requires Leads(q, steps, r)
    ensures PutAll(q, steps) == r
    ensures forall k {:trigger steps[k]} :: 0 <= k < |steps| ==>
              IsProducer(steps[k]) && !PutAll(q, steps[..k]).status.Terminal()
  {
    var qs: seq<Queue> :| Trace(qs, steps) && qs[0] == q && qs[|steps|] == r;
    TracePuts(qs, steps);
    forall k | 0 <= k < |steps|
      ensures IsProducer(steps[k]) && !PutAll(q, steps[..k]).status.Terminal()
    {
      assert IsProducer(steps[k]) && !qs[k].status.Terminal();
      assert Trace(qs[..k + 1], steps[..k]);
      TracePuts(qs[..k + 1], steps[..k]);
    }
  }

  /** Every update is such a sequence of producer steps. */
  lemma UpdateLeads(h: Handle, q: Queue, view: Option<View>)
    requires PairOk(h, q)
    ensures Leads(q, UpdateSteps(h, q, view), UpdatedQueue(h, q, view))
  {
    if Skipped(q, view) {
      LeadsNowhere(q);
    } else if view.value.status.GenerateInterrupted? {
      LeadsOne(q, RQ.SetStatus(RQ.GenerateInterrupted));
    } else {
      var tokens := NewTokens(h, view.value);
      var q1 := if h.continueCount == 0 then q.(status := RQ.Generating) else q;
      var q2 := if tokens != [] then q1.(elements := q1.elements + [tokens]) else q1;
      var q3 := if view.value.finish then q2.(status := RQ.GenerateFinished) else q2;
      var a := LeadsIf(h.continueCount == 0, q, RQ.SetStatus(RQ.Generating));
      var b := LeadsIf(tokens != [], q1, if tokens != [] then RQ.Append(tokens) else RQ.SetStatus(RQ.Init));
      var c := LeadsIf(view.value.finish, q2, RQ.SetStatus(RQ.GenerateFinished));
      LeadsOn(q, a, q1, b, q2);
      LeadsOn(q, a + b, q2, c, q3);
    }
  }

  lemma LeadsIf(does: bool, q: Queue, step: RQ.Step) returns (steps: seq<RQ.Step>)
    requires IsProducer(step) && !q.status.Terminal()
    ensures steps == if does then [step] else []
    ensures Leads(q, steps, if does then Put(q, step) else q)
  {
    if does {
      LeadsOne(q, step);
      steps := [step];
    } else {
      LeadsNowhere(q);
      steps := [];
    }
  }

  function Evicted(q: Queue, falls: bool): Queue {
    if falls then q.(status := RQ.GenerateInterrupted) else q
  }

  /** The queue of one request after an execution that may evict it, and that does not publish again if aborted. */
  function ExecutedQueue(h: Handle, q: Queue, first: Option<View>, falls: bool, second: Option<View>): Queue {
    UpdatedQueue(UpdatedHandle(h, q, first), Evicted(UpdatedQueue(h, q, first), falls), second)
  }

  /** What an execution does to one request's queue, access by access. */
  function ExecutionSteps(h: Handle, q: Queue, first: Option<View>, falls: bool, second: Option<View>): seq<RQ.Step> {
    UpdateSteps(h, q, first)
    + (if falls then [RQ.SetStatus(RQ.GenerateInterrupted)] else [])
    + UpdateSteps(UpdatedHandle(h, q, first), Evicted(UpdatedQueue(h, q, first), falls), second)
  }

  lemma ExecutionLeads(h: Handle, q: Queue, first: Option<View>, falls: bool, second: Option<View>)
    requires PairOk(h, q) && (falls ==> UpdatedQueue(h, q, first).status.Generating?)
    ensures Leads(q, ExecutionSteps(h, q, first, falls, second), ExecutedQueue(h, q, first, falls, second))
  {
    var h1, q1 := UpdatedHandle(h, q, first), UpdatedQueue(h, q, first);
    UpdateForward(h, q, first);
    UpdateLeads(h, q, first);
    var q2 := Evicted(q1, falls);
    var evict: seq<RQ.Step> := if falls then [RQ.SetStatus(RQ.GenerateInterrupted)] else [];
    if falls {
      LeadsOne(q1, RQ.SetStatus(RQ.GenerateInterrupted));
    } else {
      LeadsNowhere(q1);
    }
    UpdateLeads(h1, q2, second);
    LeadsOn(q, UpdateSteps(h, q, first), q1, evict, q2);
    LeadsOn(q, UpdateSteps(h, q, first) + evict, q2, UpdateSteps(h1, q2, second), UpdatedQueue(h1, q2, second));
  }
}
