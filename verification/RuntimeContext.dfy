/** The running batch: a list of generation contexts that know their own position. */
module RuntimeContext {
  import RQ = ResultQueue

  class Request {
    var finish: bool
    var status: RQ.Status

    constructor ()
      ensures !finish && status == RQ.Init
    {
      finish, status := false, RQ.Init;
    }
  }

  class GenerateContext {
    const request: Request
    var currentBatch: nat

    constructor (request: Request)
      ensures this.request == request && currentBatch == 0
    {
      this.request, currentBatch := request, 0;
    }
  }

  /** Every context stands at the position it names; so no context stands twice. */
  ghost predicate Positioned(list: seq<GenerateContext>)
    reads list
  {
    forall i {:trigger list[i]} :: 0 <= i < |list| ==> list[i].currentBatch == i
  }

  /** The list without the context at an index, whose place the last one takes. */
  function SwappedOut(list: seq<GenerateContext>, index: nat): seq<GenerateContext>
    requires index < |list|
  {
    list[index := list[|list| - 1]][..|list| - 1]
  }

  /** The others stay, as often as they were there. */
  lemma SwappedOutMultiset(list: seq<GenerateContext>, index: nat)
    requires index < |list|
    ensures multiset(SwappedOut(list, index)) == multiset(list) - multiset{list[index]}
  {
    var k := |list| - 1;
    assert list == list[..k] + [list[k]];
    if index == k {
      assert SwappedOut(list, index) == list[..k];
    } else {
      assert SwappedOut(list, index) == list[..index] + [list[k]] + list[index + 1..k];
      assert list[..k] == list[..index] + [list[index]] + list[index + 1..k];
    }
  }

  /** Every other context stays, and the one at the index is gone. */
  lemma SwappedOutMembers(list: seq<GenerateContext>, index: nat)
    requires index < |list| && Positioned(list)
    ensures forall g :: g in SwappedOut(list, index) <==> g in list && g != list[index]
  {
    var k := |list| - 1;
    var s := SwappedOut(list, index);
    assert forall i :: 0 <= i < |s| ==> s[i] == list[if i == index then k else i];
    forall i | 0 <= i <= k && i != index
      ensures list[i] in s
    {
      assert s[if i == k then index else i] == list[i];
    }
  }

  class RuntimeContext {
    var list: seq<GenerateContext>

    ghost predicate Valid()
      reads this, list
    {
      Positioned(list)
    }

    constructor ()
      ensures Valid() && list == []
    {
      list := [];
    }

    method PushBackGenCtx(ctx: GenerateContext)
      requires Valid() && ctx !in list
      modifies `list, ctx`currentBatch
      ensures Valid() && list == old(list) + [ctx]
    {
      list := list + [ctx];
      list[|list| - 1].currentBatch := |list| - 1;
    }

    /** Marks a request finished and takes it out of the batch; the last context moves to its place. */
    method FinishRequest(index: nat)
      requires Valid() && index < |list|
      modifies `list, list[index].request, list[|list| - 1]
      ensures Valid() && list == SwappedOut(old(list), index)
      ensures multiset(list) == multiset(old(list)) - multiset{old(list)[index]}
      ensures old(list)[index].request.finish && old(list)[index].request.status == RQ.GenerateFinished
    {
      SwappedOutMultiset(list, index);
      var batchSize := |list|;
      list[index].request.finish := true;
      list[index].request.status := RQ.GenerateFinished;
      list := list[index := list[batchSize - 1]];
      list[index].currentBatch := index;
      list := list[..batchSize - 1];
    }
  }
}
