/** What the model loop publishes of a request: new tokens and statuses, update by update. */
module Publishing {
  import RQ = ResultQueue

  /** A request's name; only its identity matters. */
  datatype Uuid = Uuid(id: int)

  type Token = RQ.Token

  datatype Option<T> = None | Some(value: T)

  datatype Handle = Handle(uuid: Uuid, contextLength: nat, generateLength: nat, continueCount: nat)
  {
    function Length(): nat {
      contextLength + generateLength
    }
  }

  /** The producer's side of a result queue: its status and the elements appended to it. */
  datatype Queue = Queue(status: RQ.Status, elements: seq<RQ.Element>)
  {
    predicate Ended() {
      status.GenerateFinished? || status.GenerateInterrupted?
    }
  }

  /** What the workers say about a request: its status, whether it is finished, and its whole token sequence. */
  datatype View = View(status: RQ.Status, finish: bool, ids: seq<Token>)

  // One request's result.

  function NewTokens(h: Handle, v: View): seq<Token> {
    if |v.ids| > h.Length() then v.ids[h.Length()..] else []
  }

  /** Requests that are over, unknown to the workers or not yet begun are left alone. */
  predicate Skipped(q: Queue, view: Option<View>) {
    q.Ended() || view.None? || view.value.status.Init?
  }

  function UpdatedHandle(h: Handle, q: Queue, view: Option<View>): Handle {
    if Skipped(q, view) || view.value.status.GenerateInterrupted? then h
    else
      var counted := h.(continueCount := h.continueCount + 1);
      if NewTokens(h, view.value) != [] then counted.(generateLength := |view.value.ids| - h.contextLength) else counted
  }

  function UpdatedQueue(h: Handle, q: Queue, view: Option<View>): Queue {
    if Skipped(q, view) then q
    else if view.value.status.GenerateInterrupted? then q.(status := RQ.GenerateInterrupted)
    else
      var begun := if h.continueCount == 0 then RQ.Generating else q.status;
      var tokens := NewTokens(h, view.value);
      Queue(
        if begun.GenerateInterrupted? then begun else if view.value.finish then RQ.GenerateFinished else begun,
        if tokens != [] then q.elements + [tokens] else q.elements)
  }

  /** Init, then Generating, then one of the two ends; an end is final and takes no more tokens. */
  ghost predicate Forward(q: Queue, r: Queue) {
    && (q.Ended() ==> r == q)
    && (q.status.Generating? ==> r.status.Generating? || r.Ended())
    && (q.status.Init? ==> r.status.Init? || r.status.Generating? || r.Ended())
    && q.elements <= r.elements
  }

  /** A queue leaves Init exactly when its request is first continued, or is interrupted before. */
  ghost predicate PairOk(h: Handle, q: Queue) {
    && (q.status.Init? || q.status.Generating? || q.Ended())
    && (h.continueCount > 0 ==> !q.status.Init?)
    && (h.continueCount == 0 ==> !q.status.Generating? && !q.status.GenerateFinished?)
  }

  lemma UpdateForward(h: Handle, q: Queue, view: Option<View>)
    requires PairOk(h, q)
    ensures PairOk(UpdatedHandle(h, q, view), UpdatedQueue(h, q, view))
    ensures Forward(q, UpdatedQueue(h, q, view))
  {
  }

  /** What has been published of a request is the part of its token sequence between context and length. */
  ghost predicate TokensSoFar(h: Handle, q: Queue, all: seq<Token>) {
    h.Length() <= |all| && RQ.AllTokens(q.elements) == all[h.contextLength..h.Length()]
  }

  /** Whatever part of the sequence the workers show, an update publishes the new tokens once and in order. */
  lemma UpdateKeepsTokens(h: Handle, q: Queue, all: seq<Token>, view: Option<View>)
    requires TokensSoFar(h, q, all) && (view.Some? ==> view.value.ids <= all)
    ensures TokensSoFar(UpdatedHandle(h, q, view), UpdatedQueue(h, q, view), all)
    ensures UpdatedHandle(h, q, view).contextLength == h.contextLength
  {
    var h1, q1 := UpdatedHandle(h, q, view), UpdatedQueue(h, q, view);
    if q1.elements != q.elements {
      var tokens := NewTokens(h, view.value);
      assert q1.elements[..|q.elements|] == q.elements;
      assert tokens == all[h.Length()..|view.value.ids|];
    }
  }

  /**
    What an update makes of a request, in numbers. Of a request that is not over and whose view has begun, it
    publishes all the tokens shown that are new, as one element; the request is finished if the view says so.
   */
  ghost predicate PublishesAll(h: Handle, q: Queue, views: map<Uuid, View>, u: Uuid, h': Handle, q': Queue) {
    if q.status in {RQ.GenerateFinished, RQ.GenerateInterrupted} || u !in views || views[u].status == RQ.Init
    then h' == h && q' == q
    else if views[u].status == RQ.GenerateInterrupted
    then h' == h && q' == Queue(RQ.GenerateInterrupted, q.elements)
    else
      var ids, length := views[u].ids, h.contextLength + h.generateLength;
      && h'.uuid == h.uuid && h'.contextLength == h.contextLength && h'.continueCount == h.continueCount + 1
      && h'.contextLength + h'.generateLength == (if |ids| > length then |ids| else length)
      && q'.elements == (if |ids| > length then q.elements + [ids[length..]] else q.elements)
      && RQ.AllTokens(q'.elements) == RQ.AllTokens(q.elements) + (if |ids| > length then ids[length..] else [])
      && q'.status == if views[u].finish then RQ.GenerateFinished else RQ.Generating
  }

  lemma UpdatePublishesAll(h: Handle, q: Queue, views: map<Uuid, View>, u: Uuid)
    requires PairOk(h, q)
    ensures var view := if u in views then Some(views[u]) else None;
            PublishesAll(h, q, views, u, UpdatedHandle(h, q, view), UpdatedQueue(h, q, view))
  {
    if u in views {
      var tokens := NewTokens(h, views[u]);
      if tokens != [] {
        assert (q.elements + [tokens])[..|q.elements|] == q.elements;
      }
    }
  }

  /** The tokens of the view past the context are among those published. */
  ghost predicate Covers(h: Handle, q: Queue, ids: seq<Token>) {
    |ids| > h.contextLength ==> ids[h.contextLength..] <= RQ.AllTokens(q.elements)
  }

  lemma UpdateCovers(h: Handle, q: Queue, views: map<Uuid, View>, u: Uuid, h': Handle, q': Queue, all: seq<Token>)
    requires PublishesAll(h, q, views, u, h', q') && TokensSoFar(h', q', all) && u in views && views[u].ids <= all
    requires !q.Ended() && views[u].status != RQ.Init && views[u].status != RQ.GenerateInterrupted
    ensures Covers(h', q', views[u].ids)
  {
    var ids := views[u].ids;
    if |ids| > h'.contextLength {
      assert ids[h'.contextLength..] == all[h'.contextLength..h'.Length()][..|ids| - h'.contextLength];
    }
  }

  // The producer's discipline, as the readers of the result queue rely on it.

  /** What an update does to the result queue itself, access by access. */
  function UpdateSteps(h: Handle, q: Queue, view: Option<View>): seq<RQ.Step> {
    if Skipped(q, view) then []
    else if view.value.status.GenerateInterrupted? then [RQ.SetStatus(RQ.GenerateInterrupted)]
    else
      (if h.continueCount == 0 then [RQ.SetStatus(RQ.Generating)] else [])
      + (if NewTokens(h, view.value) != [] then [RQ.Append(NewTokens(h, view.value))] else [])
      + (if view.value.finish then [RQ.SetStatus(RQ.GenerateFinished)] else [])
  }

  lemma OneStep(s: RQ.State, step: RQ.Step, rest: seq<RQ.Step>)
    requires RQ.Enabled(s, step) && RQ.Possible(RQ.Apply(s, step), rest)
    ensures RQ.Possible(s, [step] + rest) && RQ.Run(s, [step] + rest) == RQ.Run(RQ.Apply(s, step), rest)
  {
    assert ([step] + rest)[1..] == rest;
  }

  /** The result queue stands where the producer's view of it does. */
  ghost predicate Matches(s: RQ.State, q: Queue) {
    s.status == q.status && s.appended == q.elements
  }

  /** Every update is a run of producer steps: no status and no token after an end, in the order tokens, then status. */
  lemma UpdateIsProducerRun(h: Handle, q: Queue, view: Option<View>, s: RQ.State)
    requires PairOk(h, q) && Matches(s, q)
    ensures RQ.Possible(s, UpdateSteps(h, q, view))
    ensures Matches(RQ.Run(s, UpdateSteps(h, q, view)), UpdatedQueue(h, q, view))
  {
    if !Skipped(q, view) && view.value.status.GenerateInterrupted? {
      OneStep(s, RQ.SetStatus(RQ.GenerateInterrupted), []);
    } else if !Skipped(q, view) {
      var a := if h.continueCount == 0 then [RQ.SetStatus(RQ.Generating)] else [];
      var b := if NewTokens(h, view.value) != [] then [RQ.Append(NewTokens(h, view.value))] else [];
      var c := if view.value.finish then [RQ.SetStatus(RQ.GenerateFinished)] else [];
      var s1 := if h.continueCount == 0 then RQ.Apply(s, RQ.SetStatus(RQ.Generating)) else s;
      var s2 := if NewTokens(h, view.value) != [] then RQ.Apply(s1, RQ.Append(NewTokens(h, view.value))) else s1;
      if view.value.finish {
        OneStep(s2, RQ.SetStatus(RQ.GenerateFinished), []);
      }
      assert RQ.Possible(s2, c);
      if NewTokens(h, view.value) != [] {
        OneStep(s1, RQ.Append(NewTokens(h, view.value)), c);
      } else {
        assert b + c == c;
      }
      assert RQ.Possible(s1, b + c);
      if h.continueCount == 0 {
        OneStep(s, RQ.SetStatus(RQ.Generating), b + c);
      } else {
        assert a + (b + c) == b + c;
      }
      assert a + b + c == a + (b + c);
    }
  }

  /** Some interleaving of producer and reader has brought the result queue to where the loop believes it to be. */
  ghost predicate Feeds(q: Queue) {
    exists s :: RQ.Reachable(s) && Matches(s, q)
  }

  lemma ReachMore(s: RQ.State, steps: seq<RQ.Step>)
    requires RQ.Reachable(s) && RQ.Possible(s, steps)
    ensures RQ.Reachable(RQ.Run(s, steps))
  {
    var before :| RQ.Possible(RQ.Start0(), before) && RQ.Run(RQ.Start0(), before) == s;
    RQ.RunTwice(RQ.Start0(), before, steps);
    assert RQ.Possible(RQ.Start0(), before + steps);
  }

  lemma NewQueueFeeds()
    ensures Feeds(Queue(RQ.Init, []))
  {
    assert RQ.Possible(RQ.Start0(), []) && RQ.Run(RQ.Start0(), []) == RQ.Start0();
    assert RQ.Reachable(RQ.Start0()) && Matches(RQ.Start0(), Queue(RQ.Init, []));
  }

  lemma UpdateFeeds(h: Handle, q: Queue, view: Option<View>)
    requires PairOk(h, q) && Feeds(q)
    ensures Feeds(UpdatedQueue(h, q, view))
  {
    var s :| RQ.Reachable(s) && Matches(s, q);
    UpdateIsProducerRun(h, q, view, s);
    ReachMore(s, UpdateSteps(h, q, view));
  }

  /** Eviction is a producer step, too. */
  lemma EvictionFeeds(q: Queue)
    requires q.status.Generating? && Feeds(q)
    ensures Feeds(q.(status := RQ.GenerateInterrupted))
  {
    var s :| RQ.Reachable(s) && Matches(s, q);
    OneStep(s, RQ.SetStatus(RQ.GenerateInterrupted), []);
    ReachMore(s, [RQ.SetStatus(RQ.GenerateInterrupted)]);
    assert Matches(RQ.Run(s, [RQ.SetStatus(RQ.GenerateInterrupted)]), q.(status := RQ.GenerateInterrupted));
  }
}
