/** Whole runs of the model loop over its table of requests, and what every reader may rely on in them. */
module LoopRuns {
  import RQ = ResultQueue
  import opened Publishing
  import opened RequestTable

  /**
    One turn: the messages before it, how many of them it took, its weather, its victims, and whether decoding
    failed for good.
   */
  datatype Turned = Turned(msgs: seq<Message>, taken: nat, w: Weather, victims: seq<Uuid>, aborted: bool)

  /** The messages are handled; then, unless one of them halts the turn, execution follows. */
  ghost predicate TurnStep(r: Requests, t: Turned, strategy: EvictionStrategy, r': Requests) {
    && t.taken <= |t.msgs|
    && var handled := HandledAll(r, t.msgs, t.taken);
       if Halted(r, t.msgs, t.taken) then r' == handled && t.victims == [] && !t.aborted
       else Executed(handled, t.w, strategy, t.victims, t.aborted, r')
  }

  ghost predicate MessagesOk(t: Turned) {
    t.taken <= |t.msgs| && forall i {:trigger t.msgs[i]} :: 0 <= i < t.taken ==> MessageOk(t.msgs[i])
  }

  /** Tables of a run, one before each turn and one after the last. */
  ghost predicate Path(rs: seq<Requests>, ts: seq<Turned>, strategy: EvictionStrategy) {
    && |rs| == |ts| + 1 && RequestsOk(rs[0])
    && forall i {:trigger ts[i]} :: 0 <= i < |ts| ==> MessagesOk(ts[i]) && TurnStep(rs[i], ts[i], strategy, rs[i + 1])
  }

  lemma PathMore(rs: seq<Requests>, ts: seq<Turned>, strategy: EvictionStrategy, t: Turned, r: Requests)
    requires Path(rs, ts, strategy) && MessagesOk(t) && TurnStep(rs[|ts|], t, strategy, r)
    ensures Path(rs + [r], ts + [t], strategy)
  {
    var rs', ts' := rs + [r], ts + [t];
    forall i | 0 <= i < |ts'|
      ensures MessagesOk(ts'[i]) && TurnStep(rs'[i], ts'[i], strategy, rs'[i + 1])
    {
      assert i < |ts| ==> ts'[i] == ts[i] && rs'[i] == rs[i] && rs'[i + 1] == rs[i + 1];
    }
  }

  lemma {:induction false} HandledAllOk(r: Requests, t: Turned, n: nat)
    requires RequestsOk(r) && MessagesOk(t) && n <= t.taken
    ensures RequestsOk(HandledAll(r, t.msgs, n))
  {
    if n > 0 {
      HandledAllOk(r, t, n - 1);
      HandledOk(HandledAll(r, t.msgs, n - 1), t.msgs[n - 1]);
    }
  }

  lemma TurnOk(r: Requests, t: Turned, strategy: EvictionStrategy, r': Requests)
    requires RequestsOk(r) && MessagesOk(t) && TurnStep(r, t, strategy, r')
    ensures RequestsOk(HandledAll(r, t.msgs, t.taken)) && RequestsOk(r')
    ensures AllForward(HandledAll(r, t.msgs, t.taken).queues, r'.queues)
  {
    HandledAllOk(r, t, t.taken);
    if !Halted(r, t.msgs, t.taken) {
      ExecutedOk(HandledAll(r, t.msgs, t.taken), t.w, strategy, t.victims, t.aborted, r');
    }
  }

  /** In every run both maps keep equal keys, and each key stays its handle's uuid. */
  lemma {:induction false} PathOk(rs: seq<Requests>, ts: seq<Turned>, strategy: EvictionStrategy, n: nat)
    requires Path(rs, ts, strategy) && n <= |ts|
    ensures RequestsOk(rs[n])
  {
    if n > 0 {
      PathOk(rs, ts, strategy, n - 1);
      TurnOk(rs[n - 1], ts[n - 1], strategy, rs[n]);
    }
  }

  // Statuses move forward.

  /** The turn does not release the request. */
  ghost predicate Keeps(t: Turned, u: Uuid) {
    t.taken <= |t.msgs| && forall i {:trigger t.msgs[i]} :: 0 <= i < t.taken && t.msgs[i].ReleaseRequest? ==>
        t.msgs[i].uuid != u
  }

  lemma {:induction false} HandledKeeps(r: Requests, t: Turned, n: nat, u: Uuid)
    requires Keeps(t, u) && n <= t.taken && u in r.queues
    ensures var r' := HandledAll(r, t.msgs, n); u in r'.queues && r'.queues[u] == r.queues[u]
  {
    if n > 0 {
      HandledKeeps(r, t, n - 1, u);
    }
  }

  lemma ForwardTwice(a: Queue, b: Queue, c: Queue)
    requires Forward(a, b) && Forward(b, c)
    ensures Forward(a, c)
  {
  }

  /** As long as a request is not released its status only moves forward, and an ended queue stays as it is. */
  lemma {:induction false} StatusForward(rs: seq<Requests>, ts: seq<Turned>, strategy: EvictionStrategy, u: Uuid,
                                         n: nat)
    requires Path(rs, ts, strategy) && n <= |ts| && u in rs[0].queues
    requires forall i {:trigger ts[i]} :: 0 <= i < n ==> Keeps(ts[i], u)
    ensures u in rs[n].queues && Forward(rs[0].queues[u], rs[n].queues[u])
  {
    if n > 0 {
      StatusForward(rs, ts, strategy, u, n - 1);
      PathOk(rs, ts, strategy, n - 1);
      var r, t := rs[n - 1], ts[n - 1];
      HandledKeeps(r, t, t.taken, u);
      TurnOk(r, t, strategy, rs[n]);
      assert u in rs[n].queues;
      ForwardTwice(rs[0].queues[u], r.queues[u], rs[n].queues[u]);
    }
  }

  // Each token is published once.

  /** If the request is registered, what it has published is the first part of its token sequence after the context. */
  ghost predicate Told(r: Requests, u: Uuid, all: seq<Token>) {
    u in r.queues ==> u in r.handles && TokensSoFar(r.handles[u], r.queues[u], all)
  }

  /** In this turn the workers show parts of the sequence only, and the request, if started, has its context. */
  ghost predicate Shows(t: Turned, u: Uuid, all: seq<Token>) {
    && t.taken <= |t.msgs|
    && (u in t.w.views1 ==> t.w.views1[u].ids <= all) && (u in t.w.views2 ==> t.w.views2[u].ids <= all)
    && (forall i {:trigger t.msgs[i]} :: 0 <= i < t.taken && t.msgs[i].StartRequest? && t.msgs[i].uuid == u ==>
          t.msgs[i].handle.contextLength <= |all|)
  }

  lemma {:induction false} HandledTold(r: Requests, t: Turned, n: nat, u: Uuid, all: seq<Token>)
    requires Told(r, u, all) && MessagesOk(t) && Shows(t, u, all) && n <= t.taken
    ensures Told(HandledAll(r, t.msgs, n), u, all)
  {
    if n > 0 {
      HandledTold(r, t, n - 1, u, all);
      var msg := t.msgs[n - 1];
      if msg.StartRequest? && msg.uuid == u {
        assert TokensSoFar(msg.handle, Queue(RQ.Init, []), all);
      }
    }
  }

  lemma PublishedTold(r: Requests, views: map<Uuid, View>, u: Uuid, all: seq<Token>)
    requires RequestsOk(r) && Told(r, u, all) && (u in views ==> views[u].ids <= all)
    ensures Told(Published(r, views), u, all)
  {
    if u in r.queues {
      UpdateKeepsTokens(r.handles[u], r.queues[u], all, Lookup(views, u));
    }
  }

  lemma {:induction false} EvictedTold(r: Requests, victims: seq<Uuid>, n: nat, u: Uuid, all: seq<Token>)
    requires Told(r, u, all) && n <= |victims|
    ensures Told(EvictAll(r, victims, n), u, all)
  {
    if n > 0 {
      EvictedTold(r, victims, n - 1, u, all);
    }
  }

  lemma TurnTold(r: Requests, t: Turned, strategy: EvictionStrategy, r': Requests, u: Uuid, all: seq<Token>)
    requires RequestsOk(r) && MessagesOk(t) && TurnStep(r, t, strategy, r')
    requires Told(r, u, all) && Shows(t, u, all)
    ensures Told(r', u, all)
  {
    HandledTold(r, t, t.taken, u, all);
    HandledAllOk(r, t, t.taken);
    var handled := HandledAll(r, t.msgs, t.taken);
    if !Halted(r, t.msgs, t.taken) {
      PublishedOk(handled, t.w.views1);
      PublishedTold(handled, t.w.views1, u, all);
      var first := Published(handled, t.w.views1);
      EvictionsOk(first, strategy, t.w.outcomes, t.victims, |t.victims|);
      EvictedTold(first, t.victims, |t.victims|, u, all);
      if !t.aborted {
        PublishedTold(EvictAll(first, t.victims, |t.victims|), t.w.views2, u, all);
      }
    }
  }

  /**
    In every run, however the workers' views, evictions and other requests interleave, each of a request's tokens
    is published once and in order.
   */
  lemma {:induction false} EachTokenOnce(rs: seq<Requests>, ts: seq<Turned>, strategy: EvictionStrategy, u: Uuid,
                                         all: seq<Token>, n: nat)
    requires Path(rs, ts, strategy) && n <= |ts| && Told(rs[0], u, all)
    requires forall i {:trigger ts[i]} :: 0 <= i < n ==> Shows(ts[i], u, all)
    ensures Told(rs[n], u, all)
  {
    if n > 0 {
      EachTokenOnce(rs, ts, strategy, u, all, n - 1);
      PathOk(rs, ts, strategy, n - 1);
      TurnTold(rs[n - 1], ts[n - 1], strategy, rs[n], u, all);
    }
  }

  /**
    And what the workers show is published. In an execution: what the first view shows of a request that was not
    over, and, unless the request was evicted or decoding failed for good, what the second view shows.
   */
  lemma ExecutionCovers(r: Requests, t: Turned, strategy: EvictionStrategy, r': Requests, u: Uuid, all: seq<Token>)
    requires RequestsOk(r) && Executed(r, t.w, strategy, t.victims, t.aborted, r') && Told(r, u, all)
    requires u in r.queues && !r.queues[u].Ended()
    requires (u in t.w.views1 ==> t.w.views1[u].ids <= all) && (u in t.w.views2 ==> t.w.views2[u].ids <= all)
    ensures u in r'.queues && u in r'.handles
    ensures Begun(t.w.views1, u) ==> Covers(r'.handles[u], r'.queues[u], t.w.views1[u].ids)
    ensures Begun(t.w.views2, u) && !t.aborted && r'.queues[u].status == RQ.Generating ==>
              Covers(r'.handles[u], r'.queues[u], t.w.views2[u].ids)
    ensures r'.queues[u].status == RQ.GenerateFinished ==>
              || (Begun(t.w.views1, u) && t.w.views1[u].finish)
              || (Begun(t.w.views2, u) && t.w.views2[u].finish && !t.aborted
                  && Covers(r'.handles[u], r'.queues[u], t.w.views2[u].ids))
  {
    var first := Published(r, t.w.views1);
    var evicted := EvictAll(first, t.victims, |t.victims|);
    PublishedOk(r, t.w.views1);
    PublishedCovers(r, t.w.views1, u, all);
    EvictedCovers(first, strategy, t.w.outcomes, t.victims, u, all);
    StaysCovered(r, first, evicted, u, t.w.views1);
    if !t.aborted {
      PublishedCovers(evicted, t.w.views2, u, all);
      StaysCovered(r, evicted, r', u, t.w.views1);
    }
  }

  /** The request keeps its context and what it has published. */
  ghost predicate Grows(r: Requests, r': Requests, u: Uuid)
    requires u in r.handles && u in r.queues
  {
    && u in r'.handles && u in r'.queues && r'.handles[u].contextLength == r.handles[u].contextLength
    && r.queues[u].elements <= r'.queues[u].elements
  }

  lemma PublishedCovers(r: Requests, views: map<Uuid, View>, u: Uuid, all: seq<Token>)
    requires RequestsOk(r) && Told(r, u, all) && u in r.queues && (u in views ==> views[u].ids <= all)
    ensures var r' := Published(r, views);
            && Grows(r, r', u) && Told(r', u, all)
            && (!r.queues[u].Ended() && Begun(views, u) ==> Covers(r'.handles[u], r'.queues[u], views[u].ids))
            && (r.queues[u].Ended() ==> r'.queues[u] == r.queues[u])
            && (r'.queues[u].status == RQ.GenerateFinished && !r.queues[u].Ended() ==>
                  Begun(views, u) && views[u].finish)
  {
    var r' := Published(r, views);
    PublishedTold(r, views, u, all);
    PublishedEach(r, views);
    assert PublishesAll(r.handles[u], r.queues[u], views, u, r'.handles[u], r'.queues[u]);
    if !r.queues[u].Ended() && Begun(views, u) {
      UpdateCovers(r.handles[u], r.queues[u], views, u, r'.handles[u], r'.queues[u], all);
    }
  }

  lemma EvictedCovers(r: Requests, strategy: EvictionStrategy, outcomes: Outcomes, victims: seq<Uuid>, u: Uuid,
                      all: seq<Token>)
    requires RequestsOk(r) && Told(r, u, all) && u in r.queues && Evictions(r, strategy, outcomes, victims, |victims|)
    ensures var r' := EvictAll(r, victims, |victims|);
            && RequestsOk(r') && Grows(r, r', u) && Told(r', u, all)
            && (r'.queues[u] == r.queues[u] || r'.queues[u].status == RQ.GenerateInterrupted)
  {
    EvictionsOk(r, strategy, outcomes, victims, |victims|);
    EvictionsEffect(r, strategy, outcomes, victims, |victims|);
    EvictedTold(r, victims, |victims|, u, all);
  }

  lemma StaysCovered(r0: Requests, r: Requests, r': Requests, u: Uuid, views: map<Uuid, View>)
    requires u in r0.handles && u in r0.queues && Grows(r0, r, u) && Grows(r, r', u)
    ensures Grows(r0, r', u)
    ensures u in views && Covers(r.handles[u], r.queues[u], views[u].ids) ==>
              Covers(r'.handles[u], r'.queues[u], views[u].ids)
  {
    TokensGrow(r.queues[u].elements, r'.queues[u].elements);
  }

  lemma {:induction false} TokensGrow(a: seq<RQ.Element>, b: seq<RQ.Element>)
    requires a <= b
    ensures RQ.AllTokens(a) <= RQ.AllTokens(b)
  {
    if |a| < |b| {
      TokensGrow(a, b[..|b| - 1]);
    } else {
      assert a == b;
    }
  }

  predicate Begun(views: map<Uuid, View>, u: Uuid) {
    u in views && views[u].status != RQ.Init && views[u].status != RQ.GenerateInterrupted
  }

  /** In every run, in every turn that executes, what the workers show of a request is published by its end. */
  lemma ShownIsPublished(rs: seq<Requests>, ts: seq<Turned>, strategy: EvictionStrategy, u: Uuid, all: seq<Token>,
                         k: nat)
    requires Path(rs, ts, strategy) && k < |ts| && Told(rs[0], u, all)
    requires forall i {:trigger ts[i]} :: 0 <= i <= k ==> Shows(ts[i], u, all)
    requires !Halted(rs[k], ts[k].msgs, ts[k].taken) && !ts[k].aborted
    requires u in rs[k + 1].queues && rs[k + 1].queues[u].status == RQ.Generating && Begun(ts[k].w.views2, u)
    ensures u in rs[k + 1].handles && Covers(rs[k + 1].handles[u], rs[k + 1].queues[u], ts[k].w.views2[u].ids)
  {
    EachTokenOnce(rs, ts, strategy, u, all, k);
    PathOk(rs, ts, strategy, k);
    HandledAllOk(rs[k], ts[k], ts[k].taken);
    HandledTold(rs[k], ts[k], ts[k].taken, u, all);
    var handled := HandledAll(rs[k], ts[k].msgs, ts[k].taken);
    ExecutedOk(handled, ts[k].w, strategy, ts[k].victims, ts[k].aborted, rs[k + 1]);
    assert Forward(handled.queues[u], rs[k + 1].queues[u]);
    ExecutionCovers(handled, ts[k], strategy, rs[k + 1], u, all);
  }

  // The loop as the producer of the result queues.

  ghost predicate AllFeed(r: Requests) {
    forall u {:trigger r.queues[u]} :: u in r.queues ==> Feeds(r.queues[u])
  }

  lemma {:induction false} HandledFeeds(r: Requests, msgs: seq<Message>, n: nat)
    requires AllFeed(r) && n <= |msgs|
    ensures AllFeed(HandledAll(r, msgs, n))
  {
    if n > 0 {
      HandledFeeds(r, msgs, n - 1);
      NewQueueFeeds();
    }
  }

  lemma PublishedFeeds(r: Requests, views: map<Uuid, View>)
    requires RequestsOk(r) && AllFeed(r)
    ensures AllFeed(Published(r, views))
  {
    forall u | u in r.queues
      ensures Feeds(Published(r, views).queues[u])
    {
      assert RequestOk(r, u);
      UpdateFeeds(r.handles[u], r.queues[u], Lookup(views, u));
    }
  }

  lemma {:induction false} EvictedFeeds(r: Requests, strategy: EvictionStrategy, outcomes: Outcomes,
                                        victims: seq<Uuid>, n: nat)
    requires RequestsOk(r) && AllFeed(r) && n <= |victims| && Evictions(r, strategy, outcomes, victims, n)
    ensures AllFeed(EvictAll(r, victims, n))
  {
    if n > 0 {
      EvictedFeeds(r, strategy, outcomes, victims, n - 1);
      assert Falls(r, strategy, outcomes, victims, n - 1);
      EvictionFeeds(EvictAll(r, victims, n - 1).queues[victims[n - 1]]);
    }
  }

  lemma TurnFeeds(r: Requests, t: Turned, strategy: EvictionStrategy, r': Requests)
    requires RequestsOk(r) && MessagesOk(t) && TurnStep(r, t, strategy, r') && AllFeed(r)
    ensures AllFeed(r')
  {
    HandledFeeds(r, t.msgs, t.taken);
    HandledAllOk(r, t, t.taken);
    var handled := HandledAll(r, t.msgs, t.taken);
    if !Halted(r, t.msgs, t.taken) {
      PublishedOk(handled, t.w.views1);
      PublishedFeeds(handled, t.w.views1);
      var first := Published(handled, t.w.views1);
      EvictionsOk(first, strategy, t.w.outcomes, t.victims, |t.victims|);
      EvictedFeeds(first, strategy, t.w.outcomes, t.victims, |t.victims|);
      if !t.aborted {
        PublishedFeeds(EvictAll(first, t.victims, |t.victims|), t.w.views2);
      }
    }
  }

  /**
    In every run, evictions included, each request's queue is one that the result queue's own model reaches, so
    that all that is proved there of its readers holds of the loop's requests.
   */
  lemma {:induction false} EachQueueFeeds(rs: seq<Requests>, ts: seq<Turned>, strategy: EvictionStrategy, n: nat)
    requires Path(rs, ts, strategy) && n <= |ts| && AllFeed(rs[0])
    ensures AllFeed(rs[n])
  {
    if n > 0 {
      EachQueueFeeds(rs, ts, strategy, n - 1);
      PathOk(rs, ts, strategy, n - 1);
      TurnFeeds(rs[n - 1], ts[n - 1], strategy, rs[n]);
    }
  }
}
