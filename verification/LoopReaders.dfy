/** The model loop beside its readers: a run of the loop, interleaved in any way with the client of one request. */
module LoopReaders {
  import RQ = ResultQueue
  import opened Publishing
  import opened RequestTable
  import opened LoopRuns
  import opened Interleavings

  // The steps of one request in a run of the loop.

  lemma {:induction false} LeftWereGenerating(r: Requests, victims: seq<Uuid>, n: nat)
    requires n <= |victims|
    ensures Left(r, victims, n) <= Generating(r.queues)
  {
    if n > 0 {
      LeftWereGenerating(r, victims, n - 1);
    }
  }

  lemma VictimWasGenerating(r: Requests, strategy: EvictionStrategy, outcomes: Outcomes, victims: seq<Uuid>, u: Uuid)
    requires RequestsOk(r) && Evictions(r, strategy, outcomes, victims, |victims|) && u in victims
    ensures u in Generating(r.queues)
  {
    var i :| 0 <= i < |victims| && victims[i] == u;
    assert Falls(r, strategy, outcomes, victims, i);
    assert Evictions(r, strategy, outcomes, victims, i);
    EvictionsOk(r, strategy, outcomes, victims, i);
    LeftWereGenerating(r, victims, i);
  }

  /** The table between a turn's messages and its execution. */
  function AfterMessages(r: Requests, t: Turned): Requests
    requires t.taken <= |t.msgs|
  {
    HandledAll(r, t.msgs, t.taken)
  }

  /** What the workers show of the request after decoding; nothing is published after an aborted one. */
  function SecondView(t: Turned, u: Uuid): Option<View> {
    if t.aborted then None else Lookup(t.w.views2, u)
  }

  /** What a turn does to the request's queue, access by access. */
  function TurnSteps(r: Requests, t: Turned, u: Uuid): seq<RQ.Step> {
    if t.taken > |t.msgs| || Halted(r, t.msgs, t.taken) then []
    else
      var after := AfterMessages(r, t);
      if u in after.handles && u in after.queues
      then ExecutionSteps(after.handles[u], after.queues[u], Lookup(t.w.views1, u), u in t.victims, SecondView(t, u))
      else []
  }

  lemma EvictedEach(r: Requests, strategy: EvictionStrategy, outcomes: Outcomes, victims: seq<Uuid>, u: Uuid)
    requires RequestsOk(r) && Evictions(r, strategy, outcomes, victims, |victims|) && u in r.queues
    ensures var r' := EvictAll(r, victims, |victims|);
            && RequestsOk(r') && r'.handles == r.handles && u in r'.queues
            && r'.queues[u] == Evicted(r.queues[u], u in victims)
    ensures u in victims ==> r.queues[u].status.Generating?
  {
    EvictionsOk(r, strategy, outcomes, victims, |victims|);
    EvictionsEffect(r, strategy, outcomes, victims, |victims|);
    if u in victims {
      VictimWasGenerating(r, strategy, outcomes, victims, u);
    }
  }

  /** An execution treats each request by its own handle, queue and views. */
  lemma ExecutedEach(r: Requests, t: Turned, strategy: EvictionStrategy, r': Requests, u: Uuid)
    requires RequestsOk(r) && Executed(r, t.w, strategy, t.victims, t.aborted, r') && u in r.queues
    ensures u in r'.queues && PairOk(r.handles[u], r.queues[u])
    ensures u in t.victims ==> UpdatedQueue(r.handles[u], r.queues[u], Lookup(t.w.views1, u)).status.Generating?
    ensures r'.queues[u] == ExecutedQueue(r.handles[u], r.queues[u], Lookup(t.w.views1, u), u in t.victims,
                                          SecondView(t, u))
  {
    assert RequestOk(r, u);
    var first := Published(r, t.w.views1);
    PublishedOk(r, t.w.views1);
    EvictedEach(first, strategy, t.w.outcomes, t.victims, u);
  }

  lemma TurnLeads(r: Requests, t: Turned, strategy: EvictionStrategy, r': Requests, u: Uuid)
    requires RequestsOk(r) && MessagesOk(t) && TurnStep(r, t, strategy, r') && u in AfterMessages(r, t).queues
    ensures u in r'.queues && Leads(AfterMessages(r, t).queues[u], TurnSteps(r, t, u), r'.queues[u])
  {
    var after := AfterMessages(r, t);
    HandledAllOk(r, t, t.taken);
    if Halted(r, t.msgs, t.taken) {
      LeadsNowhere(r'.queues[u]);
    } else {
      ExecutedEach(after, t, strategy, r', u);
      ExecutionLeads(after.handles[u], after.queues[u], Lookup(t.w.views1, u), u in t.victims, SecondView(t, u));
    }
  }

  /** What the loop does to the request's queue in the turns i to n - 1. */
  function StepsOver(rs: seq<Requests>, ts: seq<Turned>, u: Uuid, i: nat, n: nat): seq<RQ.Step>
    requires i <= n <= |ts| && |rs| == |ts| + 1
    decreases n - i
  {
    if i == n then [] else TurnSteps(rs[i], ts[i], u) + StepsOver(rs, ts, u, i + 1, n)
  }

  /** The request is registered once turn i has handled its messages, and no later turn up to n releases it. */
  ghost predicate Registered(rs: seq<Requests>, ts: seq<Turned>, u: Uuid, i: nat, n: nat)
    requires n <= |ts| && |rs| == |ts| + 1
  {
    && i < n && ts[i].taken <= |ts[i].msgs| && u in AfterMessages(rs[i], ts[i]).queues
    && forall k {:trigger ts[k]} :: i < k < n ==> Keeps(ts[k], u)
  }

  lemma FirstTurn(rs: seq<Requests>, ts: seq<Turned>, strategy: EvictionStrategy, u: Uuid, k: nat)
    requires Path(rs, ts, strategy) && k < |ts| && ts[k].taken <= |ts[k].msgs|
    requires u in AfterMessages(rs[k], ts[k]).queues
    ensures u in rs[k + 1].queues
    ensures Leads(AfterMessages(rs[k], ts[k]).queues[u], TurnSteps(rs[k], ts[k], u), rs[k + 1].queues[u])
  {
    PathOk(rs, ts, strategy, k);
    TurnLeads(rs[k], ts[k], strategy, rs[k + 1], u);
  }

  lemma LaterTurn(rs: seq<Requests>, ts: seq<Turned>, strategy: EvictionStrategy, u: Uuid, k: nat)
    requires Path(rs, ts, strategy) && k < |ts| && u in rs[k].queues && Keeps(ts[k], u)
    ensures u in rs[k + 1].queues
    ensures Leads(rs[k].queues[u], TurnSteps(rs[k], ts[k], u), rs[k + 1].queues[u])
  {
    HandledKeeps(rs[k], ts[k], ts[k].taken, u);
    FirstTurn(rs, ts, strategy, u, k);
  }

  lemma {:induction false} LaterLeads(rs: seq<Requests>, ts: seq<Turned>, strategy: EvictionStrategy, u: Uuid,
                                      k: nat, n: nat)
    requires Path(rs, ts, strategy) && k <= n <= |ts| && u in rs[k].queues
    requires forall j {:trigger ts[j]} :: k <= j < n ==> Keeps(ts[j], u)
    ensures u in rs[n].queues && Leads(rs[k].queues[u], StepsOver(rs, ts, u, k, n), rs[n].queues[u])
    decreases n - k
  {
    if k == n {
      LeadsNowhere(rs[k].queues[u]);
    } else {
      LaterTurn(rs, ts, strategy, u, k);
      LaterLeads(rs, ts, strategy, u, k + 1, n);
      LeadsOn(rs[k].queues[u], TurnSteps(rs[k], ts[k], u), rs[k + 1].queues[u], StepsOver(rs, ts, u, k + 1, n),
              rs[n].queues[u]);
    }
  }

  lemma RunLeads(rs: seq<Requests>, ts: seq<Turned>, strategy: EvictionStrategy, u: Uuid, i: nat, n: nat, q: Queue)
    requires Path(rs, ts, strategy) && n <= |ts| && Registered(rs, ts, u, i, n)
    requires q == AfterMessages(rs[i], ts[i]).queues[u]
    ensures u in rs[n].queues && Leads(q, StepsOver(rs, ts, u, i, n), rs[n].queues[u])
  {
    FirstTurn(rs, ts, strategy, u, i);
    LaterLeads(rs, ts, strategy, u, i + 1, n);
    LeadsOn(q, TurnSteps(rs[i], ts[i], u), rs[i + 1].queues[u], StepsOver(rs, ts, u, i + 1, n), rs[n].queues[u]);
  }

  /**
    In every run, from any matching state of the request's result queue, and however the reader's steps fall between
    the loop's: the queue stands where the loop believes it to be when the loop has done its steps, and no step of
    the loop is ever blocked.
   */
  lemma EveryInterleaving(rs: seq<Requests>, ts: seq<Turned>, strategy: EvictionStrategy, u: Uuid, i: nat, n: nat,
                          s: RQ.State, mixed: seq<RQ.Step>)
    requires Path(rs, ts, strategy) && n <= |ts| && Registered(rs, ts, u, i, n)
    requires Matches(s, AfterMessages(rs[i], ts[i]).queues[u]) && RQ.Possible(s, mixed)
    ensures u in rs[n].queues
    ensures Producers(mixed) == StepsOver(rs, ts, u, i, n) ==> Matches(RQ.Run(s, mixed), rs[n].queues[u])
    ensures Producers(mixed) < StepsOver(rs, ts, u, i, n) ==>
              RQ.Enabled(RQ.Run(s, mixed), StepsOver(rs, ts, u, i, n)[|Producers(mixed)|])
  {
    var q, steps := AfterMessages(rs[i], ts[i]).queues[u], StepsOver(rs, ts, u, i, n);
    RunLeads(rs, ts, strategy, u, i, n, q);
    LeadsPuts(q, steps, rs[n].queues[u]);
    RunPuts(s, q, mixed);
    if Producers(mixed) < steps {
      assert steps[..|Producers(mixed)|] == Producers(mixed);
      assert IsProducer(steps[|Producers(mixed)|]);
    }
  }

  lemma {:induction false} NewlyRegistered(r: Requests, t: Turned, n: nat, u: Uuid)
    requires n <= t.taken <= |t.msgs| && u !in r.queues
    ensures var r' := HandledAll(r, t.msgs, n); u in r'.queues ==> r'.queues[u] == Queue(RQ.Init, [])
  {
    if n > 0 {
      NewlyRegistered(r, t, n - 1, u);
    }
  }

  /**
    From the registration of a request on, in every run of the loop and every interleaving with its reader: what the
    reader has been given are, in order, first tokens of what the loop has published.
   */
  lemma ReaderGetsPublished(rs: seq<Requests>, ts: seq<Turned>, strategy: EvictionStrategy, u: Uuid, i: nat, n: nat,
                            mixed: seq<RQ.Step>)
    requires Path(rs, ts, strategy) && n <= |ts| && Registered(rs, ts, u, i, n) && u !in rs[i].queues
    requires RQ.Possible(RQ.Start0(), mixed) && Producers(mixed) == StepsOver(rs, ts, u, i, n)
    ensures u in rs[n].queues
    ensures RQ.Delivered(RQ.Run(RQ.Start0(), mixed).replies) <= RQ.Heads(rs[n].queues[u].elements)
  {
    NewlyRegistered(rs[i], ts[i], ts[i].taken, u);
    EveryInterleaving(rs, ts, strategy, u, i, n, RQ.Start0(), mixed);
    assert RQ.Reachable(RQ.Run(RQ.Start0(), mixed));
    RQ.DeliveredPrefix(RQ.Run(RQ.Start0(), mixed));
  }
}
