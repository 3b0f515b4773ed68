/** The model loop's table of registered requests, and what messages, publication and eviction make of it. */
module RequestTable {
  import RQ = ResultQueue
  import opened Publishing

  type Promise = nat

  datatype AsStatus =
    SUCCESS | EMPTY_REQUEST | CACHE_MEMORY_OUT | REQUEST_DENIED | RUNTIME_ERROR | OTHER_ERROR

  datatype EvictionStrategy = MaxLength | Random

  datatype Message =
    | StartRequest(promise: Promise, uuid: Uuid, handle: Handle)
    | StopRequest(promise: Promise, uuid: Uuid)
    | ReleaseRequest(promise: Promise, uuid: Uuid)
    | SyncRequest(promise: Promise, uuid: Uuid)
    | SyncAllRequest(promise: Promise)
    | GracefulStopModel(promise: Promise)
    | StopModel(promise: Promise)
    | StartModel(promise: Promise)
  {
    predicate IsSync() {
      SyncRequest? || SyncAllRequest?
    }

    /** The requests a synchronisation waits for, when the given ones are registered. */
    function Named(registered: set<Uuid>): set<Uuid> {
      if SyncRequest? then {uuid} else registered
    }

    /** The message stops the loop, or comes too late to be served: the turn ends without execution. */
    predicate Halts(gracefulStop: bool) {
      StopModel? || (StartRequest? && gracefulStop)
    }
  }

  type Handles = map<Uuid, Handle>

  type Queues = map<Uuid, Queue>

  /** The loop's two maps, and whether the graceful stop has begun. */
  datatype Requests = Requests(handles: Handles, queues: Queues, gracefulStop: bool)

  /** A new request's handle carries its uuid and has generated nothing. */
  predicate NewHandle(uuid: Uuid, handle: Handle) {
    handle.uuid == uuid && handle.generateLength == 0 && handle.continueCount == 0
  }

  ghost predicate RequestOk(r: Requests, u: Uuid)
    requires u in r.handles && u in r.queues
  {
    r.handles[u].uuid == u && PairOk(r.handles[u], r.queues[u])
  }

  /** Both maps have the same keys, and each key is its handle's uuid. */
  ghost predicate RequestsOk(r: Requests) {
    && r.handles.Keys == r.queues.Keys
    && forall u {:trigger RequestOk(r, u)} :: u in r.handles ==> RequestOk(r, u)
  }

  ghost predicate AllForward(before: Queues, after: Queues) {
    before.Keys == after.Keys && forall u {:trigger after[u]} :: u in before ==> Forward(before[u], after[u])
  }

  lemma ForwardTransitive(a: Queues, b: Queues, c: Queues)
    requires AllForward(a, b) && AllForward(b, c)
    ensures AllForward(a, c)
  {
    forall u | u in a
      ensures Forward(a[u], c[u])
    {
      assert Forward(a[u], b[u]) && Forward(b[u], c[u]);
    }
  }

  // Control messages.

  function Handled(r: Requests, msg: Message): Requests {
    match msg
    case StartRequest(_, uuid, handle) =>
      if r.gracefulStop || uuid in r.queues then r
      else r.(handles := r.handles[uuid := handle], queues := r.queues[uuid := Queue(RQ.Init, [])])
    case ReleaseRequest(_, uuid) =>
      r.(handles := r.handles - {uuid}, queues := r.queues - {uuid})
    case GracefulStopModel(_) => r.(gracefulStop := true)
    case StopRequest(_, _) => r
    case SyncRequest(_, _) => r
    case SyncAllRequest(_) => r
    case StopModel(_) => r
    case StartModel(_) => r
  }

  /** After the first n messages. */
  function HandledAll(r: Requests, msgs: seq<Message>, n: nat): Requests
    requires n <= |msgs|
  {
    if n == 0 then r else Handled(HandledAll(r, msgs, n - 1), msgs[n - 1])
  }

  /** Some message among the first n ends the turn without execution. */
  predicate Halted(r: Requests, msgs: seq<Message>, n: nat)
    requires n <= |msgs|
  {
    n > 0 && (Halted(r, msgs, n - 1) || msgs[n - 1].Halts(HandledAll(r, msgs, n - 1).gracefulStop))
  }

  /** The i-th message registers u: it starts it, and the graceful stop has not begun. */
  ghost predicate Starts(r: Requests, msgs: seq<Message>, i: nat, u: Uuid)
    requires i < |msgs|
  {
    && msgs[i].StartRequest? && msgs[i].uuid == u && !r.gracefulStop
    && forall j {:trigger msgs[j]} :: 0 <= j < i ==> !msgs[j].GracefulStopModel?
  }

  /** None of the messages from i to n - 1 releases u. */
  ghost predicate NotReleased(msgs: seq<Message>, i: int, n: nat, u: Uuid) {
    forall j {:trigger msgs[j]} :: 0 <= j < |msgs| && i <= j < n && msgs[j].ReleaseRequest? ==> msgs[j].uuid != u
  }

  /**
    After n messages exactly those requests are registered that were started in time, or were registered before,
    and were not released since; and the graceful stop has begun exactly if a message says so, or had begun before.
   */
  lemma {:induction false} RegisteredIff(r: Requests, msgs: seq<Message>, n: nat, u: Uuid)
    requires n <= |msgs| && r.handles.Keys == r.queues.Keys
    ensures HandledAll(r, msgs, n).handles.Keys == HandledAll(r, msgs, n).queues.Keys
    ensures u in HandledAll(r, msgs, n).queues <==>
              || (u in r.queues && NotReleased(msgs, 0, n, u))
              || (exists i: nat {:trigger Starts(r, msgs, i, u)} ::
                    i < n && Starts(r, msgs, i, u) && NotReleased(msgs, i + 1, n, u))
    ensures HandledAll(r, msgs, n).gracefulStop <==>
              r.gracefulStop || exists i {:trigger msgs[i]} :: 0 <= i < n && msgs[i].GracefulStopModel?
  {
    if n > 0 {
      RegisteredIff(r, msgs, n - 1, u);
      var before, after := HandledAll(r, msgs, n - 1), HandledAll(r, msgs, n);
      assert after.gracefulStop <==> before.gracefulStop || msgs[n - 1].GracefulStopModel?;
      assert NotReleased(msgs, n, n, u);
      if msgs[n - 1].ReleaseRequest? && msgs[n - 1].uuid == u {
        assert u !in after.queues;
      } else if Starts(r, msgs, n - 1, u) {
        assert !before.gracefulStop && u in after.queues;
      } else {
        assert u in after.queues <==> u in before.queues;
        assert forall i: nat :: i < n ==> (NotReleased(msgs, i, n, u) <==> NotReleased(msgs, i, n - 1, u));
      }
    }
  }

  /** A registered request has the handle and queue it had, or the handle it was started with and a new queue. */
  lemma {:induction false} RegisteredWith(r: Requests, msgs: seq<Message>, n: nat, u: Uuid)
    requires n <= |msgs| && r.handles.Keys == r.queues.Keys
    ensures var r' := HandledAll(r, msgs, n);
            u in r'.queues && u in r'.handles ==>
              || (&& u in r.queues && u in r.handles && NotReleased(msgs, 0, n, u)
                  && r'.handles[u] == r.handles[u] && r'.queues[u] == r.queues[u])
              || (exists i: nat {:trigger Starts(r, msgs, i, u)} ::
                    && i < n && Starts(r, msgs, i, u) && NotReleased(msgs, i + 1, n, u)
                    && r'.handles[u] == msgs[i].handle && r'.queues[u] == Queue(RQ.Init, []))
  {
    if n > 0 {
      RegisteredWith(r, msgs, n - 1, u);
      RegisteredIff(r, msgs, n - 1, u);
      var before, after := HandledAll(r, msgs, n - 1), HandledAll(r, msgs, n);
      if u in after.queues && u !in before.queues {
        assert Starts(r, msgs, n - 1, u) && NotReleased(msgs, n, n, u);
      } else if u in after.queues {
        assert after.handles[u] == before.handles[u] && after.queues[u] == before.queues[u];
        assert !(msgs[n - 1].ReleaseRequest? && msgs[n - 1].uuid == u);
        assert forall i: nat :: i < n && NotReleased(msgs, i, n - 1, u) ==> NotReleased(msgs, i, n, u);
      }
    }
  }

  /** The turn ends without execution exactly if a message stops the loop, or starts a request too late. */
  lemma {:induction false} HaltedIff(r: Requests, msgs: seq<Message>, n: nat)
    requires n <= |msgs|
    ensures Halted(r, msgs, n) <==> exists i: nat {:trigger StopsTurn(r, msgs, i)} :: i < n && StopsTurn(r, msgs, i)
  {
    if n > 0 {
      HaltedIff(r, msgs, n - 1);
      assert Halted(r, msgs, n) <==> Halted(r, msgs, n - 1) || StopsTurn(r, msgs, n - 1);
    }
  }

  ghost predicate StopsTurn(r: Requests, msgs: seq<Message>, i: nat)
    requires i < |msgs|
  {
    msgs[i].StopModel? || (msgs[i].StartRequest? && HandledAll(r, msgs, i).gracefulStop)
  }

  predicate MessageOk(msg: Message) {
    msg.StartRequest? ==> NewHandle(msg.uuid, msg.handle)
  }

  lemma HandledOk(r: Requests, msg: Message)
    requires RequestsOk(r) && MessageOk(msg)
    ensures RequestsOk(Handled(r, msg))
  {
    var r' := Handled(r, msg);
    forall u | u in r'.handles
      ensures RequestOk(r', u)
    {
      assert u in r.handles ==> RequestOk(r, u);
    }
  }

  // Publication.

  function Lookup(views: map<Uuid, View>, u: Uuid): Option<View> {
    if u in views then Some(views[u]) else None
  }

  /** Every registered request is updated once, by its own view. */
  ghost function Published(r: Requests, views: map<Uuid, View>): Requests {
    r.(handles := UpdatedHandles(r, views), queues := UpdatedQueues(r, views))
  }

  // Maps are described, and then chosen: of comprehensions the verifier also compares the values outside the keys.

  ghost predicate HandlesUpdated(m: Handles, r: Requests, views: map<Uuid, View>) {
    && m.Keys == r.handles.Keys * r.queues.Keys
    && (forall u :: u in m ==> m[u] == UpdatedHandle(r.handles[u], r.queues[u], Lookup(views, u)))
  }

  lemma HandlesExist(r: Requests, views: map<Uuid, View>)
    ensures exists m :: HandlesUpdated(m, r, views)
  {
    assert HandlesUpdated(map u | u in r.handles && u in r.queues ::
                            UpdatedHandle(r.handles[u], r.queues[u], Lookup(views, u)), r, views);
  }

  ghost function UpdatedHandles(r: Requests, views: map<Uuid, View>): (m: Handles)
    ensures HandlesUpdated(m, r, views)
  {
    HandlesExist(r, views);
    var m :| HandlesUpdated(m, r, views);
    m
  }

  ghost predicate QueuesUpdated(m: Queues, r: Requests, views: map<Uuid, View>) {
    && m.Keys == r.handles.Keys * r.queues.Keys
    && (forall u :: u in m ==> m[u] == UpdatedQueue(r.handles[u], r.queues[u], Lookup(views, u)))
  }

  lemma QueuesExist(r: Requests, views: map<Uuid, View>)
    ensures exists m :: QueuesUpdated(m, r, views)
  {
    assert QueuesUpdated(map u | u in r.handles && u in r.queues ::
                           UpdatedQueue(r.handles[u], r.queues[u], Lookup(views, u)), r, views);
  }

  ghost function UpdatedQueues(r: Requests, views: map<Uuid, View>): (m: Queues)
    ensures QueuesUpdated(m, r, views)
  {
    QueuesExist(r, views);
    var m :| QueuesUpdated(m, r, views);
    m
  }

  lemma PublishedOk(r: Requests, views: map<Uuid, View>)
    requires RequestsOk(r)
    ensures RequestsOk(Published(r, views)) && AllForward(r.queues, Published(r, views).queues)
  {
    var r' := Published(r, views);
    forall u | u in r'.handles
      ensures RequestOk(r', u) && Forward(r.queues[u], r'.queues[u])
    {
      assert RequestOk(r, u);
      UpdateForward(r.handles[u], r.queues[u], Lookup(views, u));
    }
  }

  /** An update treats every registered request as it should, and registers and releases none. */
  ghost predicate EachPublishes(r: Requests, views: map<Uuid, View>, handles: Handles, queues: Queues) {
    && handles.Keys == r.handles.Keys && queues.Keys == r.queues.Keys && r.handles.Keys == r.queues.Keys
    && forall u {:trigger queues[u]} :: u in queues ==>
         PublishesAll(r.handles[u], r.queues[u], views, u, handles[u], queues[u])
  }

  lemma PublishedEach(r: Requests, views: map<Uuid, View>)
    requires RequestsOk(r)
    ensures EachPublishes(r, views, Published(r, views).handles, Published(r, views).queues)
  {
    var r' := Published(r, views);
    forall u | u in r'.queues
      ensures PublishesAll(r.handles[u], r.queues[u], views, u, r'.handles[u], r'.queues[u])
    {
      assert RequestOk(r, u);
      UpdatePublishesAll(r.handles[u], r.queues[u], views, u);
    }
  }

  // Eviction.

  /** The requests that may be evicted. */
  function Generating(queues: Queues): set<Uuid> {
    set u | u in queues && queues[u].status.Generating?
  }

  function Evict(r: Requests, u: Uuid): Requests {
    if u in r.queues then r.(queues := r.queues[u := r.queues[u].(status := RQ.GenerateInterrupted)]) else r
  }

  /** After the first n victims have fallen. */
  function EvictAll(r: Requests, victims: seq<Uuid>, n: nat): Requests
    requires n <= |victims|
  {
    if n == 0 then r else Evict(EvictAll(r, victims, n - 1), victims[n - 1])
  }

  lemma {:induction false} EvictSame(r: Requests, victims: seq<Uuid>, more: seq<Uuid>, n: nat)
    requires n <= |victims| && n <= |more| && forall i :: 0 <= i < n ==> more[i] == victims[i]
    ensures EvictAll(r, more, n) == EvictAll(r, victims, n)
  {
    if n > 0 {
      EvictSame(r, victims, more, n - 1);
    }
  }

  /** A request that is generating, under MaxLength a longest one. */
  ghost predicate Chosen(r: Requests, strategy: EvictionStrategy, u: Uuid) {
    && u in Generating(r.queues) && u in r.handles
    && (strategy == MaxLength ==>
          forall v :: v in Generating(r.queues) && v in r.handles ==> r.handles[v].Length() <= r.handles[u].Length())
  }

  lemma EvictOk(r: Requests, u: Uuid)
    requires RequestsOk(r) && u in Generating(r.queues)
    ensures RequestsOk(Evict(r, u)) && AllForward(r.queues, Evict(r, u).queues)
    ensures Evict(r, u).handles == r.handles && Evict(r, u).gracefulStop == r.gracefulStop
    ensures Generating(Evict(r, u).queues) == Generating(r.queues) - {u}
  {
    assert Evict(r, u).queues.Keys == r.queues.Keys;
    forall v | v in r.queues
      ensures RequestOk(Evict(r, u), v) && Forward(r.queues[v], Evict(r, u).queues[v])
    {
      assert RequestOk(r, v);
    }
  }

  /** What the attempts to decode answer, one after the other. */
  type Outcomes = nat -> AsStatus

  /** The first n victims fall one by one, each to an attempt that ran out of cache memory. */
  ghost predicate Evictions(r: Requests, strategy: EvictionStrategy, outcomes: Outcomes, victims: seq<Uuid>, n: nat)
    requires n <= |victims|
  {
    forall i {:trigger Falls(r, strategy, outcomes, victims, i)} :: 0 <= i < n ==>
        Falls(r, strategy, outcomes, victims, i)
  }

  ghost predicate Falls(r: Requests, strategy: EvictionStrategy, outcomes: Outcomes, victims: seq<Uuid>, i: nat)
    requires i < |victims|
  {
    outcomes(i) == CACHE_MEMORY_OUT && Chosen(EvictAll(r, victims, i), strategy, victims[i])
  }

  lemma EvictionsMore(r: Requests, strategy: EvictionStrategy, outcomes: Outcomes, victims: seq<Uuid>, u: Uuid)
    requires RequestsOk(r) && Evictions(r, strategy, outcomes, victims, |victims|)
    requires RequestsOk(EvictAll(r, victims, |victims|)) && Chosen(EvictAll(r, victims, |victims|), strategy, u)
    requires outcomes(|victims|) == CACHE_MEMORY_OUT
    ensures Evictions(r, strategy, outcomes, victims + [u], |victims| + 1)
    ensures EvictAll(r, victims + [u], |victims| + 1) == Evict(EvictAll(r, victims, |victims|), u)
  {
    var more := victims + [u];
    forall i | 0 <= i <= |victims|
      ensures Falls(r, strategy, outcomes, more, i)
    {
      EvictSame(r, victims, more, i);
      assert i < |victims| ==> Falls(r, strategy, outcomes, victims, i);
    }
    EvictSame(r, victims, more, |victims|);
  }

  /** Those still generating when the first n victims have fallen. */
  function Left(r: Requests, victims: seq<Uuid>, n: nat): set<Uuid>
    requires n <= |victims|
  {
    if n == 0 then Generating(r.queues) else Left(r, victims, n - 1) - {victims[n - 1]}
  }

  /** Evictions keep the table sound, its handles as they are, and the victims no longer generate. */
  lemma {:induction false} EvictionsOk(r: Requests, strategy: EvictionStrategy, outcomes: Outcomes, victims: seq<Uuid>,
                                       n: nat)
    requires RequestsOk(r) && n <= |victims| && Evictions(r, strategy, outcomes, victims, n)
    ensures var r' := EvictAll(r, victims, n);
            && RequestsOk(r') && AllForward(r.queues, r'.queues) && r'.handles == r.handles
            && r'.gracefulStop == r.gracefulStop && Generating(r'.queues) == Left(r, victims, n)
  {
    if n > 0 {
      EvictionsOk(r, strategy, outcomes, victims, n - 1);
      var before := EvictAll(r, victims, n - 1);
      assert Falls(r, strategy, outcomes, victims, n - 1);
      EvictOk(before, victims[n - 1]);
      ForwardTransitive(r.queues, before.queues, EvictAll(r, victims, n).queues);
    }
  }

  /** From before to after exactly the first n victims were interrupted; tokens and the other statuses stay. */
  ghost predicate Interrupted(before: Queues, after: Queues, victims: seq<Uuid>, n: nat)
    requires n <= |victims|
  {
    && after.Keys == before.Keys
    && forall u {:trigger after[u]} :: u in before ==>
         after[u] == if Among(victims, n, u) then before[u].(status := RQ.GenerateInterrupted) else before[u]
  }

  predicate Among(victims: seq<Uuid>, n: nat, u: Uuid)
    requires n <= |victims|
  {
    exists i {:trigger victims[i]} :: 0 <= i < n && victims[i] == u
  }

  lemma InterruptedMore(before: Queues, mid: Queues, after: Queues, victims: seq<Uuid>, n: nat)
    requires n < |victims| && Interrupted(before, mid, victims, n) && victims[n] in mid
    requires after == mid[victims[n] := mid[victims[n]].(status := RQ.GenerateInterrupted)]
    ensures Interrupted(before, after, victims, n + 1)
  {
    forall u
      ensures Among(victims, n + 1, u) <==> Among(victims, n, u) || u == victims[n]
    {
      assert victims[n] == victims[n];
    }
  }

  lemma FewerLeft(r: Requests, victims: seq<Uuid>, n: nat)
    requires n < |victims| && victims[n] in Left(r, victims, n)
    ensures |Left(r, victims, n + 1)| + 1 == |Left(r, victims, n)|
  {
  }

  /** The queues once the first n victims have fallen. */
  ghost function QueuesAfter(r: Requests, victims: seq<Uuid>, n: nat): Queues
    requires n <= |victims|
  {
    EvictAll(r, victims, n).queues
  }

  lemma LastFalls(r: Requests, strategy: EvictionStrategy, outcomes: Outcomes, victims: seq<Uuid>, n: nat)
    requires RequestsOk(r) && n < |victims| && Evictions(r, strategy, outcomes, victims, n + 1)
    ensures Evictions(r, strategy, outcomes, victims, n)
    ensures victims[n] in Left(r, victims, n) && victims[n] in QueuesAfter(r, victims, n)
    ensures var mid := QueuesAfter(r, victims, n);
            QueuesAfter(r, victims, n + 1) == mid[victims[n] := mid[victims[n]].(status := RQ.GenerateInterrupted)]
  {
    EvictionsOk(r, strategy, outcomes, victims, n);
    assert Falls(r, strategy, outcomes, victims, n);
  }

  lemma {:induction false} FewerEachTime(r: Requests, strategy: EvictionStrategy, outcomes: Outcomes,
                                         victims: seq<Uuid>, n: nat)
    requires RequestsOk(r) && n <= |victims| && Evictions(r, strategy, outcomes, victims, n)
    ensures n + |Left(r, victims, n)| == |Generating(r.queues)|
  {
    if n > 0 {
      LastFalls(r, strategy, outcomes, victims, n - 1);
      FewerEachTime(r, strategy, outcomes, victims, n - 1);
      FewerLeft(r, victims, n - 1);
    }
  }

  /** Exactly the victims are interrupted. */
  lemma {:induction false} VictimsInterrupted(r: Requests, strategy: EvictionStrategy, outcomes: Outcomes,
                                              victims: seq<Uuid>, n: nat)
    requires RequestsOk(r) && n <= |victims| && Evictions(r, strategy, outcomes, victims, n)
    ensures Interrupted(r.queues, QueuesAfter(r, victims, n), victims, n)
  {
    if n > 0 {
      LastFalls(r, strategy, outcomes, victims, n - 1);
      VictimsInterrupted(r, strategy, outcomes, victims, n - 1);
      InterruptedMore(r.queues, QueuesAfter(r, victims, n - 1), QueuesAfter(r, victims, n), victims, n - 1);
    }
  }

  /** Exactly the victims are interrupted, and each once: those still generating are fewer by one for each of them. */
  lemma EvictionsEffect(r: Requests, strategy: EvictionStrategy, outcomes: Outcomes, victims: seq<Uuid>, n: nat)
    requires RequestsOk(r) && n <= |victims| && Evictions(r, strategy, outcomes, victims, n)
    ensures Interrupted(r.queues, EvictAll(r, victims, n).queues, victims, n)
    ensures n + |Left(r, victims, n)| == |Generating(r.queues)|
  {
    FewerEachTime(r, strategy, outcomes, victims, n);
    VictimsInterrupted(r, strategy, outcomes, victims, n);
  }

  /** Under MaxLength every victim is a longest one of those still generating when it falls. */
  lemma VictimIsLongest(r: Requests, outcomes: Outcomes, victims: seq<Uuid>, i: nat, u: Uuid)
    requires RequestsOk(r) && i < |victims| && Evictions(r, MaxLength, outcomes, victims, |victims|)
    requires u in Left(r, victims, i)
    ensures victims[i] in Left(r, victims, i) && u in r.handles && victims[i] in r.handles
    ensures r.handles[u].Length() <= r.handles[victims[i]].Length()
  {
    EvictionsOk(r, MaxLength, outcomes, victims, i);
    assert Falls(r, MaxLength, outcomes, victims, i);
  }

  /** Nobody is left to evict, or the last attempt did not run out of memory. */
  predicate Stops(r: Requests, outcomes: Outcomes, victims: seq<Uuid>) {
    outcomes(|victims|) == CACHE_MEMORY_OUT ==> Left(r, victims, |victims|) == {}
  }

  // One turn's execution.

  /** What the environment does in one turn of the loop. */
  datatype Weather = Weather(
    seen: nat, views1: map<Uuid, View>, outcomes: Outcomes, rands: nat -> nat, views2: map<Uuid, View>,
    unfinished: nat, inboxEmpty: bool)

  /** Publish, decode with evictions, and publish again unless decoding failed for good. */
  ghost predicate Executed(r: Requests, w: Weather, strategy: EvictionStrategy, victims: seq<Uuid>, aborted: bool,
                           r': Requests)
  {
    var first := Published(r, w.views1);
    var evicted := EvictAll(first, victims, |victims|);
    && Evictions(first, strategy, w.outcomes, victims, |victims|) && Stops(first, w.outcomes, victims)
    && (aborted <==> w.outcomes(|victims|) !in {SUCCESS, EMPTY_REQUEST, CACHE_MEMORY_OUT})
    && r' == if aborted then evicted else Published(evicted, w.views2)
  }

  /** Execution keeps the table sound, its keys as they are, and moves every status forward. */
  lemma ExecutedOk(r: Requests, w: Weather, strategy: EvictionStrategy, victims: seq<Uuid>, aborted: bool, r': Requests)
    requires RequestsOk(r) && Executed(r, w, strategy, victims, aborted, r')
    ensures RequestsOk(r') && AllForward(r.queues, r'.queues) && r'.gracefulStop == r.gracefulStop
  {
    var first := Published(r, w.views1);
    PublishedOk(r, w.views1);
    EvictionsOk(first, strategy, w.outcomes, victims, |victims|);
    var evicted := EvictAll(first, victims, |victims|);
    ForwardTransitive(r.queues, first.queues, evicted.queues);
    if !aborted {
      PublishedOk(evicted, w.views2);
      ForwardTransitive(r.queues, evicted.queues, r'.queues);
    }
  }

  lemma NotFewer(r: Requests, s1: EvictionStrategy, s2: EvictionStrategy, outcomes: Outcomes,
                 victims1: seq<Uuid>, victims2: seq<Uuid>)
    requires RequestsOk(r) && Evictions(r, s1, outcomes, victims1, |victims1|) && Stops(r, outcomes, victims1)
    requires Evictions(r, s2, outcomes, victims2, |victims2|)
    ensures |victims1| >= |victims2|
  {
    if |victims1| < |victims2| {
      assert Falls(r, s2, outcomes, victims2, |victims1|);
      EvictionsEffect(r, s1, outcomes, victims1, |victims1|);
      EvictionsEffect(r, s2, outcomes, victims2, |victims2|);
    }
  }

  /** How often decoding is attempted is fixed by its statuses and the number of generating requests, whoever falls. */
  lemma EvictionsDetermined(r: Requests, s1: EvictionStrategy, s2: EvictionStrategy, outcomes: Outcomes,
                            victims1: seq<Uuid>, victims2: seq<Uuid>)
    requires RequestsOk(r)
    requires Evictions(r, s1, outcomes, victims1, |victims1|) && Stops(r, outcomes, victims1)
    requires Evictions(r, s2, outcomes, victims2, |victims2|) && Stops(r, outcomes, victims2)
    ensures |victims1| == |victims2|
  {
    NotFewer(r, s1, s2, outcomes, victims1, victims2);
    NotFewer(r, s2, s1, outcomes, victims2, victims1);
  }
}
