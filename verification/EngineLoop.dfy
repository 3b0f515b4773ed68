/** The model loop: control messages, publication of results, eviction on memory exhaustion, synchronisation. */
module EngineLoop {
  import RQ = ResultQueue
  import opened Publishing
  import opened RequestTable
  import opened LoopRuns

  // Choosing a victim.

  /** Under MaxLength the first longest request; otherwise any. */
  method ChooseVictim(ids: seq<Uuid>, lengths: seq<nat>, strategy: EvictionStrategy, rand: nat) returns (victim: nat)
    requires 0 < |ids| == |lengths|
    ensures victim < |ids|
    ensures strategy == MaxLength ==>
              && (forall i :: 0 <= i < |lengths| ==> lengths[i] <= lengths[victim])
              && (forall i :: 0 <= i < victim ==> lengths[i] < lengths[victim])
    ensures strategy == Random ==> victim == rand % |ids|
  {
    match strategy
    case MaxLength =>
      victim := 0;
      for i := 0 to |lengths|
        invariant victim < |lengths| && (victim < i || victim == 0)
        invariant forall j :: 0 <= j < i ==> lengths[j] <= lengths[victim]
        invariant forall j :: 0 <= j < victim ==> lengths[j] < lengths[victim]
      {
        if lengths[i] > lengths[victim] {
          victim := i;
        }
      }
    case Random =>
      victim := rand % |ids|;
  }

  /** The Generating requests among those outside todo, with their lengths. */
  ghost predicate Collected(handles: Handles, queues: Queues, todo: set<Uuid>, ids: seq<Uuid>, lengths: seq<nat>)
  {
    && handles.Keys == queues.Keys && |ids| == |lengths|
    && (forall i {:trigger ids[i]} :: 0 <= i < |ids| ==>
          ids[i] in handles && queues[ids[i]].status.Generating? && lengths[i] == handles[ids[i]].Length())
    && (forall u {:trigger queues[u]} :: u in queues && u !in todo && queues[u].status.Generating? ==> u in ids)
  }

  lemma CollectOne(handles: Handles, queues: Queues, todo: set<Uuid>, ids: seq<Uuid>, lengths: seq<nat>, u: Uuid)
    requires Collected(handles, queues, todo, ids, lengths) && u in todo && u in handles
    ensures queues[u].status.Generating? ==>
              Collected(handles, queues, todo - {u}, ids + [u], lengths + [handles[u].Length()])
    ensures !queues[u].status.Generating? ==> Collected(handles, queues, todo - {u}, ids, lengths)
  {
    assert u in ids + [u];
    assert forall v :: v in ids ==> v in ids + [u];
  }

  lemma NoneCollected(handles: Handles, queues: Queues, ids: seq<Uuid>, lengths: seq<nat>)
    requires Collected(handles, queues, {}, ids, lengths)
    ensures Generating(queues) == {} <==> ids == []
  {
    if ids != [] {
      assert ids[0] in Generating(queues);
    } else {
      assert forall u :: u in queues ==> !queues[u].status.Generating?;
    }
  }

  // Publication, request by request.

  /** The state after the requests outside todo have been updated. */
  ghost predicate UpdatedBut(handles0: Handles, queues0: Queues, views: map<Uuid, View>, handles: Handles,
                             queues: Queues, todo: set<Uuid>)
  {
    && handles.Keys == queues.Keys == handles0.Keys == queues0.Keys
    && (forall u {:trigger handles[u]} :: u in handles ==>
          handles[u] == if u in todo then handles0[u] else UpdatedHandle(handles0[u], queues0[u], Lookup(views, u)))
    && (forall u {:trigger queues[u]} :: u in queues ==>
          queues[u] == if u in todo then queues0[u] else UpdatedQueue(handles0[u], queues0[u], Lookup(views, u)))
  }

  lemma UpdatedOne(handles0: Handles, queues0: Queues, views: map<Uuid, View>, handles: Handles, queues: Queues,
                   todo: set<Uuid>, u: Uuid)
    requires UpdatedBut(handles0, queues0, views, handles, queues, todo) && u in todo && u in handles
    ensures handles[u] == handles0[u] && queues[u] == queues0[u]
    ensures UpdatedBut(handles0, queues0, views, handles[u := UpdatedHandle(handles[u], queues[u], Lookup(views, u))],
                       queues[u := UpdatedQueue(handles[u], queues[u], Lookup(views, u))], todo - {u})
  {
  }

  lemma IsPublished(r: Requests, views: map<Uuid, View>, handles: Handles, queues: Queues)
    requires r.handles.Keys == r.queues.Keys && UpdatedBut(r.handles, r.queues, views, handles, queues, {})
    ensures handles == Published(r, views).handles && queues == Published(r, views).queues
  {
  }

  /** Requests that are over have left the pending set, and no others. */
  ghost predicate PendingBut(pending0: set<Uuid>, pending: set<Uuid>, synchronizing: bool, queues: Queues,
                             todo: set<Uuid>)
  {
    forall u {:trigger u in pending} :: u in pending <==>
      u in pending0 && !(synchronizing && u in queues && u !in todo && queues[u].Ended())
  }

  lemma PendingOne(pending0: set<Uuid>, pending: set<Uuid>, synchronizing: bool, queues: Queues, todo: set<Uuid>,
                   u: Uuid, q: Queue)
    requires PendingBut(pending0, pending, synchronizing, queues, todo) && u in todo && u in queues
    ensures PendingBut(pending0, if synchronizing && q.Ended() then pending - {u} else pending, synchronizing,
                       queues[u := q], todo - {u})
  {
  }

  /** Requests that were over at an earlier update are over at a later one. */
  lemma PendingTwice(pending0: set<Uuid>, pending1: set<Uuid>, pending2: set<Uuid>, synchronizing: bool,
                     queues1: Queues, queues2: Queues)
    requires PendingBut(pending0, pending1, synchronizing, queues1, {}) && AllForward(queues1, queues2)
    requires PendingBut(pending1, pending2, synchronizing, queues2, {})
    ensures PendingBut(pending0, pending2, synchronizing, queues2, {})
  {
    forall u
      ensures u in pending2 <==> u in pending0 && !(synchronizing && u in queues2 && queues2[u].Ended())
    {
      assert u in queues1 ==> Forward(queues1[u], queues2[u]);
      assert u in pending1 <==> u in pending0 && !(synchronizing && u in queues1 && queues1[u].Ended());
    }
  }

  /** A request that is not registered stays pending. */
  lemma UnknownStaysPending(pending0: set<Uuid>, pending: set<Uuid>, synchronizing: bool, queues: Queues)
    requires PendingBut(pending0, pending, synchronizing, queues, {})
    ensures forall u :: u in pending0 && u !in queues ==> u in pending
  {
  }

  lemma NonePending(pending0: set<Uuid>, pending: set<Uuid>, queues: Queues)
    requires PendingBut(pending0, pending, true, queues, {})
    ensures pending == {} <==> AllOver(pending0, queues)
  {
    if u :| u in pending {
      assert u in pending0 && !(u in queues && queues[u].Ended());
    }
    assert forall u :: u in pending0 && !(u in queues && queues[u].Ended()) ==> u in pending;
  }

  // Synchronisation.

  /** All of these requests are registered and over. */
  ghost predicate AllOver(requests: set<Uuid>, queues: Queues) {
    forall u {:trigger u in requests} :: u in requests ==> u in queues && queues[u].Ended()
  }

  /** Every covered request outside the pending set is registered and over. */
  ghost predicate SyncOk(covered: set<Uuid>, pending: set<Uuid>, queues: Queues) {
    pending <= covered && AllOver(covered - pending, queues)
  }

  lemma ForwardKeepsSync(covered: set<Uuid>, pending: set<Uuid>, before: Queues, after: Queues)
    requires AllForward(before, after)
    ensures SyncOk(covered, pending, before) ==> SyncOk(covered, pending, after)
  {
    forall u | u in before
      ensures Forward(before[u], after[u])
    {
      assert u in after;
    }
    assert forall u :: u in covered - pending ==> u in covered && u !in pending;
  }

  lemma SyncShrinks(covered: set<Uuid>, pending0: set<Uuid>, pending: set<Uuid>, queues: Queues)
    requires PendingBut(pending0, pending, true, queues, {}) && SyncOk(covered, pending0, queues)
    ensures SyncOk(covered, pending, queues)
  {
    forall u | u in covered - pending
      ensures u in queues && queues[u].Ended()
    {
      assert u !in pending0 ==> u in covered - pending0;
    }
  }

  /**
    The synchronisations begun so far, each with the requests it covers, and the queues as they were when it was
    answered: each is answered, with all it covers over, or is the outstanding one.
   */
  ghost predicate SyncsOk(begun: map<Promise, set<Uuid>>, records: map<Promise, Queues>,
                          answered: map<Promise, AsStatus>, deferred: Option<Promise>)
  {
    && (forall p {:trigger p in records} :: p in records ==>
          p in begun && p in answered && answered[p] == SUCCESS && AllOver(begun[p], records[p]))
    && (forall p {:trigger p in begun} :: p in begun ==> p in records || deferred == Some(p))
  }

  /**
    The loop's promises: at most one synchronisation is outstanding, and then its promise is unanswered and every
    request it covers is pending or over; nothing is pending otherwise.
   */
  ghost predicate LedgerOk(synchronizing: bool, pending: set<Uuid>, deferred: Option<Promise>,
                           answered: map<Promise, AsStatus>, begun: map<Promise, set<Uuid>>,
                           records: map<Promise, Queues>, queues: Queues)
  {
    && (!synchronizing ==> pending == {} && deferred.None?)
    && (synchronizing ==>
          && deferred.Some? && deferred.value in begun && deferred.value !in answered
          && SyncOk(begun[deferred.value], pending, queues))
    && SyncsOk(begun, records, answered, deferred)
  }

  lemma RecordSync(begun: map<Promise, set<Uuid>>, records: map<Promise, Queues>, answered: map<Promise, AsStatus>,
                   p: Promise, pending: set<Uuid>, queues: Queues)
    requires SyncsOk(begun, records, answered, Some(p)) && p in begun && SyncOk(begun[p], pending, queues)
             && pending == {}
    ensures SyncsOk(begun, records[p := queues], answered[p := SUCCESS], None)
  {
    assert begun[p] - pending == begun[p];
  }

  /** What is on record newly are these queues. */
  ghost predicate OnRecord(before: map<Promise, Queues>, after: map<Promise, Queues>, queues: Queues) {
    forall p {:trigger p in after} :: p in after ==> (p in before && after[p] == before[p]) || after[p] == queues
  }

  /** Answers are given once: none is changed. */
  ghost predicate Kept(before: map<Promise, AsStatus>, after: map<Promise, AsStatus>) {
    forall p {:trigger p in before} :: p in before ==> p in after && after[p] == before[p]
  }

  lemma KeptTransitive(a: map<Promise, AsStatus>, b: map<Promise, AsStatus>, c: map<Promise, AsStatus>)
    requires Kept(a, b) && Kept(b, c)
    ensures Kept(a, c)
  {
  }

  /**
    A message's answer at once: a start that comes too late is denied, stopping the loop succeeds, what the workers
    say to stopping or releasing a request is passed on, and nothing else is answered yet.
   */
  ghost predicate Replies(msg: Message, gracefulStop: bool, before: map<Promise, AsStatus>,
                          after: map<Promise, AsStatus>)
  {
    match msg
    case StartRequest(p, _, _) => after == if gracefulStop then before[p := REQUEST_DENIED] else before
    case StopModel(p) => after == before[p := SUCCESS]
    case StopRequest(p, _) => p in after && after == before[p := after[p]]
    case ReleaseRequest(p, _) => p in after && after == before[p := after[p]]
    case SyncRequest(_, _) => after == before
    case SyncAllRequest(_) => after == before
    case GracefulStopModel(_) => after == before
    case StartModel(_) => after == before
  }

  /** What the loop owes: nothing, or a promise once the requests it waits for are over. */
  datatype Debt = Nothing | Debt(promise: Promise, waiting: set<Uuid>)

  /** A synchronisation that is the last of the n messages taken becomes the debt. */
  function DebtAfter(debt: Debt, msgs: seq<Message>, n: nat, registered: set<Uuid>): Debt
    requires n <= |msgs|
  {
    if n > 0 && msgs[n - 1].IsSync() then Debt(msgs[n - 1].promise, msgs[n - 1].Named(registered)) else debt
  }

  function BegunAfter(begun: map<Promise, set<Uuid>>, msgs: seq<Message>, n: nat, registered: set<Uuid>)
    : map<Promise, set<Uuid>>
    requires n <= |msgs|
  {
    if n > 0 && msgs[n - 1].IsSync() then begun[msgs[n - 1].promise := msgs[n - 1].Named(registered)] else begun
  }

  /** None is taken while a synchronisation is outstanding; else all up to the first that begins one. */
  ghost predicate Takes(synchronizing: bool, msgs: seq<Message>, taken: nat) {
    && taken <= |msgs| && (synchronizing ==> taken == 0)
    && (forall i {:trigger msgs[i]} :: 0 <= i < taken - 1 ==> !msgs[i].IsSync())
    && (!synchronizing && taken < |msgs| ==> taken > 0 && msgs[taken - 1].IsSync())
  }

  /** Messages that arrive carry promises of their own. */
  ghost predicate Distinct(msgs: seq<Message>) {
    && (forall i {:trigger msgs[i]} :: 0 <= i < |msgs| ==> MessageOk(msgs[i]))
    && (forall i, j {:trigger msgs[i], msgs[j]} :: 0 <= i < j < |msgs| ==> msgs[i].promise != msgs[j].promise)
  }

  predicate NoStop(msgs: seq<Message>, n: nat)
    requires n <= |msgs|
  {
    forall i {:trigger msgs[i]} :: 0 <= i < n ==> !msgs[i].StopModel?
  }

  lemma {:induction false} StopHalts(r: Requests, msgs: seq<Message>, n: nat)
    requires n <= |msgs| && !Halted(r, msgs, n)
    ensures NoStop(msgs, n)
  {
    if n > 0 {
      StopHalts(r, msgs, n - 1);
    }
  }

  /** The messages past the first n carry promises of which nothing is known. */
  ghost predicate Unspoken(spoken: set<Promise>, msgs: seq<Message>, n: nat) {
    forall i {:trigger msgs[i]} :: n <= i < |msgs| ==> msgs[i].promise !in spoken
  }

  /** The promises of the first n messages. */
  function PromisesOf(msgs: seq<Message>, n: nat): set<Promise>
    requires n <= |msgs|
  {
    if n == 0 then {} else PromisesOf(msgs, n - 1) + {msgs[n - 1].promise}
  }

  lemma SpokenMore(a: set<Promise>, taken: set<Promise>, b: set<Promise>, p: Promise, c: set<Promise>)
    requires b <= a + taken && c <= b + {p}
    ensures c <= a + (taken + {p})
  {
  }

  lemma {:induction false} NotYetTaken(msgs: seq<Message>, n: nat, i: nat)
    requires Distinct(msgs) && n <= i < |msgs|
    ensures msgs[i].promise !in PromisesOf(msgs, n)
  {
    if n > 0 {
      NotYetTaken(msgs, n - 1, i);
      assert msgs[n - 1].promise != msgs[i].promise;
    }
  }

  /** The messages at hand when k have arrived past the first n. */
  function Window(inbox: seq<Message>, n: nat, k: nat): (msgs: seq<Message>)
    requires n <= |inbox|
    ensures |msgs| == if k < |inbox| - n then k else |inbox| - n
    ensures forall i {:trigger msgs[i]} :: 0 <= i < |msgs| ==> n + i < |inbox| && msgs[i] == inbox[n + i]
  {
    inbox[n..if k < |inbox| - n then n + k else |inbox|]
  }

  /** How many messages the first k turns have taken. */
  function TakenBy(ts: seq<Turned>, k: nat): nat
    requires k <= |ts|
  {
    if k == 0 then 0 else TakenBy(ts, k - 1) + ts[k - 1].taken
  }

  lemma {:induction false} TakenBySame(ts: seq<Turned>, t: Turned, k: nat)
    requires k <= |ts|
    ensures TakenBy(ts + [t], k) == TakenBy(ts, k)
  {
    if k > 0 {
      TakenBySame(ts, t, k - 1);
    }
  }

  /** Turn k had the k-th weather, and saw what had arrived past the messages that the turns before it took. */
  ghost predicate Fed(inbox: seq<Message>, ws: seq<Weather>, ts: seq<Turned>, k: nat)
    requires k < |ts|
  {
    && k < |ws| && ts[k].w == ws[k]
    && TakenBy(ts, k) <= |inbox| && ts[k].msgs == Window(inbox, TakenBy(ts, k), ws[k].seen)
  }

  ghost predicate AllFed(inbox: seq<Message>, ws: seq<Weather>, ts: seq<Turned>) {
    forall k {:trigger Fed(inbox, ws, ts, k)} :: 0 <= k < |ts| ==> Fed(inbox, ws, ts, k)
  }

  lemma AllFedMore(inbox: seq<Message>, ws: seq<Weather>, ts: seq<Turned>, t: Turned)
    requires AllFed(inbox, ws, ts) && |ts| < |ws| && t.w == ws[|ts|] && TakenBy(ts, |ts|) <= |inbox|
    requires t.msgs == Window(inbox, TakenBy(ts, |ts|), ws[|ts|].seen)
    ensures AllFed(inbox, ws, ts + [t]) && TakenBy(ts + [t], |ts| + 1) == TakenBy(ts, |ts|) + t.taken
  {
    TakenBySame(ts, t, |ts|);
    forall k | 0 <= k <= |ts|
      ensures Fed(inbox, ws, ts + [t], k)
    {
      TakenBySame(ts, t, k);
      assert k < |ts| ==> Fed(inbox, ws, ts, k);
    }
  }

  lemma {:induction false} PromisesOfWindow(inbox: seq<Message>, n: nat, k: nat, taken: nat)
    requires n <= |inbox| && taken <= |Window(inbox, n, k)|
    ensures n + taken <= |inbox|
    ensures PromisesOf(Window(inbox, n, k), taken) <= PromisesOf(inbox, n + taken)
  {
    if taken > 0 {
      PromisesOfWindow(inbox, n, k, taken - 1);
      assert Window(inbox, n, k)[taken - 1] == inbox[n + taken - 1];
    }
  }

  lemma StillUnspoken(inbox: seq<Message>, n: nat, m: nat, before: set<Promise>, more: set<Promise>,
                      after: set<Promise>)
    requires Distinct(inbox) && n <= m <= |inbox| && Unspoken(before, inbox, n)
    requires after <= before + more && more <= PromisesOf(inbox, m)
    ensures Unspoken(after, inbox, m)
  {
    forall i | m <= i < |inbox|
      ensures inbox[i].promise !in after
    {
      NotYetTaken(inbox, m, i);
    }
  }

  lemma UnspokenWindow(spoken: set<Promise>, inbox: seq<Message>, n: nat, k: nat)
    requires Distinct(inbox) && n <= |inbox| && Unspoken(spoken, inbox, n)
    ensures Distinct(Window(inbox, n, k)) && Unspoken(spoken, Window(inbox, n, k), 0)
  {
  }

  /** The synchronisations among a turn's messages have begun, each for the requests it names or all registered. */
  ghost predicate HasBegun(begun: map<Promise, set<Uuid>>, t: Turned, registered: set<Uuid>) {
    && t.taken <= |t.msgs|
    && forall i {:trigger t.msgs[i]} :: 0 <= i < t.taken ==>
         && (t.msgs[i].SyncRequest? ==>
               t.msgs[i].promise in begun && begun[t.msgs[i].promise] == {t.msgs[i].uuid})
         && (t.msgs[i].SyncAllRequest? ==>
               t.msgs[i].promise in begun && begun[t.msgs[i].promise] == registered)
  }

  /** In every turn the requests registered are those in the table that the turn leaves. */
  ghost predicate AllBegun(begun: map<Promise, set<Uuid>>, rs: seq<Requests>, ts: seq<Turned>) {
    && |rs| == |ts| + 1
    && forall k {:trigger ts[k]} :: 0 <= k < |ts| ==> HasBegun(begun, ts[k], rs[k + 1].queues.Keys)
  }

  /** A turn takes messages up to its synchronisation, which begins under a new promise. */
  lemma BegunMore(begun: map<Promise, set<Uuid>>, rs: seq<Requests>, ts: seq<Turned>, t: Turned, r: Requests,
                  sync: bool)
    requires AllBegun(begun, rs, ts) && Takes(sync, t.msgs, t.taken) && Unspoken(begun.Keys, t.msgs, 0)
    ensures AllBegun(BegunAfter(begun, t.msgs, t.taken, r.queues.Keys), rs + [r], ts + [t])
  {
    var begun' := BegunAfter(begun, t.msgs, t.taken, r.queues.Keys);
    forall k | 0 <= k < |ts + [t]|
      ensures HasBegun(begun', (ts + [t])[k], (rs + [r])[k + 1].queues.Keys)
    {
      if k < |ts| {
        assert HasBegun(begun, ts[k], rs[k + 1].queues.Keys);
      }
    }
  }

  /** When a synchronisation on all requests was answered, every request registered in its turn was over. */
  ghost predicate AllSynced(rs: seq<Requests>, ts: seq<Turned>, answered: map<Promise, AsStatus>,
                            records: map<Promise, Queues>)
  {
    && |rs| == |ts| + 1
    && forall k, i {:trigger ts[k].msgs[i]} ::
         (0 <= k < |ts| && 0 <= i < ts[k].taken && i < |ts[k].msgs|
          && ts[k].msgs[i].SyncAllRequest? && ts[k].msgs[i].promise in answered) ==>
           Synced(rs[k + 1].queues.Keys, ts[k].msgs[i].promise, answered, records)
  }

  ghost predicate Synced(registered: set<Uuid>, p: Promise, answered: map<Promise, AsStatus>,
                         records: map<Promise, Queues>)
  {
    && p in answered && answered[p] == SUCCESS && p in records
    && forall u {:trigger u in registered} :: u in registered ==>
         u in records[p] && records[p][u].status in {RQ.GenerateFinished, RQ.GenerateInterrupted}
  }

  lemma SyncedAll(rs: seq<Requests>, ts: seq<Turned>, begun: map<Promise, set<Uuid>>, answered: map<Promise, AsStatus>,
                  records: map<Promise, Queues>)
    requires AllBegun(begun, rs, ts)
    requires forall p :: p in begun && p in answered ==>
               p in records && answered[p] == SUCCESS && AllOver(begun[p], records[p])
    ensures AllSynced(rs, ts, answered, records)
  {
    forall k, i | 0 <= k < |ts| && 0 <= i < ts[k].taken && i < |ts[k].msgs|
      && ts[k].msgs[i].SyncAllRequest? && ts[k].msgs[i].promise in answered
      ensures Synced(rs[k + 1].queues.Keys, ts[k].msgs[i].promise, answered, records)
    {
      assert HasBegun(begun, ts[k], rs[k + 1].queues.Keys);
    }
  }

  /** What was put on record in a run are queues of the run. */
  ghost predicate Recorded(rs: seq<Requests>, before: map<Promise, Queues>, after: map<Promise, Queues>) {
    forall p {:trigger p in after} :: p in after && p !in before ==>
      exists k {:trigger rs[k]} :: 0 <= k < |rs| && after[p] == rs[k].queues
  }

  lemma RecordedMore(rs: seq<Requests>, r: Requests, records0: map<Promise, Queues>, records1: map<Promise, Queues>,
                     records2: map<Promise, Queues>)
    requires Recorded(rs, records0, records1) && OnRecord(records1, records2, r.queues)
    ensures Recorded(rs + [r], records0, records2)
  {
    forall p | p in records2 && p !in records0
      ensures exists k {:trigger (rs + [r])[k]} :: 0 <= k < |rs + [r]| && records2[p] == (rs + [r])[k].queues
    {
      if p in records1 && records2[p] == records1[p] {
        var k :| 0 <= k < |rs| && records1[p] == rs[k].queues;
        assert (rs + [r])[k] == rs[k];
      } else {
        assert (rs + [r])[|rs|] == r;
      }
    }
  }

  /** A run from one table to another: its tables and turns, fed from the inbox and the weather. */
  ghost predicate RunOf(inbox: seq<Message>, ws: seq<Weather>, strategy: EvictionStrategy, rs: seq<Requests>,
                        ts: seq<Turned>, first: Requests, last: Requests)
  {
    Path(rs, ts, strategy) && AllFed(inbox, ws, ts) && |ts| <= |ws| && rs[0] == first && rs[|ts|] == last
  }

  lemma RunMore(inbox: seq<Message>, ws: seq<Weather>, strategy: EvictionStrategy, rs: seq<Requests>, ts: seq<Turned>,
                first: Requests, last: Requests, t: Turned, r: Requests)
    requires RunOf(inbox, ws, strategy, rs, ts, first, last) && |ts| < |ws| && TakenBy(ts, |ts|) <= |inbox|
    requires t.w == ws[|ts|] && t.msgs == Window(inbox, TakenBy(ts, |ts|), ws[|ts|].seen)
    requires MessagesOk(t) && TurnStep(last, t, strategy, r)
    ensures RunOf(inbox, ws, strategy, rs + [r], ts + [t], first, r)
    ensures TakenBy(ts + [t], |ts| + 1) == TakenBy(ts, |ts|) + t.taken
  {
    PathMore(rs, ts, strategy, t, r);
    AllFedMore(inbox, ws, ts, t);
  }

  lemma ChosenFrom(r: Requests, ids: seq<Uuid>, lengths: seq<nat>, x: nat, strategy: EvictionStrategy)
    requires Collected(r.handles, r.queues, {}, ids, lengths) && x < |ids|
    requires strategy == MaxLength ==> forall i :: 0 <= i < |lengths| ==> lengths[i] <= lengths[x]
    ensures Chosen(r, strategy, ids[x])
  {
    assert r.queues[ids[x]].status.Generating?;
    forall v | v in Generating(r.queues) && strategy == MaxLength
      ensures r.handles[v].Length() <= r.handles[ids[x]].Length()
    {
      assert r.queues[v].status.Generating?;
      var i :| 0 <= i < |ids| && ids[i] == v;
      assert lengths[i] <= lengths[x];
    }
  }

  lemma PairsOk(r: Requests)
    requires RequestsOk(r)
    ensures forall u {:trigger r.handles[u]} {:trigger r.queues[u]} :: u in r.handles ==>
              r.handles[u].uuid == u && PairOk(r.handles[u], r.queues[u])
  {
    forall u | u in r.handles
      ensures r.handles[u].uuid == u && PairOk(r.handles[u], r.queues[u])
    {
      assert RequestOk(r, u);
    }
  }

  class ModelLoop {
    var handles: Handles
    var queues: Queues
    var pending: set<Uuid>
    var synchronizing: bool
    var deferred: Option<Promise>
    var gracefulStop: bool
    var stopPromise: Option<Promise>
    var looping: bool
    var stopping: bool
    var stopped: bool
    var answered: map<Promise, AsStatus>
    /** The synchronisations begun, with the requests each covers. */
    ghost var begun: map<Promise, set<Uuid>>
    /** The queues at the moment a synchronisation was answered. */
    ghost var records: map<Promise, Queues>

    ghost function Current(): Requests
      reads `handles, `queues, `gracefulStop
    {
      Requests(handles, queues, gracefulStop)
    }

    ghost predicate Valid()
      reads `handles, `queues, `gracefulStop, `pending, `synchronizing, `deferred, `stopPromise, `looping, `answered
      reads `begun, `records, `stopping
    {
      && RequestsOk(Current()) && stopping == gracefulStop
      && LedgerOk(synchronizing, pending, deferred, answered, begun, records, queues)
      && (looping && gracefulStop ==> stopPromise.Some? && stopPromise.value !in answered && deferred != stopPromise)
    }

    /** The promises that are answered or owed an answer. */
    ghost function Spoken(): set<Promise>
      reads `answered, `deferred, `stopPromise
    {
      answered.Keys + (if deferred.Some? then {deferred.value} else {})
      + (if stopPromise.Some? then {stopPromise.value} else {})
    }

    ghost function Owed(): Debt
      requires synchronizing ==> deferred.Some?
      reads `synchronizing, `deferred, `pending
    {
      if synchronizing then Debt(deferred.value, pending) else Nothing
    }

    constructor ()
      ensures Valid() && looping && Current() == Requests(map[], map[], false)
      ensures answered == map[] && begun == map[] && !synchronizing && stopPromise.None? && !stopped
    {
      handles, queues, pending, synchronizing, deferred := map[], map[], {}, false, None;
      gracefulStop, stopPromise, looping, stopping, stopped := false, None, true, false, false;
      answered, begun, records := map[], map[], map[];
    }

    /** Publishes new tokens, moves statuses forward, and takes requests that are over out of the pending set. */
    method UpdateResult(views: map<Uuid, View>)
      requires Valid()
      modifies `handles, `queues, `pending
      ensures Valid() && AllForward(old(queues), queues)
      ensures Current() == Published(old(Current()), views)
      ensures EachPublishes(old(Current()), views, handles, queues)
      ensures PendingBut(old(pending), pending, synchronizing, queues, {})
    {
      ghost var r, pending0 := Current(), pending;
      PublishedOk(r, views);
      PublishedEach(r, views);
      UpdateAll(views);
      if synchronizing {
        ForwardKeepsSync(begun[deferred.value], pending0, r.queues, queues);
        SyncShrinks(begun[deferred.value], pending0, pending, queues);
      }
    }

    method UpdateAll(views: map<Uuid, View>)
      requires RequestsOk(Current())
      modifies `handles, `queues, `pending
      ensures handles == Published(old(Current()), views).handles && queues == Published(old(Current()), views).queues
      ensures PendingBut(old(pending), pending, synchronizing, queues, {})
    {
      ghost var r := Current();
      PairsOk(r);
      UpdateEach(views);
      IsPublished(r, views, handles, queues);
    }

    method UpdateEach(views: map<Uuid, View>)
      requires handles.Keys == queues.Keys
      requires forall u :: u in handles ==> handles[u].uuid == u && PairOk(handles[u], queues[u])
      modifies `handles, `queues, `pending
      ensures UpdatedBut(old(handles), old(queues), views, handles, queues, {})
      ensures PendingBut(old(pending), pending, synchronizing, queues, {})
    {
      ghost var handles0, queues0, pending0 := handles, queues, pending;
      var todo := handles.Keys;
      while todo != {}
        invariant todo <= handles.Keys
        invariant UpdatedBut(handles0, queues0, views, handles, queues, todo)
        invariant PendingBut(pending0, pending, synchronizing, queues, todo)
        decreases todo
      {
        var u :| u in todo;
        UpdatedOne(handles0, queues0, views, handles, queues, todo, u);
        PendingOne(pending0, pending, synchronizing, queues, todo, u,
                   UpdatedQueue(handles[u], queues[u], Lookup(views, u)));
        UpdateOne(u, views);
        todo := todo - {u};
      }
    }

    method UpdateOne(u: Uuid, views: map<Uuid, View>)
      requires u in handles && handles.Keys == queues.Keys && handles[u].uuid == u && PairOk(handles[u], queues[u])
      modifies `handles, `queues, `pending
      ensures handles == old(handles)[u := UpdatedHandle(old(handles[u]), old(queues[u]), Lookup(views, u))]
      ensures queues == old(queues)[u := UpdatedQueue(old(handles[u]), old(queues[u]), Lookup(views, u))]
      ensures pending == if synchronizing && queues[u].Ended() then old(pending) - {u} else old(pending)
    {
      var handle, queue := handles[u], queues[u];
      if queue.status.GenerateFinished? || queue.status.GenerateInterrupted? {
        UpdateSyncStatus(u);
        return;
      }
      if u !in views || views[u].status.Init? {
        return;
      }
      var view := views[u];
      if view.status.GenerateInterrupted? {
        queues := queues[u := queue.(status := RQ.GenerateInterrupted)];
        UpdateSyncStatus(u);
        return;
      }
      handle := handle.(continueCount := handle.continueCount + 1);
      if handle.continueCount == 1 {
        queue := queue.(status := RQ.Generating);
      }
      if |view.ids| > handle.Length() {
        queue := queue.(elements := queue.elements + [view.ids[handle.Length()..]]);
        handle := handle.(generateLength := |view.ids| - handle.contextLength);
      }
      var interrupted := queue.status.GenerateInterrupted?;
      if !interrupted && view.finish {
        queue := queue.(status := RQ.GenerateFinished);
      }
      if interrupted || view.finish {
        UpdateSyncStatus(u);
      }
      handles, queues := handles[u := handle], queues[u := queue];
    }

    method UpdateSyncStatus(u: Uuid)
      modifies `pending
      ensures pending == if synchronizing then old(pending) - {u} else old(pending)
    {
      if synchronizing {
        pending := pending - {u};
      }
    }

    // Eviction.

    method CollectGenerating() returns (ids: seq<Uuid>, lengths: seq<nat>)
      requires handles.Keys == queues.Keys
      ensures Collected(handles, queues, {}, ids, lengths)
    {
      ids, lengths := [], [];
      var todo := handles.Keys;
      while todo != {}
        invariant todo <= handles.Keys
        invariant Collected(handles, queues, todo, ids, lengths)
        decreases todo
      {
        var u :| u in todo;
        CollectOne(handles, queues, todo, ids, lengths, u);
        if queues[u].status.Generating? {
          ids, lengths := ids + [u], lengths + [handles[u].Length()];
        }
        todo := todo - {u};
      }
    }

    /** Interrupts one Generating request: under MaxLength a longest one. */
    method EvictOne(strategy: EvictionStrategy, rand: nat) returns (victim: Option<Uuid>)
      requires Valid()
      modifies `queues
      ensures Valid() && AllForward(old(queues), queues)
      ensures victim.None? <==> Generating(old(queues)) == {}
      ensures victim.None? ==> Current() == old(Current())
      ensures victim.Some? ==>
                && Chosen(old(Current()), strategy, victim.value)
                && Current() == Evict(old(Current()), victim.value)
                && |Generating(queues)| < |Generating(old(queues))|
    {
      var ids, lengths := CollectGenerating();
      NoneCollected(handles, queues, ids, lengths);
      if |ids| == 0 {
        return None;
      }
      var x := ChooseVictim(ids, lengths, strategy, rand);
      ChosenFrom(Current(), ids, lengths, x, strategy);
      Interrupt(ids[x]);
      victim := Some(ids[x]);
    }

    method Interrupt(u: Uuid)
      requires Valid() && u in Generating(queues)
      modifies `queues
      ensures Valid() && AllForward(old(queues), queues)
      ensures Current() == Evict(old(Current()), u) && Generating(queues) == Generating(old(queues)) - {u}
    {
      ghost var r := Current();
      EvictOk(r, u);
      queues := queues[u := queues[u].(status := RQ.GenerateInterrupted)];
      if synchronizing {
        ForwardKeepsSync(begun[deferred.value], pending, r.queues, queues);
      }
    }

    /**
      Decodes until an attempt does not run out of cache memory, evicting a request after each that does. The
      victims are those of Evictions; it gives up only when no request is generating any more.
     */
    method Decode(strategy: EvictionStrategy, outcomes: Outcomes, rands: nat -> nat)
      returns (aborted: bool, attempts: nat, ghost victims: seq<Uuid>)
      requires Valid()
      modifies `queues
      ensures Valid() && AllForward(old(queues), queues)
      ensures Current() == EvictAll(old(Current()), victims, |victims|)
      ensures Evictions(old(Current()), strategy, outcomes, victims, |victims|)
              && Stops(old(Current()), outcomes, victims)
      ensures aborted <==> outcomes(|victims|) !in {SUCCESS, EMPTY_REQUEST, CACHE_MEMORY_OUT}
      ensures attempts == |victims| + 1 && |victims| + |Generating(queues)| == |Generating(old(queues))|
    {
      attempts, victims := 0, [];
      ghost var r := Current();
      while true
        invariant Valid() && AllForward(old(queues), queues) && attempts == |victims|
        invariant Current() == EvictAll(r, victims, |victims|)
        invariant Evictions(r, strategy, outcomes, victims, |victims|)
        decreases |Generating(queues)|
      {
        EvictionsOk(r, strategy, outcomes, victims, |victims|);
        EvictionsEffect(r, strategy, outcomes, victims, |victims|);
        var status := outcomes(attempts);
        attempts := attempts + 1;
        if status == SUCCESS || status == EMPTY_REQUEST {
          return false, attempts, victims;
        }
        if status != CACHE_MEMORY_OUT {
          return true, attempts, victims;
        }
        ghost var queues0 := queues;
        var victim := EvictOne(strategy, rands(attempts - 1));
        if victim.None? {
          return false, attempts, victims;
        }
        EvictionsMore(r, strategy, outcomes, victims, victim.value);
        ForwardTransitive(r.queues, queues0, queues);
        victims := victims + [victim.value];
      }
    }

    // Synchronisation and stopping.

    /** Answers the outstanding synchronisation once every request it covers is over. */
    method FinishSync()
      requires Valid()
      modifies `synchronizing, `deferred, `answered, `records
      ensures Valid() && Kept(old(answered), answered) && Spoken() <= old(Spoken())
      ensures synchronizing <==> old(synchronizing) && pending != {}
      ensures old(synchronizing) && !synchronizing ==>
                && answered == old(answered)[old(deferred).value := SUCCESS]
                && records == old(records)[old(deferred).value := queues]
      ensures old(synchronizing) == synchronizing ==>
                answered == old(answered) && deferred == old(deferred) && records == old(records)
    {
      if synchronizing && pending == {} {
        RecordSync(begun, records, answered, deferred.value, pending, queues);
        records := records[deferred.value := queues];
        synchronizing := false;
        answered := answered[deferred.value := SUCCESS];
        deferred := None;
      }
    }

    // Control messages.

    method Answer(p: Promise, status: AsStatus)
      requires Valid() && p !in Spoken()
      modifies `answered
      ensures Valid() && answered == old(answered)[p := status]
    {
      answered := answered[p := status];
    }

    /** Registers a request with a new queue; a uuid registered already keeps its old handle and queue. */
    method Register(uuid: Uuid, handle: Handle)
      requires handles.Keys == queues.Keys
      modifies `handles, `queues
      ensures uuid in old(queues) ==> handles == old(handles) && queues == old(queues)
      ensures uuid !in old(queues) ==>
                handles == old(handles)[uuid := handle] && queues == old(queues)[uuid := Queue(RQ.Init, [])]
    {
      if uuid !in queues {
        queues := queues[uuid := Queue(RQ.Init, [])];
      }
      if uuid !in handles {
        handles := handles[uuid := handle];
      }
    }

    method Unregister(uuid: Uuid)
      requires handles.Keys == queues.Keys
      modifies `handles, `queues
      ensures handles == old(handles) - {uuid} && queues == old(queues) - {uuid}
    {
      if uuid in queues {
        queues := queues - {uuid};
        handles := handles - {uuid};
      } else {
        assert handles - {uuid} == handles && queues - {uuid} == queues;
      }
    }

    method BeginSync(p: Promise, uuids: set<Uuid>)
      requires Valid() && !synchronizing && p !in Spoken()
      modifies `pending, `deferred, `synchronizing, `begun
      ensures Valid() && synchronizing && deferred == Some(p) && pending == uuids
      ensures begun == old(begun)[p := uuids]
    {
      pending := pending + uuids;
      deferred, synchronizing, begun := Some(p), true, begun[p := uuids];
    }

    /** Starts or releases a request, or says that it is too late. */
    method HandleRequest(msg: Message) returns (noExecution: bool)
      requires Valid() && !synchronizing && msg.promise !in Spoken() && MessageOk(msg)
      requires msg.StartRequest? || msg.ReleaseRequest?
      modifies `handles, `queues, `answered
      ensures Valid() && Current() == Handled(old(Current()), msg)
      ensures Replies(msg, gracefulStop, old(answered), answered)
      ensures Kept(old(answered), answered) && noExecution == msg.Halts(gracefulStop)
    {
      noExecution := false;
      HandledOk(Current(), msg);
      match msg
      case StartRequest(p, uuid, handle) =>
        if gracefulStop {
          noExecution := true;
          Answer(p, REQUEST_DENIED);
        } else {
          Register(uuid, handle);
        }
      case ReleaseRequest(p, uuid) =>
        var status: AsStatus := *;
        Unregister(uuid);
        Answer(p, status);
    }

    /** Begins a synchronisation on one request or on all. */
    method HandleSync(msg: Message)
      requires Valid() && !synchronizing && msg.promise !in Spoken() && msg.IsSync()
      modifies `pending, `deferred, `synchronizing, `begun
      ensures Valid() && synchronizing && deferred == Some(msg.promise) && pending == msg.Named(queues.Keys)
      ensures begun == old(begun)[msg.promise := msg.Named(queues.Keys)]
    {
      match msg
      case SyncRequest(p, uuid) =>
        BeginSync(p, {uuid});
      case SyncAllRequest(p) =>
        var uuids := set u | u in handles :: handles[u].uuid;
        PairsOk(Current());
        assert uuids == queues.Keys;
        BeginSync(p, uuids);
    }

    /** Stops the loop, begins the graceful stop, or stops a request on the workers. */
    method HandleControl(msg: Message) returns (noExecution: bool)
      requires Valid() && !synchronizing && msg.promise !in Spoken()
      requires msg.GracefulStopModel? || msg.StopModel? || msg.StopRequest? || msg.StartModel?
      modifies `gracefulStop, `stopPromise, `looping, `stopping, `answered
      ensures Valid() && Current() == Handled(old(Current()), msg)
      ensures Replies(msg, old(gracefulStop), old(answered), answered)
      ensures Kept(old(answered), answered)
      ensures noExecution == msg.Halts(old(gracefulStop)) && looping == (old(looping) && !msg.StopModel?)
      ensures stopPromise == if msg.GracefulStopModel? then Some(msg.promise) else old(stopPromise)
    {
      noExecution := false;
      match msg
      case GracefulStopModel(p) =>
        HandledOk(Current(), msg);
        gracefulStop, stopping := true, true;
        stopPromise := Some(p);
      case StopModel(p) =>
        looping, noExecution := false, true;
        Answer(p, SUCCESS);
      case StopRequest(p, _) =>
        var status: AsStatus := *;
        Answer(p, status);
      case StartModel(_) =>
    }

    /** Handles one control message; the results of calls to the workers are arbitrary. */
    method Handle(msg: Message) returns (noExecution: bool)
      requires Valid() && !synchronizing && msg.promise !in Spoken() && MessageOk(msg)
      modifies `handles, `queues, `pending, `synchronizing, `deferred, `begun
      modifies `gracefulStop, `stopPromise, `looping, `stopping, `answered
      ensures Valid() && Current() == Handled(old(Current()), msg)
      ensures synchronizing <==> msg.IsSync()
      ensures synchronizing ==> Owed() == Debt(msg.promise, msg.Named(queues.Keys))
      ensures begun == BegunAfter(old(begun), [msg], 1, queues.Keys)
      ensures Spoken() <= old(Spoken()) + {msg.promise}
      ensures Replies(msg, old(gracefulStop), old(answered), answered)
      ensures Kept(old(answered), answered)
      ensures noExecution == msg.Halts(old(gracefulStop)) && looping == (old(looping) && !msg.StopModel?)
      ensures stopPromise == if msg.GracefulStopModel? then Some(msg.promise) else old(stopPromise)
    {
      noExecution := false;
      if msg.IsSync() {
        HandleSync(msg);
      } else if msg.StartRequest? || msg.ReleaseRequest? {
        noExecution := HandleRequest(msg);
      } else {
        noExecution := HandleControl(msg);
      }
    }

    /** Takes the messages seen one by one until a synchronisation begins. */
    method HandleMessages(msgs: seq<Message>) returns (taken: nat, noExecution: bool)
      requires Valid() && Distinct(msgs) && Unspoken(Spoken(), msgs, 0)
      modifies `handles, `queues, `pending, `synchronizing, `deferred, `begun
      modifies `gracefulStop, `stopPromise, `looping, `stopping, `answered
      ensures Valid() && Takes(old(synchronizing), msgs, taken)
      ensures Current() == HandledAll(old(Current()), msgs, taken)
      ensures noExecution == Halted(old(Current()), msgs, taken)
      ensures looping == (old(looping) && NoStop(msgs, taken))
      ensures Owed() == DebtAfter(old(Owed()), msgs, taken, queues.Keys)
      ensures begun == BegunAfter(old(begun), msgs, taken, queues.Keys)
      ensures Kept(old(answered), answered) && Spoken() <= old(Spoken()) + PromisesOf(msgs, taken)
    {
      taken, noExecution := 0, false;
      if !synchronizing {
        taken, noExecution := TakeMessages(msgs);
      }
    }

    method HandleNext(msgs: seq<Message>, n: nat, ghost answered0: map<Promise, AsStatus>, ghost spoken0: set<Promise>)
      returns (noExecution: bool)
      requires Valid() && !synchronizing && Distinct(msgs) && n < |msgs|
      requires Unspoken(spoken0, msgs, 0)
      requires Kept(answered0, answered) && Spoken() <= spoken0 + PromisesOf(msgs, n)
      modifies `handles, `queues, `pending, `synchronizing, `deferred, `begun
      modifies `gracefulStop, `stopPromise, `looping, `stopping, `answered
      ensures Valid() && Current() == Handled(old(Current()), msgs[n])
      ensures synchronizing <==> msgs[n].IsSync()
      ensures synchronizing ==> Owed() == Debt(msgs[n].promise, msgs[n].Named(queues.Keys))
      ensures begun == BegunAfter(old(begun), [msgs[n]], 1, queues.Keys)
      ensures noExecution == msgs[n].Halts(old(gracefulStop)) && looping == (old(looping) && !msgs[n].StopModel?)
      ensures Kept(answered0, answered) && Spoken() <= spoken0 + PromisesOf(msgs, n + 1)
    {
      NotYetTaken(msgs, n, n);
      ghost var answered1, spoken1 := answered, Spoken();
      noExecution := Handle(msgs[n]);
      KeptTransitive(answered0, answered1, answered);
      SpokenMore(spoken0, PromisesOf(msgs, n), spoken1, msgs[n].promise, Spoken());
    }

    method TakeMessages(msgs: seq<Message>) returns (taken: nat, noExecution: bool)
      requires Valid() && !synchronizing && Distinct(msgs) && Unspoken(Spoken(), msgs, 0)
      modifies `handles, `queues, `pending, `synchronizing, `deferred, `begun
      modifies `gracefulStop, `stopPromise, `looping, `stopping, `answered
      ensures Valid() && Takes(false, msgs, taken)
      ensures Current() == HandledAll(old(Current()), msgs, taken)
      ensures noExecution == Halted(old(Current()), msgs, taken)
      ensures looping == (old(looping) && NoStop(msgs, taken))
      ensures Owed() == DebtAfter(Nothing, msgs, taken, queues.Keys)
      ensures begun == BegunAfter(old(begun), msgs, taken, queues.Keys)
      ensures Kept(old(answered), answered) && Spoken() <= old(Spoken()) + PromisesOf(msgs, taken)
    {
      ghost var r, spoken := Current(), Spoken();
      taken, noExecution := 0, false;
      while taken < |msgs|
        invariant Valid() && taken <= |msgs| && !synchronizing && begun == old(begun)
        invariant forall i {:trigger msgs[i]} :: 0 <= i < taken ==> !msgs[i].IsSync()
        invariant Current() == HandledAll(r, msgs, taken) && noExecution == Halted(r, msgs, taken)
        invariant looping == (old(looping) && NoStop(msgs, taken))
        invariant Kept(old(answered), answered) && Spoken() <= spoken + PromisesOf(msgs, taken)
      {
        var stop := HandleNext(msgs, taken, old(answered), spoken);
        taken, noExecution := taken + 1, noExecution || stop;
        if synchronizing {
          break;
        }
      }
    }

    /**
      In the graceful stop phase, with nothing running and no message, the loop ends and says whether all was
      released.
     */
    method CheckStop(unfinished: nat, inboxEmpty: bool)
      requires Valid() && looping
      modifies `answered, `looping, `stopped
      ensures Valid() && Kept(old(answered), answered) && Spoken() <= old(Spoken())
      ensures looping <==> !(unfinished == 0 && inboxEmpty && gracefulStop)
      ensures looping ==> answered == old(answered) && stopped == old(stopped)
      ensures !looping ==>
                && stopped && stopPromise.Some?
                && answered == old(answered)[stopPromise.value := if queues == map[] then SUCCESS else RUNTIME_ERROR]
    {
      if unfinished == 0 && inboxEmpty && gracefulStop {
        var status := if queues == map[] && handles == map[] then SUCCESS else RUNTIME_ERROR;
        answered := answered[stopPromise.value := status];
        stopped, looping := true, false;
      }
    }

    /** The execution phase: publish, decode with eviction, publish again. */
    method Execute(w: Weather, strategy: EvictionStrategy) returns (aborted: bool, ghost victims: seq<Uuid>)
      requires Valid()
      modifies `handles, `queues, `pending
      ensures Valid() && queues.Keys == old(queues).Keys
      ensures Executed(old(Current()), w, strategy, victims, aborted, Current())
      ensures !aborted && synchronizing ==> (pending == {} <==> AllOver(old(pending), queues))
      ensures forall u :: u in old(pending) && u !in queues ==> u in pending
    {
      UpdateResult(w.views1);
      ghost var queues1, pending1 := queues, pending;
      UnknownStaysPending(old(pending), pending, synchronizing, queues);
      var attempts;
      aborted, attempts, victims := Decode(strategy, w.outcomes, w.rands);
      ForwardTransitive(old(queues), queues1, queues);
      if aborted {
        return;
      }
      ghost var queues2 := queues;
      UpdateResult(w.views2);
      UnknownStaysPending(pending1, pending, synchronizing, queues);
      ForwardTransitive(old(queues), queues2, queues);
      ForwardTransitive(queues1, queues2, queues);
      PendingTwice(old(pending), pending1, pending, synchronizing, queues1, queues);
      if synchronizing {
        NonePending(old(pending), pending, queues);
      }
    }

    /** The promise was fulfilled with success. */
    ghost predicate Answered(p: Promise)
      reads `answered
    {
      p in answered && answered[p] == SUCCESS
    }

    /** The loop has stopped and said whether all requests were released. */
    ghost predicate StopAnswered()
      reads `stopped, `stopPromise, `answered, `queues
    {
      && stopped && stopPromise.Some? && stopPromise.value in answered
      && answered[stopPromise.value] == if queues == map[] then SUCCESS else RUNTIME_ERROR
    }

    /**
      The debt after a turn's messages is settled at its end if and only if the turn executes and all the requests
      waited for are registered and over; then the queues of that moment are on record, and otherwise the debt stays.
     */
    ghost predicate Settled(debt: Debt, executed: bool, records0: map<Promise, Queues>)
      reads `synchronizing, `deferred, `pending, `queues, `records, `answered
    {
      && (synchronizing <==> debt.Debt? && !(executed && AllOver(debt.waiting, queues)))
      && (synchronizing ==>
            && deferred == Some(debt.promise) && records == records0
            && forall u :: u in debt.waiting && u !in queues ==> u in pending)
      && (debt.Nothing? ==> records == records0)
      && (debt.Debt? && !synchronizing ==> Answered(debt.promise) && records == records0[debt.promise := queues])
    }

    /** Answers what can be answered at the end of an execution that was not aborted. */
    method Conclude(w: Weather, ghost waiting: set<Uuid>)
      requires Valid() && looping
      requires synchronizing ==> (pending == {} <==> AllOver(waiting, queues))
      requires forall u :: u in waiting && u !in queues ==> u in pending
      modifies `synchronizing, `deferred, `answered, `records, `looping, `stopped
      ensures Valid() && Current() == old(Current())
      ensures Kept(old(answered), answered) && Spoken() <= old(Spoken())
      ensures Settled(if old(synchronizing) then Debt(old(deferred).value, waiting) else Nothing, true, old(records))
      ensures looping <==> !(w.unfinished == 0 && w.inboxEmpty && gracefulStop)
      ensures !looping ==> StopAnswered()
    {
      FinishSync();
      ghost var answered1 := answered;
      CheckStop(w.unfinished, w.inboxEmpty);
      KeptTransitive(old(answered), answered1, answered);
    }

    method Abort()
      requires Valid()
      modifies `looping
      ensures Valid() && !looping && Current() == old(Current()) && Spoken() <= old(Spoken())
    {
      looping := false;
    }

    /** The part of a turn after its messages. */
    method Perform(w: Weather, strategy: EvictionStrategy) returns (aborted: bool, ghost victims: seq<Uuid>)
      requires Valid() && looping
      modifies `handles, `queues, `pending, `synchronizing, `deferred, `answered, `records, `looping, `stopped
      ensures Valid() && queues.Keys == old(queues).Keys
      ensures Executed(old(Current()), w, strategy, victims, aborted, Current())
      ensures Settled(old(Owed()), !aborted, old(records))
      ensures Kept(old(answered), answered) && Spoken() <= old(Spoken())
      ensures looping <==> !aborted && !(w.unfinished == 0 && w.inboxEmpty && gracefulStop)
      ensures !looping && !aborted ==> StopAnswered()
    {
      aborted, victims := Execute(w, strategy);
      if aborted {
        Abort();
      } else {
        Conclude(w, old(pending));
      }
    }

    /**
      One turn of the loop over the messages it sees. What the workers show, the outcomes of decoding, random
      numbers and what is unfinished are the turn's weather.
     */
    method Turn(msgs: seq<Message>, w: Weather, strategy: EvictionStrategy)
      returns (taken: nat, ghost victims: seq<Uuid>, aborted: bool)
      requires Valid() && looping && Distinct(msgs) && Unspoken(Spoken(), msgs, 0)
      modifies this
      ensures Valid() && Takes(old(synchronizing), msgs, taken)
      ensures TurnStep(old(Current()), Turned(msgs, taken, w, victims, aborted), strategy, Current())
      ensures begun == BegunAfter(old(begun), msgs, taken, queues.Keys)
      ensures Settled(DebtAfter(old(Owed()), msgs, taken, queues.Keys),
                      !Halted(old(Current()), msgs, taken) && !aborted, old(records))
      ensures Kept(old(answered), answered) && Spoken() <= old(Spoken()) + PromisesOf(msgs, taken)
      ensures looping <==>
                && NoStop(msgs, taken) && !aborted
                && (Halted(old(Current()), msgs, taken) || !(w.unfinished == 0 && w.inboxEmpty && gracefulStop))
      ensures !looping && NoStop(msgs, taken) && !aborted ==> StopAnswered()
    {
      var noExecution;
      taken, noExecution := HandleMessages(msgs);
      victims, aborted := [], false;
      if noExecution {
        return;
      }
      StopHalts(old(Current()), msgs, taken);
      ghost var answered1 := answered;
      aborted, victims := Perform(w, strategy);
      KeptTransitive(old(answered), answered1, answered);
    }

    lemma NewPromise(p: Promise)
      requires Valid() && p !in Spoken()
      ensures p !in begun
    {
    }

    lemma NoneBegun(inbox: seq<Message>, n: nat)
      requires Valid() && Unspoken(Spoken(), inbox, n)
      ensures Unspoken(begun.Keys, inbox, n)
    {
      forall i | n <= i < |inbox|
        ensures inbox[i].promise !in begun
      {
        NewPromise(inbox[i].promise);
      }
    }

    /** The requests that the outstanding synchronisation waits for and that are not registered. */
    ghost function Unknown(): set<Uuid>
      reads `pending, `queues
    {
      pending - queues.Keys
    }

    /** A turn as a step of a run: what it puts on record, and that a synchronisation that is stuck stays so. */
    method OneTurn(msgs: seq<Message>, w: Weather, strategy: EvictionStrategy)
      returns (taken: nat, ghost t: Turned)
      requires Valid() && looping && Distinct(msgs) && Unspoken(Spoken(), msgs, 0)
      modifies this
      ensures Valid() && Takes(old(synchronizing), msgs, taken)
      ensures t.w == w && t.msgs == msgs && t.taken == taken
      ensures TurnStep(old(Current()), t, strategy, Current())
      ensures begun == BegunAfter(old(begun), msgs, taken, queues.Keys)
      ensures Spoken() <= old(Spoken()) + PromisesOf(msgs, taken)
      ensures OnRecord(old(records), records, queues)
      ensures old(synchronizing) && old(Unknown()) != {} ==>
                synchronizing && deferred == old(deferred) && old(Unknown()) <= Unknown() && taken == 0
    {
      ghost var victims, aborted;
      taken, victims, aborted := Turn(msgs, w, strategy);
      t := Turned(msgs, taken, w, victims, aborted);
      if old(synchronizing) && old(Unknown()) != {} {
        TurnOk(old(Current()), t, strategy, Current());
        ghost var u :| u in old(Unknown());
        assert u in old(pending) && u !in queues;
      }
    }

    /** A turn over what has arrived past the first n messages. */
    method TakeTurn(inbox: seq<Message>, n: nat, w: Weather, strategy: EvictionStrategy)
      returns (taken: nat, ghost t: Turned)
      requires Valid() && looping && Distinct(inbox) && n <= |inbox|
      requires Unspoken(Spoken(), inbox, n)
      modifies this
      ensures Valid() && n + taken <= |inbox|
      ensures Unspoken(Spoken(), inbox, n + taken)
      ensures Takes(old(synchronizing), t.msgs, t.taken) && Unspoken(old(begun).Keys, t.msgs, 0)
      ensures begun == BegunAfter(old(begun), t.msgs, t.taken, queues.Keys)
      ensures t.w == w && t.msgs == Window(inbox, n, w.seen) && t.taken == taken
      ensures MessagesOk(t) && TurnStep(old(Current()), t, strategy, Current())
      ensures OnRecord(old(records), records, queues)
      ensures old(synchronizing) && old(Unknown()) != {} ==>
                synchronizing && deferred == old(deferred) && old(Unknown()) <= Unknown() && taken == 0
    {
      var msgs := Window(inbox, n, w.seen);
      UnspokenWindow(Spoken(), inbox, n, w.seen);
      NoneBegun(inbox, n);
      taken, t := OneTurn(msgs, w, strategy);
      PromisesOfWindow(inbox, n, w.seen, taken);
      StillUnspoken(inbox, n, n + taken, old(Spoken()), PromisesOf(msgs, taken), Spoken());
    }

    /**
      A whole run over the messages that arrive, in their order, while the weather lasts. Every table of the run
      is kept; a synchronisation taken from the inbox is answered only on record. One that waits for a request that
      is not registered is never answered, for however many turns: no message is taken meanwhile, so that the
      request cannot be registered either.
     */
    method Serve(inbox: seq<Message>, ws: seq<Weather>, strategy: EvictionStrategy)
      returns (from: nat, ghost rs: seq<Requests>, ghost ts: seq<Turned>)
      requires Valid() && looping && Distinct(inbox) && Unspoken(Spoken(), inbox, 0)
      modifies this
      ensures Valid() && from <= |inbox|
      ensures RunOf(inbox, ws, strategy, rs, ts, old(Current()), Current())
      ensures from == TakenBy(ts, |ts|) && (looping ==> |ts| == |ws|)
      ensures AllBegun(begun, rs, ts) && Recorded(rs, old(records), records)
      ensures forall p :: p in begun && p in answered ==>
                p in records && answered[p] == SUCCESS && AllOver(begun[p], records[p])
      ensures AllSynced(rs, ts, answered, records)
      ensures old(synchronizing) && old(Unknown()) != {} ==>
                synchronizing && deferred == old(deferred) && old(Unknown()) <= Unknown() && from == 0
      ensures synchronizing ==> deferred.Some? && deferred.value !in answered
    {
      from, rs, ts := 0, [Current()], [];
      var k := 0;
      while k < |ws| && looping
        invariant Valid() && from <= |inbox| && k == |ts|
        invariant RunOf(inbox, ws, strategy, rs, ts, old(Current()), Current()) && from == TakenBy(ts, |ts|)
        invariant Unspoken(Spoken(), inbox, from) && AllBegun(begun, rs, ts)
        invariant Recorded(rs, old(records), records)
        invariant old(synchronizing) && old(Unknown()) != {} ==>
                    synchronizing && deferred == old(deferred) && old(Unknown()) <= Unknown() && from == 0
      {
        ghost var r, records1, begun1, sync := Current(), records, begun, synchronizing;
        var taken, t := TakeTurn(inbox, from, ws[k], strategy);
        RunMore(inbox, ws, strategy, rs, ts, old(Current()), r, t, Current());
        RecordedMore(rs, Current(), old(records), records1, records);
        BegunMore(begun1, rs, ts, t, Current(), sync);
        rs, ts := rs + [Current()], ts + [t];
        from, k := from + taken, k + 1;
      }
      SyncedAll(rs, ts, begun, answered, records);
    }
  }
}
