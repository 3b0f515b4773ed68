/** The C interface's two-phase read: query how many tokens a batch has, then copy them. */
module FetchTokens {
  import opened ResultQueue

  datatype CStatus = SUCCESS | PARAM_ERROR | EMPTY_REQUEST | EXCEED_LIMIT

  /** One call: what the result queue would answer now, whether a buffer is given, and how large it is. */
  datatype FetchCall = FetchCall(reply: Reply, buffer: bool, available: nat)

  /** What a call leaves pending, reports, and writes to the buffer. */
  datatype Fetched = Fetched(pending: Reply, status: CStatus, count: nat, written: seq<Token>)

  /** The batch a call works on: the pending one, or else a new one from the queue. */
  function Batch(pending: Reply, reply: Reply): Reply {
    if pending == Null then reply else pending
  }

  function Fetch(pending: Reply, call: FetchCall): Fetched {
    match Batch(pending, call.reply)
    case Null => Fetched(Null, EMPTY_REQUEST, 0, [])
    case Tokens(ids) =>
      if |ids| == 0 then Fetched(Null, SUCCESS, 0, [])
      else if !call.buffer then Fetched(Tokens(ids), SUCCESS, |ids|, [])
      else if call.available < |ids| then Fetched(Tokens(ids), EXCEED_LIMIT, |ids|, [])
      else Fetched(Null, SUCCESS, |ids|, ids)
  }

  /** What a call reports and keeps of the batch: it is kept until it has been copied as a whole. */
  ghost predicate Told(batch: Reply, buffer: bool, available: nat, status: CStatus, count: nat, pending: Reply) {
    match batch
    case Null => status == EMPTY_REQUEST && count == 0 && pending == Null
    case Tokens(ids) =>
      && count == |ids|
      && (status == SUCCESS <==> ids == [] || !buffer || |ids| <= available)
      && (status == EXCEED_LIMIT <==> ids != [] && buffer && |ids| > available)
      && pending == if ids == [] || (buffer && |ids| <= available) then Null else batch
  }

  /** What a call does to the buffer: the batch is at its front, or nothing has changed. */
  ghost predicate Filled(batch: Reply, available: nat, before: seq<Token>, after: seq<Token>) {
    if batch.Tokens? && |batch.ids| <= available && |batch.ids| <= |before|
    then after == batch.ids + before[|batch.ids|..]
    else after == before
  }

  class Request {
    var hasQueue: bool
    var pending: Reply

    constructor (hasQueue: bool)
      ensures this.hasQueue == hasQueue && pending == Null
    {
      this.hasQueue, pending := hasQueue, Null;
    }

    method FetchTokens(reply: Reply, tokens: array?<Token>, tokenCount: array?<nat>) returns (status: CStatus)
      requires tokens != null && tokenCount != null && tokenCount.Length == 1 ==> tokenCount[0] <= tokens.Length
      requires tokenCount != null ==> tokenCount.Length == 1
      modifies this`pending, tokens, tokenCount
      ensures !hasQueue || tokenCount == null ==>
                && status == PARAM_ERROR && pending == old(pending)
                && (tokens != null ==> tokens[..] == old(tokens[..]))
                && (tokenCount != null ==> tokenCount[0] == old(tokenCount[0]))
      ensures hasQueue && tokenCount != null ==>
                var r := Fetch(old(pending), FetchCall(reply, tokens != null, old(tokenCount[0])));
                && status == r.status && pending == r.pending && tokenCount[0] == r.count
                && (tokens != null ==>
                      && |r.written| <= tokens.Length
                      && tokens[..] == r.written + old(tokens[|r.written|..]))
      ensures hasQueue && tokenCount != null ==>
                Told(if old(pending) == Null then reply else old(pending), tokens != null, old(tokenCount[0]),
                     status, tokenCount[0], pending)
      ensures hasQueue && tokenCount != null && tokens != null ==>
                Filled(if old(pending) == Null then reply else old(pending), old(tokenCount[0]), old(tokens[..]),
                       tokens[..])
    {
      if !hasQueue || tokenCount == null {
        return PARAM_ERROR;
      }
      if pending == Null {
        pending := reply;
      }
      if pending == Null {
        tokenCount[0] := 0;
        return EMPTY_REQUEST;
      }
      var ids := pending.ids;
      var required, available := |ids|, tokenCount[0];
      tokenCount[0] := required;
      if required == 0 {
        pending := Null;
        return SUCCESS;
      }
      if tokens == null {
        return SUCCESS;
      }
      if available < required {
        return EXCEED_LIMIT;
      }
      Copy(ids, tokens);
      pending := Null;
      status := SUCCESS;
    }
  }

  method Copy(ids: seq<Token>, tokens: array<Token>)
    requires |ids| <= tokens.Length
    modifies tokens
    ensures tokens[..] == ids + old(tokens[|ids|..])
  {
    for k := 0 to |ids|
      invariant tokens[..k] == ids[..k]
      invariant tokens[k..] == old(tokens[k..])
    {
      tokens[k] := ids[k];
    }
    assert ids[..|ids|] == ids;
    assert tokens[..] == tokens[..|ids|] + tokens[|ids|..];
  }

  // Sequences of calls.

  function PendingAfter(pending: Reply, calls: seq<FetchCall>): Reply {
    if calls == [] then pending
    else Fetch(PendingAfter(pending, calls[..|calls| - 1]), calls[|calls| - 1]).pending
  }

  /** All tokens written to the client's buffers, in order. */
  function Written(pending: Reply, calls: seq<FetchCall>): seq<Token> {
    if calls == [] then []
    else
      var before := calls[..|calls| - 1];
      Written(pending, before) + Fetch(PendingAfter(pending, before), calls[|calls| - 1]).written
  }

  /** The queue's replies that the calls asked for, in order: a call with a batch pending asks for none. */
  function Asked(pending: Reply, calls: seq<FetchCall>): seq<Reply> {
    if calls == [] then []
    else
      var before := calls[..|calls| - 1];
      Asked(pending, before) + if PendingAfter(pending, before) == Null then [calls[|calls| - 1].reply] else []
  }

  /** Queries, short buffers, copies and timeouts in any order neither lose nor repeat a token. */
  lemma {:induction false} FetchConserves(pending: Reply, calls: seq<FetchCall>)
    ensures Written(pending, calls) + Content(PendingAfter(pending, calls))
         == Content(pending) + Delivered(Asked(pending, calls))
  {
    if calls != [] {
      var before, call := calls[..|calls| - 1], calls[|calls| - 1];
      FetchConserves(pending, before);
      var p := PendingAfter(pending, before);
      CallConserves(p, call);
      if p == Null {
        DeliveredOne(Asked(pending, before), call.reply);
        Regroup(Written(pending, before), Fetch(p, call), Content(pending) + Delivered(Asked(pending, before)),
                Content(call.reply));
        assert Asked(pending, calls) == Asked(pending, before) + [call.reply];
        Reassociate(Content(pending), Delivered(Asked(pending, before)), Content(call.reply));
      } else {
        Regroup(Written(pending, before), Fetch(p, call), Written(pending, before), Content(p));
        assert Asked(pending, calls) == Asked(pending, before);
      }
    }
  }

  lemma Regroup(written: seq<Token>, f: Fetched, base: seq<Token>, batch: seq<Token>)
    requires f.written + Content(f.pending) == batch && written == base
    ensures written + f.written + Content(f.pending) == base + batch
  {
    Reassociate(written, f.written, Content(f.pending));
  }

  lemma Reassociate(a: seq<Token>, b: seq<Token>, c: seq<Token>)
    ensures a + b + c == a + (b + c)
  {
  }

  lemma CallConserves(pending: Reply, call: FetchCall)
    ensures Fetch(pending, call).written + Content(Fetch(pending, call).pending)
         == if pending == Null then Content(call.reply) else Content(pending)
  {
  }

  /** A query announces the size of the batch; the next sufficiently large copy delivers exactly that batch. */
  lemma QueryThenCopy(pending: Reply, query: FetchCall, copy: FetchCall)
    requires !query.buffer && copy.buffer
    ensures var q := Fetch(pending, query);
            var c := Fetch(q.pending, copy);
            q.count > 0 ==>
              && q.status == SUCCESS && q.written == [] && c.count == q.count
              && (c.status == SUCCESS <==> copy.available >= q.count)
              && (c.status == SUCCESS ==> Tokens(c.written) == Batch(pending, query.reply) && c.pending == Null)
              && (c.status != SUCCESS ==> c.status == EXCEED_LIMIT && c.written == [] && c.pending == q.pending)
  {
  }

  /** How the queue is read: without waiting, waiting, or waiting for a time. */
  function CallOf(timeoutMs: int): Call {
    if timeoutMs < 0 then Get else if timeoutMs == 0 then GetNoWait else TimedGet
  }

  /**
    Reading an open queue with nothing pending and a large enough buffer: with a timeout of zero in any case, and
    with another if something is queued or generation has ended, the client gets exactly what is queued.
   */
  lemma FetchGetsQueued(s: State, timeoutMs: int, available: nat)
    requires s.place.Idle? && !s.closed && (timeoutMs == 0 || s.queue != [] || s.status.Terminal())
    requires |Heads(s.queue)| <= available
    ensures GoesTo(Apply(s, Start(CallOf(timeoutMs))), s.(queue := [], replies := s.replies + [Tokens(Heads(s.queue))]))
    ensures var f := Fetch(Null, FetchCall(Tokens(Heads(s.queue)), true, available));
            f.written == Heads(s.queue) && f.status == SUCCESS && f.count == |Heads(s.queue)| && f.pending == Null
  {
    CallAlone(s, CallOf(timeoutMs));
  }

  /** A call may give up, and then reports an empty request, exactly if its timeout is positive. */
  lemma TimesOutIff(s: State, timeoutMs: int)
    requires s.place.Idle? && s.queue == [] && !s.status.Terminal() && !s.closed && timeoutMs != 0
    ensures timeoutMs > 0 <==> exists t :: GoesTo(Apply(s, Start(CallOf(timeoutMs))), t) && Enabled(t, GiveUp)
    ensures Fetch(Null, FetchCall(Null, true, 0)).status == EMPTY_REQUEST
  {
    if timeoutMs > 0 {
      var t := TimedCallMayGiveUp(s);
    } else {
      forall n: nat | Possible(Apply(s, Start(Get)), Gos(n))
        ensures !Enabled(Run(Apply(s, Start(Get)), Gos(n)), GiveUp)
      {
        UntimedNeverGivesUp(Apply(s, Start(Get)), Gos(n));
      }
    }
  }

  /**
    From the generating loop to the client's buffers: a reader through the C interface gets a prefix of the first
    tokens.
   */
  lemma WrittenPrefix(s: State, calls: seq<FetchCall>)
    requires Reachable(s) && s.replies == Asked(Null, calls)
    ensures Written(Null, calls) <= Heads(s.appended)
  {
    DeliveredPrefix(s);
    FetchConserves(Null, calls);
    assert Content(Null) + Delivered(Asked(Null, calls)) == Delivered(Asked(Null, calls));
  }
}
