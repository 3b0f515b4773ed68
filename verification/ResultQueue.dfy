/**
  A request's result queue: one producer (the model loop) and one reading client, interleaved at
  every single queue or status access.
 */
module ResultQueue {
  type Token = int

  /** A generated element carries at least one token. */
  type Element = e: seq<Token> | |e| > 0 witness [0]

  datatype Status = Init | ContextFinished | Generating | GenerateFinished | GenerateInterrupted | InternalError
  {
    predicate Terminal() {
      GenerateFinished? || GenerateInterrupted? || InternalError?
    }
  }

  datatype Call = Get | TimedGet | GetNoWait

  /** Where the client is inside a call, with the tokens it has taken so far. */
  datatype Place =
    | Idle
    | Polling(timed: bool, acc: seq<Token>)
    | Draining(timed: bool, acc: seq<Token>)
    | Checking(timed: bool, acc: seq<Token>, seen: nat)
    | LastDrain(acc: seq<Token>)
    | Grabbing(acc: seq<Token>)

  datatype Reply = Tokens(ids: seq<Token>) | Null

  datatype State = State(
    queue: seq<Element>,
    status: Status,
    closed: bool,
    generated: nat,
    place: Place,
    replies: seq<Reply>,
    appended: seq<Element>)

  datatype Step =
    | Append(e: Element)
    | SetStatus(status: Status)
    | Close
    | Start(call: Call)
    | Go
    | GiveUp

  function Start0(): State {
    State([], Init, false, 0, Idle, [], [])
  }

  /** Which status the n-th comparison of the check looks for. */
  function Looked(n: nat): Status {
    if n == 0 then GenerateFinished else if n == 1 then GenerateInterrupted else InternalError
  }

  /** Only the first token of an element is taken over. */
  function Joined(acc: seq<Token>, e: Element): seq<Token> {
    acc + [e[0]]
  }

  /** A step can be taken; the producer stops at a terminal status. */
  predicate Enabled(s: State, step: Step) {
    match step
    case Append(e) => !s.status.Terminal()
    case SetStatus(_) => !s.status.Terminal()
    case Close => true
    case Start(_) => s.place.Idle?
    case Go => !s.place.Idle?
    case GiveUp => s.place.Checking? && s.place.timed && LastRead(s) && s.place.acc == []
  }

  /** The third status comparison is about to fail. */
  predicate LastRead(s: State)
    requires s.place.Checking?
  {
    s.place.seen >= 2 && s.status != Looked(s.place.seen)
  }

  function Answer(s: State, reply: Reply): State {
    s.(place := Idle, replies := s.replies + [reply])
  }

  function Apply(s: State, step: Step): State
    requires Enabled(s, step)
  {
    match step
    case Append(e) => s.(queue := s.queue + [e], appended := s.appended + [e], generated := s.generated + |e|)
    case SetStatus(status) => s.(status := status)
    case Close => s.(closed := true)
    case Start(Get) => s.(place := Polling(false, []))
    case Start(TimedGet) => s.(place := Polling(true, []))
    case Start(GetNoWait) => s.(place := Grabbing([]))
    case Go => Advance(s)
    case GiveUp => Answer(s, Null)
  }

  /** One access of the client. */
  function Advance(s: State): State
    requires !s.place.Idle?
  {
    match s.place
    case Polling(timed, acc) =>
      if s.closed then Answer(s, Tokens(acc))
      else if s.queue != [] then s.(queue := s.queue[1..], place := Draining(timed, Joined(acc, s.queue[0])))
      else s.(place := Checking(timed, acc, 0))
    case Draining(timed, acc) =>
      if s.queue != [] then s.(queue := s.queue[1..], place := Draining(timed, Joined(acc, s.queue[0])))
      else s.(place := Polling(timed, acc))
    case Checking(timed, acc, seen) =>
      if s.status == Looked(seen) then s.(place := LastDrain(acc))
      else if seen < 2 then s.(place := Checking(timed, acc, seen + 1))
      else if |acc| > 0 then Answer(s, Tokens(acc))
      else s.(place := Polling(timed, acc))
    case LastDrain(acc) =>
      if s.queue != [] then s.(queue := s.queue[1..], place := LastDrain(Joined(acc, s.queue[0])))
      else Answer(s, Tokens(acc))
    case Grabbing(acc) =>
      if !s.closed && s.queue != [] then s.(queue := s.queue[1..], place := Grabbing(Joined(acc, s.queue[0])))
      else Answer(s, Tokens(acc))
  }

  // Runs.

  /** Every step of the sequence can be taken in turn. */
  predicate Possible(s: State, steps: seq<Step>)
    decreases |steps|
  {
    steps == [] || (Enabled(s, steps[0]) && Possible(Apply(s, steps[0]), steps[1..]))
  }

  function Run(s: State, steps: seq<Step>): State
    requires Possible(s, steps)
    decreases |steps|
  {
    if steps == [] then s else Run(Apply(s, steps[0]), steps[1..])
  }

  lemma {:induction false} RunTwice(s: State, steps: seq<Step>, more: seq<Step>)
    requires Possible(s, steps) && Possible(Run(s, steps), more)
    ensures Possible(s, steps + more) && Run(s, steps + more) == Run(Run(s, steps), more)
    decreases |steps|
  {
    if steps == [] {
      assert steps + more == more;
    } else {
      RunTwice(Apply(s, steps[0]), steps[1..], more);
      assert (steps + more)[1..] == steps[1..] + more;
    }
  }

  // What a state has produced, delivered and under way.

  /** The first tokens of the elements. */
  function Heads(es: seq<Element>): seq<Token> {
    if es == [] then [] else Heads(es[..|es| - 1]) + [es[|es| - 1][0]]
  }

  /** All tokens of the elements. */
  function AllTokens(es: seq<Element>): seq<Token> {
    if es == [] then [] else AllTokens(es[..|es| - 1]) + es[|es| - 1]
  }

  function Content(r: Reply): seq<Token> {
    match r case Tokens(ids) => ids case Null => []
  }

  /** The tokens of all replies, in order. */
  function Delivered(replies: seq<Reply>): seq<Token> {
    if replies == [] then [] else Delivered(replies[..|replies| - 1]) + Content(replies[|replies| - 1])
  }

  function Taken(p: Place): seq<Token> {
    if p.Idle? then [] else p.acc
  }

  lemma {:induction false} HeadsConcat(es: seq<Element>, fs: seq<Element>)
    ensures Heads(es + fs) == Heads(es) + Heads(fs)
  {
    if fs == [] {
      assert es + fs == es;
    } else {
      var k := |fs| - 1;
      HeadsConcat(es, fs[..k]);
      assert (es + fs)[..|es + fs| - 1] == es + fs[..k];
    }
  }

  lemma HeadsFirst(es: seq<Element>)
    requires es != []
    ensures Heads(es) == [es[0][0]] + Heads(es[1..])
  {
    HeadsConcat([es[0]], es[1..]);
    assert [es[0]] + es[1..] == es;
    assert [es[0]][..0] == [];
  }

  lemma DeliveredOne(replies: seq<Reply>, r: Reply)
    ensures Delivered(replies + [r]) == Delivered(replies) + Content(r)
  {
    assert (replies + [r])[..|replies|] == replies;
  }

  /** Nothing is lost, repeated or reordered: first tokens are delivered, held by the running call, or queued. */
  ghost predicate Balanced(replies: seq<Reply>, taken: seq<Token>, queue: seq<Element>, appended: seq<Element>) {
    Total(replies, taken, queue) == Heads(appended)
  }

  ghost function Total(replies: seq<Reply>, taken: seq<Token>, queue: seq<Element>): seq<Token> {
    Delivered(replies) + taken + Heads(queue)
  }

  ghost predicate Conserved(s: State) {
    Balanced(s.replies, Taken(s.place), s.queue, s.appended)
  }

  /** The generated length counts all tokens of all elements. */
  ghost predicate LengthKept(s: State) {
    s.generated == |AllTokens(s.appended)|
  }

  ghost predicate Inv(s: State) {
    Conserved(s) && LengthKept(s) && (s.place.LastDrain? ==> s.status.Terminal())
  }

  lemma TakeBalances(replies: seq<Reply>, taken: seq<Token>, queue: seq<Element>, appended: seq<Element>)
    requires Balanced(replies, taken, queue, appended) && queue != []
    ensures Balanced(replies, Joined(taken, queue[0]), queue[1..], appended)
  {
    HeadsFirst(queue);
  }

  lemma AnswerBalances(replies: seq<Reply>, r: Reply, queue: seq<Element>, appended: seq<Element>)
    requires Balanced(replies, Content(r), queue, appended)
    ensures Balanced(replies + [r], [], queue, appended)
  {
    DeliveredOne(replies, r);
  }

  lemma AppendBalances(replies: seq<Reply>, taken: seq<Token>, queue: seq<Element>, appended: seq<Element>, e: Element)
    requires Balanced(replies, taken, queue, appended)
    ensures Balanced(replies, taken, queue + [e], appended + [e])
    ensures |AllTokens(appended + [e])| == |AllTokens(appended)| + |e|
  {
    HeadsConcat(queue, [e]);
    HeadsConcat(appended, [e]);
    assert (appended + [e])[..|appended|] == appended;
  }

  /** The three things one access can do: take an element, answer, or look. */
  ghost predicate Moves(s: State, t: State)
    requires !s.place.Idle?
  {
    && t.appended == s.appended
    && (|| (s.queue != [] && t.queue == s.queue[1..] && t.replies == s.replies
            && Taken(t.place) == Joined(s.place.acc, s.queue[0]))
        || (t.queue == s.queue && t.replies == s.replies + [Tokens(s.place.acc)] && Taken(t.place) == [])
        || (t.queue == s.queue && t.replies == s.replies && Taken(t.place) == s.place.acc))
  }

  lemma AdvanceMoves(s: State)
    requires !s.place.Idle?
    ensures Moves(s, Advance(s))
  {
  }

  lemma MoveConserves(s: State, t: State)
    requires Conserved(s) && !s.place.Idle? && Moves(s, t)
    ensures Conserved(t)
  {
    if t.queue != s.queue {
      TakeBalances(s.replies, s.place.acc, s.queue, s.appended);
    } else if t.replies != s.replies {
      AnswerBalances(s.replies, Tokens(s.place.acc), s.queue, s.appended);
    }
  }

  lemma AdvanceConserves(s: State)
    requires Conserved(s) && !s.place.Idle?
    ensures Conserved(Advance(s))
  {
    AdvanceMoves(s);
    MoveConserves(s, Advance(s));
  }

  lemma AppendKeepsInv(s: State, e: Element)
    requires Inv(s) && Enabled(s, Append(e))
    ensures Inv(Apply(s, Append(e)))
  {
    AppendBalances(s.replies, Taken(s.place), s.queue, s.appended, e);
  }

  lemma GiveUpKeepsInv(s: State)
    requires Inv(s) && Enabled(s, GiveUp)
    ensures Inv(Apply(s, GiveUp))
  {
    AnswerBalances(s.replies, Null, s.queue, s.appended);
  }

  lemma AdvanceFrame(s: State)
    requires !s.place.Idle? && (s.place.LastDrain? ==> s.status.Terminal())
    ensures var t := Advance(s);
            && t.appended == s.appended && t.generated == s.generated && t.status == s.status
            && (t.place.LastDrain? ==> t.status.Terminal())
  {
  }

  lemma AdvanceKeepsInv(s: State)
    requires Inv(s) && !s.place.Idle?
    ensures Inv(Advance(s))
  {
    AdvanceConserves(s);
    AdvanceFrame(s);
  }

  lemma StartKeepsInv(s: State, call: Call)
    requires Inv(s) && Enabled(s, Start(call))
    ensures Inv(Apply(s, Start(call)))
  {
    assert Taken(Apply(s, Start(call)).place) == [];
  }

  lemma ProducerKeepsInv(s: State, step: Step)
    requires Inv(s) && Enabled(s, step) && (step.SetStatus? || step.Close?)
    ensures Inv(Apply(s, step))
  {
    assert Apply(s, step).place == s.place;
  }

  lemma StepKeepsInv(s: State, step: Step)
    requires Inv(s) && Enabled(s, step)
    ensures Inv(Apply(s, step))
  {
    match step
    case Append(e) => AppendKeepsInv(s, e);
    case GiveUp => GiveUpKeepsInv(s);
    case Go => AdvanceKeepsInv(s);
    case SetStatus(_) => ProducerKeepsInv(s, step);
    case Close => ProducerKeepsInv(s, step);
    case Start(call) => StartKeepsInv(s, call);
  }

  lemma {:induction false} RunKeepsInv(s: State, steps: seq<Step>)
    requires Inv(s) && Possible(s, steps)
    ensures Inv(Run(s, steps))
    decreases |steps|
  {
    if steps != [] {
      StepKeepsInv(s, steps[0]);
      RunKeepsInv(Apply(s, steps[0]), steps[1..]);
    }
  }

  /** Some interleaving leads to the state. */
  ghost predicate Reachable(s: State) {
    exists steps {:trigger Possible(Start0(), steps)} :: Possible(Start0(), steps) && Run(Start0(), steps) == s
  }

  lemma ReachableInv(s: State)
    requires Reachable(s)
    ensures Inv(s)
  {
    var steps :| Possible(Start0(), steps) && Run(Start0(), steps) == s;
    RunKeepsInv(Start0(), steps);
  }

  // The main results, for every interleaving.

  /** What has been returned so far is a prefix of the appended elements' first tokens. */
  lemma DeliveredPrefix(s: State)
    requires Reachable(s)
    ensures Delivered(s.replies) <= Heads(s.appended)
  {
    ReachableInv(s);
    assert Conserved(s);
    assert Delivered(s.replies) + Taken(s.place) + Heads(s.queue)
        == Delivered(s.replies) + (Taken(s.place) + Heads(s.queue));
  }

  /** First tokens are all tokens exactly when every element carries a single one. */
  lemma {:induction false} HeadsAreAll(es: seq<Element>)
    ensures |Heads(es)| == |es| <= |AllTokens(es)|
    ensures Heads(es) == AllTokens(es) <==> Singles(es)
    ensures |AllTokens(es)| == |es| <==> Singles(es)
  {
    if es != [] {
      var k := |es| - 1;
      HeadsAreAll(es[..k]);
      assert forall i :: 0 <= i < k ==> es[..k][i] == es[i];
      if Singles(es) {
        assert |es[k]| == 1;
        assert es[k] == [es[k][0]];
      }
    }
  }

  /** Every element carries one token. */
  predicate Singles(es: seq<Element>) {
    forall i :: 0 <= i < |es| ==> |es[i]| == 1
  }

  /** With one token in each element, replies are a prefix of the tokens appended, whatever the interleaving. */
  lemma TokensPrefix(s: State)
    requires Reachable(s) && Singles(s.appended)
    ensures Delivered(s.replies) <= AllTokens(s.appended)
  {
    DeliveredPrefix(s);
    HeadsAreAll(s.appended);
  }

  /** Everything appended has reached the client, and nothing more can come. */
  ghost predicate Exhausted(s: State) {
    s.status.Terminal() && s.queue == [] && Total(s.replies, Taken(s.place), []) == Heads(s.appended)
  }

  /** A waiting call that has seen a terminal status returns only when nothing is left undelivered. */
  lemma TerminalReplyIsComplete(s: State)
    requires Reachable(s) && s.place.LastDrain? && Advance(s).place.Idle?
    ensures Exhausted(Advance(s)) && Delivered(Advance(s).replies) == Heads(s.appended)
  {
    ReachableInv(s);
    AdvanceConserves(s);
    assert Conserved(Advance(s));
  }

  /** An empty reply of a waiting call on an open queue means that generation has ended and all was delivered. */
  lemma EmptyReplyMeansEnd(s: State)
    requires Reachable(s) && !s.closed && !s.place.Idle? && !s.place.Grabbing?
    requires Advance(s).place.Idle? && s.place.acc == []
    ensures Exhausted(Advance(s)) && Delivered(Advance(s).replies) == Heads(s.appended)
  {
    TerminalReplyIsComplete(s);
  }

  /** With a terminal status and an empty queue no step changes status or queue, or appends. */
  lemma ExhaustedFrame(s: State, step: Step)
    requires s.status.Terminal() && s.queue == [] && Enabled(s, step)
    ensures var t := Apply(s, step); t.status == s.status && t.queue == [] && t.appended == s.appended
  {
  }

  lemma ExhaustedStep(s: State, step: Step)
    requires Exhausted(s) && Inv(s) && Enabled(s, step)
    ensures Exhausted(Apply(s, step)) && Inv(Apply(s, step)) && Apply(s, step).appended == s.appended
  {
    ExhaustedFrame(s, step);
    StepKeepsInv(s, step);
    assert Conserved(Apply(s, step));
  }

  /** Once exhausted, a queue stays so: nothing more is appended, and later replies carry no further tokens. */
  lemma {:induction false} ExhaustedStays(s: State, steps: seq<Step>)
    requires Exhausted(s) && Inv(s) && Possible(s, steps)
    ensures Exhausted(Run(s, steps)) && Run(s, steps).appended == s.appended
    decreases |steps|
  {
    if steps != [] {
      ExhaustedStep(s, steps[0]);
      ExhaustedStays(Apply(s, steps[0]), steps[1..]);
    }
  }

  /** A call that times out returns null and leaves every token where the next call finds it. */
  lemma TimeoutLosesNothing(s: State)
    requires Reachable(s) && Enabled(s, GiveUp)
    ensures var t := Apply(s, GiveUp);
            t.replies == s.replies + [Null] && Delivered(t.replies) + Heads(t.queue) == Heads(t.appended)
  {
    ReachableInv(s);
    GiveUpKeepsInv(s);
    assert Conserved(Apply(s, GiveUp));
  }

  /** When a waiting call reports the end, the client has every generated token iff no element held several. */
  lemma CompleteIffSingle(s: State)
    requires Reachable(s) && Exhausted(s) && s.place.Idle?
    ensures |Delivered(s.replies)| == s.generated <==> Singles(s.appended)
  {
    ReachableInv(s);
    HeadsAreAll(s.appended);
  }

  // What a call returns: alone, and beside the producer.

  /** Steps of the client only. */
  function Gos(n: nat): seq<Step> {
    seq(n, i => Go)
  }

  /** From s, some number of client steps lead to t. */
  ghost predicate GoesTo(s: State, t: State) {
    exists n: nat {:trigger Gos(n)} :: Possible(s, Gos(n)) && Run(s, Gos(n)) == t
  }

  lemma GoesNowhere(s: State)
    ensures GoesTo(s, s)
  {
    assert Gos(0) == [];
  }

  lemma GoesOn(s: State, t: State)
    requires !s.place.Idle? && GoesTo(Advance(s), t)
    ensures GoesTo(s, t)
  {
    var n: nat :| Possible(Advance(s), Gos(n)) && Run(Advance(s), Gos(n)) == t;
    assert Gos(n + 1)[1..] == Gos(n) && Gos(n + 1)[0] == Go;
    assert Apply(s, Go) == Advance(s);
    assert Possible(s, Gos(n + 1)) && Run(s, Gos(n + 1)) == t;
  }

  lemma JoinedHeads(acc: seq<Token>, queue: seq<Element>)
    requires queue != []
    ensures Joined(acc, queue[0]) + Heads(queue[1..]) == acc + Heads(queue)
  {
    HeadsFirst(queue);
  }

  /** A non-blocking read takes what is queued, token by token, and returns it. */
  lemma {:induction false} GrabbingAlone(s: State)
    requires s.place.Grabbing? && !s.closed
    ensures GoesTo(s, s.(queue := [], place := Idle, replies := s.replies + [Tokens(s.place.acc + Heads(s.queue))]))
    decreases |s.queue|
  {
    if s.queue == [] {
      assert s.place.acc + Heads([]) == s.place.acc;
      GoesNowhere(Advance(s));
    } else {
      JoinedHeads(s.place.acc, s.queue);
      GrabbingAlone(Advance(s));
    }
    GoesOn(s, s.(queue := [], place := Idle, replies := s.replies + [Tokens(s.place.acc + Heads(s.queue))]));
  }

  lemma {:induction false} DrainingAlone(s: State, t: State)
    requires s.place.Draining?
    requires GoesTo(s.(queue := [], place := Polling(s.place.timed, s.place.acc + Heads(s.queue))), t)
    ensures GoesTo(s, t)
    decreases |s.queue|
  {
    if s.queue == [] {
      assert s.place.acc + Heads([]) == s.place.acc;
    } else {
      JoinedHeads(s.place.acc, s.queue);
      DrainingAlone(Advance(s), t);
    }
    GoesOn(s, t);
  }

  /** With nothing queued, a call that holds tokens or meets an end returns what it holds. */
  lemma CheckingAlone(s: State)
    requires s.place.Checking? && s.queue == [] && s.place.seen <= 2
    requires s.place.acc != [] || s.status.Terminal()
    requires forall j :: 0 <= j < s.place.seen ==> s.status != Looked(j)
    ensures GoesTo(s, s.(place := Idle, replies := s.replies + [Tokens(s.place.acc)]))
    decreases 2 - s.place.seen
  {
    var t := s.(place := Idle, replies := s.replies + [Tokens(s.place.acc)]);
    if s.status == Looked(s.place.seen) {
      assert Advance(Advance(s)) == t;
      GoesNowhere(t);
      GoesOn(Advance(s), t);
    } else if s.place.seen < 2 {
      CheckingAlone(Advance(s));
    } else {
      assert Looked(0) == GenerateFinished && Looked(1) == GenerateInterrupted;
      assert Advance(s) == t;
      GoesNowhere(t);
    }
    GoesOn(s, t);
  }

  /**
    A call on an open queue with no producer step in between: a non-blocking one returns all that is queued; so
    does a waiting one if something is queued or generation has ended.
   */
  lemma CallAlone(s: State, call: Call)
    requires s.place.Idle? && !s.closed && (call == GetNoWait || s.queue != [] || s.status.Terminal())
    ensures GoesTo(Apply(s, Start(call)), s.(queue := [], replies := s.replies + [Tokens(Heads(s.queue))]))
  {
    var s1, t := Apply(s, Start(call)), s.(queue := [], replies := s.replies + [Tokens(Heads(s.queue))]);
    assert [] + Heads(s.queue) == Heads(s.queue);
    if call == GetNoWait {
      GrabbingAlone(s1);
    } else {
      var p := s.(queue := [], place := Polling(call == TimedGet, Heads(s.queue)));
      CheckingAlone(Advance(p));
      GoesOn(p, t);
      if s.queue == [] {
        assert s1 == p;
      } else {
        JoinedHeads([], s.queue);
        DrainingAlone(Advance(s1), t);
        GoesOn(s1, t);
      }
    }
  }

  /** And a waiting call waits while nothing is queued and generation goes on. */
  ghost predicate Waiting(s: State) {
    && (s.place.Polling? || s.place.Checking?) && s.place.acc == [] && s.queue == []
    && !s.status.Terminal() && !s.closed
  }

  lemma {:induction false} CallWaits(s: State, n: nat)
    requires Waiting(s)
    ensures Possible(s, Gos(n)) && Waiting(Run(s, Gos(n)))
    decreases n
  {
    if n > 0 {
      assert Gos(n)[1..] == Gos(n - 1) && Gos(n)[0] == Go;
      CallWaits(Advance(s), n - 1);
    } else {
      assert Gos(0) == [];
    }
  }

  /** A timed call may then give up, leaving all as it was but for the null it returns; an untimed one never does. */
  lemma TimedCallMayGiveUp(s: State) returns (t: State)
    requires s.place.Idle? && s.queue == [] && !s.status.Terminal() && !s.closed
    ensures GoesTo(Apply(s, Start(TimedGet)), t) && Enabled(t, GiveUp)
    ensures Apply(t, GiveUp) == s.(replies := s.replies + [Null])
  {
    assert Looked(0) == GenerateFinished && Looked(1) == GenerateInterrupted && Looked(2) == InternalError;
    t := s.(place := Checking(true, [], 2));
    GoesNowhere(t);
    GoesOn(s.(place := Checking(true, [], 1)), t);
    GoesOn(s.(place := Checking(true, [], 0)), t);
    GoesOn(Apply(s, Start(TimedGet)), t);
  }

  lemma {:induction false} UntimedNeverGivesUp(s: State, steps: seq<Step>)
    requires Possible(s, steps) && (s.place.Polling? || s.place.Draining? || s.place.Checking?) && !s.place.timed
    requires forall i {:trigger steps[i]} :: 0 <= i < |steps| ==> !steps[i].Start?
    ensures !Enabled(Run(s, steps), GiveUp)
    decreases |steps|
  {
    if steps != [] {
      var t := Apply(s, steps[0]);
      if t.place.Polling? || t.place.Draining? || t.place.Checking? {
        UntimedNeverGivesUp(t, steps[1..]);
      } else {
        LeavingNeverGivesUp(t, steps[1..]);
      }
    }
  }

  lemma {:induction false} LeavingNeverGivesUp(s: State, steps: seq<Step>)
    requires Possible(s, steps) && (s.place.LastDrain? || s.place.Idle?)
    requires forall i {:trigger steps[i]} :: 0 <= i < |steps| ==> !steps[i].Start?
    ensures !Enabled(Run(s, steps), GiveUp)
    decreases |steps|
  {
    if steps != [] {
      LeavingNeverGivesUp(Apply(s, steps[0]), steps[1..]);
    }
  }

  /** A new queue is open; it may be closed at any time, and then calls return at once what they hold. */
  lemma ClosedCallReturns(s: State, call: Call)
    requires s.place.Idle?
    ensures !Start0().closed && Enabled(s, Close) && Apply(s, Close) == s.(closed := true)
    ensures var c := Apply(s, Close); GoesTo(Apply(c, Start(call)), c.(replies := s.replies + [Tokens([])]))
  {
    var c := Apply(s, Close);
    var t := c.(replies := s.replies + [Tokens([])]);
    assert Advance(Apply(c, Start(call))) == t;
    GoesNowhere(t);
    GoesOn(Apply(c, Start(call)), t);
  }

  /** A non-blocking read on an open queue returns only when nothing is queued: the client then has all there is. */
  lemma GetNoWaitTakesAll(s: State)
    requires Reachable(s) && s.place.Grabbing? && !s.closed && Advance(s).place.Idle?
    ensures s.queue == [] && Delivered(Advance(s).replies) == Heads(s.appended)
  {
    ReachableInv(s);
    AdvanceConserves(s);
    assert Conserved(Advance(s));
  }

  /** On an open queue whose generation has ended, a waiting call is on its way to return all that is left. */
  ghost predicate Finishing(s: State) {
    && Inv(s) && s.status.Terminal() && !s.closed && !s.place.Grabbing?
    && (s.place.Idle? ==> Exhausted(s))
    && (s.place.Checking? ==> s.place.seen <= 2 && forall j :: 0 <= j < s.place.seen ==> s.status != Looked(j))
  }

  lemma FinishingStep(s: State, step: Step)
    requires Finishing(s) && !s.place.Idle? && Enabled(s, step) && step != Close
    ensures Finishing(Apply(s, step)) && step == Go
  {
    StepKeepsInv(s, step);
    if s.place.Checking? {
      assert Looked(0) == GenerateFinished && Looked(1) == GenerateInterrupted && Looked(2) == InternalError;
    }
    assert Conserved(Apply(s, step));
  }

  /** Its steps are bounded. */
  function StepsLeft(s: State): nat {
    10 * |s.queue| + match s.place
                     case Idle => 0
                     case LastDrain(_) => 1
                     case Checking(_, _, seen) => if seen <= 2 then 4 - seen else 0
                     case Polling(_, _) => 5
                     case Draining(_, _) => 6
                     case Grabbing(_) => 7
  }

  lemma FinishingEnds(s: State)
    requires Finishing(s) && !s.place.Idle?
    ensures StepsLeft(Advance(s)) < StepsLeft(s)
  {
    assert Looked(0) == GenerateFinished && Looked(1) == GenerateInterrupted && Looked(2) == InternalError;
  }

  /**
    Whatever it held, a waiting call that meets an end, or is begun after it, returns with nothing left undelivered,
    unless the queue is closed: all runs from there to its return.
   */
  lemma {:induction false} EndMetIsComplete(s: State, steps: seq<Step>)
    requires Finishing(s) && !s.place.Idle? && Possible(s, steps) && Run(s, steps).place.Idle?
    requires forall i {:trigger steps[i]} :: 0 <= i < |steps| ==> steps[i] != Close && !steps[i].Start?
    ensures Exhausted(Run(s, steps)) && Delivered(Run(s, steps).replies) == Heads(s.appended)
    decreases |steps|
  {
    FinishingStep(s, steps[0]);
    var t := Advance(s);
    if t.place.Idle? {
      IdleEnds(t, steps[1..]);
      assert Run(s, steps) == t;
    } else {
      EndMetIsComplete(t, steps[1..]);
      assert t.appended == s.appended;
    }
  }

  lemma IdleEnds(s: State, steps: seq<Step>)
    requires s.place.Idle? && s.status.Terminal() && Possible(s, steps)
    requires forall i {:trigger steps[i]} :: 0 <= i < |steps| ==> steps[i] != Close && !steps[i].Start?
    ensures steps == []
  {
  }

  /** A waiting call that is at a comparison which holds, and one begun at the end, are such calls. */
  lemma MeetsTheEnd(s: State)
    requires Reachable(s) && !s.closed && s.status.Terminal()
    ensures s.place.Checking? && s.place.seen <= 2 && s.status == Looked(s.place.seen) ==> Finishing(s)
    ensures s.place.Idle? ==> Finishing(Apply(s, Start(Get))) && Finishing(Apply(s, Start(TimedGet)))
  {
    ReachableInv(s);
    if s.place.Idle? {
      StartKeepsInv(s, Get);
      StartKeepsInv(s, TimedGet);
    }
  }
}
