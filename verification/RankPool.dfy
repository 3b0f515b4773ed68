/**
  Operations fanned out over the ranks: each rank has its own first-in-first-out queue and worker
  thread; an operation enqueues a call on every rank and then collects the answers rank by rank.
  Operations of the model loop exclude each other (engine lock), and so do LoRA loads and unloads
  (LoRA lock), but the two kinds run against the same queues concurrently.
 */
module RankPool {
  datatype Client = Engine | Lora

  datatype Op = Continue | Context | Stop | Release | Start | LoadLora | UnloadLora
  {
    function Owner(): Client {
      if LoadLora? || UnloadLora? then Lora else Engine
    }
  }

  datatype Kind =
    | AllocDecoderMemory | RunTextGenerationContinue | RunTextGenerationContext
    | StopRequest | ReleaseRequest | StartRequest | LoadLoraByName | UnloadLoraByName

  datatype Outcome = Success | Failure | MemoryThrow | OtherThrow

  /** A call as the operation makes it: the method, and the request or LoRA it is about. */
  datatype Call = Call(kind: Kind, about: Subject)

  type Subject = int

  datatype Item = Item(client: Client, call: Call)

  datatype Done = Done(item: Item, outcome: Outcome)

  datatype Rank = Rank(queue: seq<Item>, executed: seq<Done>)

  /** Where a client is: it calls rank i next, or waits for rank i; an operation has one or two phases. */
  datatype Place =
    | Idle(collectedAll: bool)
    | Issuing(op: Op, about: Subject, phase: nat, i: nat)
    | Collecting(op: Op, about: Subject, phase: nat, i: nat)
  {
    /** The call being given out or waited for. */
    function Current(): Call
      requires !Idle?
    {
      CallOf(op, about, phase)
    }

    /** On to the next rank, or to collecting the answers. */
    function Onward(nranks: nat): Place
      requires Issuing?
    {
      if i + 1 < nranks then Issuing(op, about, phase, i + 1) else Collecting(op, about, phase, 0)
    }
  }

  /** A client's progress: every call it has begun to fan out, and its place in the current operation. */
  datatype Session = Session(log: seq<Call>, place: Place)

  datatype State = State(ranks: seq<Rank>, engine: Session, lora: Session)
  {
    function Of(c: Client): Session {
      if c == Engine then engine else lora
    }

    function With(c: Client, session: Session): State {
      if c == Engine then this.(engine := session) else this.(lora := session)
    }
  }

  datatype Step =
    | Begin(op: Op, about: Subject)
    | Issue(client: Client)
    | Execute(r: nat, outcome: Outcome)
    | Collect(client: Client)

  function KindOf(op: Op, phase: nat): Kind {
    match op
    case Continue => if phase == 0 then AllocDecoderMemory else RunTextGenerationContinue
    case Context => RunTextGenerationContext
    case Stop => StopRequest
    case Release => ReleaseRequest
    case Start => StartRequest
    case LoadLora => LoadLoraByName
    case UnloadLora => UnloadLoraByName
  }

  function CallOf(op: Op, about: Subject, phase: nat): Call {
    Call(KindOf(op, phase), about)
  }

  /** The answers that make a client return before it has collected every rank. */
  predicate ReturnsEarly(op: Op, phase: nat, outcome: Outcome) {
    match op
    case Continue => if phase == 0 then outcome != Success else outcome == MemoryThrow
    case LoadLora => outcome != Success
    case UnloadLora => outcome != Success
    case Context => false
    case Stop => false
    case Release => false
    case Start => false
  }

  /** What a rank has executed for one client. */
  function Mine(c: Client, done: seq<Done>): seq<Done> {
    if done == [] then []
    else
      var last := done[|done| - 1];
      Mine(c, done[..|done| - 1]) + if last.item.client == c then [last] else []
  }

  function MineItems(c: Client, items: seq<Item>): seq<Call> {
    if items == [] then []
    else
      var last := items[|items| - 1];
      MineItems(c, items[..|items| - 1]) + if last.client == c then [last.call] else []
  }

  function Items(done: seq<Done>): seq<Item> {
    seq(|done|, i requires 0 <= i < |done| => done[i].item)
  }

  function Calls(done: seq<Done>): seq<Call> {
    seq(|done|, i requires 0 <= i < |done| => done[i].item.call)
  }

  /** Every call a rank has been given, in order. */
  function Line(rank: Rank): seq<Item> {
    Items(rank.executed) + rank.queue
  }

  // The transitions.

  function Initial(nranks: nat): State
    requires nranks > 0
  {
    State(seq(nranks, i => Rank([], [])), Session([], Idle(true)), Session([], Idle(true)))
  }

  predicate Enabled(s: State, step: Step) {
    match step
    case Begin(op, _) => s.Of(op.Owner()).place.Idle?
    case Issue(c) => s.Of(c).place.Issuing? && s.Of(c).place.i < |s.ranks|
    case Execute(r, _) => r < |s.ranks| && s.ranks[r].queue != []
    case Collect(c) =>
      && s.Of(c).place.Collecting? && s.Of(c).place.i < |s.ranks|
      && 0 < |s.Of(c).log| <= |Mine(c, s.ranks[s.Of(c).place.i].executed)|
  }

  function Opened(session: Session, op: Op, about: Subject, phase: nat): Session {
    Session(session.log + [CallOf(op, about, phase)], Issuing(op, about, phase, 0))
  }

  /** The place after the answer of rank i: back early, on to the next rank or phase, or done. */
  function Answered(session: Session, nranks: nat, outcome: Outcome): Session
    requires session.place.Collecting?
  {
    var p := session.place;
    if ReturnsEarly(p.op, p.phase, outcome) then session.(place := Idle(false))
    else if p.i + 1 < nranks then session.(place := Collecting(p.op, p.about, p.phase, p.i + 1))
    else if p.op == Continue && p.phase == 0 then Opened(session, Continue, p.about, 1)
    else session.(place := Idle(true))
  }

  function Enqueued(rank: Rank, x: Item): Rank {
    rank.(queue := rank.queue + [x])
  }

  function Executed(rank: Rank, outcome: Outcome): Rank
    requires rank.queue != []
  {
    Rank(rank.queue[1..], rank.executed + [Done(rank.queue[0], outcome)])
  }

  function Apply(s: State, step: Step): State
    requires Enabled(s, step)
  {
    match step
    case Begin(op, about) => s.With(op.Owner(), Opened(s.Of(op.Owner()), op, about, 0))
    case Issue(c) =>
      var p := s.Of(c).place;
      s.(ranks := s.ranks[p.i := Enqueued(s.ranks[p.i], Item(c, p.Current()))])
      .With(c, s.Of(c).(place := p.Onward(|s.ranks|)))
    case Execute(r, outcome) => s.(ranks := s.ranks[r := Executed(s.ranks[r], outcome)])
    case Collect(c) =>
      var session := s.Of(c);
      var outcome := Mine(c, s.ranks[session.place.i].executed)[|session.log| - 1].outcome;
      s.With(c, Answered(session, |s.ranks|, outcome))
  }

  // Invariants.

  /** How much of its client's log rank r has been given. */
  function Issued(session: Session, r: nat): (n: nat)
    ensures n <= |session.log|
  {
    if session.place.Issuing? && session.place.i <= r && |session.log| > 0 then |session.log| - 1 else |session.log|
  }

  ghost predicate Given(rank: Rank, c: Client, session: Session, r: nat) {
    MineItems(c, Line(rank)) == session.log[..Issued(session, r)]
  }

  ghost predicate AllGiven(ranks: seq<Rank>, c: Client, session: Session) {
    forall r {:trigger ranks[r]} :: 0 <= r < |ranks| ==> Given(ranks[r], c, session, r)
  }

  /** A rank has executed n calls of a client. */
  ghost predicate CaughtUp(rank: Rank, c: Client, n: nat) {
    n <= |Mine(c, rank.executed)|
  }

  /** A rank has executed position k of a client's log, successfully. */
  ghost predicate Succeeded(rank: Rank, c: Client, k: int) {
    0 <= k < |Mine(c, rank.executed)| && Mine(c, rank.executed)[k].outcome == Success
  }

  ghost predicate AllCaughtUp(ranks: seq<Rank>, c: Client, n: nat, upTo: nat) {
    forall r {:trigger ranks[r]} :: 0 <= r < |ranks| && r < upTo ==> CaughtUp(ranks[r], c, n)
  }

  ghost predicate AllSucceeded(ranks: seq<Rank>, c: Client, k: int, upTo: nat) {
    forall r {:trigger ranks[r]} :: 0 <= r < |ranks| && r < upTo ==> Succeeded(ranks[r], c, k)
  }

  ghost predicate PlaceOk(ranks: seq<Rank>, c: Client, session: Session) {
    var p := session.place;
    if p.Idle? then p.collectedAll ==> AllCaughtUp(ranks, c, |session.log|, |ranks|)
    else
      && p.i < |ranks| && |session.log| > 0 && p.op.Owner() == c
      && session.log[|session.log| - 1] == p.Current()
      && (p.Collecting? ==> AllCaughtUp(ranks, c, |session.log|, p.i))
      && (p.Collecting? && p.op == Continue && p.phase == 0 ==> AllSucceeded(ranks, c, |session.log| - 1, p.i))
  }

  /** Every decoding call follows a memory allocation that succeeded on every rank. */
  ghost predicate AllGuarded(ranks: seq<Rank>, log: seq<Call>) {
    forall k {:trigger log[k]} :: 0 <= k < |log| && log[k].kind == RunTextGenerationContinue ==>
      k > 0 && log[k - 1] == log[k].(kind := AllocDecoderMemory) && AllSucceeded(ranks, Engine, k - 1, |ranks|)
  }

  ghost predicate SessionOk(ranks: seq<Rank>, c: Client, session: Session) {
    AllGiven(ranks, c, session) && PlaceOk(ranks, c, session) && (c == Engine ==> AllGuarded(ranks, session.log))
  }

  ghost predicate Inv(s: State) {
    s.ranks != [] && SessionOk(s.ranks, Engine, s.engine) && SessionOk(s.ranks, Lora, s.lora)
  }

  // Facts about projections.

  lemma MineGrows(c: Client, done: seq<Done>, d: Done)
    ensures Mine(c, done + [d]) == Mine(c, done) + if d.item.client == c then [d] else []
    ensures Mine(c, done) <= Mine(c, done + [d])
  {
    assert (done + [d])[..|done|] == done;
  }

  lemma MineItemsGrows(c: Client, items: seq<Item>, x: Item)
    ensures MineItems(c, items + [x]) == MineItems(c, items) + if x.client == c then [x.call] else []
  {
    assert (items + [x])[..|items|] == items;
  }

  lemma {:induction false} MineItemsPrefix(c: Client, items: seq<Item>, more: seq<Item>)
    ensures MineItems(c, items) <= MineItems(c, items + more)
  {
    if more == [] {
      assert items + more == items;
    } else {
      var k := |more| - 1;
      MineItemsPrefix(c, items, more[..k]);
      assert items + more == items + more[..k] + [more[k]];
      MineItemsGrows(c, items + more[..k], more[k]);
    }
  }

  lemma {:induction false} MineCalls(c: Client, done: seq<Done>)
    ensures MineItems(c, Items(done)) == Calls(Mine(c, done))
  {
    if done != [] {
      var k := |done| - 1;
      MineCalls(c, done[..k]);
      assert Items(done)[..k] == Items(done[..k]);
    } else {
      assert Items(done) == [];
    }
  }

  lemma ExecuteKeepsLine(rank: Rank, outcome: Outcome)
    requires rank.queue != []
    ensures Line(Rank(rank.queue[1..], rank.executed + [Done(rank.queue[0], outcome)])) == Line(rank)
  {
    var d := Done(rank.queue[0], outcome);
    assert Items(rank.executed + [d]) == Items(rank.executed) + [d.item];
    assert rank.queue == [rank.queue[0]] + rank.queue[1..];
  }

  // Each step keeps the invariant.

  /** Ranks only get further: what a client's calls have done is never taken back. */
  ghost predicate Later(ranks: seq<Rank>, next: seq<Rank>, c: Client) {
    && |ranks| == |next|
    && forall r {:trigger next[r]} :: 0 <= r < |ranks| ==> Mine(c, ranks[r].executed) <= Mine(c, next[r].executed)
  }

  lemma LaterKeepsPlace(ranks: seq<Rank>, next: seq<Rank>, c: Client, session: Session)
    requires Later(ranks, next, c) && PlaceOk(ranks, c, session)
    ensures PlaceOk(next, c, session)
  {
  }

  lemma BeginKeeps(ranks: seq<Rank>, c: Client, session: Session, op: Op, about: Subject)
    requires ranks != [] && SessionOk(ranks, c, session) && session.place.Idle? && op.Owner() == c
    ensures SessionOk(ranks, c, Opened(session, op, about, 0))
  {
    var next := Opened(session, op, about, 0);
    forall r | 0 <= r < |ranks|
      ensures Given(ranks[r], c, next, r)
    {
      assert Given(ranks[r], c, session, r);
      assert next.log[..|session.log|] == session.log;
    }
  }

  /** The call being given out completes what rank i has been given. */
  lemma IssueGiven(rank: Rank, c: Client, session: Session, i: nat, nranks: nat)
    requires Given(rank, c, session, i) && session.place.Issuing? && session.place.i == i && session.log != []
    requires session.log[|session.log| - 1] == session.place.Current()
    ensures Given(Enqueued(rank, Item(c, session.place.Current())), c,
                  session.(place := session.place.Onward(nranks)), i)
  {
    var x := Item(c, session.place.Current());
    assert Line(Enqueued(rank, x)) == Line(rank) + [x];
    MineItemsGrows(c, Line(rank), x);
    assert session.log[..|session.log| - 1] + [x.call] == session.log;
  }

  lemma IssueKeepsMine(ranks: seq<Rank>, c: Client, session: Session)
    requires SessionOk(ranks, c, session) && session.place.Issuing?
    ensures var p := session.place;
            SessionOk(ranks[p.i := Enqueued(ranks[p.i], Item(c, p.Current()))], c,
                      session.(place := p.Onward(|ranks|)))
  {
    var p := session.place;
    var after := ranks[p.i := Enqueued(ranks[p.i], Item(c, p.Current()))];
    var next := session.(place := p.Onward(|ranks|));
    forall r | 0 <= r < |ranks|
      ensures Given(after[r], c, next, r)
    {
      assert Given(ranks[r], c, session, r);
      if r == p.i {
        IssueGiven(ranks[r], c, session, r, |ranks|);
      }
    }
    LaterKeepsGuardedIf(ranks, after, c, session.log);
  }

  lemma LaterKeepsGuardedIf(ranks: seq<Rank>, next: seq<Rank>, c: Client, log: seq<Call>)
    requires Later(ranks, next, c) && (c == Engine ==> AllGuarded(ranks, log))
    ensures c == Engine ==> AllGuarded(next, log)
  {
  }

  lemma IssueKeepsOther(ranks: seq<Rank>, c: Client, session: Session, i: nat, x: Item)
    requires SessionOk(ranks, c, session) && i < |ranks| && x.client != c
    ensures SessionOk(ranks[i := Enqueued(ranks[i], x)], c, session)
  {
    var after := ranks[i := Enqueued(ranks[i], x)];
    forall r | 0 <= r < |ranks|
      ensures Given(after[r], c, session, r)
    {
      assert Given(ranks[r], c, session, r);
      if r == i {
        assert Line(after[r]) == Line(ranks[r]) + [x];
        MineItemsGrows(c, Line(ranks[r]), x);
      }
    }
    LaterKeepsPlace(ranks, after, c, session);
    LaterKeepsGuardedIf(ranks, after, c, session.log);
  }

  lemma ExecuteKeeps(ranks: seq<Rank>, c: Client, session: Session, i: nat, outcome: Outcome)
    requires SessionOk(ranks, c, session) && i < |ranks| && ranks[i].queue != []
    ensures SessionOk(ranks[i := Executed(ranks[i], outcome)], c, session)
  {
    var after := ranks[i := Executed(ranks[i], outcome)];
    ExecuteKeepsLine(ranks[i], outcome);
    MineGrows(c, ranks[i].executed, Done(ranks[i].queue[0], outcome));
    assert Later(ranks, after, c);
    forall r | 0 <= r < |ranks|
      ensures Given(after[r], c, session, r)
    {
      assert Given(ranks[r], c, session, r);
    }
    LaterKeepsPlace(ranks, after, c, session);
    LaterKeepsGuardedIf(ranks, after, c, session.log);
  }

  lemma AnswerKeepsGiven(ranks: seq<Rank>, c: Client, session: Session, outcome: Outcome)
    requires AllGiven(ranks, c, session) && session.place.Collecting?
    ensures AllGiven(ranks, c, Answered(session, |ranks|, outcome))
  {
    var next := Answered(session, |ranks|, outcome);
    forall r | 0 <= r < |ranks|
      ensures Given(ranks[r], c, next, r)
    {
      assert Given(ranks[r], c, session, r);
      assert next.log[..|session.log|] == session.log;
    }
  }

  lemma AnswerKeepsGuarded(ranks: seq<Rank>, session: Session, outcome: Outcome)
    requires PlaceOk(ranks, Engine, session) && AllGuarded(ranks, session.log) && session.place.Collecting?
    requires Mine(Engine, ranks[session.place.i].executed) != []
    requires |session.log| <= |Mine(Engine, ranks[session.place.i].executed)|
    requires outcome == Mine(Engine, ranks[session.place.i].executed)[|session.log| - 1].outcome
    ensures AllGuarded(ranks, Answered(session, |ranks|, outcome).log)
  {
  }

  lemma AnswerKeepsPlace(ranks: seq<Rank>, c: Client, session: Session, outcome: Outcome)
    requires PlaceOk(ranks, c, session) && session.place.Collecting?
    requires |session.log| <= |Mine(c, ranks[session.place.i].executed)|
    requires outcome == Mine(c, ranks[session.place.i].executed)[|session.log| - 1].outcome
    ensures PlaceOk(ranks, c, Answered(session, |ranks|, outcome))
  {
  }

  lemma BeginKeepsInv(s: State, op: Op, about: Subject)
    requires Inv(s) && Enabled(s, Begin(op, about))
    ensures Inv(Apply(s, Begin(op, about)))
  {
    BeginKeeps(s.ranks, op.Owner(), s.Of(op.Owner()), op, about);
  }

  lemma IssueKeepsInv(s: State, c: Client)
    requires Inv(s) && Enabled(s, Issue(c))
    ensures Inv(Apply(s, Issue(c)))
  {
    var p := s.Of(c).place;
    IssueKeepsMine(s.ranks, c, s.Of(c));
    var d := Other(c);
    IssueKeepsOther(s.ranks, d, s.Of(d), p.i, Item(c, p.Current()));
  }

  lemma ExecuteKeepsInv(s: State, r: nat, outcome: Outcome)
    requires Inv(s) && Enabled(s, Execute(r, outcome))
    ensures Inv(Apply(s, Execute(r, outcome)))
  {
    ExecuteKeeps(s.ranks, Engine, s.engine, r, outcome);
    ExecuteKeeps(s.ranks, Lora, s.lora, r, outcome);
  }

  lemma CollectKeepsInv(s: State, c: Client)
    requires Inv(s) && Enabled(s, Collect(c))
    ensures Inv(Apply(s, Collect(c)))
  {
    var session := s.Of(c);
    var outcome := Mine(c, s.ranks[session.place.i].executed)[|session.log| - 1].outcome;
    AnswerKeepsGiven(s.ranks, c, session, outcome);
    AnswerKeepsPlace(s.ranks, c, session, outcome);
    if c == Engine {
      AnswerKeepsGuarded(s.ranks, session, outcome);
    }
  }

  lemma StepKeepsInv(s: State, step: Step)
    requires Inv(s) && Enabled(s, step)
    ensures Inv(Apply(s, step))
  {
    match step
    case Begin(op, about) => BeginKeepsInv(s, op, about);
    case Issue(c) => IssueKeepsInv(s, c);
    case Execute(r, outcome) => ExecuteKeepsInv(s, r, outcome);
    case Collect(c) => CollectKeepsInv(s, c);
  }

  // Runs, and what holds in every reachable state.

  predicate Possible(s: State, steps: seq<Step>)
    decreases |steps|
  {
    steps == [] || (Enabled(s, steps[0]) && Possible(Apply(s, steps[0]), steps[1..]))
  }

  function Run(s: State, steps: seq<Step>): State
    requires Possible(s, steps)
    decreases |steps|
  {
    if steps == [] then s else Run(Apply(s, steps[0]), steps[1..])
  }

  lemma InitialInv(nranks: nat)
    requires nranks > 0
    ensures Inv(Initial(nranks))
  {
    var s := Initial(nranks);
    assert forall r :: 0 <= r < nranks ==> s.ranks[r] == Rank([], []);
    assert Items([]) == [];
  }

  lemma {:induction false} RunKeepsInv(s: State, steps: seq<Step>)
    requires Inv(s) && Possible(s, steps)
    ensures Inv(Run(s, steps))
    decreases |steps|
  {
    if steps != [] {
      StepKeepsInv(s, steps[0]);
      RunKeepsInv(Apply(s, steps[0]), steps[1..]);
    }
  }

  /** Some run leads to the state. */
  ghost predicate Reachable(nranks: nat, s: State)
    requires nranks > 0
  {
    exists steps {:trigger Possible(Initial(nranks), steps)} ::
      Possible(Initial(nranks), steps) && Run(Initial(nranks), steps) == s
  }

  lemma ReachableInv(nranks: nat, s: State)
    requires nranks > 0 && Reachable(nranks, s)
    ensures Inv(s)
  {
    var steps :| Possible(Initial(nranks), steps) && Run(Initial(nranks), steps) == s;
    InitialInv(nranks);
    RunKeepsInv(Initial(nranks), steps);
  }

  /** At every moment each rank has executed a prefix of one common sequence of calls, for either client. */
  lemma ExecutedPrefix(nranks: nat, s: State, c: Client, r: nat)
    requires nranks > 0 && Reachable(nranks, s) && r < |s.ranks|
    ensures Calls(Mine(c, s.ranks[r].executed)) <= s.Of(c).log
  {
    ReachableInv(nranks, s);
    assert Given(s.ranks[r], c, s.Of(c), r);
    MineItemsPrefix(c, Items(s.ranks[r].executed), s.ranks[r].queue);
    MineCalls(c, s.ranks[r].executed);
  }

  /** When an operation returns after collecting every rank, all ranks have executed the whole sequence. */
  lemma AgreeAfterCollecting(nranks: nat, s: State, c: Client, r: nat)
    requires nranks > 0 && Reachable(nranks, s) && r < |s.ranks| && s.Of(c).place == Idle(true)
    ensures Calls(Mine(c, s.ranks[r].executed)) == s.Of(c).log
  {
    ExecutedPrefix(nranks, s, c, r);
    ReachableInv(nranks, s);
    assert CaughtUp(s.ranks[r], c, |s.Of(c).log|);
  }

  /** No decoding step is ever given to any rank unless the allocation before it succeeded on every rank. */
  lemma DecodingIsGuarded(nranks: nat, s: State, k: nat, r: nat)
    requires nranks > 0 && Reachable(nranks, s) && r < |s.ranks|
    requires k < |s.engine.log| && s.engine.log[k].kind == RunTextGenerationContinue
    ensures k > 0 && s.engine.log[k - 1] == s.engine.log[k].(kind := AllocDecoderMemory)
    ensures Succeeded(s.ranks[r], Engine, k - 1)
  {
    ReachableInv(nranks, s);
    assert AllSucceeded(s.ranks, Engine, k - 1, |s.ranks|);
    assert Succeeded(s.ranks[r], Engine, k - 1);
  }

  lemma {:induction false} RunOneMore(s: State, steps: seq<Step>, step: Step)
    requires Possible(s, steps) && Enabled(Run(s, steps), step)
    ensures Possible(s, steps + [step]) && Run(s, steps + [step]) == Apply(Run(s, steps), step)
    decreases |steps|
  {
    if steps != [] {
      RunOneMore(Apply(s, steps[0]), steps[1..], step);
      assert (steps + [step])[1..] == steps[1..] + [step];
    } else {
      assert [] + [step] == [step];
    }
  }

  lemma ReachStep(nranks: nat, s: State, step: Step)
    requires nranks > 0 && Reachable(nranks, s) && Enabled(s, step)
    ensures Reachable(nranks, Apply(s, step))
  {
    var steps :| Possible(Initial(nranks), steps) && Run(Initial(nranks), steps) == s;
    RunOneMore(Initial(nranks), steps, step);
    assert Possible(Initial(nranks), steps + [step]);
  }

  // What does not hold: two ranks suffice.

  function Pair(q0: seq<Item>, d0: seq<Done>, q1: seq<Item>, engine: Session, lora: Session): State {
    State([Rank(q0, d0), Rank(q1, [])], engine, lora)
  }

  lemma PairStarts()
    ensures Reachable(2, Pair([], [], [], Session([], Idle(true)), Session([], Idle(true))))
  {
    var s := Initial(2);
    assert Possible(s, []) && Run(s, []) == s;
    assert s.ranks == [Rank([], []), Rank([], [])];
  }

  lemma PairBegins(s: State, op: Op, about: Subject)
    requires Reachable(2, s) && s.Of(op.Owner()) == Session([], Idle(true))
    ensures Reachable(2, s.With(op.Owner(), Session([CallOf(op, about, 0)], Issuing(op, about, 0, 0))))
  {
    ReachStep(2, s, Begin(op, about));
    assert [] + [CallOf(op, about, 0)] == [CallOf(op, about, 0)];
  }

  lemma PairIssues(q0: seq<Item>, q1: seq<Item>, engine: Session, lora: Session, c: Client)
    requires var s := Pair(q0, [], q1, engine, lora);
             Reachable(2, s) && s.Of(c).place.Issuing? && s.Of(c).place.i < 2
    ensures var s := Pair(q0, [], q1, engine, lora);
            var p := s.Of(c).place;
            var x := Item(c, p.Current());
            Reachable(2,
              (if p.i == 0 then Pair(q0 + [x], [], q1, engine, lora) else Pair(q0, [], q1 + [x], engine, lora))
              .With(c, s.Of(c).(place := p.Onward(2))))
  {
    var s := Pair(q0, [], q1, engine, lora);
    var p := s.Of(c).place;
    var x := Item(c, p.Current());
    ReachStep(2, s, Issue(c));
    if p.i == 0 {
      assert s.ranks[0 := Enqueued(s.ranks[0], x)] == [Rank(q0 + [x], []), Rank(q1, [])];
    } else {
      assert s.ranks[1 := Enqueued(s.ranks[1], x)] == [Rank(q0, []), Rank(q1 + [x], [])];
    }
  }

  /** After an early return the ranks need not agree: a failed allocation on rank 0 leaves rank 1 behind. */
  lemma StragglerAfterEarlyReturn(about: Subject)
    ensures var x := Item(Engine, Call(AllocDecoderMemory, about));
            var s := Pair([], [Done(x, Failure)], [x], Session([x.call], Idle(false)), Session([], Idle(true)));
            Reachable(2, s) && Calls(Mine(Engine, s.ranks[1].executed)) != s.engine.log
  {
    var rest, log := Session([], Idle(true)), [Call(AllocDecoderMemory, about)];
    var x := Item(Engine, log[0]);
    assert [] + [x] == [x];
    PairStarts();
    PairBegins(Pair([], [], [], rest, rest), Continue, about);
    PairIssues([], [], Session(log, Issuing(Continue, about, 0, 0)), rest, Engine);
    PairIssues([x], [], Session(log, Issuing(Continue, about, 0, 1)), rest, Engine);
    FailedAllocation(x, log, rest, about);
  }

  lemma FailedAllocation(x: Item, log: seq<Call>, rest: Session, about: Subject)
    requires x == Item(Engine, Call(AllocDecoderMemory, about)) && |log| == 1
    requires Reachable(2, Pair([x], [], [x], Session(log, Collecting(Continue, about, 0, 0)), rest))
    ensures Reachable(2, Pair([], [Done(x, Failure)], [x], Session(log, Idle(false)), rest))
  {
    var s := Pair([x], [], [x], Session(log, Collecting(Continue, about, 0, 0)), rest);
    var t := Pair([], [Done(x, Failure)], [x], Session(log, Collecting(Continue, about, 0, 0)), rest);
    ReachStep(2, s, Execute(0, Failure));
    assert [x][1..] == [] && [] + [Done(x, Failure)] == [Done(x, Failure)];
    assert Executed(s.ranks[0], Failure) == t.ranks[0];
    assert s.ranks[0 := Executed(s.ranks[0], Failure)] == t.ranks;
    MineGrows(Engine, [], Done(x, Failure));
    ReachStep(2, t, Collect(Engine));
  }

  // The two clients together.

  function Other(c: Client): Client {
    if c == Engine then Lora else Engine
  }

  /** Not both clients are giving out calls at once. */
  predicate OneIssuer(s: State) {
    !(s.engine.place.Issuing? && s.lora.place.Issuing?)
  }

  /** A run in which at no moment both clients are giving out calls. */
  predicate Alternating(s: State, steps: seq<Step>)
    requires Possible(s, steps)
    decreases |steps|
  {
    OneIssuer(s) && (steps == [] || Alternating(Apply(s, steps[0]), steps[1..]))
  }

  /** How far the calls of the one issuing client have come; all ranks if none is issuing. */
  function Front(s: State): nat {
    if s.engine.place.Issuing? then s.engine.place.i
    else if s.lora.place.Issuing? then s.lora.place.i
    else |s.ranks|
  }

  /** The last call of the merged log is the one being given out. */
  predicate LastIs(s: State, merged: seq<Item>, c: Client) {
    s.Of(c).place.Issuing? ==>
      s.Of(c).place.i < |s.ranks| && merged != [] && merged[|merged| - 1] == Item(c, s.Of(c).place.Current())
  }

  /** Every rank has been given the merged log, or all of it but the call that is still being given out. */
  ghost predicate OneLine(s: State, merged: seq<Item>) {
    && OneIssuer(s) && LastIs(s, merged, Engine) && LastIs(s, merged, Lora)
    && forall r {:trigger s.ranks[r]} :: 0 <= r < |s.ranks| ==>
         Line(s.ranks[r]) == if r < Front(s) then merged else merged[..|merged| - 1]
  }

  /** The call that a step opens, if any, goes to the end of the merged log. */
  function MergedAfter(merged: seq<Item>, s: State, step: Step): seq<Item>
    requires Enabled(s, step)
  {
    var t := Apply(s, step);
    if |t.engine.log| > |s.engine.log| then merged + [Item(Engine, t.engine.log[|t.engine.log| - 1])]
    else if |t.lora.log| > |s.lora.log| then merged + [Item(Lora, t.lora.log[|t.lora.log| - 1])]
    else merged
  }

  lemma OpenKeepsLine(s: State, t: State, merged: seq<Item>, c: Client)
    requires OneLine(s, merged) && s.ranks != [] && !s.Of(c).place.Issuing? && OneIssuer(t)
    requires t.ranks == s.ranks && t.Of(c).place.Issuing? && t.Of(c).place.i == 0
    requires t == s.With(c, t.Of(c))
    ensures OneLine(t, merged + [Item(c, t.Of(c).place.Current())])
  {
    var more := merged + [Item(c, t.Of(c).place.Current())];
    assert more[..|more| - 1] == merged;
    assert Front(s) == |s.ranks|;
  }

  lemma IssueKeepsLine(s: State, merged: seq<Item>, c: Client)
    requires OneLine(s, merged) && Enabled(s, Issue(c))
    ensures OneLine(Apply(s, Issue(c)), merged)
  {
    var p, t := s.Of(c).place, Apply(s, Issue(c));
    var x := Item(c, p.Current());
    assert LastIs(s, merged, c);
    assert Line(t.ranks[p.i]) == Line(s.ranks[p.i]) + [x];
    assert merged == merged[..|merged| - 1] + [x];
    assert Front(t) == p.i + 1;
  }

  lemma ExecuteKeepsOneLine(s: State, merged: seq<Item>, r: nat, outcome: Outcome)
    requires OneLine(s, merged) && Enabled(s, Execute(r, outcome))
    ensures OneLine(Apply(s, Execute(r, outcome)), merged)
  {
    ExecuteKeepsLine(s.ranks[r], outcome);
  }

  /** Collecting an answer changes the client's session only, and opens at most one more call. */
  lemma CollectOpens(s: State, c: Client)
    requires Enabled(s, Collect(c))
    ensures var t, before := Apply(s, Collect(c)), s.Of(c);
            var after := t.Of(c);
            && t == s.With(c, after) && t.Of(Other(c)) == s.Of(Other(c))
            && if after.place.Issuing? then after.log == before.log + [after.place.Current()] && after.place.i == 0
               else after.log == before.log
  {
  }

  lemma CollectKeepsOneLine(s: State, c: Client, merged: seq<Item>)
    requires Inv(s) && OneLine(s, merged) && Enabled(s, Collect(c)) && OneIssuer(Apply(s, Collect(c)))
    ensures OneLine(Apply(s, Collect(c)), MergedAfter(merged, s, Collect(c)))
  {
    CollectOpens(s, c);
    var t := Apply(s, Collect(c));
    if t.Of(c).place.Issuing? {
      OpenKeepsLine(s, t, merged, c);
    } else {
      SameFront(s, t, merged, c);
    }
  }

  lemma SameFront(s: State, t: State, merged: seq<Item>, c: Client)
    requires OneLine(s, merged) && !s.Of(c).place.Issuing? && !t.Of(c).place.Issuing?
    requires t == s.With(c, t.Of(c))
    ensures OneLine(t, merged)
  {
    assert t.ranks == s.ranks && t.Of(Other(c)) == s.Of(Other(c));
    assert Front(t) == Front(s);
  }

  lemma StepKeepsOneLine(s: State, step: Step, merged: seq<Item>)
    requires Inv(s) && OneLine(s, merged) && Enabled(s, step) && OneIssuer(Apply(s, step))
    ensures OneLine(Apply(s, step), MergedAfter(merged, s, step))
  {
    var t := Apply(s, step);
    match step
    case Begin(op, about) => OpenKeepsLine(s, t, merged, op.Owner());
    case Issue(c) => IssueKeepsLine(s, merged, c);
    case Execute(r, outcome) => ExecuteKeepsOneLine(s, merged, r, outcome);
    case Collect(c) => CollectKeepsOneLine(s, c, merged);
  }

  lemma {:induction false} AlternatingOneLine(s: State, steps: seq<Step>, merged: seq<Item>) returns (more: seq<Item>)
    requires Inv(s) && OneLine(s, merged) && Possible(s, steps) && Alternating(s, steps)
    ensures merged <= more && OneLine(Run(s, steps), more)
    decreases |steps|
  {
    if steps == [] {
      more := merged;
    } else {
      StepKeepsInv(s, steps[0]);
      StepKeepsOneLine(s, steps[0], merged);
      more := AlternatingOneLine(Apply(s, steps[0]), steps[1..], MergedAfter(merged, s, steps[0]));
    }
  }

  /** Two ranks have been given calls in orders of which neither continues the other. */
  ghost predicate Disagree(s: State) {
    exists a, b {:trigger s.ranks[a], s.ranks[b]} :: 0 <= a < |s.ranks| && 0 <= b < |s.ranks|
      && !(Line(s.ranks[a]) <= Line(s.ranks[b])) && !(Line(s.ranks[b]) <= Line(s.ranks[a]))
  }

  /**
    In every run in which no client gives out calls while the other does, there is one sequence of the calls of
    both, and every rank has been given, and so executes, a first part of it: no two ranks disagree.
   */
  lemma AlternatingRunsAgree(nranks: nat, steps: seq<Step>) returns (merged: seq<Item>)
    requires nranks > 0 && Possible(Initial(nranks), steps) && Alternating(Initial(nranks), steps)
    ensures var s := Run(Initial(nranks), steps);
            && !Disagree(s)
            && forall r {:trigger s.ranks[r]} :: 0 <= r < |s.ranks| ==>
                 Line(s.ranks[r]) <= merged && Items(s.ranks[r].executed) <= merged
  {
    InitialInv(nranks);
    assert forall r :: 0 <= r < nranks ==> Line(Initial(nranks).ranks[r]) == [];
    merged := AlternatingOneLine(Initial(nranks), steps, []);
    var s := Run(Initial(nranks), steps);
    forall r | 0 <= r < |s.ranks|
      ensures Line(s.ranks[r]) <= merged && Items(s.ranks[r].executed) <= merged
    {
      assert Items(s.ranks[r].executed) <= Line(s.ranks[r]);
    }
  }

  /** The engine is in the first of its operation's two phases, and may go on to give out the calls of the second. */
  predicate OpensAgain(p: Place) {
    !p.Idle? && p.op == Continue && p.phase == 0
  }

  /** A test before an operation begins: the other client is not giving out calls, nor about to. */
  predicate Guarded(s: State, step: Step) {
    step.Begin? ==>
      var other := s.Of(Other(step.op.Owner())).place; !other.Issuing? && !OpensAgain(other)
  }

  predicate GuardedRun(s: State, steps: seq<Step>)
    requires Possible(s, steps)
    decreases |steps|
  {
    steps == [] || (Guarded(s, steps[0]) && GuardedRun(Apply(s, steps[0]), steps[1..]))
  }

  /** While one client gives out calls the other neither does nor is about to. */
  ghost predicate Calm(s: State) {
    && OneIssuer(s)
    && (s.lora.place.Issuing? ==> !OpensAgain(s.engine.place))
    && (s.engine.place.Issuing? ==> !OpensAgain(s.lora.place))
  }

  lemma GuardKeepsCalm(s: State, step: Step)
    requires Inv(s) && Calm(s) && Enabled(s, step) && Guarded(s, step)
    ensures Calm(Apply(s, step))
  {
  }

  /** The test before each operation is enough: such runs are alternating, and so all ranks agree in them. */
  lemma {:induction false} GuardedRunsAlternate(s: State, steps: seq<Step>)
    requires Inv(s) && Calm(s) && Possible(s, steps) && GuardedRun(s, steps)
    ensures Alternating(s, steps)
    decreases |steps|
  {
    if steps != [] {
      StepKeepsInv(s, steps[0]);
      GuardKeepsCalm(s, steps[0]);
      GuardedRunsAlternate(Apply(s, steps[0]), steps[1..]);
    }
  }

  // The converse: whenever both are giving out calls, they may come to two ranks in different orders.

  /** The client gives its call to every rank up to j. */
  lemma {:induction false} IssueThrough(s: State, c: Client, j: nat) returns (steps: seq<Step>)
    requires s.Of(c).place.Issuing? && s.Of(c).place.i <= j < |s.ranks|
    ensures Possible(s, steps)
    ensures var t, p := Run(s, steps), s.Of(c).place;
            && |t.ranks| == |s.ranks| && t.Of(Other(c)) == s.Of(Other(c)) && t.Of(c).log == s.Of(c).log
            && (t.Of(c).place.Issuing? ==> t.Of(c).place.i == j + 1)
            && forall r {:trigger t.ranks[r]} :: 0 <= r < |t.ranks| ==>
                 t.ranks[r] == if p.i <= r <= j then Enqueued(s.ranks[r], Item(c, p.Current())) else s.ranks[r]
    decreases j - s.Of(c).place.i
  {
    var t := Apply(s, Issue(c));
    if s.Of(c).place.i == j {
      steps := [Issue(c)];
      assert steps[1..] == [];
      assert Possible(t, []) && Run(t, []) == t;
      assert Run(s, steps) == t;
    } else {
      var rest := IssueThrough(t, c, j);
      steps := [Issue(c)] + rest;
      assert steps[1..] == rest;
      assert Run(s, steps) == Run(t, rest);
    }
  }

  lemma {:induction false} ProjectionsFill(items: seq<Item>)
    ensures |MineItems(Engine, items)| + |MineItems(Lora, items)| == |items|
  {
    if items != [] {
      ProjectionsFill(items[..|items| - 1]);
    }
  }

  /** A line that ends with a call of c does not continue a line that already has as many calls of c. */
  lemma EndsOtherwise(c: Client, a: seq<Item>, x: Item, b: seq<Item>)
    requires x.client == c && |b| == |a| && |MineItems(c, a + [x])| == |MineItems(c, b)|
    ensures !(b <= a + [x]) && !(a + [x] <= b)
  {
    MineItemsGrows(c, a, x);
    assert (a + [x])[..|a|] == a;
  }

  /** Rank i has been given one call more than rank j, of the other client, and yet ends with a call of c. */
  lemma LinesDisagree(t: State, c: Client, i: nat, j: nat, a: seq<Item>, x: Item)
    requires Inv(t) && i < |t.ranks| && j < |t.ranks| && x.client == c && Line(t.ranks[i]) == a + [x]
    requires Issued(t.Of(c), i) == Issued(t.Of(c), j)
    requires Issued(t.Of(Other(c)), i) == Issued(t.Of(Other(c)), j) + 1
    ensures Disagree(t)
  {
    var b := Line(t.ranks[j]);
    assert Given(t.ranks[i], Engine, t.engine, i) && Given(t.ranks[i], Lora, t.lora, i);
    assert Given(t.ranks[j], Engine, t.engine, j) && Given(t.ranks[j], Lora, t.lora, j);
    ProjectionsFill(a + [x]);
    ProjectionsFill(b);
    EndsOtherwise(c, a, x, b);
  }

  /** If c is behind the other, then giving its call to the rank that the other serves next makes two ranks disagree. */
  lemma OvertakeDisagrees(s: State, c: Client) returns (steps: seq<Step>)
    requires Inv(s) && s.engine.place.Issuing? && s.lora.place.Issuing?
    requires s.Of(c).place.i < s.Of(Other(c)).place.i
    ensures Possible(s, steps) && Disagree(Run(s, steps))
  {
    var i, j := s.Of(c).place.i, s.Of(Other(c)).place.i;
    steps := IssueThrough(s, c, j);
    var t, x := Run(s, steps), Item(c, s.Of(c).place.Current());
    RunKeepsInv(s, steps);
    assert Line(t.ranks[i]) == Line(s.ranks[i]) + [x];
    LinesDisagree(t, c, i, j, Line(s.ranks[i]), x);
  }

  /** A rank that both have served has been given some call. */
  lemma ServedNotEmpty(s: State, r: nat)
    requires Inv(s) && r < |s.ranks| && Issued(s.engine, r) + Issued(s.lora, r) > 0
    ensures Line(s.ranks[r]) != []
  {
    assert Given(s.ranks[r], Engine, s.engine, r) && Given(s.ranks[r], Lora, s.lora, r);
  }

  /** Both are about to serve the last rank, which then gets first the call that rank 0 got last. */
  lemma LastRankDisagrees(s: State) returns (steps: seq<Step>)
    requires Inv(s) && |s.ranks| > 1 && s.engine.place.Issuing? && s.lora.place.Issuing?
    requires s.engine.place.i == s.lora.place.i == |s.ranks| - 1
    ensures Possible(s, steps) && Disagree(Run(s, steps))
  {
    ServedNotEmpty(s, 0);
    var j, a := |s.ranks| - 1, Line(s.ranks[0]);
    var x := a[|a| - 1];
    steps := IssueThrough(s, x.client, j);
    var t := Run(s, steps);
    RunKeepsInv(s, steps);
    assert t.ranks[0] == s.ranks[0] && a == a[..|a| - 1] + [x];
    LinesDisagree(t, x.client, 0, j, a[..|a| - 1], x);
  }

  /**
    From every reachable state in which both clients are giving out calls to two or more ranks, some continuation
    makes two ranks disagree about the order of the two calls.
   */
  lemma BothIssuingMayDisagree(nranks: nat, s: State) returns (steps: seq<Step>)
    requires nranks > 1 && Reachable(nranks, s) && !OneIssuer(s)
    ensures Possible(s, steps) && Disagree(Run(s, steps))
  {
    ReachableInv(nranks, s);
    RanksStay(nranks, s);
    var i, j := s.engine.place.i, s.lora.place.i;
    if i < j {
      steps := OvertakeDisagrees(s, Engine);
    } else if j < i {
      steps := OvertakeDisagrees(s, Lora);
    } else if i < nranks - 1 {
      var t := Apply(s, Issue(Engine));
      IssueKeepsInv(s, Engine);
      var rest := OvertakeDisagrees(t, Lora);
      steps := [Issue(Engine)] + rest;
      assert steps[1..] == rest;
      assert Run(s, steps) == Run(t, rest);
    } else {
      steps := LastRankDisagrees(s);
    }
  }

  lemma {:induction false} RunKeepsRanks(s: State, steps: seq<Step>)
    requires Possible(s, steps)
    ensures |Run(s, steps).ranks| == |s.ranks|
    decreases |steps|
  {
    if steps != [] {
      RunKeepsRanks(Apply(s, steps[0]), steps[1..]);
    }
  }

  lemma RanksStay(nranks: nat, s: State)
    requires nranks > 0 && Reachable(nranks, s)
    ensures |s.ranks| == nranks
  {
    var steps :| Possible(Initial(nranks), steps) && Run(Initial(nranks), steps) == s;
    RunKeepsRanks(Initial(nranks), steps);
  }

  /** Nothing keeps both from giving out calls at once: any LoRA operation may begin beside any engine operation. */
  lemma BothMayIssue(op: Op, about: Subject, lora: Op, name: Subject)
    requires op.Owner() == Engine && lora.Owner() == Lora
    ensures exists s :: Reachable(2, s) && !OneIssuer(s)
  {
    var rest := Session([], Idle(true));
    PairStarts();
    PairBegins(Pair([], [], [], rest, rest), op, about);
    var s := Pair([], [], [], Session([CallOf(op, about, 0)], Issuing(op, about, 0, 0)), rest);
    PairBegins(s, lora, name);
  }
}
