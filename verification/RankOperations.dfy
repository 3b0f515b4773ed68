/** What each operation makes of the ranks over a run: the calls it gives out, and when it returns. */
module RankOperations {
  import opened RankPool

  // When an operation returns.

  /** An answer that ends the operation whose call it is: the rest of the ranks are not waited for. */
  ghost predicate Ends(kind: Kind, outcome: Outcome) {
    match kind
    case AllocDecoderMemory => outcome in {Failure, MemoryThrow, OtherThrow}
    case RunTextGenerationContinue => outcome == MemoryThrow
    case LoadLoraByName => outcome in {Failure, MemoryThrow, OtherThrow}
    case UnloadLoraByName => outcome in {Failure, MemoryThrow, OtherThrow}
    case RunTextGenerationContext => false
    case StopRequest => false
    case ReleaseRequest => false
    case StartRequest => false
  }

  /** Rank r has answered the client's last call with an answer that ends its operation. */
  ghost predicate Broken(rank: Rank, c: Client, log: seq<Call>) {
    && 0 < |log| <= |Mine(c, rank.executed)|
    && Ends(log[|log| - 1].kind, Mine(c, rank.executed)[|log| - 1].outcome)
  }

  ghost predicate NoneBroken(ranks: seq<Rank>, c: Client, log: seq<Call>, upTo: nat) {
    forall r {:trigger ranks[r]} :: 0 <= r < |ranks| && r < upTo ==> !Broken(ranks[r], c, log)
  }

  ghost predicate SomeBroken(ranks: seq<Rank>, c: Client, log: seq<Call>) {
    exists r {:trigger ranks[r]} :: 0 <= r < |ranks| && Broken(ranks[r], c, log)
  }

  /** Ranks whose answer has been collected let the operation go on; one that returned early met one that did not. */
  ghost predicate ReturnOk(ranks: seq<Rank>, c: Client, session: Session) {
    match session.place
    case Idle(all) => if all then NoneBroken(ranks, c, session.log, |ranks|) else SomeBroken(ranks, c, session.log)
    case Issuing(_, _, _, _) => true
    case Collecting(_, _, _, i) => NoneBroken(ranks, c, session.log, i)
  }

  ghost predicate ReturnsOk(s: State) {
    ReturnOk(s.ranks, Engine, s.engine) && ReturnOk(s.ranks, Lora, s.lora)
  }

  /** A rank that has executed the last call of a client keeps its answer. */
  lemma LaterKeepsReturn(ranks: seq<Rank>, next: seq<Rank>, c: Client, session: Session)
    requires Later(ranks, next, c) && PlaceOk(ranks, c, session) && ReturnOk(ranks, c, session)
    ensures ReturnOk(next, c, session)
  {
    forall r | 0 <= r < |ranks| && CaughtUp(ranks[r], c, |session.log|)
      ensures Broken(next[r], c, session.log) <==> Broken(ranks[r], c, session.log)
    {
      assert Mine(c, ranks[r].executed) <= Mine(c, next[r].executed);
    }
    if session.place == Idle(false) {
      var r :| 0 <= r < |ranks| && Broken(ranks[r], c, session.log);
      assert Broken(next[r], c, session.log);
    }
  }

  lemma StepLater(s: State, step: Step, c: Client)
    requires Enabled(s, step)
    ensures Later(s.ranks, Apply(s, step).ranks, c)
  {
    if step.Execute? {
      MineGrows(c, s.ranks[step.r].executed, Done(s.ranks[step.r].queue[0], step.outcome));
    }
  }

  lemma CollectKeepsReturn(ranks: seq<Rank>, c: Client, session: Session, outcome: Outcome)
    requires PlaceOk(ranks, c, session) && session.place.Collecting? && ReturnOk(ranks, c, session)
    requires |session.log| <= |Mine(c, ranks[session.place.i].executed)|
    requires outcome == Mine(c, ranks[session.place.i].executed)[|session.log| - 1].outcome
    ensures ReturnOk(ranks, c, Answered(session, |ranks|, outcome))
  {
    var p := session.place;
    assert session.log[|session.log| - 1] == p.Current();
    assert Broken(ranks[p.i], c, session.log) <==> ReturnsEarly(p.op, p.phase, outcome);
  }

  lemma {:induction false} ReturnsAlwaysOk(s: State, steps: seq<Step>)
    requires Inv(s) && ReturnsOk(s) && Possible(s, steps)
    ensures ReturnsOk(Run(s, steps))
    decreases |steps|
  {
    if steps != [] {
      StepKeepsInv(s, steps[0]);
      StepKeepsReturns(s, steps[0]);
      ReturnsAlwaysOk(Apply(s, steps[0]), steps[1..]);
    }
  }

  /** A step collects the session's answer, takes the session on, or leaves it alone. */
  lemma SessionKeepsReturn(s: State, step: Step, c: Client)
    requires Inv(s) && ReturnOk(s.ranks, c, s.Of(c)) && Enabled(s, step)
    ensures ReturnOk(Apply(s, step).ranks, c, Apply(s, step).Of(c))
  {
    var session, next := s.Of(c), Apply(s, step).Of(c);
    if step == Collect(c) {
      CollectKeepsReturn(s.ranks, c, session,
                         Mine(c, s.ranks[session.place.i].executed)[|session.log| - 1].outcome);
    } else if next == session {
      StepLater(s, step, c);
      LaterKeepsReturn(s.ranks, Apply(s, step).ranks, c, session);
    } else {
      assert next.place.Issuing? || (next.place.Collecting? && next.place.i == 0);
    }
  }

  lemma StepKeepsReturns(s: State, step: Step)
    requires Inv(s) && ReturnsOk(s) && Enabled(s, step)
    ensures ReturnsOk(Apply(s, step))
  {
    SessionKeepsReturn(s, step, Engine);
    SessionKeepsReturn(s, step, Lora);
  }

  /**
    In every run, when an operation has returned it has collected all ranks exactly if none of them answered its last
    call with an error that ends it: stopping, releasing, starting and the context phase always collect all.
   */
  lemma ReturnedEarlyIff(nranks: nat, s: State, c: Client)
    requires nranks > 0 && Reachable(nranks, s) && s.Of(c).place.Idle?
    ensures s.Of(c).place == Idle(true) <==> !SomeBroken(s.ranks, c, s.Of(c).log)
  {
    var steps :| Possible(Initial(nranks), steps) && Run(Initial(nranks), steps) == s;
    InitialInv(nranks);
    ReturnsAlwaysOk(Initial(nranks), steps);
  }

  // The calls of an operation.

  datatype Begun = Begun(op: Op, about: Subject)

  /** The operation the client begins by the step, if any: loading and unloading LoRAs, or all others. */
  function OperationOf(step: Step, c: Client): seq<Begun> {
    if step.Begin? && (c == Lora <==> step.op in {LoadLora, UnloadLora}) then [Begun(step.op, step.about)] else []
  }

  /** The operations that the client has begun in a run. */
  function Operations(steps: seq<Step>, c: Client): seq<Begun> {
    if steps == [] then [] else OperationOf(steps[0], c) + Operations(steps[1..], c)
  }

  /** The calls of one operation: decoding has two phases, of which the second may not be reached. */
  ghost predicate CallsFor(b: Begun, calls: seq<Call>) {
    match b.op
    case Continue =>
      || calls == [Call(AllocDecoderMemory, b.about)]
      || calls == [Call(AllocDecoderMemory, b.about), Call(RunTextGenerationContinue, b.about)]
    case Context => calls == [Call(RunTextGenerationContext, b.about)]
    case Stop => calls == [Call(StopRequest, b.about)]
    case Release => calls == [Call(ReleaseRequest, b.about)]
    case Start => calls == [Call(StartRequest, b.about)]
    case LoadLora => calls == [Call(LoadLoraByName, b.about)]
    case UnloadLora => calls == [Call(UnloadLoraByName, b.about)]
  }

  /** The log is the calls of the operations, one after the other; the last operation's begin at position k. */
  ghost predicate LogOf(ops: seq<Begun>, log: seq<Call>)
    decreases |ops|
  {
    if ops == [] then log == []
    else
      var m := |ops| - 1;
      exists k: nat {:trigger log[..k]} ::
        k <= |log| && CallsFor(ops[m], log[k..]) && LogOf(ops[..m], log[..k])
  }

  /** In the first phase the last operation has one call in the log. */
  ghost predicate SessionLog(ops: seq<Begun>, session: Session) {
    var log, p := session.log, session.place;
    && LogOf(ops, log)
    && (!p.Idle? ==>
          && p.phase <= 1 && (p.phase == 1 ==> p.op == Continue)
          && ops != [] && ops[|ops| - 1] == Begun(p.op, p.about)
          && (p.phase == 0 ==>
                && log != [] && CallsFor(ops[|ops| - 1], log[|log| - 1..])
                && LogOf(ops[..|ops| - 1], log[..|log| - 1])))
  }

  lemma LogMore(ops: seq<Begun>, log: seq<Call>, b: Begun, calls: seq<Call>)
    requires LogOf(ops, log) && CallsFor(b, calls)
    ensures LogOf(ops + [b], log + calls)
    ensures (ops + [b])[..|ops|] == ops && (log + calls)[..|log|] == log && (log + calls)[|log|..] == calls
  {
    assert LogOf((ops + [b])[..|ops|], (log + calls)[..|log|]) by {
      assert (ops + [b])[..|ops|] == ops && (log + calls)[..|log|] == log;
    }
    assert (log + calls)[|log|..] == calls;
  }

  lemma BeginKeepsLog(ops: seq<Begun>, session: Session, op: Op, about: Subject)
    requires SessionLog(ops, session) && session.place.Idle?
    ensures SessionLog(ops + [Begun(op, about)], Opened(session, op, about, 0))
  {
    LogMore(ops, session.log, Begun(op, about), [CallOf(op, about, 0)]);
  }

  /** The second call joins the first as those of the last operation. */
  lemma LogSecond(ops: seq<Begun>, log: seq<Call>, b: Begun, about: Subject)
    requires LogOf(ops, log) && b == Begun(Continue, about)
    ensures var first, second := Call(AllocDecoderMemory, about), Call(RunTextGenerationContinue, about);
            LogOf(ops + [b], log + [first] + [second])
  {
    var calls := [Call(AllocDecoderMemory, about), Call(RunTextGenerationContinue, about)];
    LogMore(ops, log, b, calls);
    assert log + calls == log + [calls[0]] + [calls[1]];
  }

  lemma SecondPhaseKeepsLog(ops: seq<Begun>, session: Session)
    requires SessionLog(ops, session) && session.place.Collecting?
    requires session.place.op == Continue && session.place.phase == 0
    ensures SessionLog(ops, Opened(session, Continue, session.place.about, 1))
  {
    var log, m, about := session.log, |ops| - 1, session.place.about;
    var earlier := log[..|log| - 1];
    assert log == earlier + [Call(AllocDecoderMemory, about)] by {
      assert log[|log| - 1..] == [Call(AllocDecoderMemory, about)];
      assert log == earlier + log[|log| - 1..];
    }
    LogSecond(ops[..m], earlier, ops[m], about);
    assert ops[..m] + [ops[m]] == ops;
  }

  /** Going on to the next rank, or returning, adds no call. */
  ghost predicate SameCall(session: Session, next: Session) {
    && next.log == session.log
    && (next.place.Idle? || next.place == session.place
        || (!session.place.Idle? && next.place.op == session.place.op && next.place.about == session.place.about
            && next.place.phase == session.place.phase))
  }

  lemma SameCallKeepsLog(ops: seq<Begun>, session: Session, next: Session)
    requires SessionLog(ops, session) && SameCall(session, next)
    ensures SessionLog(ops, next)
  {
  }

  /** A step of the client begins an operation or its second phase, or adds no call; other steps leave it alone. */
  lemma StepOf(s: State, step: Step, c: Client)
    requires Enabled(s, step)
    ensures var session, next := s.Of(c), Apply(s, step).Of(c);
            || (step.Begin? && c == step.op.Owner() && session.place.Idle?
                && next == Opened(session, step.op, step.about, 0))
            || (OperationOf(step, c) == [] && session.place.Collecting? && session.place.op == Continue
                && session.place.phase == 0 && next == Opened(session, Continue, session.place.about, 1))
            || (OperationOf(step, c) == [] && SameCall(session, next))
  {
  }

  lemma NothingMore(ops: seq<Begun>)
    ensures ops + [] == ops
  {
  }

  lemma StepKeepsLog(s: State, step: Step, c: Client, ops: seq<Begun>)
    requires Enabled(s, step) && SessionLog(ops, s.Of(c))
    ensures SessionLog(ops + OperationOf(step, c), Apply(s, step).Of(c))
  {
    StepOf(s, step, c);
    NothingMore(ops);
    if step.Begin? && c == step.op.Owner() {
      BeginKeepsLog(ops, s.Of(c), step.op, step.about);
    } else if SameCall(s.Of(c), Apply(s, step).Of(c)) {
      SameCallKeepsLog(ops, s.Of(c), Apply(s, step).Of(c));
    } else {
      SecondPhaseKeepsLog(ops, s.Of(c));
    }
  }

  lemma OneAfterAnother(a: seq<Begun>, b: seq<Begun>, c: seq<Begun>)
    ensures a + b + c == a + (b + c)
  {
  }

  lemma {:induction false} RunKeepsLog(s: State, steps: seq<Step>, c: Client, ops: seq<Begun>)
    requires Possible(s, steps) && SessionLog(ops, s.Of(c))
    ensures SessionLog(ops + Operations(steps, c), Run(s, steps).Of(c))
    decreases |steps|
  {
    if steps == [] {
      NothingMore(ops);
    } else {
      StepKeepsLog(s, steps[0], c, ops);
      RunKeepsLog(Apply(s, steps[0]), steps[1..], c, ops + OperationOf(steps[0], c));
      OneAfterAnother(ops, OperationOf(steps[0], c), Operations(steps[1..], c));
    }
  }

  /** In every run each client's log is exactly the calls of the operations it began, in their order. */
  lemma LogIsOperations(nranks: nat, steps: seq<Step>, c: Client)
    requires nranks > 0 && Possible(Initial(nranks), steps)
    ensures LogOf(Operations(steps, c), Run(Initial(nranks), steps).Of(c).log)
  {
    RunKeepsLog(Initial(nranks), steps, c, []);
    assert [] + Operations(steps, c) == Operations(steps, c);
  }
}
