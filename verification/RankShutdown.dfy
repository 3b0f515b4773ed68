/**
  The end of the ranks' worker pool: the flag that each worker looks at between two calls, the wake-up messages
  of the destructor, and what is left of the queues when all workers have gone.
 */
module RankShutdown {
  import opened RankPool

  /** A worker looks at the flag, then waits for the next message of its queue, and runs it. */
  datatype Worker = Looking | Waiting | Exited

  /**
    The ranks and clients, the workers, whether the flag is set, how many ranks the destructor has sent a wake-up
    message, and whose queue ends with one.
   */
  datatype Pool = Pool(s: State, workers: seq<Worker>, stopping: bool, woken: nat, signals: seq<bool>)

  datatype Move =
    | Act(step: Step)
    | Look(r: nat)
    | Halt
    | Wake
    | TakeSignal(r: nat)

  function Fresh(nranks: nat): Pool
    requires nranks > 0
  {
    Resting(Initial(nranks))
  }

  /** No worker waits and none has been told to stop. */
  function Resting(s: State): Pool {
    Pool(s, seq(|s.ranks|, i => Looking), false, 0, seq(|s.ranks|, i => false))
  }

  /** A pool that has been told to stop takes no more calls; a worker runs what it finds after it has looked. */
  predicate CanAct(p: Pool, step: Step) {
    && Enabled(p.s, step)
    && (step.Begin? || step.Issue? ==> !p.stopping)
    && (step.Execute? ==> step.r < |p.workers| && p.workers[step.r] == Waiting)
  }

  predicate CanMove(p: Pool, m: Move) {
    match m
    case Act(step) => CanAct(p, step)
    case Look(r) => r < |p.workers| && p.workers[r] == Looking
    case Halt => !p.stopping
    case Wake => p.stopping && p.woken < |p.signals|
    case TakeSignal(r) =>
      && r < |p.workers| && r < |p.signals| && r < |p.s.ranks|
      && p.workers[r] == Waiting && p.signals[r] && p.s.ranks[r].queue == []
  }

  function Moved(p: Pool, m: Move): Pool
    requires CanMove(p, m)
  {
    match m
    case Act(step) =>
      var next := p.(s := Apply(p.s, step));
      if step.Execute? then next.(workers := p.workers[step.r := Looking]) else next
    case Look(r) => p.(workers := p.workers[r := if p.stopping then Exited else Waiting])
    case Halt => p.(stopping := true)
    case Wake => p.(woken := p.woken + 1, signals := p.signals[p.woken := true])
    case TakeSignal(r) => p.(workers := p.workers[r := Looking], signals := p.signals[r := false])
  }

  predicate CanRun(p: Pool, moves: seq<Move>)
    decreases |moves|
  {
    moves == [] || (CanMove(p, moves[0]) && CanRun(Moved(p, moves[0]), moves[1..]))
  }

  function After(p: Pool, moves: seq<Move>): Pool
    requires CanRun(p, moves)
    decreases |moves|
  {
    if moves == [] then p else After(Moved(p, moves[0]), moves[1..])
  }

  predicate Gone(p: Pool, r: nat) {
    r < |p.workers| && p.workers[r] == Exited
  }

  predicate AllGone(p: Pool) {
    forall r {:trigger p.workers[r]} :: 0 <= r < |p.workers| ==> p.workers[r] == Exited
  }

  /** Nobody leaves before the flag is set, and whoever still waits after being woken has the message ahead. */
  ghost predicate PoolOk(p: Pool) {
    && |p.workers| == |p.s.ranks| && |p.signals| == |p.s.ranks| && p.woken <= |p.s.ranks|
    && (p.woken > 0 ==> p.stopping)
    && (forall r {:trigger p.signals[r]} :: 0 <= r < |p.signals| ==> (p.signals[r] ==> r < p.woken))
    && (forall r {:trigger p.workers[r]} :: 0 <= r < |p.workers| ==> (p.workers[r] == Exited ==> p.stopping))
    && (forall r {:trigger p.workers[r]} :: 0 <= r < p.woken ==> (p.workers[r] == Waiting ==> p.signals[r]))
  }

  lemma ActKeepsRanks(s: State, step: Step)
    requires Enabled(s, step)
    ensures |Apply(s, step).ranks| == |s.ranks|
    ensures step.Begin? || step.Collect? ==> Apply(s, step).ranks == s.ranks
  {
  }

  lemma MoveKeepsOk(p: Pool, m: Move)
    requires PoolOk(p) && CanMove(p, m)
    ensures PoolOk(Moved(p, m)) && (p.stopping ==> Moved(p, m).stopping)
  {
    if m.Act? {
      ActKeepsRanks(p.s, m.step);
    }
  }

  lemma {:induction false} RunKeepsOk(p: Pool, moves: seq<Move>)
    requires PoolOk(p) && CanRun(p, moves)
    ensures PoolOk(After(p, moves))
    decreases |moves|
  {
    if moves != [] {
      MoveKeepsOk(p, moves[0]);
      RunKeepsOk(Moved(p, moves[0]), moves[1..]);
    }
  }

  // A pool only runs its clients' and ranks' own steps, so that all that is proved of these holds to the end.

  lemma {:induction false} RunsProject(nranks: nat, p: Pool, moves: seq<Move>)
    requires nranks > 0 && Reachable(nranks, p.s) && CanRun(p, moves)
    ensures Reachable(nranks, After(p, moves).s)
    decreases |moves|
  {
    if moves != [] {
      if moves[0].Act? {
        ReachStep(nranks, p.s, moves[0].step);
      }
      RunsProject(nranks, Moved(p, moves[0]), moves[1..]);
    }
  }

  lemma FreshReached(nranks: nat)
    requires nranks > 0
    ensures Reachable(nranks, Fresh(nranks).s) && PoolOk(Fresh(nranks))
  {
    assert Possible(Initial(nranks), []) && Run(Initial(nranks), []) == Initial(nranks);
  }

  /** At every moment, and so when all workers have gone, each rank has executed a prefix of each client's calls. */
  lemma StoppedPrefix(nranks: nat, moves: seq<Move>, c: Client, r: nat)
    requires nranks > 0 && CanRun(Fresh(nranks), moves) && r < |After(Fresh(nranks), moves).s.ranks|
    ensures var s := After(Fresh(nranks), moves).s;
            Calls(Mine(c, s.ranks[r].executed)) <= s.Of(c).log
  {
    FreshReached(nranks);
    RunsProject(nranks, Fresh(nranks), moves);
    ExecutedPrefix(nranks, After(Fresh(nranks), moves).s, c, r);
  }

  // What a stopping pool still does.

  /** Of its queue a rank runs at most the first call, and only if its worker was already waiting for it. */
  ghost predicate RankFollows(was: Worker, before: Rank, now: Worker, after: Rank) {
    if was == Waiting && now != Waiting && before.queue != []
    then exists outcome :: after == Executed(before, outcome)
    else after == before && (now == Waiting ==> was == Waiting)
  }

  ghost predicate Follows(p: Pool, q: Pool) {
    && |q.workers| == |p.workers| && |q.s.ranks| == |p.s.ranks| && |p.workers| == |p.s.ranks|
    && forall r {:trigger q.workers[r]} :: 0 <= r < |p.workers| ==>
         RankFollows(p.workers[r], p.s.ranks[r], q.workers[r], q.s.ranks[r])
  }

  lemma MoveFollows(p: Pool, q: Pool, m: Move)
    requires Follows(p, q) && PoolOk(q) && q.stopping && CanMove(q, m)
    ensures Follows(p, Moved(q, m))
  {
    if m.Act? {
      ActKeepsRanks(q.s, m.step);
    }
    var q' := Moved(q, m);
    forall r | 0 <= r < |p.workers|
      ensures RankFollows(p.workers[r], p.s.ranks[r], q'.workers[r], q'.s.ranks[r])
    {
      assert RankFollows(p.workers[r], p.s.ranks[r], q.workers[r], q.s.ranks[r]);
    }
  }

  lemma {:induction false} RunFollows(p: Pool, q: Pool, moves: seq<Move>)
    requires Follows(p, q) && PoolOk(q) && q.stopping && CanRun(q, moves)
    ensures Follows(p, After(q, moves))
    decreases |moves|
  {
    if moves != [] {
      MoveFollows(p, q, moves[0]);
      MoveKeepsOk(q, moves[0]);
      RunFollows(p, Moved(q, moves[0]), moves[1..]);
    }
  }

  /**
    When a worker has gone, its queue is exactly what it was at the stop, but for the first call if the worker was
    already waiting then.
   */
  lemma LeftExactly(p: Pool, moves: seq<Move>, r: nat)
    requires PoolOk(p) && p.stopping && CanRun(p, moves) && r < |p.workers| && Gone(After(p, moves), r)
    ensures r < |After(p, moves).s.ranks|
    ensures var before, after := p.s.ranks[r], After(p, moves).s.ranks[r];
            && after.queue ==
                 (if p.workers[r] == Waiting && before.queue != [] then before.queue[1..] else before.queue)
            && Line(after) == Line(before)
  {
    RunFollows(p, p, moves);
    var q := After(p, moves);
    assert RankFollows(p.workers[r], p.s.ranks[r], q.workers[r], q.s.ranks[r]);
    if p.workers[r] == Waiting && p.s.ranks[r].queue != [] {
      var outcome :| q.s.ranks[r] == Executed(p.s.ranks[r], outcome);
      ExecuteKeepsLine(p.s.ranks[r], outcome);
    }
  }

  // The destructor returns.

  /** What is still to be done before a worker has gone. */
  function Ahead(w: Worker): nat {
    match w
    case Waiting => 2
    case Looking => 1
    case Exited => 0
  }

  function AllAhead(workers: seq<Worker>): nat {
    if workers == [] then 0 else AllAhead(workers[..|workers| - 1]) + Ahead(workers[|workers| - 1])
  }

  lemma {:induction false} AheadUpdate(workers: seq<Worker>, r: nat, w: Worker)
    requires r < |workers|
    ensures AllAhead(workers[r := w]) == AllAhead(workers) - Ahead(workers[r]) + Ahead(w)
  {
    var k := |workers| - 1;
    if r == k {
      assert workers[r := w][..k] == workers[..k];
    } else {
      AheadUpdate(workers[..k], r, w);
      assert workers[r := w][..k] == workers[..k][r := w];
    }
  }

  function ToDo(p: Pool): int {
    AllAhead(p.workers) + |p.s.ranks| - p.woken
  }

  /** In a stopping pool every move of a worker or the destructor brings the end nearer; no client's move undoes it. */
  lemma StoppingEnds(p: Pool, m: Move)
    requires PoolOk(p) && p.stopping && CanMove(p, m)
    ensures ToDo(p) >= 0
    ensures if m.Act? && !m.step.Execute? then ToDo(Moved(p, m)) == ToDo(p) else ToDo(Moved(p, m)) < ToDo(p)
  {
    match m
    case Act(step) =>
      ActKeepsRanks(p.s, step);
      if step.Execute? {
        AheadUpdate(p.workers, step.r, Looking);
      }
    case Look(r) => AheadUpdate(p.workers, r, Exited);
    case Wake =>
    case TakeSignal(r) => AheadUpdate(p.workers, r, Looking);
  }

  /** And until all workers have gone there is such a move: the wake-up messages leave none waiting for ever. */
  lemma StoppingProceeds(p: Pool, r: nat)
    requires PoolOk(p) && p.stopping && r < |p.workers| && p.workers[r] != Exited
    ensures exists m :: CanMove(p, m) && (m.Act? ==> m.step.Execute?)
  {
    if p.workers[r] == Looking {
      assert CanMove(p, Look(r));
    } else if p.s.ranks[r].queue != [] {
      assert CanMove(p, Act(Execute(r, Success)));
    } else if p.woken < |p.signals| {
      assert CanMove(p, Wake);
    } else {
      assert CanMove(p, TakeSignal(r));
    }
  }

  // When nothing is left, and when something may be.

  /** A rank that has executed all that both clients have given out has an empty queue. */
  lemma AllCollectedEmpty(nranks: nat, s: State, r: nat)
    requires nranks > 0 && Reachable(nranks, s) && r < |s.ranks|
    requires s.engine.place == Idle(true) && s.lora.place == Idle(true)
    ensures s.ranks[r].queue == []
  {
    ReachableInv(nranks, s);
    var rank := s.ranks[r];
    assert Given(rank, Engine, s.engine, r) && Given(rank, Lora, s.lora, r);
    AgreeAfterCollecting(nranks, s, Engine, r);
    AgreeAfterCollecting(nranks, s, Lora, r);
    MineCalls(Engine, rank.executed);
    MineCalls(Lora, rank.executed);
    ProjectionsFill(Line(rank));
    ProjectionsFill(Items(rank.executed));
  }

  /** If both clients have collected every answer when the pool stops, no call is left behind. */
  lemma NothingLeft(nranks: nat, moves: seq<Move>, more: seq<Move>, r: nat)
    requires nranks > 0 && CanRun(Fresh(nranks), moves)
    requires var p := After(Fresh(nranks), moves);
             && p.stopping && p.s.engine.place == Idle(true) && p.s.lora.place == Idle(true)
             && CanRun(p, more) && r < |p.workers| && Gone(After(p, more), r)
    ensures var q := After(After(Fresh(nranks), moves), more);
            r < |q.s.ranks| && q.s.ranks[r].queue == []
  {
    FreshReached(nranks);
    RunsProject(nranks, Fresh(nranks), moves);
    RunKeepsOk(Fresh(nranks), moves);
    var p := After(Fresh(nranks), moves);
    AllCollectedEmpty(nranks, p.s, r);
    LeftExactly(p, more, r);
  }

  lemma {:induction false} RunJoins(p: Pool, moves: seq<Move>, more: seq<Move>)
    requires CanRun(p, moves) && CanRun(After(p, moves), more)
    ensures CanRun(p, moves + more) && After(p, moves + more) == After(After(p, moves), more)
    decreases |moves|
  {
    if moves == [] {
      assert [] + more == more;
    } else {
      RunJoins(Moved(p, moves[0]), moves[1..], more);
      assert (moves + more)[1..] == moves[1..] + more;
    }
  }

  /** A step of the ranks and clients, with the look at the flag that comes before a call. */
  lemma StepLifts(s: State, step: Step) returns (moves: seq<Move>)
    requires Enabled(s, step)
    ensures CanRun(Resting(s), moves) && After(Resting(s), moves) == Resting(Apply(s, step))
  {
    ActKeepsRanks(s, step);
    var p := Resting(s);
    assert Resting(Apply(s, step)).workers == p.workers && Resting(Apply(s, step)).signals == p.signals;
    if step.Execute? {
      moves := [Look(step.r), Act(step)];
      var p1 := Moved(p, Look(step.r));
      assert moves[1..] == [Act(step)] && moves[1..][1..] == [];
      assert CanMove(p1, Act(step)) && Moved(p1, Act(step)).workers == p.workers;
      assert Moved(p1, Act(step)) == Resting(Apply(s, step));
      assert CanRun(p1, [Act(step)]) && After(p1, [Act(step)]) == Moved(p1, Act(step));
    } else {
      moves := [Act(step)];
      assert moves[1..] == [];
    }
  }

  lemma {:induction false} RunLifts(s: State, steps: seq<Step>) returns (moves: seq<Move>)
    requires Possible(s, steps)
    ensures CanRun(Resting(s), moves) && After(Resting(s), moves) == Resting(Run(s, steps))
    decreases |steps|
  {
    if steps == [] {
      moves := [];
    } else {
      var first := StepLifts(s, steps[0]);
      var rest := RunLifts(Apply(s, steps[0]), steps[1..]);
      RunJoins(Resting(s), first, rest);
      moves := first + rest;
    }
  }

  /** The workers from the n-th on see the flag and go. */
  lemma {:induction false} AllGo(p: Pool, n: nat) returns (moves: seq<Move>)
    requires p.stopping && n <= |p.workers|
    requires forall r {:trigger p.workers[r]} :: n <= r < |p.workers| ==> p.workers[r] == Looking
    requires forall r {:trigger p.workers[r]} :: 0 <= r < n ==> p.workers[r] == Exited
    ensures CanRun(p, moves) && After(p, moves).s == p.s && After(p, moves).stopping
    ensures AllGone(After(p, moves))
    decreases |p.workers| - n
  {
    if n == |p.workers| {
      moves := [];
    } else {
      var rest := AllGo(Moved(p, Look(n)), n + 1);
      moves := [Look(n)] + rest;
      assert moves[1..] == rest;
    }
  }

  /** All workers may go at once: whatever is queued in a reachable state may be left behind, all of it. */
  lemma AnyQueueMayBeLeft(nranks: nat, s: State) returns (moves: seq<Move>)
    requires nranks > 0 && Reachable(nranks, s)
    ensures CanRun(Fresh(nranks), moves)
    ensures var q := After(Fresh(nranks), moves);
            q.s == s && q.stopping && AllGone(q)
  {
    var steps :| Possible(Initial(nranks), steps) && Run(Initial(nranks), steps) == s;
    var before := RunLifts(Initial(nranks), steps);
    var p := Resting(s);
    var go := AllGo(Moved(p, Halt), 0);
    var after := [Halt] + go;
    assert after[1..] == go && CanRun(p, after);
    RunJoins(Fresh(nranks), before, after);
    moves := before + after;
  }

  /** So a call that no client waits for any more is lost when rank 1 has not caught up at the stop. */
  lemma StragglerIsLeft(about: Subject) returns (moves: seq<Move>)
    ensures CanRun(Fresh(2), moves)
    ensures var q := After(Fresh(2), moves);
            && q.s.engine.place.Idle? && q.s.lora.place.Idle?
            && AllGone(q) && |q.s.ranks| == 2 && q.s.ranks[1].queue != []
  {
    var x := Item(Engine, Call(AllocDecoderMemory, about));
    var s := Pair([], [Done(x, Failure)], [x], Session([x.call], Idle(false)), Session([], Idle(true)));
    StragglerAfterEarlyReturn(about);
    moves := AnyQueueMayBeLeft(2, s);
  }
}
