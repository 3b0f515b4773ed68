/** A pool of workers that share one task queue; every section under the queue's mutex is one step. */
module ThreadPool {
  type Task = int

  /** A worker waits, executes a task, has executed one and not yet counted it off, or has left. */
  datatype Worker = Waiting | Executing(task: Task) | Counting | Exited

  datatype State = State(
    tasks: seq<Task>,
    stop: bool,
    runningTasks: int,
    workers: seq<Worker>,
    accepted: seq<Task>,
    started: seq<Task>,
    finished: multiset<Task>)

  datatype Step =
    | Enqueue(task: Task)
    | Dispatch(w: nat)
    | Complete(w: nat)
    | CountOff(w: nat)
    | Exit(w: nat)
    | Stop

  function Initial(workers: nat): State {
    State([], false, 0, seq(workers, i => Waiting), [], [], multiset{})
  }

  /** Enqueueing on a stopped pool throws; a worker leaves only when the pool is stopped and no task is left. */
  predicate Enabled(s: State, step: Step) {
    match step
    case Enqueue(_) => !s.stop
    case Dispatch(w) => w < |s.workers| && s.workers[w].Waiting? && s.tasks != []
    case Complete(w) => w < |s.workers| && s.workers[w].Executing?
    case CountOff(w) => w < |s.workers| && s.workers[w].Counting?
    case Exit(w) => w < |s.workers| && s.workers[w].Waiting? && s.stop && s.tasks == []
    case Stop => true
  }

  function Apply(s: State, step: Step): State
    requires Enabled(s, step)
  {
    match step
    case Enqueue(task) =>
      s.(runningTasks := s.runningTasks + 1, tasks := s.tasks + [task], accepted := s.accepted + [task])
    case Dispatch(w) =>
      s.(tasks := s.tasks[1..], started := s.started + [s.tasks[0]], workers := s.workers[w := Executing(s.tasks[0])])
    case Complete(w) =>
      s.(finished := s.finished + multiset{s.workers[w].task}, workers := s.workers[w := Counting])
    case CountOff(w) => s.(runningTasks := s.runningTasks - 1, workers := s.workers[w := Waiting])
    case Exit(w) => s.(workers := s.workers[w := Exited])
    case Stop => s.(stop := true)
  }

  /** The destructor returns when the pool is stopped and every worker has left. */
  predicate Destroyed(s: State) {
    s.stop && forall w :: 0 <= w < |s.workers| ==> s.workers[w].Exited?
  }

  // Invariants.

  function Busy(w: Worker): nat {
    if w.Executing? || w.Counting? then 1 else 0
  }

  function InHand(w: Worker): multiset<Task> {
    if w.Executing? then multiset{w.task} else multiset{}
  }

  function BusyWorkers(workers: seq<Worker>): nat {
    if workers == [] then 0 else Busy(workers[0]) + BusyWorkers(workers[1..])
  }

  function InHands(workers: seq<Worker>): multiset<Task> {
    if workers == [] then multiset{} else InHand(workers[0]) + InHands(workers[1..])
  }

  lemma {:induction false} BusyUpdate(workers: seq<Worker>, w: nat, x: Worker)
    requires w < |workers|
    ensures BusyWorkers(workers[w := x]) == BusyWorkers(workers) - Busy(workers[w]) + Busy(x)
  {
    if w > 0 {
      BusyUpdate(workers[1..], w - 1, x);
      assert workers[w := x][1..] == workers[1..][w - 1 := x];
    } else {
      assert workers[w := x][1..] == workers[1..];
    }
  }

  lemma AddFirst(h: multiset<Task>, a: multiset<Task>, x: multiset<Task>, b: multiset<Task>, y: multiset<Task>)
    requires a + x == b + y
    ensures (h + a) + x == (h + b) + y
  {
    assert (h + a) + x == h + (a + x);
    assert (h + b) + y == h + (b + y);
  }

  lemma {:induction false} HandsUpdate(workers: seq<Worker>, w: nat, x: Worker)
    requires w < |workers|
    ensures InHands(workers[w := x]) + InHand(workers[w]) == InHands(workers) + InHand(x)
  {
    if w > 0 {
      HandsUpdate(workers[1..], w - 1, x);
      var after := workers[w := x];
      assert after[1..] == workers[1..][w - 1 := x];
      AddFirst(InHand(workers[0]), InHands(after[1..]), InHand(workers[w]), InHands(workers[1..]), InHand(x));
    } else {
      assert workers[w := x][1..] == workers[1..];
    }
  }

  /** The counter is the number of queued tasks and of tasks in the workers' hands. */
  ghost predicate Counted(s: State) {
    s.runningTasks == |s.tasks| + BusyWorkers(s.workers)
  }

  /** Tasks start in the order they were accepted. */
  ghost predicate InOrder(s: State) {
    s.started + s.tasks == s.accepted
  }

  /** Every started task is finished once, or in the hands of one worker. */
  ghost predicate Once(s: State) {
    multiset(s.started) == s.finished + InHands(s.workers)
  }

  /** A worker that has left saw an empty queue that stays empty. */
  ghost predicate LeftEmpty(s: State) {
    forall w {:trigger s.workers[w]} :: 0 <= w < |s.workers| && s.workers[w].Exited? ==> s.stop && s.tasks == []
  }

  ghost predicate Inv(s: State) {
    Counted(s) && InOrder(s) && Once(s) && LeftEmpty(s)
  }

  lemma StepKeepsCount(s: State, step: Step)
    requires Counted(s) && Enabled(s, step)
    ensures Counted(Apply(s, step))
  {
    if !step.Enqueue? && !step.Stop? {
      BusyUpdate(s.workers, step.w, Apply(s, step).workers[step.w]);
    }
  }

  lemma StepKeepsOrder(s: State, step: Step)
    requires InOrder(s) && Enabled(s, step)
    ensures InOrder(Apply(s, step))
  {
    if step.Dispatch? {
      assert s.tasks == [s.tasks[0]] + s.tasks[1..];
    }
  }

  lemma DispatchKeepsOnce(s: State, w: nat)
    requires Once(s) && Enabled(s, Dispatch(w))
    ensures Once(Apply(s, Dispatch(w)))
  {
    HandsUpdate(s.workers, w, Executing(s.tasks[0]));
    assert InHands(s.workers[w := Executing(s.tasks[0])]) == InHands(s.workers) + multiset{s.tasks[0]};
  }

  lemma CompleteKeepsOnce(s: State, w: nat)
    requires Once(s) && Enabled(s, Complete(w))
    ensures Once(Apply(s, Complete(w)))
  {
    HandsUpdate(s.workers, w, Counting);
    assert InHands(s.workers[w := Counting]) + multiset{s.workers[w].task} == InHands(s.workers);
  }

  lemma HandsSame(workers: seq<Worker>, w: nat, x: Worker)
    requires w < |workers| && !workers[w].Executing? && !x.Executing?
    ensures InHands(workers[w := x]) == InHands(workers)
  {
    HandsUpdate(workers, w, x);
    assert InHands(workers[w := x]) + multiset{} == InHands(workers[w := x]);
    assert InHands(workers) + multiset{} == InHands(workers);
  }

  lemma StepKeepsOnce(s: State, step: Step)
    requires Once(s) && Enabled(s, step)
    ensures Once(Apply(s, step))
  {
    match step
    case Enqueue(_) =>
    case Stop =>
    case Dispatch(w) => DispatchKeepsOnce(s, w);
    case Complete(w) => CompleteKeepsOnce(s, w);
    case CountOff(w) => HandsSame(s.workers, w, Waiting);
    case Exit(w) => HandsSame(s.workers, w, Exited);
  }

  lemma StepKeepsLeft(s: State, step: Step)
    requires LeftEmpty(s) && Enabled(s, step)
    ensures LeftEmpty(Apply(s, step))
  {
  }

  // Runs.

  predicate Possible(s: State, steps: seq<Step>)
    decreases |steps|
  {
    steps == [] || (Enabled(s, steps[0]) && Possible(Apply(s, steps[0]), steps[1..]))
  }

  function Run(s: State, steps: seq<Step>): State
    requires Possible(s, steps)
    decreases |steps|
  {
    if steps == [] then s else Run(Apply(s, steps[0]), steps[1..])
  }

  lemma {:induction false} RunKeepsInv(s: State, steps: seq<Step>)
    requires Inv(s) && Possible(s, steps)
    ensures Inv(Run(s, steps)) && |Run(s, steps).workers| == |s.workers|
    decreases |steps|
  {
    if steps != [] {
      StepKeepsCount(s, steps[0]);
      StepKeepsOrder(s, steps[0]);
      StepKeepsOnce(s, steps[0]);
      StepKeepsLeft(s, steps[0]);
      RunKeepsInv(Apply(s, steps[0]), steps[1..]);
    }
  }

  lemma {:induction false} AllWaiting(n: nat)
    ensures BusyWorkers(seq(n, i => Waiting)) == 0 && InHands(seq(n, i => Waiting)) == multiset{}
  {
    if n > 0 {
      AllWaiting(n - 1);
      assert seq(n, i => Waiting)[1..] == seq(n - 1, i => Waiting);
    }
  }

  /** Some schedule of a pool with so many workers leads to the state. */
  ghost predicate Reachable(workers: nat, s: State) {
    exists steps {:trigger Possible(Initial(workers), steps)} ::
      Possible(Initial(workers), steps) && Run(Initial(workers), steps) == s
  }

  lemma ReachableInv(workers: nat, s: State)
    requires Reachable(workers, s)
    ensures Inv(s) && |s.workers| == workers
  {
    var steps :| Possible(Initial(workers), steps) && Run(Initial(workers), steps) == s;
    AllWaiting(workers);
    RunKeepsInv(Initial(workers), steps);
  }

  /** At every moment the counter is exact and tasks have been dispatched in the order they were accepted. */
  lemma CounterAndOrder(workers: nat, s: State)
    requires Reachable(workers, s)
    ensures s.runningTasks == |s.tasks| + BusyWorkers(s.workers) && s.started <= s.accepted
  {
    ReachableInv(workers, s);
  }

  lemma {:induction false} AllExited(workers: seq<Worker>)
    requires forall w :: 0 <= w < |workers| ==> workers[w].Exited?
    ensures BusyWorkers(workers) == 0 && InHands(workers) == multiset{}
  {
    if workers != [] {
      AllExited(workers[1..]);
    }
  }

  /** With at least one worker, every accepted task has been executed exactly once when the destructor returns. */
  lemma DestroyedHasRunAll(workers: nat, s: State)
    requires workers > 0 && Reachable(workers, s) && Destroyed(s)
    ensures s.finished == multiset(s.accepted) && s.runningTasks == 0
  {
    ReachableInv(workers, s);
    assert s.workers[0].Exited?;
    AllExited(s.workers);
    assert s.started + [] == s.started;
  }

  /** Worker steps still to be taken before every worker of a stopped pool has left. */
  function Left(w: Worker): nat {
    match w
    case Waiting => 1
    case Counting => 2
    case Executing(_) => 3
    case Exited => 0
  }

  function AllLeft(workers: seq<Worker>): nat {
    if workers == [] then 0 else Left(workers[0]) + AllLeft(workers[1..])
  }

  lemma {:induction false} LeftUpdate(workers: seq<Worker>, w: nat, x: Worker)
    requires w < |workers|
    ensures AllLeft(workers[w := x]) == AllLeft(workers) - Left(workers[w]) + Left(x)
  {
    if w > 0 {
      LeftUpdate(workers[1..], w - 1, x);
      assert workers[w := x][1..] == workers[1..][w - 1 := x];
    } else {
      assert workers[w := x][1..] == workers[1..];
    }
  }

  function Remaining(s: State): nat {
    3 * |s.tasks| + AllLeft(s.workers)
  }

  /**
    A stopped pool drains: each worker that has not left can take a step, and every such step brings the end nearer.
   */
  lemma StoppedPoolDrains(s: State, w: nat)
    requires s.stop && w < |s.workers| && !s.workers[w].Exited?
    ensures exists step ::
              && step in {Dispatch(w), Complete(w), CountOff(w), Exit(w)} && Enabled(s, step)
              && Remaining(Apply(s, step)) < Remaining(s)
  {
    var step := match s.workers[w]
      case Waiting => if s.tasks != [] then Dispatch(w) else Exit(w)
      case Executing(_) => Complete(w)
      case Counting => CountOff(w)
      case Exited => Stop;
    assert step in {Dispatch(w), Complete(w), CountOff(w), Exit(w)} && Enabled(s, step);
    LeftUpdate(s.workers, w, Apply(s, step).workers[w]);
  }

  /** Without workers nothing is ever executed: destruction runs all accepted tasks exactly when there are none. */
  lemma NoWorkersRunNothing(s: State)
    requires Reachable(0, s)
    ensures s.finished == multiset{} && s.tasks == s.accepted
    ensures Destroyed(s) ==> (s.finished == multiset(s.accepted) <==> s.accepted == [])
  {
    ReachableInv(0, s);
    var steps :| Possible(Initial(0), steps) && Run(Initial(0), steps) == s;
    NothingStarts(Initial(0), steps);
    assert [] + s.tasks == s.tasks;
    if s.accepted != [] {
      assert s.accepted[0] in multiset(s.accepted);
    }
  }

  lemma {:induction false} NothingStarts(s: State, steps: seq<Step>)
    requires s.workers == [] && s.started == [] && s.finished == multiset{} && Possible(s, steps)
    ensures Run(s, steps).started == [] && Run(s, steps).finished == multiset{}
    decreases |steps|
  {
    if steps != [] {
      NothingStarts(Apply(s, steps[0]), steps[1..]);
    }
  }

  // What is accepted, and when.

  /** The tasks that the steps enqueue. */
  function EnqueuedBy(steps: seq<Step>): seq<Task> {
    if steps == [] then [] else (if steps[0].Enqueue? then [steps[0].task] else []) + EnqueuedBy(steps[1..])
  }

  lemma {:induction false} RunHistory(s: State, steps: seq<Step>)
    requires Possible(s, steps)
    ensures Run(s, steps).accepted == s.accepted + EnqueuedBy(steps)
    ensures Run(s, steps).stop <==> s.stop || Stop in steps
    decreases |steps|
  {
    if steps == [] {
      assert s.accepted + [] == s.accepted;
    } else {
      RunHistory(Apply(s, steps[0]), steps[1..]);
      assert steps == [steps[0]] + steps[1..];
    }
  }

  /**
    In every run exactly the tasks enqueued are accepted, in their order; enqueueing is possible exactly until the
    pool is stopped, which it can be at any time; and a waiting worker leaves exactly if it is stopped and empty.
   */
  lemma AcceptedOfRun(workers: nat, steps: seq<Step>, task: Task, w: nat)
    requires Possible(Initial(workers), steps)
    ensures var s := Run(Initial(workers), steps);
            && s.accepted == EnqueuedBy(steps) && Enabled(s, Stop)
            && (Enabled(s, Enqueue(task)) <==> Stop !in steps)
            && (w < |s.workers| && s.workers[w] == Waiting ==>
                  && (Enabled(s, Exit(w)) <==> Stop in steps && s.tasks == [])
                  && (Enabled(s, Dispatch(w)) <==> s.tasks != []))
  {
    RunHistory(Initial(workers), steps);
    assert [] + EnqueuedBy(steps) == EnqueuedBy(steps);
  }
}
