/**
  The accounting of LoRAs in use. Starting a request, loading and unloading exclude each other by the
  LoRA lock; the model loop's release runs beside them under the usage lock, so that each locked
  section is one step here.
 */
module LoraUsage {
  datatype Model = Model(name: string)

  /** A LoRA's name; the empty name stands for none. */
  datatype Lora = NoLora | Lora(name: string)
  {
    predicate Empty() {
      NoLora?
    }
  }

  datatype AsStatus =
    SUCCESS | PARAM_ERROR | LORA_NOT_FOUND | LORA_ALREADY_LOADED | LORA_IN_USE | REQUEST_DENIED | RUNTIME_ERROR

  /**
    A request's course: counted and about to be posted; denied since the model is stopping; rolled back since
    it could not be posted; accepted; finished; or dropped (interrupted or released before it finished).
   */
  datatype Stage = Admitted | Denied | RolledBack | Accepted | Finished | Dropped

  datatype Request = Request(model: Model, lora: Lora, stage: Stage)
  {
    /** No step of the program takes the request's use back. */
    predicate Counted() {
      !lora.Empty() && !stage.RolledBack? && !stage.Finished?
    }

    function Use(): (Model, Lora) {
      (model, lora)
    }
  }

  datatype State = State(
    loaded: set<Lora>,
    inUse: multiset<(Model, Lora)>,
    models: set<Model>,
    useCount: int,
    stopping: set<Model>,
    requests: map<nat, Request>)
  {
    /** Some request is between being counted and being posted, holding the LoRA lock. */
    predicate Locked() {
      exists r :: r in requests && requests[r].stage.Admitted?
    }
  }

  datatype Step =
    | Admit(r: nat, model: Model, lora: Lora)
    | Post(r: nat, enqueued: bool)
    | Finish(r: nat)
    | Drop(r: nat)
    | StopModel(model: Model)
    | Load(model: Model, lora: Lora, answer: AsStatus, changed: bool)
    | Unload(model: Model, lora: Lora, answer: AsStatus, changed: bool)

  function Initial(): State {
    State({}, multiset{}, {}, 0, {}, map[])
  }

  /** The guards of loading, in their order; SUCCESS stands for passing them. */
  function LoadGuard(s: State, model: Model, lora: Lora): AsStatus {
    if lora.Empty() then PARAM_ERROR
    else if lora in s.loaded then LORA_ALREADY_LOADED
    else if model in s.models && (model, lora) in s.inUse then LORA_IN_USE
    else if model in s.stopping then REQUEST_DENIED
    else SUCCESS
  }

  function UnloadGuard(s: State, model: Model, lora: Lora): AsStatus {
    if lora.Empty() then PARAM_ERROR
    else if lora !in s.loaded then LORA_NOT_FOUND
    else if model in s.models && (model, lora) in s.inUse then LORA_IN_USE
    else if model in s.stopping then REQUEST_DENIED
    else SUCCESS
  }

  /** A call past its guards answers what the ranks answer; success means that rank 0 has changed. */
  predicate Answers(guard: AsStatus, answer: AsStatus, changed: bool) {
    if guard == SUCCESS then answer == SUCCESS ==> changed else answer == guard && !changed
  }

  predicate Enabled(s: State, step: Step) {
    match step
    case Admit(r, _, lora) => r !in s.requests && !s.Locked() && (lora.Empty() || lora in s.loaded)
    case Post(r, _) => r in s.requests && s.requests[r].stage.Admitted?
    case Finish(r) => r in s.requests && s.requests[r].stage.Accepted?
    case Drop(r) => r in s.requests && s.requests[r].stage.Accepted?
    case StopModel(_) => true
    case Load(model, lora, answer, changed) => !s.Locked() && Answers(LoadGuard(s, model, lora), answer, changed)
    case Unload(model, lora, answer, changed) => !s.Locked() && Answers(UnloadGuard(s, model, lora), answer, changed)
  }

  function Staged(s: State, r: nat, stage: Stage): State
    requires r in s.requests
  {
    s.(requests := s.requests[r := s.requests[r].(stage := stage)])
  }

  /** Takes one use of the request's LoRA back, if one is there. */
  function Rollback(s: State, q: Request): State {
    if !q.lora.Empty() && q.model in s.models && q.Use() in s.inUse
    then s.(inUse := s.inUse - multiset{q.Use()}, useCount := s.useCount - 1)
    else s
  }

  /** The loop's release: guarded by the total count, it counts down whether or not it finds a use. */
  function Release(s: State, q: Request): State {
    if s.useCount > 0 && q.model in s.models && !q.lora.Empty()
    then s.(inUse := s.inUse - multiset{q.Use()}, useCount := s.useCount - 1)
    else s
  }

  /** The step's effect on the requests, the loaded LoRAs and the stopping models. */
  function Moved(s: State, step: Step): State
    requires Enabled(s, step)
  {
    match step
    case Admit(r, model, lora) => s.(requests := s.requests[r := Request(model, lora, Admitted)])
    case Post(r, enqueued) =>
      Staged(s, r, if s.requests[r].model in s.stopping then Denied else if enqueued then Accepted else RolledBack)
    case Finish(r) => Staged(s, r, Finished)
    case Drop(r) => Staged(s, r, Dropped)
    case StopModel(model) => s.(stopping := s.stopping + {model})
    case Load(_, lora, _, changed) => if changed then s.(loaded := s.loaded + {lora}) else s
    case Unload(_, lora, _, changed) => if changed then s.(loaded := s.loaded - {lora}) else s
  }

  function Apply(s: State, step: Step): (t: State)
    requires Enabled(s, step)
    ensures t.requests == Moved(s, step).requests && t.loaded == Moved(s, step).loaded
  {
    var t := Moved(s, step);
    match step
    case Admit(r, model, lora) =>
      if lora.Empty() then t
      else t.(useCount := s.useCount + 1, models := s.models + {model}, inUse := s.inUse + multiset{(model, lora)})
    case Post(r, _) => if t.requests[r].stage.RolledBack? then Rollback(t, s.requests[r]) else t
    case Finish(r) => Release(t, s.requests[r])
    case _ => t
  }

  // Exact accounting.

  /** The requests that count as a use. */
  function Users(requests: map<nat, Request>, use: (Model, Lora)): set<nat> {
    set r | r in requests && requests[r].Counted() && requests[r].Use() == use
  }

  ghost predicate UseOk(s: State, use: (Model, Lora)) {
    s.inUse[use] == |Users(s.requests, use)|
  }

  /** The multiset holds one use for every counted request, and the count is its size. */
  ghost predicate Inv(s: State) {
    && (forall use {:trigger s.inUse[use]} :: UseOk(s, use))
    && s.useCount == |s.inUse|
    && (forall r {:trigger s.requests[r]} :: r in s.requests && s.requests[r].Counted() ==>
         s.requests[r].model in s.models)
  }

  lemma UsersAdd(requests: map<nat, Request>, r: nat, q: Request, use: (Model, Lora))
    requires r in requests ==> !requests[r].Counted()
    ensures |Users(requests[r := q], use)| == |Users(requests, use)| + if q.Counted() && q.Use() == use then 1 else 0
  {
    var before, after := Users(requests, use), Users(requests[r := q], use);
    assert r !in before;
    assert after == if q.Counted() && q.Use() == use then before + {r} else before;
  }

  lemma UsersRemove(requests: map<nat, Request>, r: nat, q: Request, use: (Model, Lora))
    requires r in requests && requests[r].Counted() && !q.Counted()
    ensures |Users(requests[r := q], use)| == |Users(requests, use)| - if requests[r].Use() == use then 1 else 0
  {
    var before, after := Users(requests, use), Users(requests[r := q], use);
    assert r !in after;
    assert before == if requests[r].Use() == use then after + {r} else after;
  }

  lemma UsersSame(requests: map<nat, Request>, r: nat, q: Request, use: (Model, Lora))
    requires r in requests && requests[r].Counted() == q.Counted() && requests[r].Use() == q.Use()
    ensures Users(requests[r := q], use) == Users(requests, use)
  {
  }

  lemma AdmitKeepsInv(s: State, r: nat, model: Model, lora: Lora)
    requires Inv(s) && Enabled(s, Admit(r, model, lora))
    ensures Inv(Apply(s, Admit(r, model, lora)))
  {
    var t := Apply(s, Admit(r, model, lora));
    forall use
      ensures UseOk(t, use)
    {
      assert UseOk(s, use) by { var n := s.inUse[use]; }
      UsersAdd(s.requests, r, Request(model, lora, Admitted), use);
    }
  }

  lemma StagedKeepsInv(s: State, r: nat, stage: Stage)
    requires Inv(s) && r in s.requests && s.requests[r].Counted() == s.requests[r].(stage := stage).Counted()
    ensures Inv(Staged(s, r, stage))
  {
    var t := Staged(s, r, stage);
    forall use
      ensures UseOk(t, use)
    {
      assert UseOk(s, use) by { var n := s.inUse[use]; }
      UsersSame(s.requests, r, s.requests[r].(stage := stage), use);
    }
  }

  /** A counted request has its use in the multiset: taking it back finds it. */
  lemma CountedIsInUse(s: State, r: nat)
    requires Inv(s) && r in s.requests && s.requests[r].Counted()
    ensures s.requests[r].Use() in s.inUse && s.requests[r].model in s.models && s.useCount > 0
  {
    var use := s.requests[r].Use();
    assert UseOk(s, use) by { var n := s.inUse[use]; }
    assert r in Users(s.requests, use);
  }

  lemma TakenBackKeepsInv(s: State, r: nat, stage: Stage)
    requires Inv(s) && r in s.requests && s.requests[r].Counted() && !s.requests[r].(stage := stage).Counted()
    ensures s.requests[r].Use() in s.inUse
    ensures Inv(Staged(s, r, stage).(inUse := s.inUse - multiset{s.requests[r].Use()}, useCount := s.useCount - 1))
  {
    CountedIsInUse(s, r);
    var t := Staged(s, r, stage).(inUse := s.inUse - multiset{s.requests[r].Use()}, useCount := s.useCount - 1);
    forall use
      ensures UseOk(t, use)
    {
      assert UseOk(s, use) by { var n := s.inUse[use]; }
      UsersRemove(s.requests, r, s.requests[r].(stage := stage), use);
    }
  }

  lemma StepKeepsInv(s: State, step: Step)
    requires Inv(s) && Enabled(s, step)
    ensures Inv(Apply(s, step))
  {
    match step
    case Admit(r, model, lora) =>
      AdmitKeepsInv(s, r, model, lora);
    case Post(r, enqueued) =>
      var q := s.requests[r];
      if q.model in s.stopping {
        StagedKeepsInv(s, r, Denied);
      } else if enqueued {
        StagedKeepsInv(s, r, Accepted);
      } else if q.lora.Empty() {
        StagedKeepsInv(s, r, RolledBack);
      } else {
        CountedIsInUse(s, r);
        TakenBackKeepsInv(s, r, RolledBack);
      }
    case Finish(r) =>
      if s.requests[r].lora.Empty() {
        StagedKeepsInv(s, r, Finished);
      } else {
        CountedIsInUse(s, r);
        TakenBackKeepsInv(s, r, Finished);
      }
    case Drop(r) =>
      StagedKeepsInv(s, r, Dropped);
    case StopModel(_) =>
      SameUsesKeepInv(s, Apply(s, step));
    case Load(_, _, _, _) =>
      SameUsesKeepInv(s, Apply(s, step));
    case Unload(_, _, _, _) =>
      SameUsesKeepInv(s, Apply(s, step));
  }

  lemma SameUsesKeepInv(s: State, t: State)
    requires Inv(s) && t.inUse == s.inUse && t.useCount == s.useCount && t.models == s.models
             && t.requests == s.requests
    ensures Inv(t)
  {
    forall use
      ensures UseOk(t, use)
    {
      assert UseOk(s, use) by { var n := s.inUse[use]; }
    }
  }

  // Runs.

  predicate Possible(s: State, steps: seq<Step>)
    decreases |steps|
  {
    steps == [] || (Enabled(s, steps[0]) && Possible(Apply(s, steps[0]), steps[1..]))
  }

  function Run(s: State, steps: seq<Step>): State
    requires Possible(s, steps)
    decreases |steps|
  {
    if steps == [] then s else Run(Apply(s, steps[0]), steps[1..])
  }

  lemma {:induction false} RunKeepsInv(s: State, steps: seq<Step>)
    requires Inv(s) && Possible(s, steps)
    ensures Inv(Run(s, steps))
    decreases |steps|
  {
    if steps != [] {
      StepKeepsInv(s, steps[0]);
      RunKeepsInv(Apply(s, steps[0]), steps[1..]);
    }
  }

  lemma InitialInv()
    ensures Inv(Initial())
  {
    forall use
      ensures UseOk(Initial(), use)
    {
      assert Users(map[], use) == {};
    }
  }

  /** Some interleaving of the locked sections leads to the state. */
  ghost predicate Reachable(s: State) {
    exists steps {:trigger Possible(Initial(), steps)} :: Possible(Initial(), steps) && Run(Initial(), steps) == s
  }

  lemma ReachableInv(s: State)
    requires Reachable(s)
    ensures Inv(s)
  {
    var steps :| Possible(Initial(), steps) && Run(Initial(), steps) == s;
    InitialInv();
    RunKeepsInv(Initial(), steps);
  }

  /** In every run the multiset holds exactly the counted requests' uses, and the count is their number. */
  lemma ExactAccounting(s: State, model: Model, lora: Lora)
    requires Reachable(s)
    ensures s.inUse[(model, lora)] == |Users(s.requests, (model, lora))| && s.useCount == |s.inUse|
  {
    ReachableInv(s);
    assert UseOk(s, (model, lora)) by { var n := s.inUse[(model, lora)]; }
  }

  /** A loaded LoRA is refused to be unloaded as in use exactly while some counted request of the model names it. */
  lemma UnloadInUseIff(s: State, model: Model, lora: Lora)
    requires Reachable(s) && !lora.Empty() && lora in s.loaded
    ensures UnloadGuard(s, model, lora) == LORA_IN_USE <==>
              exists r {:trigger s.requests[r]} ::
                r in s.requests && s.requests[r].Counted() && s.requests[r].Use() == (model, lora)
  {
    ExactAccounting(s, model, lora);
    ReachableInv(s);
    var users := Users(s.requests, (model, lora));
    if (model, lora) in s.inUse {
      assert users != {};
      var r :| r in users;
      assert s.requests[r].model in s.models;
    }
    if r :| r in s.requests && s.requests[r].Counted() && s.requests[r].Use() == (model, lora) {
      assert r in users;
    }
  }

  /** A request of the model names the LoRA and was neither rolled back nor finished: its use was not taken back. */
  ghost predicate Held(s: State, model: Model, lora: Lora) {
    exists r {:trigger s.requests[r]} ::
      && r in s.requests && s.requests[r].model == model && s.requests[r].lora == lora
      && s.requests[r].stage in {Admitted, Denied, Accepted, Dropped}
  }

  lemma InUseIff(s: State, model: Model, lora: Lora)
    requires Reachable(s) && lora != NoLora
    ensures model in s.models && (model, lora) in s.inUse <==> Held(s, model, lora)
  {
    ExactAccounting(s, model, lora);
    ReachableInv(s);
    var users := Users(s.requests, (model, lora));
    if model in s.models && (model, lora) in s.inUse {
      assert users != {};
      var r :| r in users;
      assert s.requests[r].stage in {Admitted, Denied, Accepted, Dropped};
    }
    if Held(s, model, lora) {
      var r :| r in s.requests && s.requests[r].model == model && s.requests[r].lora == lora
               && s.requests[r].stage in {Admitted, Denied, Accepted, Dropped};
      assert s.requests[r].Counted() && r in users;
    }
  }

  /** What loading may answer, and whether rank 0 changes, in every reachable state; not while a request is posted. */
  lemma LoadAnswers(s: State, model: Model, lora: Lora, answer: AsStatus, changed: bool)
    requires Reachable(s)
    ensures Enabled(s, Load(model, lora, answer, changed)) <==>
              && (forall r {:trigger s.requests[r]} :: r in s.requests ==> s.requests[r].stage != Admitted)
              && if lora == NoLora then answer == PARAM_ERROR && !changed
                 else if lora in s.loaded then answer == LORA_ALREADY_LOADED && !changed
                 else if Held(s, model, lora) then answer == LORA_IN_USE && !changed
                 else if model in s.stopping then answer == REQUEST_DENIED && !changed
                 else changed || answer != SUCCESS
  {
    if lora != NoLora {
      InUseIff(s, model, lora);
    }
  }

  lemma UnloadAnswers(s: State, model: Model, lora: Lora, answer: AsStatus, changed: bool)
    requires Reachable(s)
    ensures Enabled(s, Unload(model, lora, answer, changed)) <==>
              && (forall r {:trigger s.requests[r]} :: r in s.requests ==> s.requests[r].stage != Admitted)
              && if lora == NoLora then answer == PARAM_ERROR && !changed
                 else if lora !in s.loaded then answer == LORA_NOT_FOUND && !changed
                 else if Held(s, model, lora) then answer == LORA_IN_USE && !changed
                 else if model in s.stopping then answer == REQUEST_DENIED && !changed
                 else changed || answer != SUCCESS
  {
    if lora != NoLora {
      InUseIff(s, model, lora);
    }
  }

  /**
    Stopping a model is always possible and for ever: a request of the model that is posted afterwards is denied,
    whether it could be enqueued or not; others are accepted if they are enqueued, and rolled back if not.
   */
  lemma StoppedDenies(s: State, steps: seq<Step>, model: Model)
    ensures Enabled(s, StopModel(model))
    ensures Possible(Apply(s, StopModel(model)), steps) ==>
              model in Run(Apply(s, StopModel(model)), steps).stopping
  {
    if Possible(Apply(s, StopModel(model)), steps) {
      StaysStopped(Apply(s, StopModel(model)), steps, model);
    }
  }

  lemma {:induction false} StaysStopped(s: State, steps: seq<Step>, model: Model)
    requires Possible(s, steps) && model in s.stopping
    ensures model in Run(s, steps).stopping
    decreases |steps|
  {
    if steps != [] {
      StaysStopped(Apply(s, steps[0]), steps[1..], model);
    }
  }

  lemma PostDecides(s: State, r: nat, enqueued: bool)
    requires r in s.requests && s.requests[r].stage == Admitted
    ensures Enabled(s, Post(r, enqueued))
    ensures var t, q := Apply(s, Post(r, enqueued)), s.requests[r];
            && t.requests == s.requests[r := t.requests[r]]
            && t.requests[r] == Request(q.model, q.lora, t.requests[r].stage)
            && (t.requests[r].stage == Denied <==> q.model in s.stopping)
            && (t.requests[r].stage == Accepted <==> q.model !in s.stopping && enqueued)
            && (t.requests[r].stage == RolledBack <==> q.model !in s.stopping && !enqueued)
  {
  }

  /** The step loads (or unloads) the LoRA on rank 0. */
  predicate Loads(step: Step, lora: Lora) {
    step.Load? && step.lora == lora && step.changed
  }

  predicate Unloads(step: Step, lora: Lora) {
    step.Unload? && step.lora == lora && step.changed
  }

  ghost predicate NoneUnloads(steps: seq<Step>, i: int, lora: Lora) {
    forall j {:trigger steps[j]} :: 0 <= j < |steps| && i <= j ==> !Unloads(steps[j], lora)
  }

  /** In every run a LoRA is loaded exactly if it was loaded and not unloaded since. */
  lemma {:induction false} LoadedIff(s: State, steps: seq<Step>, lora: Lora)
    requires Possible(s, steps)
    ensures lora in Run(s, steps).loaded <==>
              || (lora in s.loaded && NoneUnloads(steps, 0, lora))
              || (exists i {:trigger steps[i]} ::
                    0 <= i < |steps| && Loads(steps[i], lora) && NoneUnloads(steps, i + 1, lora))
    decreases |steps|
  {
    if steps != [] {
      var t, rest := Apply(s, steps[0]), steps[1..];
      LoadedIff(t, rest, lora);
      assert forall i :: 0 <= i < |rest| ==> rest[i] == steps[i + 1];
      forall i | 0 <= i <= |rest|
        ensures NoneUnloads(rest, i, lora) <==> NoneUnloads(steps, i + 1, lora)
      {
        assert forall j :: 1 <= j < |steps| ==> steps[j] == rest[j - 1];
      }
      assert NoneUnloads(steps, 0, lora) <==> !Unloads(steps[0], lora) && NoneUnloads(steps, 1, lora);
      assert lora in t.loaded <==> Loads(steps[0], lora) || (lora in s.loaded && !Unloads(steps[0], lora));
    }
  }

  /** Finishing a request that names a LoRA always takes exactly its own use back. */
  lemma FinishTakesOne(s: State, r: nat)
    requires Reachable(s) && Enabled(s, Finish(r)) && !s.requests[r].lora.Empty()
    ensures s.requests[r].Use() in s.inUse
    ensures Apply(s, Finish(r)).inUse == s.inUse - multiset{s.requests[r].Use()}
    ensures Apply(s, Finish(r)).useCount == s.useCount - 1
  {
    ReachableInv(s);
    CountedIsInUse(s, r);
  }

  // What running requests can rely on when one model is served.

  predicate About(step: Step, model: Model) {
    match step
    case Admit(_, m, _) => m == model
    case Load(m, _, _, _) => m == model
    case Unload(m, _, _, _) => m == model
    case _ => true
  }

  predicate AllAbout(steps: seq<Step>, model: Model) {
    forall i :: 0 <= i < |steps| ==> About(steps[i], model)
  }

  ghost predicate Backed(s: State, model: Model) {
    forall r {:trigger s.requests[r]} :: r in s.requests && s.requests[r].Counted() ==>
      s.requests[r].model == model && s.requests[r].lora in s.loaded
  }

  lemma UnloadKeepsBacked(s: State, step: Step, model: Model)
    requires Inv(s) && Backed(s, model) && step.Unload? && Enabled(s, step) && About(step, model)
    ensures Backed(Apply(s, step), model)
  {
    if step.changed {
      forall r | r in s.requests && s.requests[r].Counted()
        ensures s.requests[r].lora != step.lora
      {
        CountedIsInUse(s, r);
      }
    }
  }

  lemma OtherKeepsBacked(s: State, step: Step, model: Model)
    requires Backed(s, model) && !step.Unload? && Enabled(s, step) && About(step, model)
    ensures Backed(Moved(s, step), model)
  {
  }

  lemma StepKeepsBacked(s: State, step: Step, model: Model)
    requires Inv(s) && Backed(s, model) && Enabled(s, step) && About(step, model)
    ensures Backed(Apply(s, step), model)
  {
    if step.Unload? {
      UnloadKeepsBacked(s, step, model);
    } else {
      OtherKeepsBacked(s, step, model);
    }
  }

  lemma {:induction false} RunKeepsBacked(s: State, steps: seq<Step>, model: Model)
    requires Inv(s) && Backed(s, model) && Possible(s, steps) && AllAbout(steps, model)
    ensures Backed(Run(s, steps), model)
    decreases |steps|
  {
    if steps != [] {
      StepKeepsInv(s, steps[0]);
      StepKeepsBacked(s, steps[0], model);
      RunKeepsBacked(Apply(s, steps[0]), steps[1..], model);
    }
  }

  /**
    With one model, the LoRA of an accepted request stays loaded until it finishes, and unloading answers
    LORA_IN_USE.
   */
  lemma RunningLoraStaysLoaded(steps: seq<Step>, model: Model, r: nat)
    requires Possible(Initial(), steps) && AllAbout(steps, model)
    requires var s := Run(Initial(), steps);
             r in s.requests && s.requests[r].stage.Accepted? && !s.requests[r].lora.Empty()
    ensures var s := Run(Initial(), steps);
            s.requests[r].lora in s.loaded && UnloadGuard(s, model, s.requests[r].lora) == LORA_IN_USE
  {
    InitialInv();
    RunKeepsInv(Initial(), steps);
    RunKeepsBacked(Initial(), steps, model);
    CountedIsInUse(Run(Initial(), steps), r);
  }

  // Uses that are never taken back.

  /** A request that is denied, or dropped before it finishes, keeps its use for good. */
  predicate Leaked(s: State, r: nat) {
    r in s.requests && !s.requests[r].lora.Empty() && (s.requests[r].stage.Denied? || s.requests[r].stage.Dropped?)
  }

  lemma LeakStays(s: State, step: Step, r: nat)
    requires Enabled(s, step) && Leaked(s, r)
    ensures Leaked(Moved(s, step), r) && Moved(s, step).requests[r] == s.requests[r]
  {
  }

  lemma {:induction false} LeakIsForever(s: State, steps: seq<Step>, r: nat)
    requires Inv(s) && Possible(s, steps) && Leaked(s, r)
    ensures var t := Run(s, steps);
            && Inv(t) && Leaked(t, r) && t.requests[r] == s.requests[r]
            && UnloadGuard(t, s.requests[r].model, s.requests[r].lora) != SUCCESS
    decreases |steps|
  {
    if steps == [] {
      CountedIsInUse(s, r);
    } else {
      StepKeepsInv(s, steps[0]);
      LeakStays(s, steps[0], r);
      LeakIsForever(Apply(s, steps[0]), steps[1..], r);
    }
  }

  /** A request denied because the model is stopping leaks its use exactly when it names a LoRA. */
  lemma DenialLeaksIff(s: State, r: nat, enqueued: bool)
    requires Inv(s) && Enabled(s, Post(r, enqueued)) && s.requests[r].model in s.stopping
    ensures Leaked(Apply(s, Post(r, enqueued)), r) <==> !s.requests[r].lora.Empty()
    ensures Apply(s, Post(r, enqueued)).useCount == s.useCount
  {
  }

  /** The guard looks at one model's uses: under another model's name a LoRA in use can be unloaded. */
  lemma OtherModelUnloads(a: Model, b: Model, lora: Lora) returns (s: State)
    requires a != b && !lora.Empty()
    ensures exists steps :: Possible(Initial(), steps) && Run(Initial(), steps) == s
    ensures 0 in s.requests && s.requests[0] == Request(a, lora, Accepted) && UnloadGuard(s, b, lora) == SUCCESS
  {
    var load, admit, post := Load(a, lora, SUCCESS, true), Admit(0, a, lora), Post(0, true);
    var s1 := Apply(Initial(), load);
    var s2 := Apply(s1, admit);
    s := Apply(s2, post);
    assert [post][1..] == [] && [admit, post][1..] == [post] && [load, admit, post][1..] == [admit, post];
    assert Possible(s, []) && Run(s, []) == s;
    assert Enabled(s2, post) && Possible(s2, [post]);
    assert Run(s2, [post]) == Run(Apply(s2, post), [post][1..]);
    assert Possible(s1, [admit, post]) && Run(s1, [admit, post]) == s;
    assert Possible(Initial(), [load, admit, post]) && Run(Initial(), [load, admit, post]) == s;
  }
}
