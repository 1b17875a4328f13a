/** Executing a recovery plan: validation before anything runs, then ordered dispatch that stops at the first
    failure. Process bodies are an opaque function of the process and the action. */
module RecoveryExecution {
  import opened RuntimeTypes
  import opened Sorting
  import opened RuntimeProjections
  import opened RecoveryGraph
  import opened GraphBuilder
  import opened Recovery
  import opened RecoveryPlanners

  /** What running one process does: its attempt may fail to open, its body may raise, or it returns. */
  datatype Outcome = NotOpened(error: ErrorInfo) | Raised(error: ErrorInfo) | Returned(value: Json)

  /** The events an execution appends. */
  datatype Note =
    | RecoveryStarted(planId: string, sourceRuntimeId: string)
    | StepSkipped(processId: string, sourceAttemptId: Option<string>)
    | AttemptOpened(processId: string, operation: Operation, resumedFrom: Option<string>, checkpointId: Option<string>)
    | AttemptEnded(processId: string, value: Json)
    | AttemptLost(processId: string, error: ErrorInfo)
    | RecoveryFailed(planId: string, error: ErrorInfo)
    | RecoveryCompleted(planId: string)

  datatype ExecutionError =
    | NoRuntimeDir | WrongTarget | BlockedSteps(ids: seq<string>) | NotRegistered(ids: seq<string>)
    | OutOfOrder(id: string, missing: seq<string>) | ProcessRaised(error: ErrorInfo)

  type Bodies = (string, RecoveryAction) -> Outcome

  function OperationOf(action: RecoveryAction): Operation {
    match action
    case ResumeAction => Resume
    case RetryAction => Retry
    case _ => Start
  }

  function Opening(s: Step): Note {
    AttemptOpened(s.processId, OperationOf(s.action), s.sourceAttemptId,
                  match s.checkpoint case Some(c) => Some(c.checkpointId) case None => None)
  }

  function StepNotes(bodies: Bodies, s: Step): seq<Note> {
    if s.action.SkipAction? then [StepSkipped(s.processId, s.sourceAttemptId)]
    else
      match bodies(s.processId, s.action)
      case NotOpened(_) => []
      case Raised(error) => [Opening(s), AttemptLost(s.processId, error)]
      case Returned(value) => [Opening(s), AttemptEnded(s.processId, value)]
  }

  predicate Fails(bodies: Bodies, s: Step) {
    !s.action.SkipAction? && !bodies(s.processId, s.action).Returned?
  }

  function WorkNotes(bodies: Bodies, steps: seq<Step>): seq<Note> {
    if steps == [] then [] else WorkNotes(bodies, steps[..|steps| - 1]) + StepNotes(bodies, steps[|steps| - 1])
  }

  function StepResult(bodies: Bodies, s: Step): Option<Json> {
    if s.action.SkipAction? || !bodies(s.processId, s.action).Returned? then None
    else Some(bodies(s.processId, s.action).value)
  }

  function Results(bodies: Bodies, steps: seq<Step>): map<string, Option<Json>> {
    if steps == [] then map[]
    else
      var s := steps[|steps| - 1];
      Results(bodies, steps[..|steps| - 1])[s.processId := StepResult(bodies, s)]
  }

  ghost predicate NoneFails(bodies: Bodies, steps: seq<Step>) {
    forall s <- steps :: !Fails(bodies, s)
  }

  function BlockedIds(steps: seq<Step>): seq<string> {
    if steps == [] then []
    else
      BlockedIds(steps[..|steps| - 1])
      + (if steps[|steps| - 1].action.BlockAction? then [steps[|steps| - 1].processId] else [])
  }

  function RequiredIds(steps: seq<Step>): set<string> {
    set s | s in steps && !s.action.SkipAction? :: s.processId
  }

  /** The first step that comes before something it depends on. */
  ghost function FirstEarly(steps: seq<Step>): Option<ExecutionError> {
    if steps == [] then None
    else
      var init, s := steps[..|steps| - 1], steps[|steps| - 1];
      if FirstEarly(init).Some? then FirstEarly(init)
      else if Members(s.dependsOn) <= StepIds(init) then None
      else Some(OutOfOrder(s.processId, Ascending(Members(s.dependsOn) - StepIds(init))))
  }

  /** The checks made before anything is written or run. */
  ghost function Rejection(runtimeId: string, hasRuntimeDir: bool, processes: set<string>,
      plan: Plan): Option<ExecutionError> {
    if !hasRuntimeDir then Some(NoRuntimeDir)
    else if plan.targetRuntimeId != runtimeId then Some(WrongTarget)
    else if BlockedIds(plan.steps) != [] then Some(BlockedSteps(BlockedIds(plan.steps)))
    else if !(RequiredIds(plan.steps) <= processes)
    then Some(NotRegistered(Ascending(RequiredIds(plan.steps) - processes)))
    else FirstEarly(plan.steps)
  }

  class RuntimeBackendExecutor {
    const runtimeId: string
    const hasRuntimeDir: bool
    const bodies: Bodies
    var processes: set<string>
    var notes: seq<Note>
    var savedPlans: seq<Plan>

    constructor (runtimeId: string, hasRuntimeDir: bool, bodies: Bodies)
      ensures this.runtimeId == runtimeId && this.hasRuntimeDir == hasRuntimeDir && this.bodies == bodies
      ensures processes == {} && notes == [] && savedPlans == []
    {
      this.runtimeId, this.hasRuntimeDir, this.bodies := runtimeId, hasRuntimeDir, bodies;
      processes, notes, savedPlans := {}, [], [];
    }

    method Register(processId: string)
      modifies this`processes
      ensures processes == old(processes) + {processId}
    {
      processes := processes + {processId};
    }

    /** The order check alone. */
    method CheckOrder(steps: seq<Step>) returns (early: Option<ExecutionError>)
      ensures early == FirstEarly(steps)
    {
      hide Ascending, Members;
      var completed: set<string> := {};
      for i := 0 to |steps|
        invariant completed == StepIds(steps[..i]) && FirstEarly(steps[..i]).None?
      {
        assert steps[..i + 1][..i] == steps[..i];
        var missing := Members(steps[i].dependsOn) - completed;
        SubsetDifference(Members(steps[i].dependsOn), completed);
        if missing != {} {
          var names := SortedKeys(missing);
          EarlySticks(steps, i + 1);
          return Some(OutOfOrder(steps[i].processId, names));
        }
        completed := completed + {steps[i].processId};
        MoreIds(steps, i);
      }
      assert steps[..|steps|] == steps;
      early := None;
    }

    method Validate(plan: Plan) returns (rejected: Option<ExecutionError>)
      ensures rejected == Rejection(runtimeId, hasRuntimeDir, processes, plan)
    {
      hide RequiredIds, BlockedIds, FirstEarly, Ascending;
      if !hasRuntimeDir {
        return Some(NoRuntimeDir);
      }
      if plan.targetRuntimeId != runtimeId {
        return Some(WrongTarget);
      }
      var blocked := BlockedIds(plan.steps);
      if blocked != [] {
        return Some(BlockedSteps(blocked));
      }
      var missing := RequiredIds(plan.steps) - processes;
      SubsetDifference(RequiredIds(plan.steps), processes);
      if missing != {} {
        var names := SortedKeys(missing);
        return Some(NotRegistered(names));
      }
      rejected := CheckOrder(plan.steps);
    }

    /** `_execute_recovery_step` */
    method ExecuteRecoveryStep(s: Step) returns (r: Result<Json, ErrorInfo>)
      requires Reexecutes(s.action)
      modifies this`notes
      ensures notes == old(notes) + StepNotes(bodies, s)
      ensures Fails(bodies, s) <==> r.Failure?
      ensures r.Success? ==> bodies(s.processId, s.action) == Returned(r.value)
      ensures r.Failure? ==> bodies(s.processId, s.action).error == r.error
    {
      var outcome := bodies(s.processId, s.action);
      if outcome.NotOpened? {
        return Failure(outcome.error);
      }
      notes := notes + [Opening(s)];
      if outcome.Raised? {
        notes := notes + [AttemptLost(s.processId, outcome.error)];
        return Failure(outcome.error);
      }
      notes := notes + [AttemptEnded(s.processId, outcome.value)];
      r := Success(outcome.value);
    }

    /** The dispatch loop: how many steps were done, and the error of the one that failed. */
    method RunSteps(steps: seq<Step>) returns (done: nat, failure: Option<ErrorInfo>,
        results: map<string, Option<Json>>)
      requires forall s <- steps :: !s.action.BlockAction?
      modifies this`notes
      ensures failure.None? ==> NoneFails(bodies, steps) && results == Results(bodies, steps)
      ensures failure.None? ==> notes == old(notes) + WorkNotes(bodies, steps)
      ensures failure.Some? ==> StopsAt(bodies, steps, done, failure.value)
      ensures failure.Some? ==> notes == old(notes) + WorkNotes(bodies, steps[..done + 1])
    {
      results := map[];
      done := 0;
      assert WorkNotes(bodies, steps[..0]) == [] && Results(bodies, steps[..0]) == map[];
      hide StepNotes, WorkNotes, Results, NoneFails, StopsAt;
      assert NoneFails(bodies, steps[..0]) by { NothingFails(bodies); }
      while done < |steps|
        invariant done <= |steps| && NoneFails(bodies, steps[..done]) && results == Results(bodies, steps[..done])
        invariant notes == old(notes) + WorkNotes(bodies, steps[..done])
      {
        OneStep(bodies, steps, done);
        var s := steps[done];
        NotesJoin(old(notes), WorkNotes(bodies, steps[..done]), StepNotes(bodies, s));
        if s.action.SkipAction? {
          EmitSkip(s);
          results := results[s.processId := None];
        } else {
          var outcome := ExecuteRecoveryStep(s);
          if outcome.Failure? {
            StoppedAt(bodies, steps, done, outcome.error);
            return done, Some(outcome.error), results;
          }
          results := results[s.processId := Some(outcome.value)];
        }
        done := done + 1;
      }
      assert steps[..|steps|] == steps;
      failure := None;
    }

    static lemma NotesJoin(a: seq<Note>, b: seq<Note>, c: seq<Note>)
      ensures a + b + c == a + (b + c)
    {
    }

    static lemma NothingFails(bodies: Bodies)
      ensures NoneFails(bodies, [])
    {
    }

    static lemma StoppedAt(bodies: Bodies, steps: seq<Step>, k: nat, error: ErrorInfo)
      requires k < |steps| && NoneFails(bodies, steps[..k]) && Fails(bodies, steps[k])
      requires bodies(steps[k].processId, steps[k].action).error == error
      ensures StopsAt(bodies, steps, k, error)
    {
    }

    static lemma OneStep(bodies: Bodies, steps: seq<Step>, k: nat)
      requires k < |steps|
      ensures WorkNotes(bodies, steps[..k + 1]) == WorkNotes(bodies, steps[..k]) + StepNotes(bodies, steps[k])
      ensures Results(bodies, steps[..k + 1]) ==
        Results(bodies, steps[..k])[steps[k].processId := StepResult(bodies, steps[k])]
      ensures NoneFails(bodies, steps[..k + 1]) <==> NoneFails(bodies, steps[..k]) && !Fails(bodies, steps[k])
    {
      assert steps[..k + 1][..k] == steps[..k];
      assert steps[..k + 1] == steps[..k] + [steps[k]];
      hide Fails, StepNotes;
    }

    method EmitSkip(s: Step)
      requires s.action.SkipAction?
      modifies this`notes
      ensures notes == old(notes) + StepNotes(bodies, s)
    {
      notes := notes + [StepSkipped(s.processId, s.sourceAttemptId)];
    }

    /** `execute_recovery_plan`: a rejected plan writes and runs nothing; an accepted one is saved, then its
        steps run in order until one fails, and exactly one closing event is appended. */
    method ExecuteRecoveryPlan(plan: Plan) returns (r: Result<map<string, Option<Json>>, ExecutionError>)
      modifies this`notes, this`savedPlans
      ensures var rejected := Rejection(runtimeId, hasRuntimeDir, processes, plan);
        if rejected.Some?
        then r == Failure(rejected.value) && notes == old(notes) && savedPlans == old(savedPlans)
        else savedPlans == old(savedPlans) + [plan] && Executed(bodies, plan, old(notes), notes, r)
    {
      hide FirstEarly, WorkNotes, Results, NoneFails, StopsAt;
      var rejected := Validate(plan);
      if rejected.Some? {
        return Failure(rejected.value);
      }
      NothingBlocked(plan.steps);
      savedPlans := savedPlans + [plan];
      notes := notes + [RecoveryStarted(plan.planId, plan.sourceRuntimeId)];
      var done, failure, results := RunSteps(plan.steps);
      if failure.Some? {
        notes := notes + [RecoveryFailed(plan.planId, failure.value)];
        return Failure(ProcessRaised(failure.value));
      }
      notes := notes + [RecoveryCompleted(plan.planId)];
      r := Success(results);
    }
  }

  ghost predicate StopsAt(bodies: Bodies, steps: seq<Step>, k: nat, error: ErrorInfo) {
    && k < |steps| && NoneFails(bodies, steps[..k]) && Fails(bodies, steps[k])
    && bodies(steps[k].processId, steps[k].action).error == error
  }

  /** What an accepted plan appends and returns: all steps and a completion, or the steps up to the first
      failing one and a failure. */
  ghost predicate Executed(
    bodies: Bodies, plan: Plan, before: seq<Note>, after: seq<Note>,
    r: Result<map<string, Option<Json>>, ExecutionError>)
  {
    var started := before + [RecoveryStarted(plan.planId, plan.sourceRuntimeId)];
    match r
    case Success(results) =>
      && NoneFails(bodies, plan.steps) && results == Results(bodies, plan.steps)
      && after == started + WorkNotes(bodies, plan.steps) + [RecoveryCompleted(plan.planId)]
    case Failure(error) =>
      && error.ProcessRaised?
      && exists k: nat :: StopsAt(bodies, plan.steps, k, error.error)
           && after == started + WorkNotes(bodies, plan.steps[..k + 1]) + [RecoveryFailed(plan.planId, error.error)]
  }

  lemma {:induction false} EarlySticks(steps: seq<Step>, k: nat)
    requires k <= |steps| && FirstEarly(steps[..k]).Some?
    ensures FirstEarly(steps) == FirstEarly(steps[..k])
    decreases |steps|
  {
    if k < |steps| {
      assert steps[..|steps| - 1][..k] == steps[..k];
      EarlySticks(steps[..|steps| - 1], k);
    } else {
      assert steps[..k] == steps;
    }
  }

  lemma SubsetDifference(a: set<string>, b: set<string>)
    ensures a - b == {} <==> a <= b
  {
    assert a <= b + (a - b);
  }

  lemma MoreIds(steps: seq<Step>, i: nat)
    requires i < |steps|
    ensures StepIds(steps[..i + 1]) == StepIds(steps[..i]) + {steps[i].processId}
  {
    assert steps[..i + 1] == steps[..i] + [steps[i]];
  }

  lemma {:induction false} NothingBlocked(steps: seq<Step>)
    ensures BlockedIds(steps) == [] <==> forall s <- steps :: !s.action.BlockAction?
  {
    if steps != [] {
      assert steps == steps[..|steps| - 1] + [steps[|steps| - 1]];
      NothingBlocked(steps[..|steps| - 1]);
    }
  }

  // ---------------------------------------------------------------- what an execution promises

  lemma {:induction false} EarlyExactly(steps: seq<Step>)
    ensures FirstEarly(steps).None? <==>
      forall i | 0 <= i < |steps| :: Members(steps[i].dependsOn) <= StepIds(steps[..i])
  {
    hide Ascending, Members, StepIds;
    if steps != [] {
      var init := steps[..|steps| - 1];
      forall i | 0 <= i < |init| ensures steps[..i] == init[..i] && steps[i] == init[i] {}
      EarlyExactly(init);
    }
  }

  /** The order check never fires on a planner's output: an unblocked plan for registered processes of this
      runtime is accepted. */
  lemma PlannerPlansAccepted(
    specs: seq<ProcessSpec>, source: Projection, decisions: seq<Decision>, header: PlanHeader, runtimeId: string,
    processes: set<string>)
    requires AllValid(decisions) && PlannedSteps(specs, source, decisions).Success?
    ensures var plan := Assemble(PlannedSteps(specs, source, decisions), source, header).value;
      Rejection(runtimeId, true, processes, plan).None? <==>
        && header.targetRuntimeId == runtimeId
        && (forall s <- plan.steps :: !s.action.BlockAction?)
        && (forall s <- plan.steps :: s.action.SkipAction? || s.processId in processes)
  {
    hide PlannedSteps, GraphOf, CaseOf, StepsFor, Complete, Consistent, DecisionsById, Distinct, Members, StepIds;
    hide FirstEarly;
    hide BlockedIds, TopologicalOrder, AllValid;
    PlanOrdered(specs, source, decisions);
    var steps := PlannedSteps(specs, source, decisions).value;
    EarlyExactly(steps);
    NothingBlocked(steps);
    RequiredKnown(steps, processes);
  }

  lemma PlanOrdered(specs: seq<ProcessSpec>, source: Projection, decisions: seq<Decision>)
    requires AllValid(decisions) && PlannedSteps(specs, source, decisions).Success?
    ensures var plan := PlannedSteps(specs, source, decisions).value;
      forall i | 0 <= i < |plan| :: Members(plan[i].dependsOn) <= StepIds(plan[..i])
  {
    PlanListed(specs, source, decisions);
  }

  lemma RequiredKnown(steps: seq<Step>, processes: set<string>)
    ensures RequiredIds(steps) <= processes <==> forall s <- steps :: s.action.SkipAction? || s.processId in processes
  {
    if RequiredIds(steps) <= processes {
      forall s <- steps ensures s.action.SkipAction? || s.processId in processes {
        if !s.action.SkipAction? { assert s.processId in RequiredIds(steps); }
      }
    }
  }

  predicate Resolves(n: Note, id: string) {
    (n.StepSkipped? || n.AttemptEnded?) && n.processId == id
  }

  lemma {:induction false} StepResolved(bodies: Bodies, steps: seq<Step>, id: string)
    requires NoneFails(bodies, steps) && id in StepIds(steps)
    ensures exists n :: n in WorkNotes(bodies, steps) && Resolves(n, id)
  {
    var init, s := steps[..|steps| - 1], steps[|steps| - 1];
    assert steps == init + [s];
    if s.processId == id {
      assert !Fails(bodies, s);
      var last := StepNotes(bodies, s)[|StepNotes(bodies, s)| - 1];
      assert last in WorkNotes(bodies, steps) && Resolves(last, id);
    } else {
      assert id in StepIds(init);
      StepResolved(bodies, init, id);
      var n :| n in WorkNotes(bodies, init) && Resolves(n, id);
      assert n in WorkNotes(bodies, steps);
    }
  }

  lemma {:induction false} NotesSplit(bodies: Bodies, steps: seq<Step>, k: nat)
    requires k < |steps|
    ensures WorkNotes(bodies, steps[..k]) + StepNotes(bodies, steps[k]) <= WorkNotes(bodies, steps)
    decreases |steps|
  {
    hide StepNotes;
    if k < |steps| - 1 {
      var init := steps[..|steps| - 1];
      assert init[..k] == steps[..k];
      NotesSplit(bodies, init, k);
    }
  }

  /** In the events of an accepted plan, whatever a step depends on was skipped or had ended before the
      step's own first event, for every step up to and including the one that failed. */
  lemma DependenciesResolvedFirst(bodies: Bodies, plan: Plan, k: nat, q: string,
                                  runtimeId: string, hasRuntimeDir: bool, processes: set<string>)
    requires Rejection(runtimeId, hasRuntimeDir, processes, plan).None? && k < |plan.steps|
    requires NoneFails(bodies, plan.steps[..k]) && q in plan.steps[k].dependsOn
    ensures WorkNotes(bodies, plan.steps[..k]) + StepNotes(bodies, plan.steps[k]) <= WorkNotes(bodies, plan.steps)
    ensures exists n :: n in WorkNotes(bodies, plan.steps[..k]) && Resolves(n, q)
  {
    NotesSplit(bodies, plan.steps, k);
    EarlyExactly(plan.steps);
    hide FirstEarly, WorkNotes, StepNotes;
    assert q in Members(plan.steps[k].dependsOn);
    StepResolved(bodies, plan.steps[..k], q);
  }

  /** The processes dispatched are exactly the steps that are not skipped, each once. */
  function Opened(notes: seq<Note>): seq<string> {
    if notes == [] then []
    else
      Opened(notes[..|notes| - 1]) + (if notes[|notes| - 1].AttemptOpened? then [notes[|notes| - 1].processId] else [])
  }

  function Wanted(steps: seq<Step>): seq<string> {
    if steps == [] then []
    else
      Wanted(steps[..|steps| - 1])
      + (if steps[|steps| - 1].action.SkipAction? then [] else [steps[|steps| - 1].processId])
  }

  lemma {:induction false} OpenedConcat(a: seq<Note>, b: seq<Note>)
    ensures Opened(a + b) == Opened(a) + Opened(b)
  {
    if b == [] {
      assert a + b == a;
    } else {
      assert (a + b)[..|a + b| - 1] == a + b[..|b| - 1];
      OpenedConcat(a, b[..|b| - 1]);
    }
  }

  lemma {:induction false} DispatchesExactly(bodies: Bodies, steps: seq<Step>)
    requires NoneFails(bodies, steps)
    ensures Opened(WorkNotes(bodies, steps)) == Wanted(steps)
  {
    if steps != [] {
      var init, s := steps[..|steps| - 1], steps[|steps| - 1];
      assert steps == init + [s];
      DispatchesExactly(bodies, init);
      OpenedConcat(WorkNotes(bodies, init), StepNotes(bodies, s));
      assert !Fails(bodies, s);
      StepOpens(bodies, s);
    }
  }

  lemma StepOpens(bodies: Bodies, s: Step)
    requires !Fails(bodies, s)
    ensures Opened(StepNotes(bodies, s)) == if s.action.SkipAction? then [] else [s.processId]
  {
    var notes := StepNotes(bodies, s);
    if !s.action.SkipAction? {
      assert notes[..1] == [Opening(s)] && notes[..1][..0] == [];
      assert Opened(notes[..1]) == [s.processId];
    } else {
      assert notes[..0] == [];
    }
  }
}
