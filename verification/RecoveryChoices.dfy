/** What a plan decides for each process, in terms of its declaration, the source projection and the decision
    made for it: when a step may run again, why it is blocked otherwise, and what it carries over. */
module RecoveryChoices {
  import opened RuntimeTypes
  import opened Sorting
  import opened RuntimeProjections
  import opened RecoveryGraph
  import opened Recovery

  // ---------------------------------------------------------------- what may run again

  predicate EndedWell(source: Projection, id: string) {
    id in source.derived.processes && source.derived.processes[id].statusClass == TerminalSuccess
  }

  function AttemptCount(source: Projection, id: string): nat {
    if id in source.core.attempts.idsByProcess then |source.core.attempts.idsByProcess[id]| else 0
  }

  /** The checkpoint of the decision is the live one of its id. */
  predicate Committed(source: Projection, d: Decision) {
    && d.checkpoint.Some? && d.checkpoint.value.checkpointId in source.core.checkpoints.live
    && source.core.checkpoints.live[d.checkpoint.value.checkpointId] == d.checkpoint.value
  }

  predicate SameInput(spec: ProcessSpec, d: Decision)
    requires d.checkpoint.Some?
  {
    spec.inputFingerprint.None? || spec.inputFingerprint == d.checkpoint.value.inputFingerprint
  }

  predicate SameImplementation(spec: ProcessSpec, d: Decision)
    requires d.checkpoint.Some?
  {
    spec.implementationVersion.None? || spec.implementationVersion == d.checkpoint.value.implementationVersion
  }

  /** Running it a second time does no harm, or what it left has been cleaned up. */
  predicate Repeatable(spec: ProcessSpec, d: Decision) {
    match spec.idempotency
    case NonIdempotent => false
    case RequiresCleanup => d.cleanupCompleted
    case _ => true
  }

  /** The decision meets the rules for its action. */
  predicate Allowed(spec: ProcessSpec, source: Projection, d: Decision) {
    match d.action
    case SkipAction => EndedWell(source, spec.ResolvedId())
    case ResumeAction =>
      && spec.canResume && spec.recoverableCheckpoints && Committed(source, d) && SameInput(spec, d)
      && SameImplementation(spec, d)
    case RetryAction =>
      spec.canRetry && Repeatable(spec, d) && AttemptCount(source, spec.ResolvedId()) < spec.maxAttempts
    case RestartAction => spec.canStart && Repeatable(spec, d)
    case BlockAction => true
  }

  /** The first rule the decision breaks. */
  predicate Breaks(spec: ProcessSpec, source: Projection, d: Decision, reason: Reason) {
    match reason
    case SkipNeedsSuccess => d.action.SkipAction? && !EndedWell(source, spec.ResolvedId())
    case NoResumeCapability => d.action.ResumeAction? && !spec.canResume
    case NoRecoverableCheckpoints => d.action.ResumeAction? && spec.canResume && !spec.recoverableCheckpoints
    case CheckpointNotCommitted =>
      d.action.ResumeAction? && spec.canResume && spec.recoverableCheckpoints && !Committed(source, d)
    case InputChanged =>
      && d.action.ResumeAction? && spec.canResume && spec.recoverableCheckpoints && Committed(source, d)
      && !SameInput(spec, d)
    case ImplementationChanged =>
      && d.action.ResumeAction? && spec.canResume && spec.recoverableCheckpoints && Committed(source, d)
      && SameInput(spec, d) && !SameImplementation(spec, d)
    case NoRetryCapability => d.action.RetryAction? && !spec.canRetry
    case NoStartCapability => d.action.RestartAction? && !spec.canStart
    case NotIdempotent =>
      && ((d.action.RetryAction? && spec.canRetry) || (d.action.RestartAction? && spec.canStart))
      && spec.idempotency.NonIdempotent?
    case CleanupRequired =>
      && ((d.action.RetryAction? && spec.canRetry) || (d.action.RestartAction? && spec.canStart))
      && spec.idempotency.RequiresCleanup? && !d.cleanupCompleted
    case AttemptsExhausted =>
      && d.action.RetryAction? && spec.canRetry && Repeatable(spec, d)
      && AttemptCount(source, spec.ResolvedId()) >= spec.maxAttempts
    case _ => false
  }

  /** A refusal names the first rule the decision breaks, and there is none exactly when it is allowed. */
  lemma RefusalExact(spec: ProcessSpec, source: Projection, d: Decision)
    ensures Refusal(spec, source, d).None? <==> Allowed(spec, source, d)
    ensures Refusal(spec, source, d).Some? ==> Breaks(spec, source, d, Refusal(spec, source, d).value)
  {
  }

  // ---------------------------------------------------------------- one step

  ghost predicate Ascends(list: seq<string>, ids: set<string>) {
    Sorted(TextLeq, list) && Distinct(list) && Members(list) == ids
  }

  /** The step of a process, given which of its dependencies are blocked and which run again. */
  ghost predicate ChosenBy(
    spec: ProcessSpec, source: Projection, d: Decision, s: Step, blocked: set<string>, again: set<string>)
  {
    && s.processId == spec.ResolvedId() && Ascends(s.dependsOn, spec.dependsOn)
    && s.sourceAttemptId == d.sourceAttemptId && s.checkpoint == d.checkpoint && s.preserve == d.preserve
    && s.metadata == d.metadata
    && if blocked != {} then s.action == BlockAction && s.reason.BlockedBy? && Ascends(s.reason.dependencies, blocked)
       else if !Allowed(spec, source, d) then s.action == BlockAction && Breaks(spec, source, d, s.reason)
       else if d.action.SkipAction? && !d.preserve && again != {} then
         s.action == BlockAction && s.reason.SkipOverturned? && Ascends(s.reason.dependencies, again)
       else s.action == d.action && s.reason == d.reason
  }

  lemma {:induction false} KeepAscends(order: seq<string>, s: set<string>)
    requires Sorted(TextLeq, order) && Distinct(order)
    ensures Ascends(Keep(order, s), Members(order) * s)
  {
    KeepMembers(order, s);
    if order != [] {
      var init, last := order[..|order| - 1], order[|order| - 1];
      KeepAscends(init, s);
      KeepMembers(init, s);
      forall q | q in Keep(init, s) ensures q in init {
        assert q in Members(Keep(init, s));
      }
      forall i | 0 <= i < |Keep(init, s)| ensures TextLeq(Keep(init, s)[i], last) && Keep(init, s)[i] != last {
        assert Keep(init, s)[i] in init;
        var j :| 0 <= j < |init| && init[j] == Keep(init, s)[i];
        assert order[j] == init[j];
      }
      hide TextLeq;
    }
  }

  lemma FromChosen(c: Case, p: string, blocking: seq<string>, changed: seq<string>, blocked: set<string>,
                   again: set<string>)
    requires p in c.deps && p in c.specs && p in c.decisions && c.specs[p].ResolvedId() == p
    requires c.specs[p].dependsOn == c.deps[p] && Ascends(blocking, blocked) && Ascends(changed, again)
    ensures ChosenBy(c.specs[p], c.source, c.decisions[p], StepFrom(c, p, blocking, changed), blocked, again)
  {
    AscendingFacts(c.deps[p]);
    RefusalExact(c.specs[p], c.source, c.decisions[p]);
    NoMembers(blocking);
    NoMembers(changed);
    hide Ascending, Refusal, Allowed, Breaks, Sorted, Distinct, Members, TransitiveDependents;
  }

  lemma StepChosen(c: Case, steps: map<string, Step>, p: string)
    requires Consistent(c, steps) && p in steps
    ensures p in c.specs && p in c.decisions && p in c.deps && c.deps[p] <= steps.Keys
    ensures c.specs[p].dependsOn == c.deps[p] ==>
      ChosenBy(c.specs[p], c.source, c.decisions[p], steps[p], c.deps[p] * Blocked(steps),
               c.deps[p] * Reexecuted(steps))
  {
    assert p in c.deps && c.specs[p].ResolvedId() == p && steps[p] == StepFor(c, p, steps);
    hide Consistent, Complete, StepFrom, Keep, Ascending, Blocked, Reexecuted, Ascends, ChosenBy;
    var listed := Ascending(c.deps[p]);
    AscendingFacts(c.deps[p]);
    KeepAscends(listed, Blocked(steps));
    KeepAscends(listed, Reexecuted(steps));
    if c.specs[p].dependsOn == c.deps[p] {
      FromChosen(c, p, Keep(listed, Blocked(steps)), Keep(listed, Reexecuted(steps)), c.deps[p] * Blocked(steps),
                 c.deps[p] * Reexecuted(steps));
    }
  }

  lemma NoMembers(list: seq<string>)
    ensures list == [] <==> Members(list) == {}
  {
    if list != [] { assert list[0] in Members(list); }
  }

  // ---------------------------------------------------------------- the whole plan

  predicate Blocks(plan: seq<Step>, id: string) {
    exists s <- plan :: s.processId == id && s.action == BlockAction
  }

  predicate RunsAgain(plan: seq<Step>, id: string) {
    exists s <- plan ::
      s.processId == id && (s.action == ResumeAction || s.action == RetryAction || s.action == RestartAction)
  }

  lemma OneMoreDecided(decisions: seq<Decision>)
    requires decisions != []
    ensures var init, last := decisions[..|decisions| - 1], decisions[|decisions| - 1];
      && decisions == init + [last]
      && |DecisionsById(decisions)| ==
           |DecisionsById(init)| + (if last.processId in DecisionsById(init) then 0 else 1)
  {
    var init, last := decisions[..|decisions| - 1], decisions[|decisions| - 1];
    assert DecisionsById(decisions).Keys == DecisionsById(init).Keys + {last.processId};
  }

  lemma {:induction false} FewDecisions(decisions: seq<Decision>)
    ensures |DecisionsById(decisions)| <= |decisions|
  {
    if decisions != [] {
      FewDecisions(decisions[..|decisions| - 1]);
      OneMoreDecided(decisions);
    }
  }

  lemma {:induction false} OneDecision(decisions: seq<Decision>, d: Decision)
    requires |DecisionsById(decisions)| == |decisions| && d in decisions
    ensures d.processId in DecisionsById(decisions) && DecisionsById(decisions)[d.processId] == d
  {
    var init, last := decisions[..|decisions| - 1], decisions[|decisions| - 1];
    FewDecisions(init);
    OneMoreDecided(decisions);
    if d in init { OneDecision(init, d); }
  }

  lemma {:induction false} DecisionsUnique(decisions: seq<Decision>)
    ensures |DecisionsById(decisions)| == |decisions| <==>
      forall j, k | 0 <= j < k < |decisions| :: decisions[j].processId != decisions[k].processId
  {
    if decisions != [] {
      var init, last := decisions[..|decisions| - 1], decisions[|decisions| - 1];
      DecisionsUnique(init);
      FewDecisions(init);
      DecisionsListed(init);
      OneMoreDecided(decisions);
      hide DecisionsById;
      LastRepeats(init, last);
    }
  }

  lemma LastRepeats(init: seq<Decision>, last: Decision)
    ensures (forall j, k | 0 <= j < k < |init + [last]| :: (init + [last])[j].processId != (init + [last])[k].processId)
      <==> (forall j, k | 0 <= j < k < |init| :: init[j].processId != init[k].processId)
           && !(exists d :: d in init && d.processId == last.processId)
  {
    var all := init + [last];
    forall j | 0 <= j < |init| ensures all[j] == init[j] {}
    assert all[|init|] == last;
  }

  lemma SpecUnique(specs: seq<ProcessSpec>, spec: ProcessSpec)
    requires UniqueIds(specs) && spec in specs
    ensures spec.ResolvedId() in SpecsById(specs) && SpecsById(specs)[spec.ResolvedId()] == spec
  {
    SpecsListed(specs);
    hide SpecsById, FirstRepeat;
    var other := SpecsById(specs)[spec.ResolvedId()];
    var i :| 0 <= i < |specs| && specs[i] == spec;
    var j :| 0 <= j < |specs| && specs[j] == other;
    assert i == j;
  }

  /** Main result for plans: every step is chosen by the rules from the declaration of its process, the source
      and its decision, given what became of its dependencies. */
  lemma PlanChosen(specs: seq<ProcessSpec>, source: Projection, decisions: seq<Decision>, i: nat, spec: ProcessSpec,
                   d: Decision)
    requires AllValid(decisions) && PlannedSteps(specs, source, decisions).Success?
    requires i < |PlannedSteps(specs, source, decisions).value|
    requires var p := PlannedSteps(specs, source, decisions).value[i].processId;
      spec in specs && spec.ResolvedId() == p && d in decisions && d.processId == p
    ensures var plan := PlannedSteps(specs, source, decisions).value;
      ChosenBy(spec, source, d, plan[i], set q | q in spec.dependsOn && Blocks(plan, q),
               set q | q in spec.dependsOn && RunsAgain(plan, q))
  {
    hide PlannedSteps, GraphOf, StepsFor, DecisionsById, Topological, Distinct, StepFor, SpecsById, AllValid;
    hide Consistent, Complete, ChosenBy, Members;
    PlanListed(specs, source, decisions);
    PlanUnique(specs, source, decisions);
    SpecUnique(specs, spec);
    OneDecision(decisions, d);
    var c, order := CaseOf(specs, source, decisions), GraphOf(specs).value.topologicalOrder;
    var plan, steps := PlannedSteps(specs, source, decisions).value, StepsFor(c, order);
    StepChosen(c, steps, order[i]);
    OrderCovers(c.deps, order);
    MembersAre(order);
    hide CaseOf;
    Outcomes(plan, order, steps, spec.dependsOn);
  }

  lemma MembersAre(list: seq<string>)
    ensures forall p :: p in Members(list) <==> p in list
  {
  }

  lemma PlanUnique(specs: seq<ProcessSpec>, source: Projection, decisions: seq<Decision>)
    requires AllValid(decisions) && PlannedSteps(specs, source, decisions).Success?
    ensures UniqueIds(specs) && |DecisionsById(decisions)| == |decisions|
    ensures DecisionsById(decisions).Keys == SpecsById(specs).Keys
  {
    hide GraphOf, StepsFor, DecisionsById, SpecsById, UniqueIds;
    GraphRefuses(specs);
  }

  /** What became of the dependencies, read off the plan. */
  lemma Outcomes(plan: seq<Step>, order: seq<string>, steps: map<string, Step>, ids: set<string>)
    requires |plan| == |order| && ids <= steps.Keys && (forall p :: p in steps <==> p in order)
    requires forall i | 0 <= i < |order| :: plan[i] == steps[order[i]] && plan[i].processId == order[i]
    ensures ids * Blocked(steps) == set q | q in ids && Blocks(plan, q)
    ensures ids * Reexecuted(steps) == set q | q in ids && RunsAgain(plan, q)
  {
    forall q | q in ids ensures steps[q] in plan && steps[q].processId == q
      ensures forall s <- plan | s.processId == q :: s == steps[q]
    {
      var i :| 0 <= i < |order| && order[i] == q;
      assert plan[i] in plan;
    }
  }

  /** A plan exists exactly when the declarations form a graph and the decisions name each declared process
      once and no other. */
  lemma PlanExists(specs: seq<ProcessSpec>, source: Projection, decisions: seq<Decision>)
    requires AllValid(decisions)
    ensures PlannedSteps(specs, source, decisions).Success? <==>
      && GraphOf(specs).Success?
      && (forall j, k | 0 <= j < k < |decisions| :: decisions[j].processId != decisions[k].processId)
      && (set d | d in decisions :: d.processId) == set s | s in specs :: s.ResolvedId()
  {
    hide GraphOf, StepsFor, DecisionsById, SpecsById, AllValid;
    DecisionsUnique(decisions);
    DecidedIds(decisions);
    DeclaredIds(specs);
  }

  lemma DecidedIds(decisions: seq<Decision>)
    ensures DecisionsById(decisions).Keys == set d | d in decisions :: d.processId
  {
    DecisionsListed(decisions);
    hide DecisionsById;
  }

  lemma DeclaredIds(specs: seq<ProcessSpec>)
    ensures Declared(specs).Keys == set s | s in specs :: s.ResolvedId()
  {
    SpecsListed(specs);
    hide SpecsById, FirstRepeat;
  }

  /** It holds one step for each declaration. */
  lemma PlanCovers(specs: seq<ProcessSpec>, source: Projection, decisions: seq<Decision>)
    requires AllValid(decisions) && PlannedSteps(specs, source, decisions).Success?
    ensures var plan := PlannedSteps(specs, source, decisions).value;
      && StepIds(plan) == (set s | s in specs :: s.ResolvedId())
      && forall j, k | 0 <= j < k < |plan| :: plan[j].processId != plan[k].processId
  {
    hide PlannedSteps, GraphOf, StepsFor, DecisionsById, SpecsById, AllValid, Topological, StepFor, Consistent;
    hide Complete, Declared;
    PlanListed(specs, source, decisions);
    DeclaredIds(specs);
    var order, plan := GraphOf(specs).value.topologicalOrder, PlannedSteps(specs, source, decisions).value;
    hide TopologicalOrder;
    assert Members(order) == Declared(specs).Keys by { OrderCovers(Declared(specs), order); }
    PlanIds(plan, order);
  }

  lemma OrderCovers(deps: Edges, order: seq<string>)
    requires TopologicalOrder(deps, order)
    ensures Members(order) == deps.Keys
  {
  }

  lemma PlanIds(plan: seq<Step>, order: seq<string>)
    requires |plan| == |order| && forall i | 0 <= i < |order| :: plan[i].processId == order[i]
    ensures StepIds(plan) == Members(order)
  {
    forall p | p in Members(order) ensures p in StepIds(plan) {
      var i :| 0 <= i < |order| && order[i] == p;
      assert plan[i] in plan;
    }
    forall p | p in StepIds(plan) ensures p in Members(order) {
      var s :| s in plan && s.processId == p;
      var i :| 0 <= i < |plan| && plan[i] == s;
      assert order[i] in order;
    }
  }

  function IdsOf(specs: seq<ProcessSpec>): set<string> {
    set s | s in specs :: s.ResolvedId()
  }

  /** Why there is no plan: the fault of the declarations, decisions that share a process, or the processes
      without a decision and the decisions without a process, both in ascending order. */
  lemma PlanErrors(specs: seq<ProcessSpec>, source: Projection, decisions: seq<Decision>)
    requires AllValid(decisions) && PlannedSteps(specs, source, decisions).Failure?
    ensures match PlannedSteps(specs, source, decisions).error
            case GraphInvalid(error) => GraphOf(specs) == Failure(error)
            case RepeatedEntries =>
              GraphOf(specs).Success?
              && exists j, k :: 0 <= j < k < |decisions| && decisions[j].processId == decisions[k].processId
            case CoverageMismatch(missing, unknown) =>
              && GraphOf(specs).Success?
              && (forall j, k | 0 <= j < k < |decisions| :: decisions[j].processId != decisions[k].processId)
              && Ascends(missing, IdsOf(specs) - set d | d in decisions :: d.processId)
              && Ascends(unknown, (set d | d in decisions :: d.processId) - IdsOf(specs))
              && (missing != [] || unknown != [])
            case _ => false
  {
    hide GraphOf, StepsFor, DecisionsById, SpecsById, AllValid, Ascending, Members, Sorted, Distinct;
    DecisionsUnique(decisions);
    DecidedIds(decisions);
    DeclaredIds(specs);
    var known, decided := Declared(specs).Keys, DecisionsById(decisions).Keys;
    AscendingFacts(known - decided);
    AscendingFacts(decided - known);
    NoMembers(Ascending(known - decided));
    NoMembers(Ascending(decided - known));
    SameSets(known, decided);
  }

  lemma SameSets(a: set<string>, b: set<string>)
    ensures a == b <==> a - b == {} && b - a == {}
  {
    if a - b == {} && b - a == {} {
      assert forall x | x in a :: x !in a - b;
      assert forall x | x in b :: x !in b - a;
    }
  }
}
