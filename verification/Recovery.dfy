/** Recovery plans: what the planner decides for each process, and the continuation selector's least set. */
module Recovery {
  import opened RuntimeTypes
  import opened Sorting
  import opened RuntimeProjections
  import opened RecoveryGraph

  datatype RecoveryAction = SkipAction | ResumeAction | RetryAction | RestartAction | BlockAction

  predicate Reexecutes(action: RecoveryAction) {
    action.ResumeAction? || action.RetryAction? || action.RestartAction?
  }

  /** Why a step has its action: the text supplied with the decision, or the rule that blocked it. */
  datatype Reason =
    | Given(text: string)
    | SkipNeedsSuccess | NoResumeCapability | NoRecoverableCheckpoints | CheckpointNotCommitted
    | InputChanged | ImplementationChanged
    | NoRetryCapability | NotIdempotent | CleanupRequired | AttemptsExhausted | NoStartCapability
    | BlockedBy(dependencies: seq<string>) | SkipOverturned(dependencies: seq<string>)

  datatype Decision = Decision(
    processId: string, action: RecoveryAction, reason: Reason, sourceAttemptId: Option<string>,
    checkpoint: Option<CheckpointRef>, invalidates: seq<string>, preserve: bool,
    cleanupCompleted: bool, metadata: Json)

  /** The validation every decision and every step passes when it is made. */
  predicate ValidChoice(processId: string, action: RecoveryAction, checkpoint: Option<CheckpointRef>) {
    && (action.ResumeAction? ==> checkpoint.Some?)
    && (checkpoint.Some? ==> checkpoint.value.processId == processId)
  }

  predicate ValidDecision(d: Decision) {
    ValidChoice(d.processId, d.action, d.checkpoint)
  }

  datatype Step = Step(
    processId: string, action: RecoveryAction, reason: Reason, dependsOn: seq<string>,
    sourceAttemptId: Option<string>, checkpoint: Option<CheckpointRef>, invalidates: seq<string>,
    preserve: bool, metadata: Json)

  datatype Plan = Plan(
    planId: string, sourceRuntimeId: string, targetRuntimeId: string, createdAt: Time, steps: seq<Step>, metadata: Json)

  datatype PlanError =
    | GraphInvalid(error: GraphError)
    | RepeatedEntries
    | CoverageMismatch(missing: seq<string>, unknown: seq<string>)
    | RuntimeChanged
    | UnknownInvalidations(id: string, unknown: seq<string>)
    | InvalidDecision(id: string)

  // ---------------------------------------------------------------- eligibility

  predicate SucceededBefore(p: Projection, id: string) {
    id in p.derived.processes && p.derived.processes[id].statusClass.TerminalSuccess?
  }

  function AttemptsOf(p: Projection, id: string): seq<string> {
    if id in p.core.attempts.idsByProcess then p.core.attempts.idsByProcess[id] else []
  }

  function CleanupRefusal(spec: ProcessSpec, d: Decision): Option<Reason> {
    if spec.idempotency.NonIdempotent? then Some(NotIdempotent)
    else if spec.idempotency.RequiresCleanup? && !d.cleanupCompleted then Some(CleanupRequired)
    else None
  }

  function ResumeRefusal(spec: ProcessSpec, p: Projection, d: Decision): Option<Reason> {
    if !spec.canResume then Some(NoResumeCapability)
    else if !spec.recoverableCheckpoints then Some(NoRecoverableCheckpoints)
    else
      match d.checkpoint
      case None => Some(CheckpointNotCommitted)
      case Some(c) =>
        if c.checkpointId !in p.core.checkpoints.live || p.core.checkpoints.live[c.checkpointId] != c
        then Some(CheckpointNotCommitted)
        else if spec.inputFingerprint.Some? && c.inputFingerprint != spec.inputFingerprint then Some(InputChanged)
        else if spec.implementationVersion.Some? && c.implementationVersion != spec.implementationVersion
        then Some(ImplementationChanged)
        else None
  }

  function RetryRefusal(spec: ProcessSpec, p: Projection, d: Decision): Option<Reason> {
    if !spec.canRetry then Some(NoRetryCapability)
    else if CleanupRefusal(spec, d).Some? then CleanupRefusal(spec, d)
    else if |AttemptsOf(p, spec.ResolvedId())| >= spec.maxAttempts then Some(AttemptsExhausted)
    else None
  }

  function Refusal(spec: ProcessSpec, p: Projection, d: Decision): Option<Reason> {
    match d.action
    case SkipAction => if SucceededBefore(p, spec.ResolvedId()) then None else Some(SkipNeedsSuccess)
    case ResumeAction => ResumeRefusal(spec, p, d)
    case RetryAction => RetryRefusal(spec, p, d)
    case RestartAction => if !spec.canStart then Some(NoStartCapability) else CleanupRefusal(spec, d)
    case BlockAction => None
  }

  /** `_eligible_action` */
  function EligibleAction(spec: ProcessSpec, p: Projection, d: Decision): (RecoveryAction, Reason) {
    match Refusal(spec, p, d)
    case Some(reason) => (BlockAction, reason)
    case None => (d.action, d.reason)
  }

  // ---------------------------------------------------------------- the planner

  datatype Case = Case(
    deps: Edges, specs: map<string, ProcessSpec>, source: Projection, decisions: map<string, Decision>)

  ghost predicate Complete(c: Case) {
    c.specs.Keys == c.deps.Keys == c.decisions.Keys && SoundEdges(c.deps)
    && (forall p | p in c.specs :: c.specs[p].ResolvedId() == p)
    && (forall p | p in c.decisions :: c.decisions[p].processId == p && ValidDecision(c.decisions[p]))
  }

  function Blocked(steps: map<string, Step>): set<string> {
    set q | q in steps && steps[q].action.BlockAction?
  }

  function Reexecuted(steps: map<string, Step>): set<string> {
    set q | q in steps && Reexecutes(steps[q].action)
  }

  /** A process's step, given which of its dependencies block it and which were re-executed. */
  ghost function StepFrom(c: Case, p: string, blocking: seq<string>, changed: seq<string>): Step
    requires p in c.deps && p in c.specs && p in c.decisions
  {
    var d := c.decisions[p];
    var (eligible, given) := EligibleAction(c.specs[p], c.source, d);
    var (action, reason) :=
      if blocking != [] then (BlockAction, BlockedBy(blocking))
      else if eligible.SkipAction? && changed != [] && !d.preserve then (BlockAction, SkipOverturned(changed))
      else (eligible, given);
    var downstream := if Reexecutes(action) then TransitiveDependents(c.deps, {p}) else {};
    Step(p, action, reason, Ascending(c.deps[p]), d.sourceAttemptId, d.checkpoint,
         Ascending(Members(d.invalidates) + downstream), d.preserve, d.metadata)
  }

  ghost function StepFor(c: Case, p: string, steps: map<string, Step>): Step
    requires p in c.deps && p in c.specs && p in c.decisions
  {
    StepFrom(c, p, Keep(Ascending(c.deps[p]), Blocked(steps)), Keep(Ascending(c.deps[p]), Reexecuted(steps)))
  }

  ghost function StepsFor(c: Case, order: seq<string>): map<string, Step>
    requires Complete(c) && forall p <- order :: p in c.deps
  {
    if order == [] then map[]
    else
      var steps, p := StepsFor(c, order[..|order| - 1]), order[|order| - 1];
      steps[p := StepFor(c, p, steps)]
  }

  function InOrder(order: seq<string>, steps: map<string, Step>): seq<Step> {
    if order == [] then []
    else
      InOrder(order[..|order| - 1], steps)
      + (if order[|order| - 1] in steps then [steps[order[|order| - 1]]] else [])
  }

  function DecisionsById(decisions: seq<Decision>): map<string, Decision> {
    if decisions == [] then map[]
    else
      var last := decisions[|decisions| - 1];
      DecisionsById(decisions[..|decisions| - 1])[last.processId := last]
  }

  lemma {:induction false} DecisionsListed(decisions: seq<Decision>)
    ensures forall p :: p in DecisionsById(decisions) <==> exists d :: d in decisions && d.processId == p
    ensures forall p | p in DecisionsById(decisions) ::
      DecisionsById(decisions)[p] in decisions && DecisionsById(decisions)[p].processId == p
  {
    if decisions != [] {
      var init, last := decisions[..|decisions| - 1], decisions[|decisions| - 1];
      assert decisions == init + [last];
      DecisionsListed(init);
    }
  }

  ghost predicate AllValid(decisions: seq<Decision>) {
    forall d <- decisions :: ValidDecision(d)
  }

  function CaseOf(specs: seq<ProcessSpec>, source: Projection, decisions: seq<Decision>): Case {
    Case(Declared(specs), SpecsById(specs), source, DecisionsById(decisions))
  }

  lemma CaseComplete(specs: seq<ProcessSpec>, source: Projection, decisions: seq<Decision>)
    requires GraphOf(specs).Success? && AllValid(decisions) && DecisionsById(decisions).Keys == Declared(specs).Keys
    ensures Complete(CaseOf(specs, source, decisions))
    ensures TopologicalOrder(Declared(specs), GraphOf(specs).value.topologicalOrder)
    ensures forall p <- GraphOf(specs).value.topologicalOrder :: p in Declared(specs)
    ensures GraphOf(specs).value == GraphFrom(Declared(specs))
  {
    hide SpecsById, DecisionsById, Kahn, Ascending, Leftover, FirstFault, FirstRepeat, Topological, Entangled;
    hide UniqueIds, SoundEdges, LexLeq, GraphFrom;
    GraphRefuses(specs);
    GraphExact(specs);
    SpecsListed(specs);
    DecisionsListed(decisions);
    var order := GraphOf(specs).value.topologicalOrder;
    assert forall p <- order :: p in Members(order);
    assert Declared(specs).Keys == SpecsById(specs).Keys;
  }

  /** `RuntimeRecoveryPlanner.create_plan`: the steps it returns, or why it returns none. */
  ghost function PlannedSteps(specs: seq<ProcessSpec>, source: Projection,
      decisions: seq<Decision>): Result<seq<Step>, PlanError>
    requires AllValid(decisions)
  {
    match GraphOf(specs)
    case Failure(error) => Failure(GraphInvalid(error))
    case Success(graph) =>
      var known, decided := Declared(specs).Keys, DecisionsById(decisions).Keys;
      if |decided| != |decisions| then Failure(RepeatedEntries)
      else if decided != known then Failure(CoverageMismatch(Ascending(known - decided), Ascending(decided - known)))
      else
        CaseComplete(specs, source, decisions);
        var c := CaseOf(specs, source, decisions);
        Success(InOrder(graph.topologicalOrder, StepsFor(c, graph.topologicalOrder)))
  }

  // ---------------------------------------------------------------- the steps satisfy their own rule

  lemma {:induction false} KeepSame(order: seq<string>, s: set<string>, t: set<string>)
    requires forall x <- order :: x in s <==> x in t
    ensures Keep(order, s) == Keep(order, t)
  {
    if order != [] {
      KeepSame(order[..|order| - 1], s, t);
    }
  }

  lemma {:induction false} KeepMembers(order: seq<string>, s: set<string>)
    ensures Members(Keep(order, s)) == Members(order) * s
  {
    if order != [] {
      var init := order[..|order| - 1];
      assert order == init + [order[|order| - 1]];
      KeepMembers(init, s);
      assert Members(order) == Members(init) + {order[|order| - 1]};
      var last := if order[|order| - 1] in s then [order[|order| - 1]] else [];
      assert Members(Keep(init, s) + last) == Members(Keep(init, s)) + Members(last);
    }
  }

  ghost predicate AgreeOn(a: map<string, Step>, b: map<string, Step>, ids: set<string>) {
    ids <= a.Keys && ids <= b.Keys && forall q | q in ids :: a[q] == b[q]
  }

  lemma StepAgrees(c: Case, p: string, a: map<string, Step>, b: map<string, Step>)
    requires p in c.deps && p in c.specs && p in c.decisions && AgreeOn(a, b, c.deps[p])
    ensures StepFor(c, p, a) == StepFor(c, p, b)
  {
    hide StepFrom;
    var listed := Ascending(c.deps[p]);
    AscendingFacts(c.deps[p]);
    hide Ascending;
    forall x <- listed
      ensures (x in Blocked(a) <==> x in Blocked(b)) && (x in Reexecuted(a) <==> x in Reexecuted(b))
    {
      assert x in Members(listed);
    }
    KeepSame(listed, Blocked(a), Blocked(b));
    KeepSame(listed, Reexecuted(a), Reexecuted(b));
  }

  /** Each step is what its rule makes of the whole plan. */
  ghost predicate Consistent(c: Case, steps: map<string, Step>) {
    && Complete(c) && steps.Keys <= c.deps.Keys
    && forall p | p in steps :: c.deps[p] <= steps.Keys && steps[p] == StepFor(c, p, steps)
  }

  lemma {:induction false} StepsConsistent(c: Case, order: seq<string>)
    requires Complete(c) && Topological(c.deps, {}, order) && forall p <- order :: p in c.deps
    ensures StepsFor(c, order).Keys == Members(order) && Consistent(c, StepsFor(c, order))
  {
    hide StepFor, Consistent, Topological, Members, SoundEdges, ValidDecision;
    if order == [] {
      NoSteps(c);
    } else {
      var init, p := order[..|order| - 1], order[|order| - 1];
      PrefixTopological(c.deps, order);
      assert order == init + [p];
      StepsConsistent(c, init);
      var before := StepsFor(c, init);
      assert StepsFor(c, order) == before[p := StepFor(c, p, before)];
      hide StepsFor;
      assert before[p := StepFor(c, p, before)].Keys == before.Keys + {p};
      OneMoreStep(c, before, p);
    }
  }

  lemma NoSteps(c: Case)
    requires Complete(c)
    ensures Members([]) == {} && Consistent(c, map[])
  {
    hide StepFor, Complete;
  }

  lemma OneMoreStep(c: Case, before: map<string, Step>, p: string)
    requires Consistent(c, before) && p in c.deps && p !in before && c.deps[p] <= before.Keys
    ensures Consistent(c, before[p := StepFor(c, p, before)])
  {
    hide StepFor, SoundEdges, ValidDecision;
    var after := before[p := StepFor(c, p, before)];
    forall q | q in after ensures c.deps[q] <= after.Keys && after[q] == StepFor(c, q, after) {
      assert AgreeOn(before, after, c.deps[q]);
      StepAgrees(c, q, before, after);
    }
  }

  lemma PrefixTopological(deps: Edges, order: seq<string>)
    requires order != [] && Topological(deps, {}, order)
    ensures var init, p := order[..|order| - 1], order[|order| - 1];
      && Topological(deps, {}, init) && p in deps && p !in Members(init) && deps[p] <= Members(init)
      && Members(order) == Members(init) + {p}
  {
    var init := order[..|order| - 1];
    assert order == init + [order[|order| - 1]];
    forall i | 0 <= i < |init| ensures order[..i] == init[..i] && order[i] == init[i] {}
  }

  // ---------------------------------------------------------------- what a plan promises

  /** Some direct dependency is blocked. */
  predicate AboveBlocked(c: Case, steps: map<string, Step>, p: string)
    requires p in c.deps
  {
    c.deps[p] * Blocked(steps) != {}
  }

  /** Some direct dependency is executed again. */
  predicate AboveReexecuted(c: Case, steps: map<string, Step>, p: string)
    requires p in c.deps
  {
    c.deps[p] * Reexecuted(steps) != {}
  }

  /** Refused on its own account: not eligible, or a skip overturned by a re-executed dependency. */
  ghost predicate Refused(c: Case, steps: map<string, Step>, p: string)
    requires p in c.deps && p in c.specs && p in c.decisions
  {
    var eligible := EligibleAction(c.specs[p], c.source, c.decisions[p]).0;
    || eligible.BlockAction?
    || (eligible.SkipAction? && !c.decisions[p].preserve && AboveReexecuted(c, steps, p))
  }

  /** One step, in terms of the steps it depends on. */
  lemma StepMeans(c: Case, steps: map<string, Step>, p: string)
    requires Consistent(c, steps) && p in steps
    ensures steps[p].processId == p && Members(steps[p].dependsOn) == c.deps[p]
    ensures steps[p].action.BlockAction? <==> Refused(c, steps, p) || AboveBlocked(c, steps, p)
    ensures !steps[p].action.BlockAction? ==>
      steps[p].action == c.decisions[p].action && Refusal(c.specs[p], c.source, c.decisions[p]).None?
    ensures Sorted(TextLeq, steps[p].invalidates) && Distinct(steps[p].invalidates)
    ensures Members(steps[p].invalidates) == Members(c.decisions[p].invalidates)
      + (if Reexecutes(steps[p].action) then TransitiveDependents(c.deps, {p}) else {})
    ensures ValidChoice(p, steps[p].action, steps[p].checkpoint)
  {
    var listed := Ascending(c.deps[p]);
    AscendingFacts(c.deps[p]);
    KeptSome(listed, Blocked(steps));
    KeptSome(listed, Reexecuted(steps));
    assert ValidDecision(c.decisions[p]);
    hide Ascending, Keep, TransitiveDependents, Blocked, Reexecuted, Refusal, Complete, Members, Sorted, Distinct;
    hide StepFrom;
    assert steps[p] == StepFrom(c, p, Keep(listed, Blocked(steps)), Keep(listed, Reexecuted(steps)));
    StepFromMeans(c, p, Keep(listed, Blocked(steps)), Keep(listed, Reexecuted(steps)));
  }

  lemma StepFromMeans(c: Case, p: string, blocking: seq<string>, changed: seq<string>)
    requires p in c.deps && p in c.specs && p in c.decisions && c.decisions[p].processId == p
    requires ValidDecision(c.decisions[p])
    ensures var s := StepFrom(c, p, blocking, changed);
      var d := c.decisions[p];
      var eligible := EligibleAction(c.specs[p], c.source, d).0;
      && s.processId == p && s.dependsOn == Ascending(c.deps[p])
      && (s.action.BlockAction? <==>
            blocking != [] || eligible.BlockAction? || (eligible.SkipAction? && !d.preserve && changed != []))
      && (!s.action.BlockAction? ==> s.action == d.action && Refusal(c.specs[p], c.source, d).None?)
      && Sorted(TextLeq, s.invalidates) && Distinct(s.invalidates)
      && Members(s.invalidates) ==
           Members(d.invalidates) + (if Reexecutes(s.action) then TransitiveDependents(c.deps, {p}) else {})
      && ValidChoice(p, s.action, s.checkpoint)
  {
    var s := StepFrom(c, p, blocking, changed);
    AscendingFacts(Members(c.decisions[p].invalidates)
                   + (if Reexecutes(s.action) then TransitiveDependents(c.deps, {p}) else {}));
    hide Ascending, TransitiveDependents, Refusal, Members, Sorted, Distinct;
  }

  lemma KeptSome(order: seq<string>, s: set<string>)
    ensures Keep(order, s) != [] <==> Members(order) * s != {}
  {
    KeepMembers(order, s);
    hide Keep;
    if Keep(order, s) != [] {
      assert Keep(order, s)[0] in Members(Keep(order, s));
    }
  }

  // ---------------------------------------------------------------- blocking reaches exactly the dependents

  /** Some refused process is `p` or one that `p` depends on, however indirectly. */
  ghost predicate Unreachable(c: Case, steps: map<string, Step>, p: string)
    requires Complete(c)
  {
    exists q :: q in c.deps && (q == p || DependsOn(c.deps, p, q)) && Refused(c, steps, q)
  }

  lemma {:induction false} BlockHasCause(c: Case, steps: map<string, Step>, order: seq<string>, i: nat)
    requires Consistent(c, steps) && Topological(c.deps, {}, order) && i < |order| && Members(order) == steps.Keys
    requires order[i] in steps && steps[order[i]].action.BlockAction?
    ensures Unreachable(c, steps, order[i])
    decreases i
  {
    hide StepFor, Refused, SoundEdges, ValidDecision;
    var p := order[i];
    StepMeans(c, steps, p);
    if !Refused(c, steps, p) {
      var q :| q in c.deps[p] * Blocked(steps);
      assert q in {} + Members(order[..i]);
      var j :| 0 <= j < i && order[j] == q;
      BlockHasCause(c, steps, order, j);
      var r :| r in c.deps && (r == q || DependsOn(c.deps, q, r)) && Refused(c, steps, r);
      if r == q { DependsDirectly(c.deps, p, q); } else { DependsFurther(c.deps, p, q, r); }
    }
  }

  lemma {:induction false} BlockSpreads(c: Case, steps: map<string, Step>, p: string, q: string, n: nat)
    requires Consistent(c, steps) && steps.Keys == c.deps.Keys && q in steps
    requires DependsThrough(c.deps, p, q, n) && steps[q].action.BlockAction?
    ensures p in steps && steps[p].action.BlockAction?
    decreases n
  {
    hide StepFor, Refused, SoundEdges, ValidDecision;
    if n > 0 {
      var m :| m in c.deps[p] && DependsThrough(c.deps, m, q, n - 1);
      BlockSpreads(c, steps, m, q, n - 1);
      assert m in c.deps[p] * Blocked(steps);
    } else {
      assert q in c.deps[p] * Blocked(steps);
    }
    StepMeans(c, steps, p);
  }

  lemma BlockedExactly(c: Case, steps: map<string, Step>, order: seq<string>, p: string)
    requires Consistent(c, steps) && TopologicalOrder(c.deps, order) && steps.Keys == c.deps.Keys && p in steps
    ensures steps[p].action.BlockAction? <==> Unreachable(c, steps, p)
  {
    hide StepFor, Refused, SoundEdges, ValidDecision, Topological, DependsThrough;
    if steps[p].action.BlockAction? {
      assert p in Members(order);
      var i :| 0 <= i < |order| && order[i] == p;
      BlockHasCause(c, steps, order, i);
    }
    if Unreachable(c, steps, p) {
      var q :| q in c.deps && (q == p || DependsOn(c.deps, p, q)) && Refused(c, steps, q);
      StepMeans(c, steps, q);
      if q != p {
        var n: nat :| DependsThrough(c.deps, p, q, n);
        BlockSpreads(c, steps, p, q, n);
      }
    }
  }

  /** The action of every step, both ways: blocked exactly when a refused process is upstream of it or it
      is refused itself; skipped exactly when asked for, successful before, not blocked, and preserved or
      below nothing re-executed; otherwise exactly as decided. */
  lemma ActionsExact(c: Case, steps: map<string, Step>, order: seq<string>, p: string)
    requires Consistent(c, steps) && TopologicalOrder(c.deps, order) && steps.Keys == c.deps.Keys && p in steps
    ensures steps[p].action.BlockAction? <==> Unreachable(c, steps, p)
    ensures steps[p].action.SkipAction? <==>
      && c.decisions[p].action.SkipAction? && SucceededBefore(c.source, p)
      && !AboveBlocked(c, steps, p) && (c.decisions[p].preserve || !AboveReexecuted(c, steps, p))
    ensures Reexecutes(steps[p].action) <==>
      && Reexecutes(c.decisions[p].action) && Refusal(c.specs[p], c.source, c.decisions[p]).None?
      && !AboveBlocked(c, steps, p)
    ensures !steps[p].action.BlockAction? ==> steps[p].action == c.decisions[p].action
  {
    BlockedExactly(c, steps, order, p);
    UnblockedExactly(c, steps, p);
    hide StepFor, SoundEdges, ValidDecision, TopologicalOrder, Unreachable, Refusal, Blocked, Reexecuted;
    hide SucceededBefore;
  }

  lemma UnblockedExactly(c: Case, steps: map<string, Step>, p: string)
    requires Consistent(c, steps) && p in steps
    ensures steps[p].action.SkipAction? <==>
      && c.decisions[p].action.SkipAction? && SucceededBefore(c.source, p)
      && !AboveBlocked(c, steps, p) && (c.decisions[p].preserve || !AboveReexecuted(c, steps, p))
    ensures Reexecutes(steps[p].action) <==>
      && Reexecutes(c.decisions[p].action) && Refusal(c.specs[p], c.source, c.decisions[p]).None?
      && !AboveBlocked(c, steps, p)
    ensures !steps[p].action.BlockAction? ==> steps[p].action == c.decisions[p].action
  {
    hide Consistent, Complete, Refusal, AboveBlocked, AboveReexecuted, SucceededBefore, Members, Sorted, Distinct;
    hide TransitiveDependents, ValidChoice, Refused;
    BlockCases(c, steps, p);
    StepMeans(c, steps, p);
  }

  /** When a step is blocked, in terms of its decision. */
  lemma BlockCases(c: Case, steps: map<string, Step>, p: string)
    requires Consistent(c, steps) && p in steps
    ensures p in c.decisions && p in c.specs && p in c.deps
    ensures var d, refused := c.decisions[p], Refusal(c.specs[p], c.source, c.decisions[p]).Some?;
      && (steps[p].action.BlockAction? <==>
            AboveBlocked(c, steps, p) || refused || d.action.BlockAction?
            || (d.action.SkipAction? && !d.preserve && AboveReexecuted(c, steps, p)))
      && (d.action.SkipAction? ==> (refused <==> !SucceededBefore(c.source, p)))
  {
    StepMeans(c, steps, p);
    EligibleCases(c, p);
    hide StepFor, Refusal, EligibleAction, AboveBlocked, AboveReexecuted, SucceededBefore, Members, Sorted, Distinct;
    hide TransitiveDependents, ValidChoice;
  }

  lemma EligibleCases(c: Case, p: string)
    requires Complete(c) && p in c.deps
    ensures var d := c.decisions[p];
      && EligibleAction(c.specs[p], c.source, d).0 ==
           (if Refusal(c.specs[p], c.source, d).None? then d.action else BlockAction)
      && (d.action.SkipAction? ==> (Refusal(c.specs[p], c.source, d).None? <==> SucceededBefore(c.source, p)))
      && (d.action.BlockAction? ==> Refusal(c.specs[p], c.source, d).None?)
  {
    hide SoundEdges, ValidDecision, ResumeRefusal, RetryRefusal, CleanupRefusal;
  }

  /** A re-executed process invalidates its declared processes and exactly its transitive dependents;
      any other step invalidates what was declared. */
  lemma InvalidatesExactly(c: Case, steps: map<string, Step>, p: string, q: string)
    requires Consistent(c, steps) && p in steps
    ensures q in steps[p].invalidates <==>
      q in c.decisions[p].invalidates || (Reexecutes(steps[p].action) && DependsOn(c.deps, q, p))
  {
    StepMeans(c, steps, p);
    DependentsOfOne(c.deps, q, p);
    hide StepFor, Complete, Refused, Refusal, DependsOn, TransitiveDependents, Sorted, Distinct, ValidChoice, Blocked;
    assert q in steps[p].invalidates <==> q in Members(steps[p].invalidates);
    assert q in c.decisions[p].invalidates <==> q in Members(c.decisions[p].invalidates);
  }

  lemma DependentsOfOne(deps: Edges, q: string, p: string)
    ensures q in TransitiveDependents(deps, {p}) <==> DependsOn(deps, q, p)
  {
    if DependsOn(deps, q, p) {
      var n: nat :| DependsThrough(deps, q, p, n);
    }
  }

  // ---------------------------------------------------------------- the plan lists the steps in order

  lemma {:induction false} InOrderLists(order: seq<string>, steps: map<string, Step>)
    requires forall p <- order :: p in steps
    ensures |InOrder(order, steps)| == |order|
    ensures forall i | 0 <= i < |order| :: InOrder(order, steps)[i] == steps[order[i]]
  {
    if order != [] {
      InOrderLists(order[..|order| - 1], steps);
    }
  }

  function StepIds(plan: seq<Step>): set<string> {
    set s | s in plan :: s.processId
  }

  /** A planner's output is the consistent steps of its case, one for each process, and every step comes
      after all it depends on: the executor's order check never fires on it. */
  lemma PlanListed(specs: seq<ProcessSpec>, source: Projection, decisions: seq<Decision>)
    requires AllValid(decisions) && PlannedSteps(specs, source, decisions).Success?
    ensures var plan, c := PlannedSteps(specs, source, decisions).value, CaseOf(specs, source, decisions);
      && GraphOf(specs).Success? && DecisionsById(decisions).Keys == c.deps.Keys && Complete(c)
      && var order := GraphOf(specs).value.topologicalOrder;
      && TopologicalOrder(c.deps, order) && (forall p <- order :: p in c.deps)
      && var steps := StepsFor(c, order);
      && Consistent(c, steps) && steps.Keys == c.deps.Keys
      && |plan| == |order| && Distinct(order)
      && (forall i | 0 <= i < |order| :: plan[i] == steps[order[i]] && plan[i].processId == order[i])
      && (forall i | 0 <= i < |plan| :: Members(plan[i].dependsOn) <= StepIds(plan[..i]))
  {
    var c := CaseOf(specs, source, decisions);
    CaseComplete(specs, source, decisions);
    var order := GraphOf(specs).value.topologicalOrder;
    hide GraphOf, Complete, GraphFrom, StepsFor, Kahn, DecisionsById, AllValid, CaseOf, Declared, Topological;
    hide Distinct, StepFor;
    StepsConsistent(c, order);
    OrderedSteps(c, order, StepsFor(c, order));
    TopologicalDistinct(c.deps, order);
  }

  lemma OrderedSteps(c: Case, order: seq<string>, steps: map<string, Step>)
    requires Consistent(c, steps) && Topological(c.deps, {}, order) && steps.Keys == Members(order)
    ensures var plan := InOrder(order, steps);
      && |plan| == |order| && (forall p <- order :: p in steps)
      && (forall i | 0 <= i < |order| :: plan[i] == steps[order[i]] && plan[i].processId == order[i])
      && (forall i | 0 <= i < |plan| :: Members(plan[i].dependsOn) <= StepIds(plan[..i]))
  {
    hide InOrder, StepFor, Complete, Consistent, Topological;
    forall p <- order ensures p in steps { assert p in Members(order); }
    InOrderLists(order, steps);
    var plan := InOrder(order, steps);
    forall i | 0 <= i < |order|
      ensures plan[i].processId == order[i] && Members(plan[i].dependsOn) <= StepIds(plan[..i])
    {
      StepAt(c, order, steps, i);
      forall j | 0 <= j < |order| ensures plan[j].processId == order[j] { StepAt(c, order, steps, j); }
      hide Members, StepIds;
      EarlierIds(order, plan, i);
    }
  }

  lemma StepAt(c: Case, order: seq<string>, steps: map<string, Step>, i: nat)
    requires Consistent(c, steps) && Topological(c.deps, {}, order) && i < |order| && order[i] in steps
    ensures steps[order[i]].processId == order[i] && Members(steps[order[i]].dependsOn) <= Members(order[..i])
  {
    hide Consistent, Complete, Refused, Sorted, Distinct, TransitiveDependents, Refusal;
    StepMeans(c, steps, order[i]);
    assert {} + Members(order[..i]) == Members(order[..i]);
  }

  lemma EarlierIds(order: seq<string>, plan: seq<Step>, i: nat)
    requires |plan| == |order| && i <= |order| && forall j | 0 <= j < |order| :: plan[j].processId == order[j]
    ensures Members(order[..i]) <= StepIds(plan[..i])
  {
    forall p | p in Members(order[..i]) ensures p in StepIds(plan[..i]) {
      var j :| 0 <= j < i && order[j] == p;
      assert plan[..i][j] == plan[j];
      assert plan[j] in plan[..i];
    }
  }

  lemma TopologicalDistinct(deps: Edges, order: seq<string>)
    requires Topological(deps, {}, order)
    ensures Distinct(order)
  {
    forall i, j | 0 <= i < j < |order| ensures order[i] != order[j] {
      assert order[..j][i] == order[i];
      assert order[i] in Members(order[..j]);
    }
  }
}
