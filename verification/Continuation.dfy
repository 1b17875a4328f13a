/** The continuation selector: the least set of processes to run again, found in one topological pass, and
    what the plan made from it re-executes. */
module Continuation {
  import opened RuntimeTypes
  import opened Sorting
  import opened RuntimeProjections
  import opened RecoveryGraph
  import opened Recovery

  datatype Assessment = Assessment(
    processId: string, outputValid: bool, checkpointId: Option<string>, preferred: Option<RecoveryAction>,
    force: bool, cleanupCompleted: bool, preserve: bool, invalidates: seq<string>, reason: string, metadata: Json)

  /** What the selector knows of each process. */
  datatype Evidence = Evidence(deps: Edges, source: Projection, assessments: map<string, Assessment>)

  ghost predicate Assessed(ev: Evidence) {
    ev.assessments.Keys == ev.deps.Keys && SoundEdges(ev.deps)
  }

  predicate Seed(source: Projection, a: Assessment, p: string) {
    a.force || !SucceededBefore(source, p) || !a.outputValid
  }

  /** The processes in `order` that must run again on their own account, and all they declare invalid. */
  function Seeded(ev: Evidence, order: seq<string>): set<string>
    requires forall p <- order :: p in ev.assessments
  {
    if order == [] then {}
    else
      var p := order[|order| - 1];
      Seeded(ev, order[..|order| - 1])
      + (if Seed(ev.source, ev.assessments[p], p) then {p} else {}) + Members(ev.assessments[p].invalidates)
  }

  predicate Pulled(ev: Evidence, p: string, affected: set<string>)
    requires p in ev.assessments && p in ev.deps
  {
    !ev.assessments[p].preserve && ev.deps[p] * affected != {}
  }

  /** The single pass: each process joins when a dependency already has. */
  function Spread(ev: Evidence, order: seq<string>, affected: set<string>): set<string>
    requires forall p <- order :: p in ev.assessments && p in ev.deps
  {
    if order == [] then affected
    else
      var p, before := order[|order| - 1], Spread(ev, order[..|order| - 1], affected);
      if Pulled(ev, p, before) then before + {p} else before
  }

  /** Holds every seed and declared invalidation, and everything not preserved that depends on a member. */
  ghost predicate Settles(ev: Evidence, affected: set<string>)
    requires Assessed(ev)
  {
    && (forall p | p in ev.deps && Seed(ev.source, ev.assessments[p], p) :: p in affected)
    && (forall p, q | p in ev.deps && q in ev.assessments[p].invalidates :: q in affected)
    && (forall p | p in ev.deps && Pulled(ev, p, affected) :: p in affected)
  }

  lemma {:induction false} SeededExactly(ev: Evidence, order: seq<string>, x: string)
    requires forall p <- order :: p in ev.assessments
    ensures x in Seeded(ev, order) <==>
      exists p :: p in order
        && ((x == p && Seed(ev.source, ev.assessments[p], p)) || x in ev.assessments[p].invalidates)
  {
    hide Seed;
    if order != [] {
      var init, p := order[..|order| - 1], order[|order| - 1];
      assert order == init + [p];
      SeededExactly(ev, init, x);
    }
  }

  lemma {:induction false} SpreadGrows(ev: Evidence, order: seq<string>, affected: set<string>, k: nat)
    requires (forall p <- order :: p in ev.assessments && p in ev.deps) && k <= |order|
    ensures affected <= Spread(ev, order[..k], affected) <= Spread(ev, order, affected)
    ensures Spread(ev, order, affected) <= Spread(ev, order[..k], affected) + Members(order[k..])
    decreases |order|
  {
    hide Pulled;
    if k < |order| {
      var init := order[..|order| - 1];
      assert init[..k] == order[..k];
      SpreadGrows(ev, init, affected, k);
      LongerTail(order, k);
    } else {
      assert order[..k] == order;
      if k > 0 { SpreadGrows(ev, order[..k - 1], affected, k - 1); assert order[..k - 1][..k - 1] == order[..k - 1]; }
    }
  }

  lemma LongerTail(order: seq<string>, k: nat)
    requires k < |order|
    ensures Members(order[k..]) == Members(order[..|order| - 1][k..]) + {order[|order| - 1]}
  {
    var init, last := order[..|order| - 1], order[|order| - 1];
    assert order[k..] == init[k..] + [last];
  }

  /** A process joins at its own turn or not at all. */
  lemma JoinedEarlier(ev: Evidence, order: seq<string>, affected: set<string>, i: nat, q: string)
    requires Topological(ev.deps, {}, order) && (forall p <- order :: p in ev.assessments && p in ev.deps)
    requires i <= |order|
    requires q in Members(order[..i]) && q in Spread(ev, order, affected)
    ensures q in Spread(ev, order[..i], affected)
  {
    SpreadGrows(ev, order, affected, i);
    LaterIsNotEarlier(ev.deps, order, i, q);
  }

  lemma LaterIsNotEarlier(deps: Edges, order: seq<string>, i: nat, q: string)
    requires Topological(deps, {}, order) && i <= |order| && q in Members(order[..i])
    ensures q !in Members(order[i..])
  {
    TopologicalDistinct(deps, order);
    var j :| 0 <= j < i && order[j] == q;
    forall k | 0 <= k < |order| - i ensures order[i..][k] != q {
      assert order[i..][k] == order[i + k] != order[j];
    }
  }

  lemma DependenciesEarlier(deps: Edges, order: seq<string>, i: nat)
    requires Topological(deps, {}, order) && i < |order|
    ensures order[i] in deps && deps[order[i]] <= Members(order[..i])
  {
    assert {} + Members(order[..i]) == Members(order[..i]);
  }

  lemma StillPulled(ev: Evidence, order: seq<string>, affected: set<string>, i: nat)
    requires Topological(ev.deps, {}, order) && (forall p <- order :: p in ev.assessments && p in ev.deps)
    requires i < |order|
    requires Pulled(ev, order[i], Spread(ev, order, affected))
    ensures Pulled(ev, order[i], Spread(ev, order[..i], affected))
  {
    DependenciesEarlier(ev.deps, order, i);
    var q :| q in ev.deps[order[i]] * Spread(ev, order, affected);
    hide Topological, Spread;
    JoinedEarlier(ev, order, affected, i, q);
    assert q in ev.deps[order[i]] * Spread(ev, order[..i], affected);
  }

  lemma PulledJoins(ev: Evidence, order: seq<string>, affected: set<string>, i: nat)
    requires (forall p <- order :: p in ev.assessments && p in ev.deps) && i < |order|
    requires Pulled(ev, order[i], Spread(ev, order[..i], affected))
    ensures order[i] in Spread(ev, order[..i + 1], affected)
  {
    hide Pulled;
    assert order[..i + 1][..i] == order[..i];
  }

  /** After the pass nothing is left to pull. */
  lemma SpreadCloses(ev: Evidence, order: seq<string>, affected: set<string>, i: nat)
    requires Topological(ev.deps, {}, order) && (forall p <- order :: p in ev.assessments && p in ev.deps)
    requires i < |order|
    requires Pulled(ev, order[i], Spread(ev, order, affected))
    ensures order[i] in Spread(ev, order, affected)
  {
    hide Topological, Pulled, Members, Spread;
    StillPulled(ev, order, affected, i);
    PulledJoins(ev, order, affected, i);
    SpreadGrows(ev, order, affected, i + 1);
  }

  lemma {:induction false} SpreadLeast(ev: Evidence, order: seq<string>, affected: set<string>, closed: set<string>)
    requires Assessed(ev) && Settles(ev, closed) && affected <= closed
    requires forall p <- order :: p in ev.assessments && p in ev.deps
    ensures Spread(ev, order, affected) <= closed
  {
    hide Seed, SoundEdges;
    if order != [] {
      var init, p := order[..|order| - 1], order[|order| - 1];
      SpreadLeast(ev, init, affected, closed);
      if Pulled(ev, p, Spread(ev, init, affected)) {
        var q :| q in ev.deps[p] * Spread(ev, init, affected);
        assert q in ev.deps[p] * closed;
        assert Pulled(ev, p, closed);
      }
    }
  }

  function Affected(ev: Evidence, order: seq<string>): set<string>
    requires forall p <- order :: p in ev.assessments && p in ev.deps
  {
    Spread(ev, order, Seeded(ev, order))
  }

  /** One topological pass computes the least set that settles the evidence. */
  lemma AffectedLeast(ev: Evidence, order: seq<string>)
    requires Assessed(ev) && TopologicalOrder(ev.deps, order)
    requires (forall p <- order :: p in ev.assessments && p in ev.deps)
    ensures Settles(ev, Affected(ev, order))
    ensures forall closed | Settles(ev, closed) :: Affected(ev, order) <= closed
  {
    hide Seed, Pulled, Topological, Spread, Seeded, SoundEdges;
    var start, affected := Seeded(ev, order), Affected(ev, order);
    SpreadGrows(ev, order, start, |order|);
    assert order[..|order|] == order;
    forall p | p in ev.deps ensures p in order { assert p in Members(order); }
    forall p | p in ev.deps && Seed(ev.source, ev.assessments[p], p) ensures p in affected {
      SeededExactly(ev, order, p);
    }
    forall p, q | p in ev.deps && q in ev.assessments[p].invalidates ensures q in affected {
      SeededExactly(ev, order, q);
    }
    forall p | p in ev.deps && Pulled(ev, p, affected) ensures p in affected {
      var i :| 0 <= i < |order| && order[i] == p;
      SpreadCloses(ev, order, start, i);
    }
    forall closed | Settles(ev, closed) ensures affected <= closed {
      forall x | x in start ensures x in closed {
        SeededExactly(ev, order, x);
      }
      SpreadLeast(ev, order, start, closed);
    }
  }

  // ---------------------------------------------------------------- decisions from evidence

  const STILL_VALID := "completed process and outputs remain valid"

  function LastAttempt(source: Projection, p: string): Option<string> {
    var ids := AttemptsOf(source, p);
    if ids == [] then None else Some(ids[|ids| - 1])
  }

  function EvidenceCheckpoint(source: Projection, a: Assessment): Option<CheckpointRef> {
    if a.checkpointId.Some? && a.checkpointId.value in source.core.checkpoints.live
    then Some(source.core.checkpoints.live[a.checkpointId.value]) else None
  }

  /** The preferred action, else resume from a checkpoint, else retry an attempt, else restart. */
  function ChosenAction(spec: ProcessSpec, source: Projection, p: string, a: Assessment): RecoveryAction {
    if a.preferred.Some? then a.preferred.value
    else if EvidenceCheckpoint(source, a).Some? && spec.canResume then ResumeAction
    else if LastAttempt(source, p).Some? && spec.canRetry then RetryAction
    else RestartAction
  }

  /** `_decision` */
  function DecisionFor(spec: ProcessSpec, source: Projection, p: string, a: Assessment, affected: bool): Decision {
    if !affected
    then Decision(p, SkipAction, Given(STILL_VALID), None, None, [], a.preserve, a.cleanupCompleted, a.metadata)
    else Decision(p, ChosenAction(spec, source, p, a), Given(a.reason), LastAttempt(source, p),
                  EvidenceCheckpoint(source, a), a.invalidates, a.preserve, a.cleanupCompleted, a.metadata)
  }

  /** The decisions in order, or the first process whose decision fails its own validation. */
  function DecisionsFor(specs: map<string, ProcessSpec>, ev: Evidence, order: seq<string>,
      affected: set<string>): Result<seq<Decision>, PlanError>
    requires forall p <- order :: p in ev.assessments && p in specs
  {
    if order == [] then Success([])
    else
      var p := order[|order| - 1];
      match DecisionsFor(specs, ev, order[..|order| - 1], affected)
      case Failure(error) => Failure(error)
      case Success(decisions) =>
        var d := DecisionFor(specs[p], ev.source, p, ev.assessments[p], p in affected);
        if ValidDecision(d) then Success(decisions + [d]) else Failure(InvalidDecision(p))
  }

  function AssessmentsById(assessments: seq<Assessment>): map<string, Assessment> {
    if assessments == [] then map[]
    else
      var last := assessments[|assessments| - 1];
      AssessmentsById(assessments[..|assessments| - 1])[last.processId := last]
  }

  /** The first process in order that declares an unknown process invalid. */
  ghost function FirstUnknown(ev: Evidence, order: seq<string>): Option<PlanError>
    requires forall p <- order :: p in ev.assessments
  {
    if order == [] then None
    else
      var p := order[|order| - 1];
      if FirstUnknown(ev, order[..|order| - 1]).Some? then FirstUnknown(ev, order[..|order| - 1])
      else if Members(ev.assessments[p].invalidates) <= ev.deps.Keys then None
      else Some(UnknownInvalidations(p, Ascending(Members(ev.assessments[p].invalidates) - ev.deps.Keys)))
  }

  function EvidenceOf(specs: seq<ProcessSpec>, source: Projection, assessments: seq<Assessment>): Evidence {
    Evidence(Declared(specs), source, AssessmentsById(assessments))
  }

  /** What a valid graph and full coverage give. */
  lemma EvidenceAssessed(specs: seq<ProcessSpec>, source: Projection, assessments: seq<Assessment>)
    requires GraphOf(specs).Success? && AssessmentsById(assessments).Keys == Declared(specs).Keys
    ensures var order, ev := GraphOf(specs).value.topologicalOrder, EvidenceOf(specs, source, assessments);
      && Assessed(ev) && TopologicalOrder(ev.deps, order) && GraphOf(specs).value == GraphFrom(ev.deps)
      && forall p <- order :: p in ev.assessments && p in ev.deps && p in SpecsById(specs)
  {
    hide SpecsById, AssessmentsById, Kahn, Ascending, Leftover, FirstFault, FirstRepeat, Topological, Entangled;
    hide UniqueIds, SoundEdges, LexLeq, GraphFrom;
    GraphRefuses(specs);
    GraphExact(specs);
    SpecsListed(specs);
    var order := GraphOf(specs).value.topologicalOrder;
    assert forall p <- order :: p in Members(order);
    assert Declared(specs).Keys == SpecsById(specs).Keys;
  }

  /** One valid decision per process, and the one its evidence gives. */
  ghost predicate Made(specs: map<string, ProcessSpec>, ev: Evidence, order: seq<string>, affected: set<string>,
      ds: seq<Decision>)
    requires forall p <- order :: p in ev.assessments && p in specs
  {
    && |ds| == |order| && AllValid(ds) && DecisionsById(ds).Keys == Members(order)
    && |DecisionsById(ds)| == |ds|
    && forall p <- order :: p in DecisionsById(ds)
         && DecisionsById(ds)[p] == DecisionFor(specs[p], ev.source, p, ev.assessments[p], p in affected)
  }

  lemma {:induction false} DecisionsMade(
    specs: map<string, ProcessSpec>, ev: Evidence, order: seq<string>, affected: set<string>)
    requires (forall p <- order :: p in ev.assessments && p in specs) && Distinct(order)
    requires DecisionsFor(specs, ev, order, affected).Success?
    ensures Made(specs, ev, order, affected, DecisionsFor(specs, ev, order, affected).value)
  {
    if order != [] {
      hide Made, ValidDecision, DecisionFor, Distinct;
      var init := order[..|order| - 1];
      LastIsNew(order);
      DecisionsMade(specs, ev, init, affected);
      OneMoreMade(specs, ev, order, affected, DecisionsFor(specs, ev, init, affected).value);
    }
  }

  lemma OneMoreMade(specs: map<string, ProcessSpec>, ev: Evidence, order: seq<string>, affected: set<string>,
      before: seq<Decision>)
    requires (forall p <- order :: p in ev.assessments && p in specs) && order != [] && Distinct(order)
    requires Made(specs, ev, order[..|order| - 1], affected, before)
    requires var p := order[|order| - 1];
      ValidDecision(DecisionFor(specs[p], ev.source, p, ev.assessments[p], p in affected))
    ensures var p := order[|order| - 1];
      Made(specs, ev, order, affected,
           before + [DecisionFor(specs[p], ev.source, p, ev.assessments[p], p in affected)])
  {
    hide ValidDecision, DecisionFor, DecisionsById, AllValid, Distinct;
    var p := order[|order| - 1];
    var d := DecisionFor(specs[p], ev.source, p, ev.assessments[p], p in affected);
    LastIsNew(order);
    DecisionNamed(specs[p], ev.source, p, ev.assessments[p], p in affected);
    OneMoreDecision(before, d);
  }

  lemma LastIsNew(order: seq<string>)
    requires order != [] && Distinct(order)
    ensures var init, p := order[..|order| - 1], order[|order| - 1];
      && order == init + [p] && Distinct(init) && p !in Members(init) && Members(order) == Members(init) + {p}
  {
    assert order == order[..|order| - 1] + [order[|order| - 1]];
  }

  lemma DecisionNamed(spec: ProcessSpec, source: Projection, p: string, a: Assessment, affected: bool)
    ensures DecisionFor(spec, source, p, a, affected).processId == p
  {
    hide ChosenAction, LastAttempt, EvidenceCheckpoint;
  }

  lemma OneMoreDecision(ds: seq<Decision>, d: Decision)
    requires d.processId !in DecisionsById(ds)
    ensures DecisionsById(ds + [d]) == DecisionsById(ds)[d.processId := d]
    ensures DecisionsById(ds + [d]).Keys == DecisionsById(ds).Keys + {d.processId}
    ensures |DecisionsById(ds + [d])| == |DecisionsById(ds)| + 1
    ensures AllValid(ds + [d]) <==> AllValid(ds) && ValidDecision(d)
  {
    hide ValidDecision;
    assert (ds + [d])[..|ds|] == ds && (ds + [d])[|ds|] == d;
    assert DecisionsById(ds + [d]).Keys == DecisionsById(ds).Keys + {d.processId};
  }

  /** The selection once the graph is valid and the assessments cover it. */
  ghost function AffectedSteps(specs: seq<ProcessSpec>, ev: Evidence, order: seq<string>): Result<seq<Step>, PlanError>
    requires TopologicalOrder(ev.deps, order)
    requires forall p <- order :: p in ev.assessments && p in ev.deps && p in SpecsById(specs)
  {
    if FirstUnknown(ev, order).Some? then Failure(FirstUnknown(ev, order).value)
    else
      match DecisionsFor(SpecsById(specs), ev, order, Affected(ev, order))
      case Failure(error) => Failure(error)
      case Success(decisions) =>
        TopologicalDistinct(ev.deps, order);
        DecisionsMade(SpecsById(specs), ev, order, Affected(ev, order));
        PlannedSteps(specs, ev.source, decisions)
  }

  /** `RuntimeContinuationSelector.create_plan` */
  ghost function ContinuationSteps(
    specs: seq<ProcessSpec>, source: Projection, assessments: seq<Assessment>, target: string):
    Result<seq<Step>, PlanError>
  {
    if target != source.core.runtimeId then Failure(RuntimeChanged)
    else
      match GraphOf(specs)
      case Failure(error) => Failure(GraphInvalid(error))
      case Success(graph) =>
        var known, assessed := Declared(specs).Keys, AssessmentsById(assessments).Keys;
        if |assessed| != |assessments| then Failure(RepeatedEntries)
        else if assessed != known
        then Failure(CoverageMismatch(Ascending(known - assessed), Ascending(assessed - known)))
        else
          EvidenceAssessed(specs, source, assessments);
          AffectedSteps(specs, EvidenceOf(specs, source, assessments), graph.topologicalOrder)
  }

  // ---------------------------------------------------------------- what a continuation re-executes

  /** The case a continuation hands to the planner. */
  ghost predicate CaseFrom(c: Case, ev: Evidence, affected: set<string>) {
    && Complete(c) && Assessed(ev) && c.deps == ev.deps && c.source == ev.source
    && forall p | p in c.deps ::
         c.decisions[p] == DecisionFor(c.specs[p], ev.source, p, ev.assessments[p], p in affected)
  }

  /** Nothing outside the affected set runs again. */
  lemma OnlyAffected(c: Case, ev: Evidence, affected: set<string>, steps: map<string, Step>, p: string)
    requires CaseFrom(c, ev, affected) && Consistent(c, steps) && p in steps
    ensures Reexecutes(steps[p].action) ==> p in affected
  {
    UnblockedExactly(c, steps, p);
    hide Complete, Consistent, Refusal, SucceededBefore, Assessed, ChosenAction;
  }

  /** Outside the affected set a process is skipped, unless a dependency is blocked. */
  lemma OutsideSkips(c: Case, ev: Evidence, affected: set<string>, steps: map<string, Step>, p: string)
    requires CaseFrom(c, ev, affected) && Settles(ev, affected) && Consistent(c, steps) && steps.Keys == c.deps.Keys
    requires p in steps && p !in affected
    ensures steps[p].action.SkipAction? || (steps[p].action.BlockAction? && AboveBlocked(c, steps, p))
  {
    StepMeans(c, steps, p);
    EligibleCases(c, p);
    NothingPulled(ev, affected, p);
    forall q | q in c.deps[p] * Reexecuted(steps) ensures q in ev.deps[p] * affected {
      OnlyAffected(c, ev, affected, steps, q);
    }
    hide Refusal, EligibleAction, SucceededBefore, Blocked, Reexecuted, Sorted, Distinct, Members;
    hide TransitiveDependents, StepFor;
    hide Settles, Complete, Assessed, ChosenAction, Consistent, ValidChoice;
    assert c.decisions[p].action.SkipAction? && c.decisions[p].preserve == ev.assessments[p].preserve;
    assert ev.deps[p] * affected == {} ==> !AboveReexecuted(c, steps, p);
  }

  lemma NothingPulled(ev: Evidence, affected: set<string>, p: string)
    requires Assessed(ev) && Settles(ev, affected) && p in ev.deps && p !in affected
    ensures SucceededBefore(ev.source, p) && (ev.assessments[p].preserve || ev.deps[p] * affected == {})
  {
    hide SoundEdges;
    assert !Pulled(ev, p, affected);
  }

  /** With nothing blocked and no affected process told to skip, the affected processes all run again. */
  lemma AffectedRuns(c: Case, ev: Evidence, affected: set<string>, steps: map<string, Step>, p: string)
    requires CaseFrom(c, ev, affected) && Consistent(c, steps) && p in steps && p in affected
    requires !steps[p].action.BlockAction? && ev.assessments[p].preferred != Some(SkipAction)
    ensures Reexecutes(steps[p].action)
  {
    UnblockedExactly(c, steps, p);
    hide Complete, Consistent, Refusal, SucceededBefore, Assessed, EvidenceCheckpoint, LastAttempt;
  }

  /** Nothing outside the set runs again; all of it does unless blocked or told to skip; and what lies
      outside is skipped unless a dependency is blocked. */
  ghost predicate RunsExactly(plan: seq<Step>, order: seq<string>, ev: Evidence, affected: set<string>)
    requires forall p <- order :: p in ev.assessments && p in ev.deps
  {
    && |plan| == |order|
    && (forall i | 0 <= i < |plan| :: plan[i].processId == order[i])
    && (forall i | 0 <= i < |plan| && Reexecutes(plan[i].action) :: order[i] in affected)
    && (forall i | 0 <= i < |plan| && order[i] in affected && !plan[i].action.BlockAction?
                   && ev.assessments[order[i]].preferred != Some(SkipAction) :: Reexecutes(plan[i].action))
    && (forall i | 0 <= i < |plan| && order[i] !in affected && !plan[i].action.SkipAction? ::
          plan[i].action.BlockAction? && BlockedBelow(plan, order, ev, i))
  }

  ghost predicate BlockedBelow(plan: seq<Step>, order: seq<string>, ev: Evidence, i: nat)
    requires i < |order| == |plan| && order[i] in ev.deps
  {
    exists j :: 0 <= j < |plan| && order[j] in ev.deps[order[i]] && plan[j].action.BlockAction?
  }

  ghost predicate Lists(plan: seq<Step>, order: seq<string>, steps: map<string, Step>) {
    && |plan| == |order|
    && forall i | 0 <= i < |order| :: order[i] in steps && plan[i] == steps[order[i]] && plan[i].processId == order[i]
  }

  lemma StepRuns(
    c: Case, ev: Evidence, affected: set<string>, order: seq<string>, steps: map<string, Step>, plan: seq<Step>, i: nat)
    requires CaseFrom(c, ev, affected) && Settles(ev, affected) && Consistent(c, steps) && steps.Keys == c.deps.Keys
    requires Lists(plan, order, steps) && Members(order) == ev.deps.Keys && i < |order|
    ensures Reexecutes(plan[i].action) ==> order[i] in affected
    ensures order[i] in affected && !plan[i].action.BlockAction?
      && ev.assessments[order[i]].preferred != Some(SkipAction)
      ==> Reexecutes(plan[i].action)
    ensures order[i] !in affected && !plan[i].action.SkipAction? ==>
      plan[i].action.BlockAction? && BlockedBelow(plan, order, ev, i)
  {
    var p := order[i];
    OnlyAffected(c, ev, affected, steps, p);
    if p !in affected {
      OutsideSkips(c, ev, affected, steps, p);
      if AboveBlocked(c, steps, p) {
        var q :| q in c.deps[p] * Blocked(steps);
        BelongsToOrder(c, order, p, q);
        var j :| 0 <= j < |order| && order[j] == q;
        hide Consistent, Settles, CaseFrom, Reexecutes;
        assert plan[j].action.BlockAction?;
      }
    } else if !plan[i].action.BlockAction? && ev.assessments[p].preferred != Some(SkipAction) {
      AffectedRuns(c, ev, affected, steps, p);
    }
  }

  lemma BelongsToOrder(c: Case, order: seq<string>, p: string, q: string)
    requires Complete(c) && Members(order) == c.deps.Keys && p in c.deps && q in c.deps[p]
    ensures q in order
  {
    assert q in Members(order);
  }

  /** A continuation runs again exactly the least set its evidence settles on. */
  lemma ContinuationExact(specs: seq<ProcessSpec>, source: Projection, assessments: seq<Assessment>, target: string)
    requires ContinuationSteps(specs, source, assessments, target).Success?
    ensures GraphOf(specs).Success? && AssessmentsById(assessments).Keys == Declared(specs).Keys
    ensures target == source.core.runtimeId
    ensures var plan := ContinuationSteps(specs, source, assessments, target).value;
      var ev, order := EvidenceOf(specs, source, assessments), GraphOf(specs).value.topologicalOrder;
      && Assessed(ev) && TopologicalOrder(ev.deps, order) && (forall p <- order :: p in ev.assessments && p in ev.deps)
      && Settles(ev, Affected(ev, order))
      && (forall closed | Settles(ev, closed) :: Affected(ev, order) <= closed)
      && RunsExactly(plan, order, ev, Affected(ev, order))
  {
    hide ContinuationSteps, GraphOf, AssessmentsById, Settles, Affected, SoundEdges, Topological, PlannedSteps;
    hide GraphFrom;
    hide CaseFrom, Consistent, Complete, StepsFor, DecisionsById, SpecsById, Distinct, Members, DecisionFor;
    hide RunsExactly;
    ContinuationStarts(specs, source, assessments, target);
    EvidenceAssessed(specs, source, assessments);
    var ev, order := EvidenceOf(specs, source, assessments), GraphOf(specs).value.topologicalOrder;
    AffectedLeast(ev, order);
    var decisions := ContinuationDecisions(specs, source, assessments, target, ev, order);
    PlanListed(specs, source, decisions);
    PlannedCase(specs, source, decisions, ev, order, Affected(ev, order));
    var c := CaseOf(specs, source, decisions);
    AllRun(c, ev, Affected(ev, order), order, StepsFor(c, order), PlannedSteps(specs, source, decisions).value);
  }

  lemma ContinuationStarts(specs: seq<ProcessSpec>, source: Projection, assessments: seq<Assessment>, target: string)
    requires ContinuationSteps(specs, source, assessments, target).Success?
    ensures GraphOf(specs).Success? && AssessmentsById(assessments).Keys == Declared(specs).Keys
    ensures target == source.core.runtimeId
  {
    hide GraphOf, AssessmentsById, Affected, PlannedSteps, SpecsById, DecisionsFor, FirstUnknown;
  }

  lemma AllRun(c: Case, ev: Evidence, affected: set<string>, order: seq<string>, steps: map<string, Step>,
      plan: seq<Step>)
    requires CaseFrom(c, ev, affected) && Settles(ev, affected) && Consistent(c, steps) && steps.Keys == c.deps.Keys
    requires Lists(plan, order, steps) && Members(order) == ev.deps.Keys
    requires forall p <- order :: p in ev.assessments && p in ev.deps
    ensures RunsExactly(plan, order, ev, affected)
  {
    hide CaseFrom, Consistent, Settles, Reexecutes, BlockedBelow, Members;
    forall i | 0 <= i < |order|
      ensures Reexecutes(plan[i].action) ==> order[i] in affected
      ensures (order[i] in affected && !plan[i].action.BlockAction?
               && ev.assessments[order[i]].preferred != Some(SkipAction)) ==> Reexecutes(plan[i].action)
      ensures (order[i] !in affected && !plan[i].action.SkipAction?) ==>
        (plan[i].action.BlockAction? && BlockedBelow(plan, order, ev, i))
    {
      StepRuns(c, ev, affected, order, steps, plan, i);
    }
  }

  /** The decisions a continuation hands to the planner. */
  lemma ContinuationDecisions(
    specs: seq<ProcessSpec>, source: Projection, assessments: seq<Assessment>, target: string, ev: Evidence,
    order: seq<string>)
    returns (decisions: seq<Decision>)
    requires ContinuationSteps(specs, source, assessments, target).Success?
    requires GraphOf(specs).Success? && order == GraphOf(specs).value.topologicalOrder
    requires ev == EvidenceOf(specs, source, assessments) && TopologicalOrder(ev.deps, order)
    requires forall p <- order :: p in ev.assessments && p in ev.deps && p in SpecsById(specs)
    ensures AllValid(decisions)
    ensures PlannedSteps(specs, source, decisions) == ContinuationSteps(specs, source, assessments, target)
    ensures forall p <- order :: (p in DecisionsById(decisions)
      && DecisionsById(decisions)[p] ==
           DecisionFor(SpecsById(specs)[p], source, p, ev.assessments[p], p in Affected(ev, order)))
  {
    hide DecisionsFor, Affected, AssessmentsById, SpecsById, GraphOf, PlannedSteps, DecisionsById, Topological;
    hide DecisionFor, Distinct, AllValid, Declared;
    TopologicalDistinct(ev.deps, order);
    decisions := DecisionsFor(SpecsById(specs), ev, order, Affected(ev, order)).value;
    DecisionsMade(SpecsById(specs), ev, order, Affected(ev, order));
  }

  lemma PlannedCase(
    specs: seq<ProcessSpec>, source: Projection, decisions: seq<Decision>, ev: Evidence, order: seq<string>,
    affected: set<string>)
    requires Complete(CaseOf(specs, source, decisions)) && Assessed(ev) && ev.deps == Declared(specs)
    requires ev.source == source
    requires Members(order) == ev.deps.Keys
    requires forall p <- order :: (p in DecisionsById(decisions) && p in SpecsById(specs) && p in ev.assessments
      && DecisionsById(decisions)[p] == DecisionFor(SpecsById(specs)[p], source, p, ev.assessments[p], p in affected))
    ensures CaseFrom(CaseOf(specs, source, decisions), ev, affected)
  {
    hide DecisionFor, DecisionsById, SpecsById, SoundEdges, Complete;
    forall p | p in ev.deps ensures p in order { assert p in Members(order); }
  }
}
