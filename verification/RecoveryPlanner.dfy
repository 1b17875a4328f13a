/** `RuntimeRecoveryPlanner` and `RuntimeContinuationSelector` as they run: loops that grow a step table, the
    set of re-executed processes and the set of affected ones. */
module RecoveryPlanners {
  import opened RuntimeTypes
  import opened RuntimeProjections
  import opened RecoveryGraph
  import opened GraphBuilder
  import opened Recovery
  import opened Continuation

  datatype PlanHeader = PlanHeader(planId: string, targetRuntimeId: string, createdAt: Time, metadata: Json)

  function Assemble(steps: Result<seq<Step>, PlanError>, source: Projection,
      header: PlanHeader): Result<Plan, PlanError> {
    match steps
    case Failure(error) => Failure(error)
    case Success(list) =>
      Success(Plan(header.planId, source.core.runtimeId, header.targetRuntimeId, header.createdAt, list,
                   header.metadata))
  }

  /** A plan says which runtime it recovers and which one it is for. */
  predicate Headed(plan: Plan, sourceRuntimeId: string, header: PlanHeader) {
    && plan.planId == header.planId && plan.sourceRuntimeId == sourceRuntimeId
    && plan.targetRuntimeId == header.targetRuntimeId && plan.createdAt == header.createdAt
    && plan.metadata == header.metadata
  }

  lemma DownstreamAll(deps: Edges, p: string)
    requires TopologicalOrder(deps, Kahn(deps, {})) && p in deps
    ensures Members(Keep(Kahn(deps, {}), TransitiveDependents(deps, {p}))) == TransitiveDependents(deps, {p})
    ensures Members([p]) == {p}
  {
    hide Kahn, Topological, DependsOn;
    KeepMembers(Kahn(deps, {}), TransitiveDependents(deps, {p}));
  }

  class RuntimeRecoveryPlanner {

    constructor () {}

    method CreatePlan(specs: seq<ProcessSpec>, source: Projection, decisions: seq<Decision>, header: PlanHeader)
      returns (r: Result<Plan, PlanError>)
      requires AllValid(decisions)
      ensures r == Assemble(PlannedSteps(specs, source, decisions), source, header)
      ensures r.Success? ==> Headed(r.value, source.core.runtimeId, header)
    {
      hide GraphOf, SpecsById, DecisionsById, Ascending;
      var graph := BuildRuntimeProcessGraph(specs);
      if graph.Failure? {
        return Failure(GraphInvalid(graph.error));
      }
      var decided := DecisionsById(decisions);
      if |decided.Keys| != |decisions| {
        return Failure(RepeatedEntries);
      }
      KnownIds(specs);
      var known := Members(graph.value.processIds);
      if decided.Keys != known {
        var missing := SortedKeys(known - decided.Keys);
        var unknown := SortedKeys(decided.Keys - known);
        return Failure(CoverageMismatch(missing, unknown));
      }
      CaseComplete(specs, source, decisions);
      var steps := PlanSteps(graph.value, CaseOf(specs, source, decisions));
      r := Success(Plan(header.planId, source.core.runtimeId, header.targetRuntimeId, header.createdAt,
                        InOrder(graph.value.topologicalOrder, steps), header.metadata));
    }

    /** The loop over the topological order. */
    method PlanSteps(graph: ProcessGraph, c: Case) returns (steps: map<string, Step>)
      requires Complete(c) && graph == GraphFrom(c.deps) && TopologicalOrder(c.deps, graph.topologicalOrder)
      requires forall p <- graph.topologicalOrder :: p in c.deps
      ensures steps == StepsFor(c, graph.topologicalOrder)
    {
      hide GraphFrom, Kahn, TransitiveDependents, Topological, StepFor, Complete;
      var order := graph.topologicalOrder;
      var reexecuted: set<string> := {};
      steps := map[];
      for i := 0 to |order|
        invariant steps == StepsFor(c, order[..i]) && reexecuted == Reexecuted(steps)
      {
        assert order[..i + 1][..i] == order[..i];
        NewProcess(c, order, i);
        var step := PlanStep(graph, c, order[i], steps, reexecuted);
        if Reexecutes(step.action) {
          reexecuted := reexecuted + {order[i]};
        }
        steps := steps[order[i] := step];
      }
      assert order[..|order|] == order;
    }

    /** One turn of the loop. */
    method PlanStep(graph: ProcessGraph, c: Case, p: string, steps: map<string, Step>, reexecuted: set<string>)
      returns (step: Step)
      requires Complete(c) && graph == GraphFrom(c.deps) && TopologicalOrder(c.deps, graph.topologicalOrder)
      requires p in c.deps
      requires reexecuted == Reexecuted(steps)
      ensures step == StepFor(c, p, steps)
    {
      assert graph.dependencies[p] == Ascending(c.deps[p]) && p in c.specs && p in c.decisions;
      hide Complete, GraphFrom, Kahn, TransitiveDependents, Topological, EligibleAction, Ascending, Keep, Blocked;
      hide Reexecuted, Members;
      var d := c.decisions[p];
      var (action, reason) := EligibleAction(c.specs[p], c.source, d);
      var blocking := Keep(graph.dependencies[p], Blocked(steps));
      var changed := Keep(graph.dependencies[p], reexecuted);
      if blocking != [] {
        action, reason := BlockAction, BlockedBy(blocking);
      } else if action.SkipAction? && changed != [] && !d.preserve {
        action, reason := BlockAction, SkipOverturned(changed);
      }
      var downstream: set<string> := {};
      if Reexecutes(action) {
        downstream := DownstreamOf(graph, p, c.deps);
      }
      var listed := SortedKeys(Members(d.invalidates) + downstream);
      step := Step(p, action, reason, graph.dependencies[p], d.sourceAttemptId, d.checkpoint, listed, d.preserve,
                   d.metadata);
    }
  }

  /** `graph.downstream({p})` as a set. */
  method DownstreamOf(graph: ProcessGraph, p: string, ghost deps: Edges) returns (found: set<string>)
    requires graph == GraphFrom(deps) && TopologicalOrder(deps, graph.topologicalOrder) && p in deps
    ensures found == TransitiveDependents(deps, {p})
  {
    DownstreamAll(deps, p);
    hide Kahn, TransitiveDependents, TopologicalOrder, Ascending, Keep, Members;
    var downstream := Downstream(graph, [p], deps);
    found := Members(downstream.value);
  }

  lemma KnownIds(specs: seq<ProcessSpec>)
    ensures GraphOf(specs).Success? ==>
      Members(GraphOf(specs).value.processIds) == Declared(specs).Keys
      && GraphOf(specs).value == GraphFrom(Declared(specs))
  {
    hide SpecsById, Kahn, FirstFault, FirstRepeat, Leftover, Ascending, GraphFrom, EdgesOf, Members;
    GraphListed(Declared(specs));
  }

  lemma GraphListed(deps: Edges)
    ensures Members(GraphFrom(deps).processIds) == deps.Keys
  {
    hide Ascending, Kahn, Members;
    AscendingFacts(deps.Keys);
  }

  lemma NewProcess(c: Case, order: seq<string>, i: nat)
    requires Topological(c.deps, {}, order) && i < |order| && (forall p <- order :: p in c.deps) && Complete(c)
    ensures order[i] !in StepsFor(c, order[..i])
  {
    TopologicalDistinct(c.deps, order);
    StepsKeys(c, order[..i]);
    assert order[i] !in order[..i];
  }

  lemma {:induction false} StepsKeys(c: Case, order: seq<string>)
    requires Complete(c) && forall p <- order :: p in c.deps
    ensures forall p :: p in StepsFor(c, order) <==> p in order
  {
    hide StepFor;
    if order != [] {
      StepsKeys(c, order[..|order| - 1]);
      assert order == order[..|order| - 1] + [order[|order| - 1]];
    }
  }

  // ---------------------------------------------------------------- the continuation selector

  /** One turn of the first loop. */
  lemma OneSeed(ev: Evidence, order: seq<string>, i: nat)
    requires i < |order| && forall p <- order :: p in ev.assessments
    ensures var p, before := order[i], order[..i];
      var a := ev.assessments[p];
      var unknown := Members(a.invalidates) - ev.deps.Keys;
      && Seeded(ev, order[..i + 1]) ==
           Seeded(ev, before) + (if Seed(ev.source, a, p) then {p} else {}) + Members(a.invalidates)
      && (FirstUnknown(ev, before).None? ==>
            FirstUnknown(ev, order[..i + 1]) ==
              if unknown == {} then None else Some(UnknownInvalidations(p, Ascending(unknown))))
  {
    hide Ascending, Members, Seed;
    assert order[..i + 1][..i] == order[..i];
    var named := Members(ev.assessments[order[i]].invalidates);
    assert named <= ev.deps.Keys <==> named - ev.deps.Keys == {} by {
      assert named <= ev.deps.Keys + (named - ev.deps.Keys);
    }
  }

  class RuntimeContinuationSelector {

    constructor () {}

    /** The first loop: seeds and declared invalidations, refusing unknown ids. */
    method CollectSeeds(ev: Evidence, order: seq<string>,
        known: set<string>) returns (r: Result<set<string>, PlanError>)
      requires known == ev.deps.Keys && forall p <- order :: p in ev.assessments
      ensures r ==
        if FirstUnknown(ev, order).Some? then Failure(FirstUnknown(ev, order).value) else Success(Seeded(ev, order))
    {
      var affected: set<string> := {};
      assert Seeded(ev, order[..0]) == {} && FirstUnknown(ev, order[..0]).None?;
      hide Ascending, Seeded, FirstUnknown, Members, Seed;
      for i := 0 to |order|
        invariant affected == Seeded(ev, order[..i]) && FirstUnknown(ev, order[..i]).None?
      {
        OneSeed(ev, order, i);
        var p := order[i];
        var a := ev.assessments[p];
        var own: set<string> := {};
        if Seed(ev.source, a, p) {
          own := {p};
        }
        var unknown := Members(a.invalidates) - known;
        if unknown != {} {
          var names := SortedKeys(unknown);
          UnknownSticks(ev, order, i + 1);
          return Failure(UnknownInvalidations(p, names));
        }
        affected := affected + own + Members(a.invalidates);
      }
      assert order[..|order|] == order;
      r := Success(affected);
    }

    /** `any(dependency in affected for dependency in ...)` */
    method AnyAffected(dependencies: seq<string>, affected: set<string>) returns (found: bool)
      ensures found <==> Members(dependencies) * affected != {}
    {
      found := false;
      for j := 0 to |dependencies|
        invariant !found && Members(dependencies[..j]) * affected == {}
      {
        assert dependencies[..j + 1] == dependencies[..j] + [dependencies[j]];
        if dependencies[j] in affected {
          assert dependencies[j] in Members(dependencies) * affected;
          return true;
        }
      }
      assert dependencies[..|dependencies|] == dependencies;
    }

    /** The second loop: the single pass. */
    method SpreadAffected(graph: ProcessGraph, ev: Evidence, seeds: set<string>) returns (affected: set<string>)
      requires graph == GraphFrom(ev.deps) && forall p <- graph.topologicalOrder :: p in ev.assessments && p in ev.deps
      ensures affected == Spread(ev, graph.topologicalOrder, seeds)
    {
      hide Ascending, Kahn;
      var order := graph.topologicalOrder;
      affected := seeds;
      for i := 0 to |order|
        invariant affected == Spread(ev, order[..i], seeds)
      {
        assert order[..i + 1][..i] == order[..i];
        var p := order[i];
        AscendingFacts(ev.deps[p]);
        if !ev.assessments[p].preserve {
          var pulled := AnyAffected(graph.dependencies[p], affected);
          if pulled {
            affected := affected + {p};
          }
        }
      }
      assert order[..|order|] == order;
    }

    method MakeDecisions(specs: map<string, ProcessSpec>, ev: Evidence, order: seq<string>, affected: set<string>)
      returns (r: Result<seq<Decision>, PlanError>)
      requires forall p <- order :: p in ev.assessments && p in specs
      ensures r == DecisionsFor(specs, ev, order, affected)
    {
      hide ValidDecision, DecisionFor;
      var decisions := [];
      for i := 0 to |order|
        invariant DecisionsFor(specs, ev, order[..i], affected) == Success(decisions)
      {
        assert order[..i + 1][..i] == order[..i];
        var d := DecisionFor(specs[order[i]], ev.source, order[i], ev.assessments[order[i]], order[i] in affected);
        if !ValidDecision(d) {
          DecisionsStop(specs, ev, order, affected, i + 1);
          return Failure(InvalidDecision(order[i]));
        }
        decisions := decisions + [d];
      }
      assert order[..|order|] == order;
      r := Success(decisions);
    }

    method CreatePlan(specs: seq<ProcessSpec>, source: Projection, assessments: seq<Assessment>, header: PlanHeader)
      returns (r: Result<Plan, PlanError>)
      ensures r == Assemble(ContinuationSteps(specs, source, assessments, header.targetRuntimeId), source, header)
      ensures r.Success? ==> Headed(r.value, source.core.runtimeId, header)
    {
      hide GraphOf, SpecsById, AssessmentsById, Ascending, Seeded, FirstUnknown, DecisionsFor, PlannedSteps, GraphFrom;
      if header.targetRuntimeId != source.core.runtimeId {
        return Failure(RuntimeChanged);
      }
      var graph := BuildRuntimeProcessGraph(specs);
      if graph.Failure? {
        return Failure(GraphInvalid(graph.error));
      }
      var assessed := AssessmentsById(assessments);
      if |assessed.Keys| != |assessments| {
        return Failure(RepeatedEntries);
      }
      KnownIds(specs);
      var known := Members(graph.value.processIds);
      if assessed.Keys != known {
        var missing := SortedKeys(known - assessed.Keys);
        var unknown := SortedKeys(assessed.Keys - known);
        return Failure(CoverageMismatch(missing, unknown));
      }
      EvidenceAssessed(specs, source, assessments);
      r := PlanAffected(specs, EvidenceOf(specs, source, assessments), graph.value, header);
    }

    /** From a valid graph and full coverage to the planner. */
    method PlanAffected(specs: seq<ProcessSpec>, ev: Evidence, graph: ProcessGraph, header: PlanHeader)
      returns (r: Result<Plan, PlanError>)
      requires graph == GraphFrom(ev.deps) && TopologicalOrder(ev.deps, graph.topologicalOrder)
      requires forall p <- graph.topologicalOrder :: p in ev.assessments && p in ev.deps && p in SpecsById(specs)
      ensures r == Assemble(AffectedSteps(specs, ev, graph.topologicalOrder), ev.source, header)
    {
      hide GraphFrom, SpecsById, Ascending, Seeded, FirstUnknown, DecisionsFor, PlannedSteps, Spread;
      var order := graph.topologicalOrder;
      assert Members(order) == ev.deps.Keys;
      var seeds := CollectSeeds(ev, order, Members(order));
      if seeds.Failure? {
        return Failure(seeds.error);
      }
      var affected := SpreadAffected(graph, ev, seeds.value);
      var decisions := MakeDecisions(SpecsById(specs), ev, order, affected);
      if decisions.Failure? {
        return Failure(decisions.error);
      }
      TopologicalDistinct(ev.deps, order);
      DecisionsMade(SpecsById(specs), ev, order, affected);
      var planner := new RuntimeRecoveryPlanner();
      r := planner.CreatePlan(specs, ev.source, decisions.value, header);
    }
  }

  lemma {:induction false} UnknownSticks(ev: Evidence, order: seq<string>, k: nat)
    requires k <= |order| && (forall p <- order :: p in ev.assessments) && FirstUnknown(ev, order[..k]).Some?
    ensures FirstUnknown(ev, order) == FirstUnknown(ev, order[..k])
    decreases |order|
  {
    if k < |order| {
      assert order[..|order| - 1][..k] == order[..k];
      UnknownSticks(ev, order[..|order| - 1], k);
    } else {
      assert order[..k] == order;
    }
  }

  lemma {:induction false} DecisionsStop(
    specs: map<string, ProcessSpec>, ev: Evidence, order: seq<string>, affected: set<string>, k: nat)
    requires k <= |order| && (forall p <- order :: p in ev.assessments && p in specs)
    requires DecisionsFor(specs, ev, order[..k], affected).Failure?
    ensures DecisionsFor(specs, ev, order, affected) == DecisionsFor(specs, ev, order[..k], affected)
    decreases |order|
  {
    hide ValidDecision, DecisionFor;
    if k < |order| {
      assert order[..|order| - 1][..k] == order[..k];
      DecisionsStop(specs, ev, order[..|order| - 1], affected, k);
    } else {
      assert order[..k] == order;
    }
  }
}
