/** What the continuation selector decides for each process, in terms of its declaration, the source
    projection and the evidence given for it. */
module ContinuationChoices {
  import opened RuntimeTypes
  import opened Sorting
  import opened RuntimeProjections
  import opened RecoveryGraph
  import opened Recovery
  import opened Continuation
  import opened RecoveryChoices

  /** Has to run on its own account: forced, not completed, or completed with outputs that no longer hold. */
  predicate MustRun(source: Projection, a: Assessment) {
    a.force || !EndedWell(source, a.processId) || !a.outputValid
  }

  /** Holds what must run and what is declared invalid, and every process not preserved below a member. */
  ghost predicate Closed(specs: seq<ProcessSpec>, source: Projection, assessments: seq<Assessment>, ids: set<string>) {
    && (forall a <- assessments | MustRun(source, a) :: a.processId in ids)
    && (forall a <- assessments :: forall q <- a.invalidates :: q in ids)
    && (forall a <- assessments, spec <- specs | spec.ResolvedId() == a.processId && !a.preserve ::
          (exists q :: q in spec.dependsOn && q in ids) ==> a.processId in ids)
  }

  ghost predicate LeastClosed(
    specs: seq<ProcessSpec>, source: Projection, assessments: seq<Assessment>, ids: set<string>)
  {
    Closed(specs, source, assessments, ids) && forall other | Closed(specs, source, assessments, other) :: ids <= other
  }

  // ---------------------------------------------------------------- one decision

  /** The attempt a decision continues from: the last one of the process. */
  predicate FromLast(source: Projection, id: string, attempt: Option<string>) {
    if AttemptCount(source, id) == 0 then attempt == None
    else attempt == Some(source.core.attempts.idsByProcess[id][AttemptCount(source, id) - 1])
  }

  /** The checkpoint a decision carries: the live one the evidence names. */
  predicate FromLive(source: Projection, a: Assessment, checkpoint: Option<CheckpointRef>) {
    if a.checkpointId.Some? && a.checkpointId.value in source.core.checkpoints.live
    then checkpoint == Some(source.core.checkpoints.live[a.checkpointId.value]) else checkpoint == None
  }

  /** A process outside the set is skipped. One inside does what is preferred, or else resumes when there is a
      checkpoint, retries when there is an attempt and restarts otherwise, as far as it is capable. */
  predicate Selected(spec: ProcessSpec, source: Projection, a: Assessment, affected: bool, d: Decision) {
    && d.processId == a.processId && d.preserve == a.preserve && d.cleanupCompleted == a.cleanupCompleted
    && d.metadata == a.metadata
    && if !affected then
         && d.action == SkipAction && d.reason == Given("completed process and outputs remain valid")
         && d.sourceAttemptId == None && d.checkpoint == None && d.invalidates == []
       else
         && d.reason == Given(a.reason) && d.invalidates == a.invalidates
         && FromLast(source, a.processId, d.sourceAttemptId) && FromLive(source, a, d.checkpoint)
         && d.action ==
              if a.preferred.Some? then a.preferred.value
              else if d.checkpoint.Some? && spec.canResume then ResumeAction
              else if d.sourceAttemptId.Some? && spec.canRetry then RetryAction
              else RestartAction
  }

  lemma DecisionSelected(spec: ProcessSpec, source: Projection, a: Assessment, affected: bool)
    ensures Selected(spec, source, a, affected, DecisionFor(spec, source, a.processId, a, affected))
  {
  }

  // ---------------------------------------------------------------- evidence as given

  lemma OneMoreAssessed(assessments: seq<Assessment>)
    requires assessments != []
    ensures var init, last := assessments[..|assessments| - 1], assessments[|assessments| - 1];
      && assessments == init + [last]
      && |AssessmentsById(assessments)| ==
           |AssessmentsById(init)| + (if last.processId in AssessmentsById(init) then 0 else 1)
  {
    var init, last := assessments[..|assessments| - 1], assessments[|assessments| - 1];
    assert AssessmentsById(assessments).Keys == AssessmentsById(init).Keys + {last.processId};
  }

  lemma {:induction false} FewAssessments(assessments: seq<Assessment>)
    ensures |AssessmentsById(assessments)| <= |assessments|
  {
    if assessments != [] {
      FewAssessments(assessments[..|assessments| - 1]);
      OneMoreAssessed(assessments);
    }
  }

  lemma {:induction false} OneAssessment(assessments: seq<Assessment>, a: Assessment)
    requires |AssessmentsById(assessments)| == |assessments| && a in assessments
    ensures a.processId in AssessmentsById(assessments) && AssessmentsById(assessments)[a.processId] == a
  {
    var init, last := assessments[..|assessments| - 1], assessments[|assessments| - 1];
    FewAssessments(init);
    OneMoreAssessed(assessments);
    if a in init { OneAssessment(init, a); }
  }

  lemma {:induction false} AssessmentsListed(assessments: seq<Assessment>)
    ensures forall p | p in AssessmentsById(assessments) ::
      AssessmentsById(assessments)[p] in assessments && AssessmentsById(assessments)[p].processId == p
  {
    if assessments != [] {
      var init, last := assessments[..|assessments| - 1], assessments[|assessments| - 1];
      assert assessments == init + [last];
      AssessmentsListed(init);
    }
  }

  /** The evidence by process is the evidence as given. */
  ghost predicate Indexed(specs: seq<ProcessSpec>, assessments: seq<Assessment>, ev: Evidence) {
    && ev.assessments.Keys == ev.deps.Keys
    && (forall a <- assessments :: a.processId in ev.assessments && ev.assessments[a.processId] == a)
    && (forall p | p in ev.assessments :: ev.assessments[p] in assessments && ev.assessments[p].processId == p)
    && (forall spec <- specs :: spec.ResolvedId() in ev.deps && ev.deps[spec.ResolvedId()] == spec.dependsOn)
    && (forall p | p in ev.deps :: exists spec :: spec in specs && spec.ResolvedId() == p)
  }

  lemma EvidenceIndexed(specs: seq<ProcessSpec>, source: Projection, assessments: seq<Assessment>)
    requires UniqueIds(specs) && |AssessmentsById(assessments)| == |assessments|
    requires AssessmentsById(assessments).Keys == Declared(specs).Keys
    ensures Indexed(specs, assessments, EvidenceOf(specs, source, assessments))
  {
    AssessmentsListed(assessments);
    SpecsListed(specs);
    hide AssessmentsById, SpecsById, FirstRepeat;
    forall a <- assessments ensures a.processId in AssessmentsById(assessments)
      && AssessmentsById(assessments)[a.processId] == a
    {
      OneAssessment(assessments, a);
    }
    forall spec <- specs
      ensures spec.ResolvedId() in Declared(specs) && Declared(specs)[spec.ResolvedId()] == spec.dependsOn
    {
      SpecUnique(specs, spec);
    }
  }

  lemma ClosedSettles(specs: seq<ProcessSpec>, assessments: seq<Assessment>, ev: Evidence, ids: set<string>)
    requires Assessed(ev) && Indexed(specs, assessments, ev)
    ensures Closed(specs, ev.source, assessments, ids) <==> Settles(ev, ids)
  {
    hide SoundEdges;
    if Settles(ev, ids) {
      forall a <- assessments, spec <- specs | spec.ResolvedId() == a.processId && !a.preserve
        ensures (exists q :: q in spec.dependsOn && q in ids) ==> a.processId in ids
      {
        if q :| q in spec.dependsOn && q in ids {
          assert q in ev.deps[a.processId] * ids;
          assert Pulled(ev, a.processId, ids);
        }
      }
    }
    if Closed(specs, ev.source, assessments, ids) {
      forall p | p in ev.deps && Pulled(ev, p, ids) ensures p in ids {
        var q :| q in ev.deps[p] * ids;
        var spec :| spec in specs && spec.ResolvedId() == p;
        assert ev.assessments[p] in assessments && q in spec.dependsOn;
      }
    }
  }

  ghost predicate AllSelected(
    specs: seq<ProcessSpec>, source: Projection, assessments: seq<Assessment>, affected: set<string>,
    decisions: seq<Decision>)
  {
    forall a <- assessments, spec <- specs | spec.ResolvedId() == a.processId ::
      exists d <- decisions :: Selected(spec, source, a, a.processId in affected, d)
  }

  /** Main result for the selector: the plan is made from one decision for each process, selected by the rules
      from its evidence, with the least closed set as the processes that run. */
  lemma ContinuationChosen(specs: seq<ProcessSpec>, source: Projection, assessments: seq<Assessment>, target: string)
    requires ContinuationSteps(specs, source, assessments, target).Success?
    ensures exists decisions: seq<Decision>, affected: set<string> ::
      && AllValid(decisions)
      && PlannedSteps(specs, source, decisions) == ContinuationSteps(specs, source, assessments, target)
      && LeastClosed(specs, source, assessments, affected)
      && AllSelected(specs, source, assessments, affected, decisions)
  {
    hide ContinuationSteps, GraphOf, AssessmentsById, Settles, Affected, SoundEdges, Topological, PlannedSteps;
    hide GraphFrom, DecisionsById, SpecsById, Members, DecisionFor, AllSelected, LeastClosed, UniqueIds, Indexed;
    hide AllValid, Assessed, Declared;
    ContinuationStarts(specs, source, assessments, target);
    GraphRefuses(specs);
    EachAssessed(specs, source, assessments, target);
    EvidenceAssessed(specs, source, assessments);
    var ev, order := EvidenceOf(specs, source, assessments), GraphOf(specs).value.topologicalOrder;
    AffectedLeast(ev, order);
    var affected := Affected(ev, order);
    var decisions := ContinuationDecisions(specs, source, assessments, target, ev, order);
    EvidenceIndexed(specs, source, assessments);
    LeastSettles(specs, assessments, ev, affected);
    OrderCovers(ev.deps, order);
    hide TopologicalOrder;
    DecisionsSelected(specs, source, assessments, ev, order, affected, decisions);
  }

  lemma EachAssessed(specs: seq<ProcessSpec>, source: Projection, assessments: seq<Assessment>, target: string)
    requires ContinuationSteps(specs, source, assessments, target).Success?
    ensures |AssessmentsById(assessments)| == |assessments|
  {
    hide GraphOf, AssessmentsById, AffectedSteps, SpecsById;
  }

  lemma LeastSettles(specs: seq<ProcessSpec>, assessments: seq<Assessment>, ev: Evidence, ids: set<string>)
    requires Assessed(ev) && Indexed(specs, assessments, ev) && Settles(ev, ids)
    requires forall other | Settles(ev, other) :: ids <= other
    ensures LeastClosed(specs, ev.source, assessments, ids)
  {
    hide Assessed, Indexed, Settles, Closed;
    ClosedSettles(specs, assessments, ev, ids);
    forall other | Closed(specs, ev.source, assessments, other) ensures ids <= other {
      ClosedSettles(specs, assessments, ev, other);
    }
  }

  lemma DecisionsSelected(
    specs: seq<ProcessSpec>, source: Projection, assessments: seq<Assessment>, ev: Evidence, order: seq<string>,
    affected: set<string>, decisions: seq<Decision>)
    requires UniqueIds(specs) && Indexed(specs, assessments, ev) && Members(order) == ev.deps.Keys
    requires forall p <- order :: (p in DecisionsById(decisions) && p in SpecsById(specs) && p in ev.assessments
      && DecisionsById(decisions)[p] == DecisionFor(SpecsById(specs)[p], source, p, ev.assessments[p], p in affected))
    ensures AllSelected(specs, source, assessments, affected, decisions)
  {
    hide DecisionsById, SpecsById, UniqueIds, DecisionFor, Selected;
    DecisionsListed(decisions);
    forall a <- assessments, spec <- specs | spec.ResolvedId() == a.processId
      ensures exists d <- decisions :: Selected(spec, source, a, a.processId in affected, d)
    {
      var p := a.processId;
      assert p in Members(order) && p in order;
      SpecUnique(specs, spec);
      DecisionSelected(spec, source, a, p in affected);
      assert DecisionsById(decisions)[p] in decisions;
    }
  }

  // ---------------------------------------------------------------- when a continuation exists

  /** The decision selected for an affected process passes its own validation. */
  predicate Choosable(source: Projection, a: Assessment) {
    if a.checkpointId.Some? && a.checkpointId.value in source.core.checkpoints.live
    then source.core.checkpoints.live[a.checkpointId.value].processId == a.processId
    else a.preferred != Some(ResumeAction)
  }

  lemma ChoosableExactly(spec: ProcessSpec, source: Projection, a: Assessment, affected: bool)
    ensures ValidDecision(DecisionFor(spec, source, a.processId, a, affected)) <==> affected ==> Choosable(source, a)
  {
  }

  lemma {:induction false} KnownExactly(ev: Evidence, order: seq<string>)
    requires forall p <- order :: p in ev.assessments
    ensures FirstUnknown(ev, order).None? <==>
      forall p <- order :: forall q <- ev.assessments[p].invalidates :: q in ev.deps
  {
    hide Ascending;
    if order != [] {
      var init, p := order[..|order| - 1], order[|order| - 1];
      assert order == init + [p];
      KnownExactly(ev, init);
      SubsetExactly(ev.assessments[p].invalidates, ev.deps.Keys);
      hide Members;
    }
  }

  lemma SubsetExactly(list: seq<string>, ids: set<string>)
    ensures Members(list) <= ids <==> forall q <- list :: q in ids
  {
    forall q <- list ensures q in Members(list) {}
  }

  lemma {:induction false} DecisionsExactly(
    specs: map<string, ProcessSpec>, ev: Evidence, order: seq<string>, affected: set<string>)
    requires forall p <- order :: p in ev.assessments && p in specs && ev.assessments[p].processId == p
    ensures DecisionsFor(specs, ev, order, affected).Success? <==>
      forall p <- order :: p in affected ==> Choosable(ev.source, ev.assessments[p])
  {
    hide ValidDecision, DecisionFor, Choosable;
    if order != [] {
      var init, p := order[..|order| - 1], order[|order| - 1];
      assert order == init + [p];
      DecisionsExactly(specs, ev, init, affected);
      ChoosableExactly(specs[p], ev.source, ev.assessments[p], p in affected);
    }
  }

  /** The declarations form a graph and every declared process is assessed once, and no other. */
  ghost predicate Covered(specs: seq<ProcessSpec>, assessments: seq<Assessment>) {
    && GraphOf(specs).Success?
    && (forall j, k | 0 <= j < k < |assessments| :: assessments[j].processId != assessments[k].processId)
    && (set a | a in assessments :: a.processId) == set s | s in specs :: s.ResolvedId()
  }

  lemma {:induction false} AssessmentsUnique(assessments: seq<Assessment>)
    ensures |AssessmentsById(assessments)| == |assessments| <==>
      forall j, k | 0 <= j < k < |assessments| :: assessments[j].processId != assessments[k].processId
    ensures AssessmentsById(assessments).Keys == set a | a in assessments :: a.processId
  {
    if assessments != [] {
      var init, last := assessments[..|assessments| - 1], assessments[|assessments| - 1];
      AssessmentsUnique(init);
      FewAssessments(init);
      OneMoreAssessed(assessments);
      assert AssessmentsById(assessments).Keys == AssessmentsById(init).Keys + {last.processId};
      hide AssessmentsById;
      LastAssessed(init, last);
    }
  }

  lemma LastAssessed(init: seq<Assessment>, last: Assessment)
    ensures (forall j, k | 0 <= j < k < |init + [last]| :: (init + [last])[j].processId != (init + [last])[k].processId)
      <==> (forall j, k | 0 <= j < k < |init| :: init[j].processId != init[k].processId)
           && last.processId !in (set a | a in init :: a.processId)
    ensures (set a | a in init + [last] :: a.processId) == (set a | a in init :: a.processId) + {last.processId}
  {
    var all := init + [last];
    forall j | 0 <= j < |init| ensures all[j] == init[j] {}
    assert all[|init|] == last && last in all;
    forall a | a in init ensures a in all {}
  }

  lemma CoveredExactly(specs: seq<ProcessSpec>, assessments: seq<Assessment>)
    ensures Covered(specs, assessments) <==>
      && GraphOf(specs).Success? && |AssessmentsById(assessments)| == |assessments|
      && AssessmentsById(assessments).Keys == Declared(specs).Keys
  {
    hide GraphOf, AssessmentsById, SpecsById;
    AssessmentsUnique(assessments);
    DeclaredIds(specs);
  }

  /** A continuation exists exactly for the same runtime, with every process assessed, nothing unknown declared
      invalid, and a decision to make for every process that has to run. */
  lemma ContinuationExists(specs: seq<ProcessSpec>, source: Projection, assessments: seq<Assessment>, target: string)
    ensures ContinuationSteps(specs, source, assessments, target).Success? <==>
      && target == source.core.runtimeId && Covered(specs, assessments)
      && (forall a <- assessments :: forall q <- a.invalidates :: exists s :: s in specs && s.ResolvedId() == q)
      && exists affected: set<string> :: LeastClosed(specs, source, assessments, affected)
           && forall a <- assessments | a.processId in affected :: Choosable(source, a)
  {
    hide ContinuationSteps, GraphOf, AssessmentsById, Settles, Affected, SoundEdges, Topological, PlannedSteps;
    hide GraphFrom, SpecsById, Covered, LeastClosed, UniqueIds, Indexed, Assessed, Declared, Choosable;
    hide AffectedSteps, Members;
    CoveredExactly(specs, assessments);
    if target == source.core.runtimeId && Covered(specs, assessments) {
      EvidenceAssessed(specs, source, assessments);
      var ev, order := EvidenceOf(specs, source, assessments), GraphOf(specs).value.topologicalOrder;
      AssessedSteps(specs, source, assessments, target);
      GraphRefuses(specs);
      EvidenceIndexed(specs, source, assessments);
      OrderCovers(ev.deps, order);
      AffectedLeast(ev, order);
      LeastSettles(specs, assessments, ev, Affected(ev, order));
      LeastOnly(specs, source, assessments);
      StepsExist(specs, assessments, ev, order);
    } else {
      AssessedSteps(specs, source, assessments, target);
    }
  }

  lemma LeastOnly(specs: seq<ProcessSpec>, source: Projection, assessments: seq<Assessment>)
    ensures forall a, b | LeastClosed(specs, source, assessments, a) && LeastClosed(specs, source, assessments, b) ::
      a == b
  {
    hide Closed;
  }

  lemma AssessedSteps(specs: seq<ProcessSpec>, source: Projection, assessments: seq<Assessment>, target: string)
    ensures ContinuationSteps(specs, source, assessments, target).Success? ==>
      && target == source.core.runtimeId && GraphOf(specs).Success?
      && |AssessmentsById(assessments)| == |assessments|
      && AssessmentsById(assessments).Keys == Declared(specs).Keys
    ensures (target == source.core.runtimeId && GraphOf(specs).Success?
             && |AssessmentsById(assessments)| == |assessments|
             && AssessmentsById(assessments).Keys == Declared(specs).Keys) ==>
      var order, ev := GraphOf(specs).value.topologicalOrder, EvidenceOf(specs, source, assessments);
      && TopologicalOrder(ev.deps, order)
      && (forall p <- order :: p in ev.assessments && p in ev.deps && p in SpecsById(specs))
      && ContinuationSteps(specs, source, assessments, target) == AffectedSteps(specs, ev, order)
  {
    hide GraphOf, AssessmentsById, SpecsById, AffectedSteps, TopologicalOrder, Declared;
    if GraphOf(specs).Success? && AssessmentsById(assessments).Keys == Declared(specs).Keys {
      EvidenceAssessed(specs, source, assessments);
    }
  }

  lemma StepsExist(specs: seq<ProcessSpec>, assessments: seq<Assessment>, ev: Evidence, order: seq<string>)
    requires GraphOf(specs).Success? && TopologicalOrder(ev.deps, order) && Indexed(specs, assessments, ev)
    requires ev.deps.Keys == Declared(specs).Keys && Members(order) == ev.deps.Keys
    requires forall p <- order :: p in ev.assessments && p in ev.deps && p in SpecsById(specs)
    ensures AffectedSteps(specs, ev, order).Success? <==>
      && (forall a <- assessments :: forall q <- a.invalidates :: exists s :: s in specs && s.ResolvedId() == q)
      && forall a <- assessments | a.processId in Affected(ev, order) :: Choosable(ev.source, a)
  {
    hide GraphOf, SpecsById, FirstUnknown, DecisionsFor, Affected, Choosable, TopologicalOrder, Declared, Made;
    KnownExactly(ev, order);
    DecisionsExactly(SpecsById(specs), ev, order, Affected(ev, order));
    MembersAre(order);
    hide Members;
    InvalidatesKnown(specs, assessments, ev, order);
    AllChoosable(specs, assessments, ev, order, Affected(ev, order));
    hide Indexed;
    if FirstUnknown(ev, order).None? && DecisionsFor(SpecsById(specs), ev, order, Affected(ev, order)).Success? {
      MadePlans(specs, ev, order);
    }
  }

  lemma InvalidatesKnown(specs: seq<ProcessSpec>, assessments: seq<Assessment>, ev: Evidence, order: seq<string>)
    requires Indexed(specs, assessments, ev) && forall p :: p in order <==> p in ev.deps
    ensures (forall p <- order :: forall q <- ev.assessments[p].invalidates :: q in ev.deps) <==>
      (forall a <- assessments :: forall q <- a.invalidates :: exists s :: s in specs && s.ResolvedId() == q)
  {
    forall q ensures q in ev.deps <==> exists s :: s in specs && s.ResolvedId() == q {}
  }

  lemma AllChoosable(specs: seq<ProcessSpec>, assessments: seq<Assessment>, ev: Evidence, order: seq<string>,
                     affected: set<string>)
    requires Indexed(specs, assessments, ev) && forall p :: p in order <==> p in ev.deps
    ensures (forall p <- order :: p in affected ==> Choosable(ev.source, ev.assessments[p])) <==>
      (forall a <- assessments | a.processId in affected :: Choosable(ev.source, a))
  {
    hide Choosable;
  }

  lemma MadePlans(specs: seq<ProcessSpec>, ev: Evidence, order: seq<string>)
    requires GraphOf(specs).Success? && TopologicalOrder(ev.deps, order) && Members(order) == Declared(specs).Keys
    requires forall p <- order :: p in ev.assessments && p in ev.deps && p in SpecsById(specs)
    requires FirstUnknown(ev, order).None?
    requires DecisionsFor(SpecsById(specs), ev, order, Affected(ev, order)).Success?
    ensures AffectedSteps(specs, ev, order).Success?
  {
    hide GraphOf, SpecsById, FirstUnknown, DecisionsFor, Affected, DecisionFor, Declared, DecisionsById;
    hide Topological, Members, AllValid;
    TopologicalDistinct(ev.deps, order);
    DecisionsMade(SpecsById(specs), ev, order, Affected(ev, order));
  }

  // ---------------------------------------------------------------- why there is none

  /** The first process in order whose evidence declares an unknown process invalid, with all of those. */
  ghost predicate UnknownAt(ev: Evidence, order: seq<string>, error: PlanError, i: nat)
    requires i < |order| && forall p <- order :: p in ev.assessments
  {
    && error.UnknownInvalidations? && error.id == order[i] && error.unknown != []
    && Ascends(error.unknown, Members(ev.assessments[order[i]].invalidates) - ev.deps.Keys)
    && forall j | 0 <= j < i :: Members(ev.assessments[order[j]].invalidates) <= ev.deps.Keys
  }

  lemma {:induction false} UnknownFirst(ev: Evidence, order: seq<string>)
    requires (forall p <- order :: p in ev.assessments) && FirstUnknown(ev, order).Some?
    ensures exists i :: 0 <= i < |order| && UnknownAt(ev, order, FirstUnknown(ev, order).value, i)
  {
    hide Ascending, Members, Sorted, Distinct;
    var init, p := order[..|order| - 1], order[|order| - 1];
    assert order == init + [p];
    if FirstUnknown(ev, init).Some? {
      UnknownFirst(ev, init);
      var i :| 0 <= i < |init| && UnknownAt(ev, init, FirstUnknown(ev, init).value, i);
      assert order[i] == init[i] && forall j | 0 <= j < i :: order[j] == init[j];
      assert UnknownAt(ev, order, FirstUnknown(ev, order).value, i);
    } else {
      var gap := Members(ev.assessments[p].invalidates) - ev.deps.Keys;
      AscendingFacts(gap);
      NoMembers(Ascending(gap));
      SubsetMeans(Members(ev.assessments[p].invalidates), ev.deps.Keys);
      AllKnown(ev, init);
      assert order[|init|] == p && forall j | 0 <= j < |init| :: order[j] == init[j];
      assert UnknownAt(ev, order, FirstUnknown(ev, order).value, |init|);
    }
  }

  lemma SubsetMeans(a: set<string>, b: set<string>)
    ensures a - b == {} <==> a <= b
  {
    if a - b == {} { assert forall x | x in a :: x !in a - b; }
  }

  lemma {:induction false} AllKnown(ev: Evidence, order: seq<string>)
    requires (forall p <- order :: p in ev.assessments) && FirstUnknown(ev, order).None?
    ensures forall j | 0 <= j < |order| :: Members(ev.assessments[order[j]].invalidates) <= ev.deps.Keys
  {
    hide Ascending, Members;
    if order != [] { AllKnown(ev, order[..|order| - 1]); }
  }

  /** The first process in order that has to run without a decision to make for it. */
  ghost predicate InvalidAt(ev: Evidence, order: seq<string>, affected: set<string>, error: PlanError, i: nat)
    requires i < |order| && forall p <- order :: p in ev.assessments
  {
    && error == InvalidDecision(order[i]) && order[i] in affected && !Choosable(ev.source, ev.assessments[order[i]])
    && forall j | 0 <= j < i && order[j] in affected :: Choosable(ev.source, ev.assessments[order[j]])
  }

  lemma {:induction false} InvalidFirst(
    specs: map<string, ProcessSpec>, ev: Evidence, order: seq<string>, affected: set<string>)
    requires forall p <- order :: p in ev.assessments && p in specs && ev.assessments[p].processId == p
    requires DecisionsFor(specs, ev, order, affected).Failure?
    ensures exists i :: (
      0 <= i < |order| && InvalidAt(ev, order, affected, DecisionsFor(specs, ev, order, affected).error, i))
  {
    hide ValidDecision, DecisionFor, Choosable;
    var init, p := order[..|order| - 1], order[|order| - 1];
    assert order == init + [p];
    var error := DecisionsFor(specs, ev, order, affected).error;
    if DecisionsFor(specs, ev, init, affected).Failure? {
      InvalidFirst(specs, ev, init, affected);
      var i :| 0 <= i < |init| && InvalidAt(ev, init, affected, error, i);
      assert order[i] == init[i] && forall j | 0 <= j < i :: order[j] == init[j];
      assert InvalidAt(ev, order, affected, error, i);
    } else {
      DecisionsExactly(specs, ev, init, affected);
      ChoosableExactly(specs[p], ev.source, ev.assessments[p], p in affected);
      assert order[|init|] == p && forall j | 0 <= j < |init| :: order[j] == init[j] && init[j] in init;
      assert InvalidAt(ev, order, affected, error, |init|);
    }
  }

  /** Why there is no continuation, in the order of the checks. */
  lemma ContinuationErrors(specs: seq<ProcessSpec>, source: Projection, assessments: seq<Assessment>, target: string)
    requires ContinuationSteps(specs, source, assessments, target).Failure?
    ensures match ContinuationSteps(specs, source, assessments, target).error
            case RuntimeChanged => target != source.core.runtimeId
            case GraphInvalid(error) => target == source.core.runtimeId && GraphOf(specs) == Failure(error)
            case RepeatedEntries =>
              && target == source.core.runtimeId && GraphOf(specs).Success?
              && exists j, k :: 0 <= j < k < |assessments| && assessments[j].processId == assessments[k].processId
            case CoverageMismatch(missing, unknown) =>
              && target == source.core.runtimeId && GraphOf(specs).Success?
              && (forall j, k | 0 <= j < k < |assessments| :: assessments[j].processId != assessments[k].processId)
              && Ascends(missing, IdsOf(specs) - set a | a in assessments :: a.processId)
              && Ascends(unknown, (set a | a in assessments :: a.processId) - IdsOf(specs))
              && (missing != [] || unknown != [])
            case error =>
              target == source.core.runtimeId && Covered(specs, assessments)
              && NoneFor(specs, source, assessments, error)
  {
    hide GraphOf, AssessmentsById, SpecsById, Ascending, Members, Sorted, Distinct, AffectedSteps, Covered, NoneFor;
    AssessmentsUnique(assessments);
    DeclaredIds(specs);
    CoveredExactly(specs, assessments);
    if Covered(specs, assessments) && target == source.core.runtimeId {
      AssessedSteps(specs, source, assessments, target);
      AffectedErrors(specs, source, assessments, GraphOf(specs).value.topologicalOrder,
                     EvidenceOf(specs, source, assessments));
      NotOther(specs, source, assessments, ContinuationSteps(specs, source, assessments, target).error);
    } else {
      var known, assessed := Declared(specs).Keys, AssessmentsById(assessments).Keys;
      AscendingFacts(known - assessed);
      AscendingFacts(assessed - known);
      NoMembers(Ascending(known - assessed));
      NoMembers(Ascending(assessed - known));
      SameSets(known, assessed);
    }
  }

  /** Why an assessed graph gives no continuation. */
  ghost predicate NoneFor(specs: seq<ProcessSpec>, source: Projection, assessments: seq<Assessment>, error: PlanError) {
    match error
    case UnknownInvalidations(id, unknown) =>
      && unknown != []
      && exists a :: a in assessments && a.processId == id && Ascends(unknown, Members(a.invalidates) - IdsOf(specs))
    case InvalidDecision(id) =>
      && (forall a <- assessments :: Members(a.invalidates) <= IdsOf(specs))
      && exists a :: a in assessments && a.processId == id && !Choosable(source, a)
           && forall ids | LeastClosed(specs, source, assessments, ids) :: id in ids
    case _ => false
  }

  lemma AffectedErrors(specs: seq<ProcessSpec>, source: Projection, assessments: seq<Assessment>, order: seq<string>,
                       ev: Evidence)
    requires GraphOf(specs).Success? && order == GraphOf(specs).value.topologicalOrder
    requires ev == EvidenceOf(specs, source, assessments) && |AssessmentsById(assessments)| == |assessments|
    requires AssessmentsById(assessments).Keys == Declared(specs).Keys
    requires TopologicalOrder(ev.deps, order)
    requires forall p <- order :: p in ev.assessments && p in ev.deps && p in SpecsById(specs)
    requires AffectedSteps(specs, ev, order).Failure?
    ensures NoneFor(specs, source, assessments, AffectedSteps(specs, ev, order).error)
  {
    hide GraphOf, AssessmentsById, SpecsById, Ascending, Members, Sorted, Distinct, Affected, Settles, TopologicalOrder;
    hide Indexed, UniqueIds, Declared, Choosable, Assessed, LeastClosed, FirstUnknown, DecisionsFor, NoneFor, Made;
    hide AffectedSteps;
    EvidenceAssessed(specs, source, assessments);
    GraphRefuses(specs);
    EvidenceIndexed(specs, source, assessments);
    OrderCovers(ev.deps, order);
    DeclaredIds(specs);
    if FirstUnknown(ev, order).Some? {
      UnknownFirst(ev, order);
      UnknownSteps(specs, ev, order);
      UnknownNone(specs, source, assessments, ev, order);
    } else {
      if DecisionsFor(SpecsById(specs), ev, order, Affected(ev, order)).Success? { MadePlans(specs, ev, order); }
      OrderAssessed(specs, assessments, ev, order);
      InvalidFirst(SpecsById(specs), ev, order, Affected(ev, order));
      InvalidSteps(specs, ev, order);
      AllKnown(ev, order);
      AffectedLeast(ev, order);
      LeastSettles(specs, assessments, ev, Affected(ev, order));
      LeastOnly(specs, source, assessments);
      EachKnown(specs, assessments, ev, order);
      InvalidNone(specs, source, assessments, ev, order, Affected(ev, order),
                  DecisionsFor(SpecsById(specs), ev, order, Affected(ev, order)).error);
    }
  }

  lemma NotOther(specs: seq<ProcessSpec>, source: Projection, assessments: seq<Assessment>, error: PlanError)
    requires NoneFor(specs, source, assessments, error)
    ensures error.UnknownInvalidations? || error.InvalidDecision?
  {
  }

  lemma OrderAssessed(specs: seq<ProcessSpec>, assessments: seq<Assessment>, ev: Evidence, order: seq<string>)
    requires Indexed(specs, assessments, ev) && forall p <- order :: p in ev.assessments
    ensures forall p <- order :: ev.assessments[p].processId == p
  {
  }

  lemma UnknownSteps(specs: seq<ProcessSpec>, ev: Evidence, order: seq<string>)
    requires forall p <- order :: p in ev.assessments && p in ev.deps && p in SpecsById(specs)
    requires TopologicalOrder(ev.deps, order) && FirstUnknown(ev, order).Some?
    ensures AffectedSteps(specs, ev, order) == Failure(FirstUnknown(ev, order).value)
  {
    hide TopologicalOrder, FirstUnknown, SpecsById;
  }

  lemma InvalidSteps(specs: seq<ProcessSpec>, ev: Evidence, order: seq<string>)
    requires forall p <- order :: p in ev.assessments && p in ev.deps && p in SpecsById(specs)
    requires TopologicalOrder(ev.deps, order) && FirstUnknown(ev, order).None?
    requires DecisionsFor(SpecsById(specs), ev, order, Affected(ev, order)).Failure?
    ensures AffectedSteps(specs, ev, order) ==
      Failure(DecisionsFor(SpecsById(specs), ev, order, Affected(ev, order)).error)
  {
    hide TopologicalOrder, FirstUnknown, SpecsById, DecisionsFor, Affected;
  }

  lemma UnknownNone(specs: seq<ProcessSpec>, source: Projection, assessments: seq<Assessment>, ev: Evidence,
                    order: seq<string>)
    requires (forall p <- order :: p in ev.assessments) && FirstUnknown(ev, order).Some?
    requires Indexed(specs, assessments, ev) && ev.deps.Keys == IdsOf(specs)
    requires exists i :: 0 <= i < |order| && UnknownAt(ev, order, FirstUnknown(ev, order).value, i)
    ensures NoneFor(specs, source, assessments, FirstUnknown(ev, order).value)
  {
    hide FirstUnknown, Members, Ascends, IdsOf;
    var i :| 0 <= i < |order| && UnknownAt(ev, order, FirstUnknown(ev, order).value, i);
    assert order[i] in order && ev.assessments[order[i]] in assessments;
  }

  lemma EachKnown(specs: seq<ProcessSpec>, assessments: seq<Assessment>, ev: Evidence, order: seq<string>)
    requires forall p <- order :: p in ev.assessments
    requires Indexed(specs, assessments, ev) && Members(order) == ev.deps.Keys
    requires forall j | 0 <= j < |order| :: Members(ev.assessments[order[j]].invalidates) <= ev.deps.Keys
    ensures forall a <- assessments :: Members(a.invalidates) <= ev.deps.Keys
  {
    MembersAre(order);
    hide Members;
    forall a <- assessments ensures Members(a.invalidates) <= ev.deps.Keys {
      assert a.processId in order;
      var j :| 0 <= j < |order| && order[j] == a.processId;
    }
  }

  lemma InvalidNone(specs: seq<ProcessSpec>, source: Projection, assessments: seq<Assessment>, ev: Evidence,
                    order: seq<string>, affected: set<string>, error: PlanError)
    requires forall p <- order :: p in ev.assessments
    requires Indexed(specs, assessments, ev) && ev.deps.Keys == IdsOf(specs) && ev.source == source
    requires LeastClosed(specs, source, assessments, affected)
    requires forall a <- assessments :: Members(a.invalidates) <= ev.deps.Keys
    requires forall a, b | LeastClosed(specs, source, assessments, a) && LeastClosed(specs, source, assessments, b) ::
      a == b
    requires exists i :: 0 <= i < |order| && InvalidAt(ev, order, affected, error, i)
    ensures NoneFor(specs, source, assessments, error)
  {
    hide LeastClosed, Choosable, Members, IdsOf;
    var i :| 0 <= i < |order| && InvalidAt(ev, order, affected, error, i);
    assert order[i] in order && ev.assessments[order[i]] in assessments;
  }
}
