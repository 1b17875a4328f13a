/** What executing a plan appends and returns, step by step, and exactly which plans are rejected and why. */
module ExecutionFacts {
  import opened RuntimeTypes
  import opened Sorting
  import opened RecoveryGraph
  import opened Recovery
  import opened RecoveryExecution

  /** The event that opens the attempt of a step, with what the step continues from. */
  predicate OpensAs(n: Note, s: Step) {
    && n.AttemptOpened? && n.processId == s.processId && n.resumedFrom == s.sourceAttemptId
    && n.checkpointId == (if s.checkpoint.Some? then Some(s.checkpoint.value.checkpointId) else None)
    && n.operation == (match s.action
                       case ResumeAction => Resume
                       case RetryAction => Retry
                       case _ => Start)
  }

  /** A skipped step is noted and runs nothing; any other opens its attempt, unless that fails, and then ends
      it with its value or loses it with its error. */
  lemma NotesOfStep(bodies: Bodies, s: Step)
    ensures var notes := StepNotes(bodies, s);
      if s.action == SkipAction then notes == [StepSkipped(s.processId, s.sourceAttemptId)]
      else
        match bodies(s.processId, s.action)
        case NotOpened(_) => notes == []
        case Raised(error) => |notes| == 2 && OpensAs(notes[0], s) && notes[1] == AttemptLost(s.processId, error)
        case Returned(value) => |notes| == 2 && OpensAs(notes[0], s) && notes[1] == AttemptEnded(s.processId, value)
  {
  }

  lemma {:induction false} ResultIds(bodies: Bodies, steps: seq<Step>)
    ensures Results(bodies, steps).Keys == StepIds(steps)
  {
    if steps != [] {
      ResultIds(bodies, steps[..|steps| - 1]);
      MoreIds(steps, |steps| - 1);
      assert steps[..|steps|] == steps;
      hide StepResult, StepIds;
    }
  }

  /** The result of a step that ran is what its body returned, and a skipped one has none. */
  lemma {:induction false} ResultsExactly(bodies: Bodies, steps: seq<Step>, k: nat)
    requires NoneFails(bodies, steps) && k < |steps|
    requires forall i, j | 0 <= i < j < |steps| :: steps[i].processId != steps[j].processId
    ensures steps[k].processId in Results(bodies, steps)
    ensures if steps[k].action == SkipAction then Results(bodies, steps)[steps[k].processId] == None
            else
              && bodies(steps[k].processId, steps[k].action).Returned?
              && Results(bodies, steps)[steps[k].processId] ==
                   Some(bodies(steps[k].processId, steps[k].action).value)
    decreases |steps|
  {
    var init, last := steps[..|steps| - 1], steps[|steps| - 1];
    OneResult(bodies, steps[k], steps);
    if k < |init| {
      assert NoneFails(bodies, init) by { FewerFail(bodies, steps); }
      assert init[k] == steps[k] && last.processId != steps[k].processId;
      hide StepResult, NoneFails;
      ResultsExactly(bodies, init, k);
    }
  }

  lemma OneResult(bodies: Bodies, s: Step, steps: seq<Step>)
    requires s in steps && NoneFails(bodies, steps)
    ensures StepResult(bodies, s) ==
      if s.action == SkipAction then None else Some(bodies(s.processId, s.action).value)
    ensures s.action != SkipAction ==> bodies(s.processId, s.action).Returned?
  {
    assert !Fails(bodies, s);
  }

  lemma FewerFail(bodies: Bodies, steps: seq<Step>)
    requires NoneFails(bodies, steps) && steps != []
    ensures NoneFails(bodies, steps[..|steps| - 1])
  {
  }

  predicate Unlisted(steps: seq<Step>, n: nat, id: string)
    requires n <= |steps|
  {
    forall j | 0 <= j < n :: steps[j].processId != id
  }

  /** A step comes before something it depends on. */
  predicate Early(steps: seq<Step>, i: nat)
    requires i < |steps|
  {
    exists q :: q in steps[i].dependsOn && Unlisted(steps, i, q)
  }

  /** The checks in their order: a directory, the target, blocked steps, registered processes, the order. */
  lemma RejectionExact(runtimeId: string, hasRuntimeDir: bool, processes: set<string>, plan: Plan)
    ensures match Rejection(runtimeId, hasRuntimeDir, processes, plan)
            case Some(NoRuntimeDir) => !hasRuntimeDir
            case Some(WrongTarget) => hasRuntimeDir && plan.targetRuntimeId != runtimeId
            case Some(BlockedSteps(ids)) =>
              && hasRuntimeDir && plan.targetRuntimeId == runtimeId && ids != []
              && forall id :: id in ids <==> exists s :: s in plan.steps && s.action == BlockAction && s.processId == id
            case Some(NotRegistered(ids)) =>
              && hasRuntimeDir && plan.targetRuntimeId == runtimeId
              && (forall s <- plan.steps :: s.action != BlockAction) && ids != []
              && Sorted(TextLeq, ids) && Distinct(ids)
              && forall id :: id in ids <==>
                   id !in processes && exists s :: s in plan.steps && s.action != SkipAction && s.processId == id
            case Some(OutOfOrder(id, missing)) =>
              && hasRuntimeDir && plan.targetRuntimeId == runtimeId
              && (forall s <- plan.steps :: s.action != BlockAction)
              && (forall s <- plan.steps :: s.action == SkipAction || s.processId in processes)
              && exists i :: 0 <= i < |plan.steps| && plan.steps[i].processId == id
                   && (forall j | 0 <= j < i :: !Early(plan.steps, j))
                   && missing != [] && Sorted(TextLeq, missing) && Distinct(missing)
                   && forall q :: q in missing <==>
                        q in plan.steps[i].dependsOn && Unlisted(plan.steps, i, q)
            case Some(ProcessRaised(_)) => false
            case None =>
              && hasRuntimeDir && plan.targetRuntimeId == runtimeId
              && (forall s <- plan.steps :: s.action != BlockAction)
              && (forall s <- plan.steps :: s.action == SkipAction || s.processId in processes)
              && forall i | 0 <= i < |plan.steps| :: !Early(plan.steps, i)
  {
    hide BlockedIds, FirstEarly, RequiredIds, Ascending, Early, Sorted, Distinct;
    NothingBlocked(plan.steps);
    BlockedListed(plan.steps);
    RequiredKnown(plan.steps, processes);
    MissingListed(plan.steps, processes);
    EarlyFound(plan.steps);
  }

  lemma {:induction false} BlockedListed(steps: seq<Step>)
    ensures forall id :: id in BlockedIds(steps) <==>
      exists s :: s in steps && s.action == BlockAction && s.processId == id
  {
    if steps != [] {
      assert steps == steps[..|steps| - 1] + [steps[|steps| - 1]];
      BlockedListed(steps[..|steps| - 1]);
    }
  }

  lemma MissingListed(steps: seq<Step>, processes: set<string>)
    ensures var ids := Ascending(RequiredIds(steps) - processes);
      && Sorted(TextLeq, ids) && Distinct(ids)
      && (!(RequiredIds(steps) <= processes) ==> ids != [])
      && forall id :: id in ids <==>
           id !in processes && exists s :: s in steps && s.action != SkipAction && s.processId == id
  {
    var missing := RequiredIds(steps) - processes;
    AscendingFacts(missing);
    SubsetDifference(RequiredIds(steps), processes);
    forall id ensures id in Ascending(missing) <==> id in missing {
      assert id in Members(Ascending(missing)) <==> id in Ascending(missing);
    }
    if !(RequiredIds(steps) <= processes) {
      var id :| id in missing;
      assert id in Ascending(missing);
    }
    hide Ascending;
  }

  lemma {:induction false} EarlyFound(steps: seq<Step>)
    ensures match FirstEarly(steps)
            case None => forall i | 0 <= i < |steps| :: !Early(steps, i)
            case Some(OutOfOrder(id, missing)) =>
              exists i :: 0 <= i < |steps| && steps[i].processId == id && (forall j | 0 <= j < i :: !Early(steps, j))
                && missing != [] && Sorted(TextLeq, missing) && Distinct(missing)
                && forall q :: q in missing <==>
                     q in steps[i].dependsOn && Unlisted(steps, i, q)
            case _ => false
  {
    hide Ascending, Sorted, Distinct;
    if steps != [] {
      var init, last := steps[..|steps| - 1], steps[|steps| - 1];
      EarlyFound(init);
      SamePrefix(steps);
      LastEarly(steps);
    }
  }

  lemma SamePrefix(steps: seq<Step>)
    requires steps != []
    ensures var init := steps[..|steps| - 1];
      forall i | 0 <= i < |init| :: steps[i] == init[i] && (Early(steps, i) <==> Early(init, i))
  {
  }

  lemma LastEarly(steps: seq<Step>)
    requires steps != []
    ensures var init, last := steps[..|steps| - 1], steps[|steps| - 1];
      var missing := Ascending(Members(last.dependsOn) - StepIds(init));
      && (Members(last.dependsOn) <= StepIds(init) <==> !Early(steps, |steps| - 1))
      && Sorted(TextLeq, missing) && Distinct(missing)
      && (!(Members(last.dependsOn) <= StepIds(init)) ==> missing != [])
      && forall q :: q in missing <==>
           q in last.dependsOn && Unlisted(steps, |init|, q)
  {
    var init, last := steps[..|steps| - 1], steps[|steps| - 1];
    var gap := Members(last.dependsOn) - StepIds(init);
    AscendingFacts(gap);
    SubsetDifference(Members(last.dependsOn), StepIds(init));
    InMembers(Ascending(gap));
    InMembers(last.dependsOn);
    IdsBefore(steps);
    hide Ascending, Members, StepIds, Sorted, Distinct;
    NotMissing(last.dependsOn, gap, Ascending(gap));
  }

  lemma InMembers(list: seq<string>)
    ensures forall q :: q in list <==> q in Members(list)
  {
  }

  lemma NotMissing(list: seq<string>, gap: set<string>, missing: seq<string>)
    requires (forall q :: q in missing <==> q in gap) && forall q | q in gap :: q in list
    ensures missing == [] <==> gap == {}
  {
    if missing != [] { assert missing[0] in missing; }
  }

  lemma IdsBefore(steps: seq<Step>)
    requires steps != []
    ensures var init := steps[..|steps| - 1]; forall q :: q in StepIds(init) <==> !Unlisted(steps, |init|, q)
  {
    var init := steps[..|steps| - 1];
    forall q ensures q in StepIds(init) <==> !Unlisted(steps, |init|, q) {
      if j :| 0 <= j < |init| && steps[j].processId == q {
        assert init[j] in init;
      }
    }
  }
}
