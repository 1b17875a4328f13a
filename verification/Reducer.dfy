/** The reducer as it runs: a deep copy of a projection whose dicts and lists the helpers update in
    place, one event at a time, each step proved against the reducer functions. */
module FrameworkReducer {
  import opened RuntimeTypes
  import opened Sorting
  import opened RuntimeProjections
  import CheckpointProofs

  class ProjectionCopy {
    var runtimeId: string
    var status: Status
    var statusClass: StatusClass
    var updatedAt: Option<Time>
    var eventCount: nat
    var lastSequence: int
    var eventProcesses: map<string, ProcessState>
    var processOrder: seq<string>
    var processes: map<string, ProcessState>
    var attempts: map<string, Attempt>
    var processAttemptIds: map<string, seq<string>>
    var units: map<string, UnitState>
    var unitEventIds: map<string, seq<string>>
    var checkpoints: map<string, CheckpointRef>
    var latestCheckpoint: map<string, string>
    var errorSummary: seq<ErrorInfo>
    var artifactIndex: seq<ArtifactEntry>
    var progressSummary: map<string, Json>
    var resourceSummary: map<string, Json>
    var activeProcessIds: set<string>
    var activeUnitIds: set<string>
    var successCount: nat
    var failureCount: nat
    var cancelledCount: nat

    function AttemptsView(): AttemptIndex
      reads this`attempts, this`processAttemptIds
    {
      AttemptIndex(attempts, processAttemptIds)
    }

    function CheckpointsView(): CheckpointIndex
      reads this`checkpoints, this`latestCheckpoint
    {
      CheckpointIndex(checkpoints, latestCheckpoint)
    }

    function ProcessesView(): ProcessIndex
      reads this`eventProcesses, this`processOrder, this`progressSummary, this`resourceSummary
    {
      ProcessIndex(eventProcesses, processOrder, progressSummary, resourceSummary)
    }

    function UnitsView(): UnitIndex reads this`units, this`unitEventIds { UnitIndex(units, unitEventIds) }

    function CoreView(): Core reads this {
      Core(runtimeId, updatedAt, eventCount, lastSequence, AttemptsView(), CheckpointsView(), ProcessesView(),
           UnitsView(), errorSummary, artifactIndex)
    }

    function DerivedView(): Derived reads this {
      Derived(processes, activeProcessIds, activeUnitIds, successCount, failureCount, cancelledCount)
    }

    function View(): Projection reads this { Projection(CoreView(), status, statusClass, DerivedView()) }

    constructor (p: Projection)
      ensures View() == p
    {
      runtimeId, status, statusClass := p.core.runtimeId, p.status, p.statusClass;
      updatedAt, eventCount, lastSequence := p.core.updatedAt, p.core.eventCount, p.core.lastSequence;
      eventProcesses, processOrder := p.core.processes.states, p.core.processes.order;
      progressSummary, resourceSummary := p.core.processes.progress, p.core.processes.resources;
      attempts, processAttemptIds := p.core.attempts.byId, p.core.attempts.idsByProcess;
      units, unitEventIds := p.core.units.states, p.core.units.eventIds;
      checkpoints, latestCheckpoint := p.core.checkpoints.live, p.core.checkpoints.latest;
      errorSummary, artifactIndex := p.core.errorSummary, p.core.artifactIndex;
      processes, activeProcessIds, activeUnitIds :=
        p.derived.processes, p.derived.activeProcessIds, p.derived.activeUnitIds;
      successCount, failureCount, cancelledCount :=
        p.derived.successCount, p.derived.failureCount, p.derived.cancelledCount;
    }

    /** False when the new attempt is rejected. */
    method ApplyAttemptEvent(e: Event) returns (ok: bool)
      modifies this`attempts, this`processAttemptIds
      ensures ok == !AttemptRejected(old(AttemptsView()), e)
      ensures ok ==> AttemptsView() == WithAttempt(old(AttemptsView()), e)
    {
      if !e.eventType.IsAttempt() || e.processId.None? || e.attemptId.None? {
        return true;
      }
      var process, id := e.processId.value, e.attemptId.value;
      var attempt;
      if id in attempts {
        attempt := attempts[id];
      } else {
        if process !in processAttemptIds {
          processAttemptIds := processAttemptIds[process := []];
        }
        processAttemptIds := processAttemptIds[process := processAttemptIds[process] + [id]];
        var ordinal := if e.payload.ordinal.Some? then e.payload.ordinal.value else |processAttemptIds[process]|;
        if AttemptMalformed(e.payload) || ordinal < 1 {
          return false;
        }
        attempt := Attempt(id, process, e.runtimeId, e.executionId, ordinal, AttemptOperation(e.payload),
                           e.payload.executionKey, e.payload.inputFingerprint, e.payload.implementationVersion,
                           Pending, NotStarted, None, None, None, None, e.payload.backendSessionId,
                           e.sequence, None, None);
      }
      var fallback := DefaultClass(e.eventType);
      attempt := attempt.(status := OrStatus(e.status, DefaultStatus(e.eventType)),
                          statusClass := OrClass(e.statusClass, fallback),
                          checkpointId := OrText(e.checkpointId, attempt.checkpointId),
                          error := OrError(e.error, attempt.error),
                          lastEventSequence := e.sequence);
      if e.payload.resumedFromAttemptId.Some? {
        attempt := attempt.(resumedFromAttemptId := e.payload.resumedFromAttemptId);
      }
      if e.eventType.AttemptStarted? {
        attempt := attempt.(startedAt := OrTime(attempt.startedAt, e.timestamp));
      }
      if IsTerminal(fallback) {
        attempt := attempt.(finishedAt := Some(e.timestamp));
      }
      attempts := attempts[id := attempt];
      ok := true;
    }

    /** `max(candidates)` by time and id, scanning the live checkpoints of one process. */
    method LatestCandidate(process: string) returns (found: Option<string>)
      requires CheckpointProofs.Filed(CheckpointsView())
      ensures found.None? <==> !HasCheckpoint(checkpoints, process)
      ensures found.Some? ==> found.value == MaxCheckpoint(checkpoints, process)
    {
      found := None;
      var left := checkpoints.Keys;
      while left != {}
        invariant left <= checkpoints.Keys
        invariant found.None? ==> forall id | id in checkpoints && id !in left :: checkpoints[id].processId != process
        invariant found.Some? ==>
          && found.value in checkpoints && found.value !in left && checkpoints[found.value].processId == process
          && forall id | id in checkpoints && id !in left && checkpoints[id].processId == process ::
               NotNewer(checkpoints[id], checkpoints[found.value])
        decreases |left|
      {
        var id :| id in left;
        left := left - {id};
        if checkpoints[id].processId == process {
          CheckpointProofs.NewerOrder(checkpoints[id], checkpoints[id], checkpoints[id]);
          if found.None? {
            found := Some(id);
          } else {
            ghost var top := found.value;
            CheckpointProofs.NewerOrder(checkpoints[id], checkpoints[top], checkpoints[id]);
            if NotNewer(checkpoints[found.value], checkpoints[id]) {
              forall other | other in checkpoints && other !in left && checkpoints[other].processId == process
                ensures NotNewer(checkpoints[other], checkpoints[id])
              {
                CheckpointProofs.NewerOrder(checkpoints[other], checkpoints[top], checkpoints[id]);
              }
              found := Some(id);
            }
          }
        }
      }
      if found.Some? {
        assert IsLatest(checkpoints, process, found.value);
        CheckpointProofs.LatestUnique(CheckpointsView(), process, found.value, MaxCheckpoint(checkpoints, process));
      }
    }

    method ApplyCheckpointEvent(e: Event)
      requires CheckpointProofs.Filed(CheckpointsView())
      modifies this`checkpoints, this`latestCheckpoint
      ensures CheckpointsView() == WithCheckpoint(old(CheckpointsView()), e)
      ensures CheckpointProofs.Filed(CheckpointsView())
    {
      if e.checkpointId.None? {
        return;
      }
      var id := e.checkpointId.value;
      if e.eventType.CheckpointInvalidated? {
        if id in checkpoints {
          var process := checkpoints[id].processId;
          checkpoints := checkpoints - {id};
          if process in latestCheckpoint && latestCheckpoint[process] == id {
            var latest := LatestCandidate(process);
            if latest.Some? {
              latestCheckpoint := latestCheckpoint[process := latest.value];
            } else {
              latestCheckpoint := latestCheckpoint - {process};
            }
          }
        }
        return;
      }
      if !e.eventType.CheckpointCommitted? || e.payload.checkpoint.None? {
        return;
      }
      var checkpoint := e.payload.checkpoint.value;
      if checkpoint.checkpointId != id {
        return;
      }
      checkpoints := checkpoints[id := checkpoint];
      var current := Lookup(latestCheckpoint, checkpoint.processId);
      if current.None? || current.value !in checkpoints || NotNewer(checkpoints[current.value], checkpoint) {
        latestCheckpoint := latestCheckpoint[checkpoint.processId := id];
      }
    }

    /** False when the usage in a resource sample does not validate. */
    method ApplyProcessEvent(e: Event) returns (ok: bool)
      modifies this`eventProcesses, this`processOrder, this`progressSummary, this`resourceSummary
      ensures ok == !UsageRejected(e)
      ensures ok ==> ProcessesView() == WithProcess(old(ProcessesView()), e)
    {
      if e.processId.None? || ReportsUnit(e) {
        return true;
      }
      if e.eventType.ResourceSampled? && e.payload.resourceUsage == Some(InvalidUsage) {
        return false;
      }
      var id := e.processId.value;
      var state := ProcessAfter(Lookup(eventProcesses, id), e);
      if e.progress.Some? {
        progressSummary := progressSummary[id := e.progress.value];
      }
      if SamplesResources(e) {
        resourceSummary := resourceSummary[id := e.payload.resourceUsage.value.usage];
      }
      if id !in eventProcesses {
        processOrder := processOrder + [id];
      }
      eventProcesses := eventProcesses[id := state];
      ok := true;
    }

    /** False when a new unit's type is not text. */
    method ApplyUnitEvent(e: Event) returns (ok: bool)
      modifies this`units, this`unitEventIds
      ensures ok == !UnitRejected(old(UnitsView()), e)
      ensures ok ==> UnitsView() == WithUnit(old(UnitsView()), e)
    {
      if NamedUnit(e).None? {
        return true;
      }
      var id := NamedUnit(e).value;
      if id !in units && e.payload.unitType.Some? && e.payload.unitType.value.NotText? {
        return false;
      }
      if id !in unitEventIds {
        unitEventIds := unitEventIds[id := []];
      }
      units := units[id := UnitAfter(Lookup(units, id), id, e)];
      unitEventIds := unitEventIds[id := unitEventIds[id] + [IdText(e.eventId)]];
      ok := true;
    }

    method ApplyRuntimeEvent(e: Event)
      modifies this`status, this`statusClass
      ensures status == StatusAfter(old(status), e) && statusClass == ClassAfter(old(statusClass), e)
    {
      if e.processId.None? {
        if e.status.Some? { status := e.status.value; }
        if e.statusClass.Some? { statusClass := e.statusClass.value; }
      }
    }

    method ApplyIndexes(e: Event)
      modifies this`errorSummary, this`artifactIndex
      ensures errorSummary == if e.error.Some? then old(errorSummary) + [e.error.value] else old(errorSummary)
      ensures artifactIndex ==
        if e.eventType.IsArtifact()
        then old(artifactIndex) + [ArtifactEntry(e.payload, e.eventType, e.processId, e.timestamp)]
        else old(artifactIndex)
    {
      if e.error.Some? {
        errorSummary := errorSummary + [e.error.value];
      }
      if e.eventType.IsArtifact() {
        artifactIndex := artifactIndex + [ArtifactEntry(e.payload, e.eventType, e.processId, e.timestamp)];
      }
    }

    /** One pass over the children as they were when it began; tells whether anything changed. */
    method RaisePass(children: seq<ProcessState>, policy: Policy) returns (changed: bool)
      modifies this`processes
      ensures processes == Pass(children, old(processes), policy)
      ensures changed == (processes != old(processes))
    {
      changed := false;
      var i := 0;
      while i < |children|
        invariant 0 <= i <= |children|
        invariant processes == Pass(children[..i], old(processes), policy)
        invariant changed == (processes != old(processes))
      {
        var next := Raise(processes, children[i], policy);
        assert children[..i + 1][..i] == children[..i];
        PassShrinks(children[..i], old(processes), policy);
        RaiseShrinks(processes, children[i], policy);
        if next != processes {
          processes := next;
          changed := true;
        }
        i := i + 1;
      }
      assert children[..|children|] == children;
    }

    /** The while-changed loop. */
    method PropagateChildTerminalState(policy: Policy)
      modifies this`processes
      ensures processes == Propagate(processOrder, old(processes), policy)
    {
      var changed := true;
      while changed
        invariant Propagate(processOrder, processes, policy) == Propagate(processOrder, old(processes), policy)
        invariant !changed ==> Propagate(processOrder, processes, policy) == processes
        decreases changed, Sound(processes)
      {
        var children := Values(processOrder, processes);
        PassShrinks(children, processes, policy);
        changed := RaisePass(children, policy);
      }
    }

    method WriteAggregates(policy: Policy)
      modifies this`processes, this`activeProcessIds, this`activeUnitIds, this`successCount,
               this`failureCount, this`cancelledCount
      ensures DerivedView() == DerivedFrom(old(CoreView()), policy)
    {
      hide Propagate, WithClass, ActiveUnits;
      processes := eventProcesses;
      if policy.propagateFailure || policy.propagateCancelled {
        PropagateChildTerminalState(policy);
      }
      activeProcessIds := WithClass(processes, Active);
      activeUnitIds := ActiveUnits(units);
      successCount := |WithClass(processes, TerminalSuccess)|;
      failureCount := |WithClass(processes, TerminalFailure)|;
      cancelledCount := |WithClass(processes, TerminalCancelled)|;
    }

    method WriteFinalStatus()
      requires activeProcessIds == WithClass(processes, Active)
      requires successCount == |WithClass(processes, TerminalSuccess)|
      requires failureCount == |WithClass(processes, TerminalFailure)|
      requires cancelledCount == |WithClass(processes, TerminalCancelled)|
      modifies this`status, this`statusClass
      ensures var final := FinalStatus(processes);
        (status, statusClass) == if final.Some? then final.value else old((status, statusClass))
    {
      if failureCount != 0 {
        status, statusClass := Failed, TerminalFailure;
      } else if cancelledCount != 0 {
        status, statusClass := Cancelled, TerminalCancelled;
      } else if activeProcessIds != {} {
        status, statusClass := Running, Active;
      } else if processes != map[] && successCount == |processes| {
        status, statusClass := Succeeded, TerminalSuccess;
      }
    }

    method FinalizeProjection(policy: Policy)
      modifies this`processes, this`activeProcessIds, this`activeUnitIds, this`successCount,
               this`failureCount, this`cancelledCount, this`status, this`statusClass
      ensures View() == Finalize(old(View()), policy)
    {
      ghost var before := View();
      WriteAggregates(policy);
      assert CoreView() == before.core;
      WriteFinalStatus();
      assert CoreView() == before.core;
      assert DerivedView() == DerivedFrom(before.core, policy);
      assert processes == DerivedFrom(before.core, policy).processes;
    }

    method AdvanceCursor(e: Event)
      modifies this`runtimeId, this`updatedAt, this`eventCount, this`lastSequence
      ensures runtimeId == e.runtimeId && updatedAt == Some(e.timestamp) && eventCount == old(eventCount) + 1
      ensures lastSequence == if e.sequence.Some? then e.sequence.value else old(lastSequence)
    {
      runtimeId := e.runtimeId;
      updatedAt := Some(e.timestamp);
      eventCount := eventCount + 1;
      if e.sequence.Some? {
        lastSequence := e.sequence.value;
      }
    }

    method Guard(e: Event, enforceRuntimeId: bool) returns (rejected: Option<ReduceError>)
      ensures rejected.Some? ==> Rejects(CoreView(), e, enforceRuntimeId) == rejected
      ensures rejected.None? ==>
        Rejects(CoreView(), e, enforceRuntimeId) == Unreadable(AttemptsView(), UnitsView(), e)
    {
      if enforceRuntimeId && eventCount != 0 && e.runtimeId != runtimeId {
        return Some(RuntimeIdChanged);
      }
      if e.sequence.Some? && e.sequence.value <= lastSequence {
        return Some(SequenceMustAdvance);
      }
      rejected := None;
    }

    /** One turn of the event loop. A rejected event ends the reduction, so nothing is promised then. */
    method ApplyOne(e: Event, enforceRuntimeId: bool) returns (rejected: Option<ReduceError>)
      requires CheckpointProofs.Filed(CheckpointsView())
      modifies this
      ensures rejected == Rejects(old(CoreView()), e, enforceRuntimeId)
      ensures rejected.None? ==> View() == ApplyEvent(old(View()), e) && CheckpointProofs.Filed(CheckpointsView())
    {
      rejected := Guard(e, enforceRuntimeId);
      if rejected.None? {
        rejected := ApplyAccepted(e);
      }
    }

    method ApplyAccepted(e: Event) returns (rejected: Option<ReduceError>)
      requires CheckpointProofs.Filed(CheckpointsView())
      modifies this
      ensures rejected == Unreadable(old(AttemptsView()), old(UnitsView()), e)
      ensures rejected.None? ==> View() == ApplyEvent(old(View()), e) && CheckpointProofs.Filed(CheckpointsView())
    {
      hide WithAttempt, WithCheckpoint, WithProcess, WithUnit, StatusAfter, ClassAfter;
      hide AttemptRejected, UsageRejected, UnitRejected;
      var ok := ApplyCursorAndAttempt(e);
      if !ok {
        return Some(InvalidAttempt);
      }
      rejected := ApplyRemaining(e);
    }

    method ApplyCursorAndAttempt(e: Event) returns (ok: bool)
      modifies this`runtimeId, this`updatedAt, this`eventCount, this`lastSequence, this`attempts,
               this`processAttemptIds
      ensures ok == !AttemptRejected(old(AttemptsView()), e)
      ensures ok ==> CoreView() == old(CoreView()).(
        runtimeId := e.runtimeId, updatedAt := Some(e.timestamp), eventCount := old(eventCount) + 1,
        lastSequence := (if e.sequence.Some? then e.sequence.value else old(lastSequence)),
        attempts := WithAttempt(old(AttemptsView()), e))
    {
      hide WithAttempt, AttemptRejected;
      ghost var before := AttemptsView();
      AdvanceCursor(e);
      assert AttemptsView() == before;
      ok := ApplyAttemptEvent(e);
    }

    method ApplyRemaining(e: Event) returns (rejected: Option<ReduceError>)
      requires CheckpointProofs.Filed(CheckpointsView())
      modifies this
      ensures rejected ==
        if UsageRejected(e) then Some(InvalidResourceUsage)
        else if UnitRejected(old(UnitsView()), e) then Some(InvalidUnit) else None
      ensures rejected.None? ==> CoreView() == old(CoreView()).(
        checkpoints := WithCheckpoint(old(CheckpointsView()), e),
        processes := WithProcess(old(ProcessesView()), e),
        units := WithUnit(old(UnitsView()), e),
        errorSummary := if e.error.Some? then old(errorSummary) + [e.error.value] else old(errorSummary),
        artifactIndex := if e.eventType.IsArtifact()
          then old(artifactIndex) + [ArtifactEntry(e.payload, e.eventType, e.processId, e.timestamp)]
          else old(artifactIndex))
      ensures rejected.None? ==>
        && CheckpointProofs.Filed(CheckpointsView()) && DerivedView() == old(DerivedView())
        && status == StatusAfter(old(status), e) && statusClass == ClassAfter(old(statusClass), e)
    {
      hide WithAttempt, WithCheckpoint, WithProcess, WithUnit, StatusAfter, ClassAfter, UsageRejected, UnitRejected;
      ghost var c := CoreView();
      rejected := ApplyStates(e);
      if rejected.Some? {
        return;
      }
      assert CoreView() == c.(
        checkpoints := CheckpointsView(), processes := ProcessesView(), units := UnitsView());
      ApplyRuntimeLevel(e);
    }

    method ApplyStates(e: Event) returns (rejected: Option<ReduceError>)
      requires CheckpointProofs.Filed(CheckpointsView())
      modifies this`checkpoints, this`latestCheckpoint, this`eventProcesses, this`processOrder,
               this`progressSummary, this`resourceSummary, this`units, this`unitEventIds
      ensures rejected ==
        if UsageRejected(e) then Some(InvalidResourceUsage)
        else if UnitRejected(old(UnitsView()), e) then Some(InvalidUnit) else None
      ensures rejected.None? ==>
        && CheckpointsView() == WithCheckpoint(old(CheckpointsView()), e)
        && ProcessesView() == WithProcess(old(ProcessesView()), e)
        && UnitsView() == WithUnit(old(UnitsView()), e)
        && CheckpointProofs.Filed(CheckpointsView())
    {
      hide WithCheckpoint, WithProcess, WithUnit, UsageRejected, UnitRejected;
      ghost var units := UnitsView();
      ApplyCheckpointEvent(e);
      var ok := ApplyProcessEvent(e);
      if !ok {
        return Some(InvalidResourceUsage);
      }
      assert UnitsView() == units;
      ok := ApplyUnitEvent(e);
      rejected := if ok then None else Some(InvalidUnit);
    }

    method ApplyRuntimeLevel(e: Event)
      modifies this`status, this`statusClass, this`errorSummary, this`artifactIndex
      ensures status == StatusAfter(old(status), e) && statusClass == ClassAfter(old(statusClass), e)
      ensures errorSummary == if e.error.Some? then old(errorSummary) + [e.error.value] else old(errorSummary)
      ensures artifactIndex ==
        if e.eventType.IsArtifact()
        then old(artifactIndex) + [ArtifactEntry(e.payload, e.eventType, e.processId, e.timestamp)]
        else old(artifactIndex)
    {
      ApplyRuntimeEvent(e);
      ApplyIndexes(e);
    }
  }

  class RuntimeFrameworkReducer {
    const policy: Policy

    constructor (policy: Policy)
      ensures this.policy == policy
    {
      this.policy := policy;
    }

    method FoldInto(updated: ProjectionCopy, ordered: seq<Event>, enforceRuntimeId: bool)
      returns (rejected: Option<ReduceError>)
      requires CheckpointProofs.Filed(updated.CheckpointsView())
      modifies updated
      ensures Fold(old(updated.View()), ordered, enforceRuntimeId) ==
        if rejected.Some? then Failure(rejected.value) else Success(updated.View())
      ensures rejected.None? ==> CheckpointProofs.Filed(updated.CheckpointsView())
    {
      hide ApplyEvent, Rejects, CheckpointProofs.Filed;
      ghost var p := updated.View();
      var i := 0;
      while i < |ordered|
        invariant 0 <= i <= |ordered|
        invariant Fold(p, ordered[..i], enforceRuntimeId) == Success(updated.View())
        invariant CheckpointProofs.Filed(updated.CheckpointsView())
      {
        assert ordered[..i + 1][..i] == ordered[..i];
        rejected := updated.ApplyOne(ordered[i], enforceRuntimeId);
        if rejected.Some? {
          StuckFold(p, ordered, i + 1, enforceRuntimeId);
          return;
        }
        i := i + 1;
      }
      assert ordered[..|ordered|] == ordered;
      rejected := None;
    }

    method ApplyTo(p: Projection, events: seq<Event>, enforceRuntimeId: bool) returns (r: Reduced)
      requires CheckpointProofs.Filed(p.core.checkpoints)
      ensures r == ApplyEvents(p, events, enforceRuntimeId, policy)
      ensures r.Success? ==> CheckpointProofs.Filed(r.value.core.checkpoints)
    {
      if p.core.eventCount != 0 && p.derived.processes != map[] && p.core.processes.states == map[] {
        return Failure(PredatesIncrementalState);
      }
      var updated := new ProjectionCopy(p);
      var rejected := FoldInto(updated, Sort(EventLeq, events), enforceRuntimeId);
      if rejected.Some? {
        return Failure(rejected.value);
      }
      updated.FinalizeProjection(policy);
      r := Success(updated.View());
    }

    method Reduce(events: seq<Event>) returns (r: Reduced)
      ensures r == RuntimeProjections.Reduce(events, policy)
      ensures r.Success? ==> CheckpointProofs.Filed(r.value.core.checkpoints)
    {
      var ordered := Sort(EventLeq, events);
      var runtimeId := if ordered != [] then ordered[0].runtimeId else "runtime";
      r := ApplyTo(EmptyProjection(runtimeId), events, false);
    }

    method Apply(p: Projection, events: seq<Event>) returns (r: Reduced)
      requires CheckpointProofs.Filed(p.core.checkpoints)
      ensures r == RuntimeProjections.Apply(p, events, policy)
      ensures r.Success? ==> CheckpointProofs.Filed(r.value.core.checkpoints)
    {
      r := ApplyTo(p, events, true);
    }
  }

  /** A fold that failed on a prefix fails the same way on the whole. */
  lemma {:induction false} StuckFold(p: Projection, events: seq<Event>, k: nat, enforce: bool)
    requires k <= |events| && Fold(p, events[..k], enforce).Failure?
    ensures Fold(p, events, enforce) == Failure(Fold(p, events[..k], enforce).error)
    decreases |events|
  {
    if k < |events| {
      var init := events[..|events| - 1];
      assert init[..k] == events[..k];
      StuckFold(p, init, k, enforce);
    } else {
      assert events[..k] == events;
    }
  }
}
