/** The framework reducer: a fold over events, then a finalisation that copies the process states
    seen in events and lets child failures and cancellations rise to their parents. */
module RuntimeProjections {
  import opened RuntimeTypes
  import opened Sorting

  datatype ProcessState = ProcessState(
    processId: string, processType: Option<string>, parentProcessId: Option<string>,
    currentAttemptId: Option<string>, status: Status, statusClass: StatusClass,
    startedAt: Option<Time>, updatedAt: Option<Time>, finishedAt: Option<Time>,
    progress: Option<Json>, result: Option<Json>, error: Option<ErrorInfo>, resourceUsage: Option<Json>)

  datatype UnitState = UnitState(
    unitId: string, unitType: Option<TextValue>, processId: Option<string>,
    parentProcessId: Option<string>, parentUnitId: Option<string>,
    subjectType: Option<string>, subjectId: Option<string>, status: Status, statusClass: StatusClass,
    startedAt: Option<Time>, updatedAt: Option<Time>, finishedAt: Option<Time>,
    progress: Option<Json>, result: Option<Json>, error: Option<ErrorInfo>, eventCount: nat)

  /** An artifact entry: the payload with its event type, process and time filled in. */
  datatype ArtifactEntry = ArtifactEntry(
    payload: Payload, eventType: EventType, processId: Option<string>, timestamp: Time)

  datatype Policy = Policy(propagateFailure: bool, propagateCancelled: bool)

  datatype AttemptIndex = AttemptIndex(byId: map<string, Attempt>, idsByProcess: map<string, seq<string>>)

  datatype CheckpointIndex = CheckpointIndex(live: map<string, CheckpointRef>, latest: map<string, string>)

  /** A Python dict remembers insertion order, and the propagation pass visits processes in that
      order, so `order` records it for `states` and for the copy the finalisation makes. */
  datatype ProcessIndex = ProcessIndex(
    states: map<string, ProcessState>, order: seq<string>,
    progress: map<string, Json>, resources: map<string, Json>)

  datatype UnitIndex = UnitIndex(states: map<string, UnitState>, eventIds: map<string, seq<string>>)

  /** The fields that only the fold writes. */
  datatype Core = Core(
    runtimeId: string, updatedAt: Option<Time>, eventCount: nat, lastSequence: int,
    attempts: AttemptIndex, checkpoints: CheckpointIndex, processes: ProcessIndex, units: UnitIndex,
    errorSummary: seq<ErrorInfo>, artifactIndex: seq<ArtifactEntry>)

  /** The fields that only the finalisation writes. The id lists are sorted listings of these sets. */
  datatype Derived = Derived(
    processes: map<string, ProcessState>, activeProcessIds: set<string>, activeUnitIds: set<string>,
    successCount: nat, failureCount: nat, cancelledCount: nat)

  /** The status pair is the part that the fold and the finalisation both write. */
  datatype Projection = Projection(core: Core, status: Status, statusClass: StatusClass, derived: Derived)

  function EmptyCore(runtimeId: string): Core {
    Core(runtimeId, None, 0, -1, AttemptIndex(map[], map[]), CheckpointIndex(map[], map[]),
         ProcessIndex(map[], [], map[], map[]), UnitIndex(map[], map[]), [], [])
  }

  function EmptyProjection(runtimeId: string): Projection {
    Projection(EmptyCore(runtimeId), Pending, NotStarted, Derived(map[], {}, {}, 0, 0, 0))
  }

  datatype ReduceError =
    | PredatesIncrementalState | RuntimeIdChanged | SequenceMustAdvance
    | InvalidAttempt | InvalidResourceUsage | InvalidUnit

  type Reduced = Result<Projection, ReduceError>

  // ---------------------------------------------------------------- one event

  function DefaultStatus(t: EventType): Status
    requires t.IsAttempt()
  {
    match t
    case AttemptCreated => Pending
    case AttemptStarted => Running
    case AttemptCompleted => Succeeded
    case AttemptFailed => Failed
    case AttemptCancelled => Cancelled
    case AttemptInterrupted => Interrupted
  }

  function DefaultClass(t: EventType): StatusClass
    requires t.IsAttempt()
  {
    match t
    case AttemptCreated => NotStarted
    case AttemptStarted => Active
    case AttemptCompleted => TerminalSuccess
    case AttemptFailed => TerminalFailure
    case AttemptCancelled => TerminalCancelled
    case AttemptInterrupted => TerminalFailure
  }

  predicate IsTerminal(c: StatusClass) {
    c.TerminalSuccess? || c.TerminalFailure? || c.TerminalCancelled?
  }

  predicate TouchesAttempt(e: Event) {
    e.eventType.IsAttempt() && e.processId.Some? && e.attemptId.Some?
  }

  /** The attempt ids of a process, with the event's attempt appended when it is new. */
  function AttemptIdsAfter(x: AttemptIndex, e: Event): seq<string>
    requires TouchesAttempt(e)
  {
    var known := if e.processId.value in x.idsByProcess then x.idsByProcess[e.processId.value] else [];
    if e.attemptId.value in x.byId then known else known + [e.attemptId.value]
  }

  function NewOrdinal(x: AttemptIndex, e: Event): int
    requires TouchesAttempt(e)
  {
    if e.payload.ordinal.Some? then e.payload.ordinal.value else |AttemptIdsAfter(x, e)|
  }

  function AttemptBefore(x: AttemptIndex, e: Event): Attempt
    requires TouchesAttempt(e)
  {
    if e.attemptId.value in x.byId then x.byId[e.attemptId.value]
    else Attempt(e.attemptId.value, e.processId.value, e.runtimeId, e.executionId, NewOrdinal(x, e),
                 AttemptOperation(e.payload), e.payload.executionKey, e.payload.inputFingerprint,
                 e.payload.implementationVersion, Pending, NotStarted, None, None, None, None,
                 e.payload.backendSessionId, e.sequence, None, None)
  }

  function AttemptAfter(a: Attempt, e: Event): Attempt
    requires e.eventType.IsAttempt()
  {
    a.(status := OrStatus(e.status, DefaultStatus(e.eventType)),
       statusClass := OrClass(e.statusClass, DefaultClass(e.eventType)),
       checkpointId := OrText(e.checkpointId, a.checkpointId),
       error := OrError(e.error, a.error),
       lastEventSequence := e.sequence,
       resumedFromAttemptId := if e.payload.resumedFromAttemptId.Some? then e.payload.resumedFromAttemptId
                               else a.resumedFromAttemptId,
       startedAt := if e.eventType.AttemptStarted? then OrTime(a.startedAt, e.timestamp) else a.startedAt,
       finishedAt := if IsTerminal(DefaultClass(e.eventType)) then Some(e.timestamp) else a.finishedAt)
  }

  /** Keys a new attempt record refuses when the reducer makes it. */
  predicate AttemptMalformed(p: Payload) {
    Ordinal in p.malformed || EmptyOrdinal in p.malformed || AttemptText in p.malformed || BackendSession in p.malformed
  }

  predicate AttemptRejected(x: AttemptIndex, e: Event) {
    && TouchesAttempt(e) && e.attemptId.value !in x.byId
    && (AttemptMalformed(e.payload) || NewOrdinal(x, e) < 1)
  }

  function WithAttempt(x: AttemptIndex, e: Event): AttemptIndex {
    if !TouchesAttempt(e) then x
    else
      AttemptIndex(
        x.byId[e.attemptId.value := AttemptAfter(AttemptBefore(x, e), e)],
        if e.attemptId.value in x.byId then x.idsByProcess
        else x.idsByProcess[e.processId.value := AttemptIdsAfter(x, e)])
  }

  /** Python compares the tuples (created_at, checkpoint_id). */
  predicate NotNewer(a: CheckpointRef, b: CheckpointRef) {
    a.createdAt < b.createdAt || (a.createdAt == b.createdAt && TextLeq(a.checkpointId, b.checkpointId))
  }

  /** `max(candidates, key=...)` over the live checkpoints of one process. */
  ghost predicate IsLatest(checkpoints: map<string, CheckpointRef>, processId: string, id: string) {
    && id in checkpoints && checkpoints[id].processId == processId
    && forall other | other in checkpoints && checkpoints[other].processId == processId ::
         NotNewer(checkpoints[other], checkpoints[id])
  }

  ghost function MaxCheckpoint(checkpoints: map<string, CheckpointRef>, processId: string): string {
    if exists id :: IsLatest(checkpoints, processId, id) then
      var id :| IsLatest(checkpoints, processId, id); id
    else ""
  }

  predicate HasCheckpoint(checkpoints: map<string, CheckpointRef>, processId: string) {
    exists id | id in checkpoints :: checkpoints[id].processId == processId
  }

  ghost function WithInvalidation(x: CheckpointIndex, id: string): CheckpointIndex {
    if id !in x.live then x
    else
      var process := x.live[id].processId;
      var rest := x.live - {id};
      CheckpointIndex(rest,
        if process !in x.latest || x.latest[process] != id then x.latest
        else if HasCheckpoint(rest, process) then x.latest[process := MaxCheckpoint(rest, process)]
        else x.latest - {process})
  }

  function WithCommit(x: CheckpointIndex, c: CheckpointRef): CheckpointIndex {
    var live := x.live[c.checkpointId := c];
    CheckpointIndex(live,
      if c.processId !in x.latest || x.latest[c.processId] !in live || NotNewer(live[x.latest[c.processId]], c)
      then x.latest[c.processId := c.checkpointId] else x.latest)
  }

  predicate Commits(e: Event) {
    && e.eventType.CheckpointCommitted? && e.checkpointId.Some? && e.payload.checkpoint.Some?
    && e.payload.checkpoint.value.checkpointId == e.checkpointId.value
  }

  ghost function WithCheckpoint(x: CheckpointIndex, e: Event): CheckpointIndex {
    if e.checkpointId.None? then x
    else if e.eventType.CheckpointInvalidated? then WithInvalidation(x, e.checkpointId.value)
    else if Commits(e) then WithCommit(x, e.payload.checkpoint.value)
    else x
  }

  predicate ReportsUnit(e: Event) {
    e.subjectType == Some("unit") || e.subjectType == Some("fsm.transition")
  }

  function EffectiveClass(e: Event): Option<StatusClass> {
    if e.statusClass.Some? then e.statusClass
    else if e.eventType.IsAttempt() then Some(DefaultClass(e.eventType)) else None
  }

  function ResultDict(j: Json): Json {
    if j.Dict? then j else Dict("{value: " + (if j.Null? then "null" else j.text) + "}")
  }

  function ProcessAfter(before: Option<ProcessState>, e: Event): ProcessState
    requires e.processId.Some?
  {
    var s := if before.Some? then before.value
             else ProcessState(e.processId.value, None, e.parentProcessId, None, Pending, NotStarted,
                               None, Some(e.timestamp), None, None, None, None, None);
    var effective := EffectiveClass(e);
    s.(updatedAt := Some(e.timestamp),
       parentProcessId := OrText(e.parentProcessId, s.parentProcessId),
       currentAttemptId := if e.attemptId.Some? then e.attemptId else s.currentAttemptId,
       processType := if e.payload.processType.Some? then e.payload.processType else s.processType,
       status := if e.status.Some? then e.status.value
                 else if e.eventType.IsAttempt() then DefaultStatus(e.eventType) else s.status,
       statusClass := if effective.Some? then effective.value else s.statusClass,
       progress := if e.progress.Some? then e.progress else s.progress,
       error := if e.error.Some? then e.error else s.error,
       resourceUsage := if SamplesResources(e) then Some(e.payload.resourceUsage.value.usage) else s.resourceUsage,
       startedAt := if effective == Some(Active) then OrTime(s.startedAt, e.timestamp) else s.startedAt,
       finishedAt := if effective.Some? && IsTerminal(effective.value) then Some(e.timestamp) else s.finishedAt,
       result := if effective == Some(TerminalSuccess) && e.payload.result.Some?
                 then Some(ResultDict(e.payload.result.value)) else s.result)
  }

  predicate SamplesResources(e: Event) {
    e.eventType.ResourceSampled? && e.payload.resourceUsage.Some? && e.payload.resourceUsage.value.Usage?
  }

  /** A resource sample of a process whose usage does not validate. */
  predicate UsageRejected(e: Event) {
    && e.processId.Some? && !ReportsUnit(e) && e.eventType.ResourceSampled?
    && e.payload.resourceUsage == Some(InvalidUsage)
  }

  function Lookup<K, V>(m: map<K, V>, k: K): Option<V> {
    if k in m then Some(m[k]) else None
  }

  function WithProcess(x: ProcessIndex, e: Event): ProcessIndex {
    if e.processId.None? || ReportsUnit(e) then x
    else
      var id := e.processId.value;
      ProcessIndex(
        x.states[id := ProcessAfter(Lookup(x.states, id), e)],
        if id in x.states then x.order else x.order + [id],
        if e.progress.Some? then x.progress[id := e.progress.value] else x.progress,
        if SamplesResources(e) then x.resources[id := e.payload.resourceUsage.value.usage] else x.resources)
  }

  function UnitAfter(before: Option<UnitState>, id: string, e: Event): UnitState {
    var s := if before.Some? then before.value
             else UnitState(id, e.payload.unitType, e.processId, e.parentProcessId, e.parentSubjectId,
                            e.subjectType, e.subjectId, Pending, NotStarted, None, None, None,
                            None, None, None, 0);
    s.(processId := OrText(e.processId, s.processId),
       parentProcessId := OrText(e.parentProcessId, s.parentProcessId),
       parentUnitId := OrText(e.parentSubjectId, s.parentUnitId),
       unitType := OrValue(e.payload.unitType, s.unitType),
       subjectType := OrText(e.subjectType, s.subjectType),
       subjectId := OrText(e.subjectId, s.subjectId),
       status := OrStatus(e.status, s.status),
       statusClass := OrClass(e.statusClass, s.statusClass),
       eventCount := s.eventCount + 1,
       startedAt := if e.statusClass == Some(Active) then OrTime(s.startedAt, e.timestamp) else s.startedAt,
       finishedAt := if e.statusClass.Some? && IsTerminal(e.statusClass.value) then Some(e.timestamp)
                     else s.finishedAt,
       progress := if e.progress.Some? then e.progress else s.progress,
       result := if e.payload.result.Some? && e.payload.result.value.Dict? then e.payload.result else s.result,
       error := if e.error.Some? then e.error else s.error,
       updatedAt := Some(e.timestamp))
  }

  /** `payload.get("unit_id") or subject_id`, when that is text that is not blank. */
  function NamedUnit(e: Event): Option<string> {
    var chosen := if e.payload.unitId.Some? && e.payload.unitId.value.Truthy() then e.payload.unitId
                  else if e.subjectId.Some? then Some(Text(e.subjectId.value)) else None;
    if ReportsUnit(e) && chosen.Some? && chosen.value.Text? && !Blank(chosen.value.text)
    then Some(chosen.value.text) else None
  }

  /** Only a new unit has its type validated. */
  predicate UnitRejected(x: UnitIndex, e: Event) {
    && NamedUnit(e).Some? && NamedUnit(e).value !in x.states
    && e.payload.unitType.Some? && e.payload.unitType.value.NotText?
  }

  function WithUnit(x: UnitIndex, e: Event): UnitIndex {
    if NamedUnit(e).None? then x
    else
      var id := NamedUnit(e).value;
      var ids := if id in x.eventIds then x.eventIds[id] else [];
      UnitIndex(x.states[id := UnitAfter(Lookup(x.states, id), id, e)], x.eventIds[id := ids + [IdText(e.eventId)]])
  }

  ghost function CoreAfter(c: Core, e: Event): Core {
    Core(e.runtimeId, Some(e.timestamp), c.eventCount + 1,
         if e.sequence.Some? then e.sequence.value else c.lastSequence,
         WithAttempt(c.attempts, e), WithCheckpoint(c.checkpoints, e), WithProcess(c.processes, e),
         WithUnit(c.units, e),
         if e.error.Some? then c.errorSummary + [e.error.value] else c.errorSummary,
         if e.eventType.IsArtifact()
         then c.artifactIndex + [ArtifactEntry(e.payload, e.eventType, e.processId, e.timestamp)]
         else c.artifactIndex)
  }

  /** Only runtime-level events, those without a process, set the runtime status. */
  function StatusAfter(status: Status, e: Event): Status {
    if e.processId.None? && e.status.Some? then e.status.value else status
  }

  function ClassAfter(c: StatusClass, e: Event): StatusClass {
    if e.processId.None? && e.statusClass.Some? then e.statusClass.value else c
  }

  ghost function ApplyEvent(p: Projection, e: Event): Projection {
    Projection(CoreAfter(p.core, e), StatusAfter(p.status, e), ClassAfter(p.statusClass, e), p.derived)
  }

  function Rejects(c: Core, e: Event, enforceRuntimeId: bool): Option<ReduceError> {
    if enforceRuntimeId && c.eventCount != 0 && e.runtimeId != c.runtimeId then Some(RuntimeIdChanged)
    else if e.sequence.Some? && e.sequence.value <= c.lastSequence then Some(SequenceMustAdvance)
    else Unreadable(c.attempts, c.units, e)
  }

  /** The validation that fails while an event is applied, in the order of the helpers. */
  function Unreadable(attempts: AttemptIndex, units: UnitIndex, e: Event): Option<ReduceError> {
    if AttemptRejected(attempts, e) then Some(InvalidAttempt)
    else if UsageRejected(e) then Some(InvalidResourceUsage)
    else if UnitRejected(units, e) then Some(InvalidUnit)
    else None
  }

  ghost function StepEvent(p: Projection, e: Event, enforceRuntimeId: bool): Reduced {
    var rejected := Rejects(p.core, e, enforceRuntimeId);
    if rejected.Some? then Failure(rejected.value) else Success(ApplyEvent(p, e))
  }

  ghost function Fold(p: Projection, events: seq<Event>, enforceRuntimeId: bool): Reduced
    decreases |events|
  {
    if events == [] then Success(p)
    else
      match Fold(p, events[..|events| - 1], enforceRuntimeId)
      case Success(q) => StepEvent(q, events[|events| - 1], enforceRuntimeId)
      case Failure(error) => Failure(error)
  }

  // ---------------------------------------------------------------- propagation

  predicate Bad(c: StatusClass) {
    c.TerminalFailure? || c.TerminalCancelled?
  }

  /** The effect of one child on its parent; `child` is the state read when the pass began. */
  function Raise(ps: map<string, ProcessState>, child: ProcessState, policy: Policy): map<string, ProcessState> {
    if child.parentProcessId.None? || child.parentProcessId.value !in ps then ps
    else
      var id := child.parentProcessId.value;
      var parent := ps[id];
      if Bad(parent.statusClass) then ps
      else if policy.propagateFailure && child.statusClass.TerminalFailure? then
        ps[id := parent.(status := Failed, statusClass := TerminalFailure,
                         error := OrError(parent.error, child.error))]
      else if policy.propagateCancelled && child.statusClass.TerminalCancelled? then
        ps[id := parent.(status := Cancelled, statusClass := TerminalCancelled,
                         error := OrError(parent.error, child.error))]
      else ps
  }

  function Pass(children: seq<ProcessState>, ps: map<string, ProcessState>, policy: Policy):
    map<string, ProcessState>
  {
    if children == [] then ps
    else Raise(Pass(children[..|children| - 1], ps, policy), children[|children| - 1], policy)
  }

  function Sound(ps: map<string, ProcessState>): set<string> {
    set id | id in ps && !Bad(ps[id].statusClass)
  }

  lemma RaiseShrinks(ps: map<string, ProcessState>, child: ProcessState, policy: Policy)
    ensures Raise(ps, child, policy).Keys == ps.Keys
    ensures Sound(Raise(ps, child, policy)) <= Sound(ps)
    ensures Raise(ps, child, policy) != ps ==> Sound(Raise(ps, child, policy)) != Sound(ps)
  {
    var id := if child.parentProcessId.Some? then child.parentProcessId.value else "";
    if Raise(ps, child, policy) != ps {
      assert id in Sound(ps) && id !in Sound(Raise(ps, child, policy));
    }
  }

  lemma {:induction false} PassShrinks(children: seq<ProcessState>, ps: map<string, ProcessState>, policy: Policy)
    ensures Pass(children, ps, policy).Keys == ps.Keys
    ensures Sound(Pass(children, ps, policy)) <= Sound(ps)
    ensures Pass(children, ps, policy) != ps ==> Sound(Pass(children, ps, policy)) != Sound(ps)
  {
    if children != [] {
      var init := children[..|children| - 1];
      PassShrinks(init, ps, policy);
      RaiseShrinks(Pass(init, ps, policy), children[|children| - 1], policy);
    }
  }

  /** `list(processes.values())` */
  function Values(order: seq<string>, ps: map<string, ProcessState>): seq<ProcessState> {
    if order == [] then []
    else
      var last := order[|order| - 1];
      Values(order[..|order| - 1], ps) + (if last in ps then [ps[last]] else [])
  }

  /** Passes repeat until one changes nothing. */
  function Propagate(order: seq<string>, ps: map<string, ProcessState>, policy: Policy): map<string, ProcessState>
    decreases Sound(ps)
  {
    var next := Pass(Values(order, ps), ps, policy);
    PassShrinks(Values(order, ps), ps, policy);
    if next == ps then ps else Propagate(order, next, policy)
  }

  // ---------------------------------------------------------------- finalisation

  function WithClass(ps: map<string, ProcessState>, c: StatusClass): set<string> {
    set id | id in ps && ps[id].statusClass == c
  }

  function ActiveUnits(units: map<string, UnitState>): set<string> {
    set id | id in units && units[id].statusClass.Active?
  }

  function Propagated(x: ProcessIndex, policy: Policy): map<string, ProcessState> {
    if policy.propagateFailure || policy.propagateCancelled then Propagate(x.order, x.states, policy) else x.states
  }

  /** The status pair the finalisation writes, if any of its branches fires. */
  function FinalStatus(ps: map<string, ProcessState>): Option<(Status, StatusClass)> {
    if |WithClass(ps, TerminalFailure)| != 0 then Some((Failed, TerminalFailure))
    else if |WithClass(ps, TerminalCancelled)| != 0 then Some((Cancelled, TerminalCancelled))
    else if WithClass(ps, Active) != {} then Some((Running, Active))
    else if ps != map[] && |WithClass(ps, TerminalSuccess)| == |ps| then Some((Succeeded, TerminalSuccess))
    else None
  }

  function DerivedFrom(c: Core, policy: Policy): Derived {
    var ps := Propagated(c.processes, policy);
    Derived(ps, WithClass(ps, Active), ActiveUnits(c.units.states), |WithClass(ps, TerminalSuccess)|,
            |WithClass(ps, TerminalFailure)|, |WithClass(ps, TerminalCancelled)|)
  }

  function Finalize(p: Projection, policy: Policy): Projection {
    var derived := DerivedFrom(p.core, policy);
    var final := FinalStatus(derived.processes);
    Projection(p.core, if final.Some? then final.value.0 else p.status,
               if final.Some? then final.value.1 else p.statusClass, derived)
  }

  // ---------------------------------------------------------------- event order

  function NumericId(id: EventId): int {
    match id
    case IntId(n) => n
    case TextId(_, numeric) => if numeric.Some? then numeric.value else -1
  }

  function IdText(id: EventId): string {
    match id
    case IntId(n) => Decimal(n)
    case TextId(text, _) => text
  }

  /** The sort key: sequenced events first by sequence, the others by time; then by id. */
  datatype SortKey = SortKey(bucket: int, primary: real, numericId: int, text: string)

  function KeyOf(e: Event): SortKey {
    if e.sequence.Some? then SortKey(0, e.sequence.value as real, NumericId(e.eventId), IdText(e.eventId))
    else SortKey(1, e.timestamp, NumericId(e.eventId), IdText(e.eventId))
  }

  predicate KeyLeq(a: SortKey, b: SortKey) {
    if a.bucket != b.bucket then a.bucket < b.bucket
    else if a.primary != b.primary then a.primary < b.primary
    else if a.numericId != b.numericId then a.numericId < b.numericId
    else TextLeq(a.text, b.text)
  }

  predicate EventLeq(a: Event, b: Event) {
    KeyLeq(KeyOf(a), KeyOf(b))
  }

  // ---------------------------------------------------------------- the reducer

  ghost function ApplyEvents(p: Projection, events: seq<Event>, enforceRuntimeId: bool, policy: Policy): Reduced {
    if p.core.eventCount != 0 && p.derived.processes != map[] && p.core.processes.states == map[]
    then Failure(PredatesIncrementalState)
    else
      match Fold(p, Sort(EventLeq, events), enforceRuntimeId)
      case Success(q) => Success(Finalize(q, policy))
      case Failure(error) => Failure(error)
  }

  /** The full form: fold every event from an empty projection. */
  ghost function Reduce(events: seq<Event>, policy: Policy): Reduced {
    var sorted := Sort(EventLeq, events);
    ApplyEvents(EmptyProjection(if sorted != [] then sorted[0].runtimeId else "runtime"), events, false, policy)
  }

  /** The incremental form: fold later events onto a persisted projection. */
  ghost function Apply(p: Projection, events: seq<Event>, policy: Policy): Reduced {
    ApplyEvents(p, events, true, policy)
  }
}
