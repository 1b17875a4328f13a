/** The durable database as a value, and each public store method as one transaction on it. A failed
    transaction rolls back, so it is described by its error alone. */
module DurableTables {
  import opened RuntimeTypes
  import opened Sorting
  import opened RuntimeProjections
  import opened LedgerReplay

  datatype SessionStatus = ActiveSession | ReleasedSession | ExpiredSession

  datatype Session = Session(
    sessionId: string, runtimeId: string, ownerId: string, status: SessionStatus,
    acquiredAt: Time, heartbeatAt: Time, expiresAt: Time, releasedAt: Option<Time>, metadata: Json)

  datatype Db = Db(
    identity: Identity, log: seq<Event>, specs: map<string, ProcessSpec>,
    executions: map<string, ExecutionRecord>, attempts: map<string, Attempt>,
    sessions: map<string, Session>, commands: map<string, CommandRecord>,
    projection: Option<(Projection, int)>)

  datatype StoreError =
    | IdentityMismatch | IntegrityError | RejectedValue
    | InvalidTtl | LeaseConflict | LeaseLost | DuplicateSession
    | SpecChanged | UnknownProcess | UnknownExecution | UnknownAttempt | AttemptState | NotTerminalEvent
    | DuplicateExecution | WrongKind | InvalidTransition
    | CommandConflict | UnknownCommand | NotTerminalStatus
    | CursorAhead | RebuildFailed(replay: ReplayError) | RefreshFailed(reduce: ReduceError)

  /** The database and the value a committed transaction leaves, or why it rolled back. */
  type Tx<+T> = Result<(Db, T), StoreError>

  function EmptyDb(identity: Identity): Db {
    Db(identity, [], map[], map[], map[], map[], map[], None)
  }

  // ---------------------------------------------------------------- queries

  /** `COALESCE(MAX(sequence), -1)` */
  function MaxSequence(log: seq<Event>): int {
    if log == [] then -1
    else
      var m, last := MaxSequence(log[..|log| - 1]), log[|log| - 1].sequence;
      if last.Some? && last.value > m then last.value else m
  }

  /** `SELECT ... WHERE sequence > ? ORDER BY sequence` */
  function EventsAfter(log: seq<Event>, cursor: int): seq<Event> {
    if log == [] then []
    else
      var last := log[|log| - 1];
      var after := last.sequence.Some? && last.sequence.value > cursor;
      EventsAfter(log[..|log| - 1], cursor) + (if after then [last] else [])
  }

  ghost predicate IsMaxOrdinal(attempts: map<string, Attempt>, process: string, m: int) {
    && (forall id | id in attempts && attempts[id].processId == process :: attempts[id].ordinal <= m)
    && (m == 0 || exists id :: id in attempts && attempts[id].processId == process && attempts[id].ordinal == m)
    && (m == 0 ==> forall id | id in attempts :: attempts[id].processId != process)
  }

  /** `COALESCE(MAX(ordinal), 0)` over the rows of one process. */
  ghost function MaxOrdinal(attempts: map<string, Attempt>, process: string): int {
    if exists m :: IsMaxOrdinal(attempts, process, m) then var m :| IsMaxOrdinal(attempts, process, m); m else 0
  }

  ghost predicate IsActive(sessions: map<string, Session>, id: string) {
    id in sessions && sessions[id].status.ActiveSession?
  }

  /** The unique index on active sessions lets the query return at most one row. */
  ghost function LoadActive(sessions: map<string, Session>): Option<Session> {
    if exists id :: IsActive(sessions, id) then
      var id :| IsActive(sessions, id); Some(sessions[id])
    else None
  }

  // ---------------------------------------------------------------- appending an event

  function StoredEvent(db: Db, e: Event): Event {
    var n := MaxSequence(db.log) + 1;
    e.(eventId := IntId(n), sequence := Some(n))
  }

  /** `int(payload.get("ordinal") or 1)` */
  function RowOrdinal(e: Event): int {
    if e.payload.ordinal.Some? && e.payload.ordinal.value != 0 then e.payload.ordinal.value else 1
  }

  /** Keys a new attempt row refuses when the store makes it. */
  predicate RowMalformed(p: Payload) {
    Ordinal in p.malformed || AttemptText in p.malformed || BackendSession in p.malformed || ResumedFrom in p.malformed
  }

  predicate RowTaken(attempts: map<string, Attempt>, process: string, ordinal: int) {
    exists id | id in attempts :: attempts[id].processId == process && attempts[id].ordinal == ordinal
  }

  function NewRow(e: Event): Attempt
    requires TouchesAttempt(e)
  {
    Attempt(e.attemptId.value, e.processId.value, e.runtimeId, e.executionId, RowOrdinal(e),
            AttemptOperation(e.payload), e.payload.executionKey, e.payload.inputFingerprint,
            e.payload.implementationVersion, Pending, NotStarted, None, None,
            e.payload.resumedFromAttemptId, e.checkpointId, e.payload.backendSessionId, e.sequence, None, None)
  }

  function UpdatedRow(a: Attempt, e: Event): Attempt {
    a.(lastEventSequence := e.sequence,
       status := if e.status.Some? then e.status.value else a.status,
       statusClass := if e.statusClass.Some? then e.statusClass.value else a.statusClass,
       error := if e.error.Some? then e.error else a.error,
       startedAt := if e.eventType.AttemptStarted? then Some(e.timestamp) else a.startedAt,
       finishedAt := if e.eventType.IsTerminalAttempt() then Some(e.timestamp) else a.finishedAt)
  }

  /** `_apply_attempt_event_tx`: insert or update the row, under UNIQUE(process_id, ordinal). */
  function WriteAttempt(attempts: map<string, Attempt>, e: Event): Result<map<string, Attempt>, StoreError> {
    if !TouchesAttempt(e) then Success(attempts)
    else
      var id := e.attemptId.value;
      if id in attempts then Success(attempts[id := UpdatedRow(attempts[id], e)])
      else if RowMalformed(e.payload) || RowOrdinal(e) < 1 then Failure(RejectedValue)
      else if RowTaken(attempts, e.processId.value, RowOrdinal(e)) then Failure(IntegrityError)
      else Success(attempts[id := UpdatedRow(NewRow(e), e)])
  }

  function TouchExecution(executions: map<string, ExecutionRecord>, e: Event): map<string, ExecutionRecord> {
    if e.executionId.Some? && e.executionId.value in executions then
      executions[e.executionId.value := executions[e.executionId.value].(lastEventSequence := e.sequence)]
    else executions
  }

  /** `_append_event_tx`: allocate the next sequence, insert, and update the attempt and execution rows. */
  function AppendEvent(db: Db, e: Event): Tx<Event> {
    if e.runtimeId != db.identity.runtimeId then Failure(IdentityMismatch)
    else
      var stored := StoredEvent(db, e);
      match WriteAttempt(db.attempts, stored)
      case Failure(error) => Failure(error)
      case Success(attempts) =>
        Success((db.(log := db.log + [stored], attempts := attempts,
                     executions := TouchExecution(db.executions, stored)), stored))
  }

  // ---------------------------------------------------------------- sessions

  function SessionStatusText(s: SessionStatus): Status {
    match s
    case ActiveSession => Custom("active")
    case ReleasedSession => Custom("released")
    case ExpiredSession => Custom("expired")
  }

  function SessionEvent(s: Session, t: EventType, now: Time): Event {
    Draft(s.runtimeId, t, now).(
      subjectType := Some("backend_session"), subjectId := Some(s.sessionId),
      status := Some(SessionStatusText(s.status)),
      statusClass := Some(if s.status.ActiveSession? then Active else TerminalSuccess),
      payload := NO_PAYLOAD.(ownerId := s.ownerId, expiresAt := s.expiresAt), metadata := s.metadata)
  }

  /** Write one session row and append the event that reports it. */
  function WriteSession(db: Db, s: Session, t: EventType, now: Time): Tx<Session> {
    match AppendEvent(db.(sessions := db.sessions[s.sessionId := s]), SessionEvent(s, t, now))
    case Success((after, _)) => Success((after, s))
    case Failure(error) => Failure(error)
  }

  /** An owner past its expiry is marked expired before the new one is written. */
  function DisplaceSession(db: Db, active: Option<Session>, now: Time): Result<Db, StoreError> {
    if active.None? then Success(db)
    else
      match WriteSession(db, active.value.(status := ExpiredSession, releasedAt := Some(now)), SessionExpired, now)
      case Success((d, _)) => Success(d)
      case Failure(error) => Failure(error)
  }

  ghost function AcquireSession(db: Db, sessionId: string, ownerId: string, now: Time, ttl: Time, metadata: Json):
    Tx<Session>
  {
    if ttl <= 0.0 then Failure(InvalidTtl)
    else
      var active := LoadActive(db.sessions);
      if active.Some? && active.value.expiresAt > now then Failure(LeaseConflict)
      else
        match DisplaceSession(db, active, now)
        case Failure(error) => Failure(error)
        case Success(d) =>
          if sessionId in d.sessions then Failure(DuplicateSession)
          else if Blank(sessionId) || Blank(ownerId) then Failure(RejectedValue)
          else
            WriteSession(d, Session(sessionId, d.identity.runtimeId, ownerId, ActiveSession, now, now, now + ttl,
                                    None, metadata), SessionAcquired, now)
  }

  /** `_require_live_session_tx` */
  ghost predicate HoldsLease(db: Db, sessionId: string, ownerId: string, now: Time) {
    var active := LoadActive(db.sessions);
    active.Some? && active.value.sessionId == sessionId && active.value.ownerId == ownerId
    && active.value.expiresAt > now
  }

  ghost function RenewSession(db: Db, sessionId: string, ownerId: string, now: Time, ttl: Time): Tx<Session> {
    if ttl <= 0.0 then Failure(InvalidTtl)
    else if !HoldsLease(db, sessionId, ownerId, now) then Failure(LeaseLost)
    else
      WriteSession(db, LoadActive(db.sessions).value.(heartbeatAt := now, expiresAt := now + ttl), SessionRenewed, now)
  }

  ghost function ReleaseSession(db: Db, sessionId: string, ownerId: string, now: Time): Tx<Session> {
    if !HoldsLease(db, sessionId, ownerId, now) then Failure(LeaseLost)
    else WriteSession(db, LoadActive(db.sessions).value.(status := ReleasedSession, releasedAt := Some(now)),
                      SessionReleased, now)
  }

  // ---------------------------------------------------------------- reconciliation

  predicate Unfinished(s: Status) { s.Pending? || s.Running? }

  predicate OpenClass(c: StatusClass) { c.NotStarted? || c.Active? }

  predicate StaleExecution(r: ExecutionRecord, sessionId: string) {
    Unfinished(r.status) && r.backendSessionId != Some(sessionId)
  }

  function StaleExecutions(db: Db, sessionId: string): set<string> {
    set id | id in db.executions && StaleExecution(db.executions[id], sessionId)
  }

  predicate StaleAttempt(db: Db, a: Attempt, sessionId: string) {
    OpenClass(a.statusClass) &&
    ((a.executionId.Some? && a.executionId.value in StaleExecutions(db, sessionId)) ||
     (a.backendSessionId.Some? && a.backendSessionId != Some(sessionId)))
  }

  function StaleAttempts(db: Db, sessionId: string): set<string> {
    set id | id in db.attempts && StaleAttempt(db, db.attempts[id], sessionId)
  }

  /** ORDER BY process_id, ordinal */
  predicate RowLeq(attempts: map<string, Attempt>, a: string, b: string) {
    a in attempts && b in attempts &&
    if attempts[a].processId != attempts[b].processId then TextLeq(attempts[a].processId, attempts[b].processId)
    else attempts[a].ordinal <= attempts[b].ordinal
  }

  ghost function RowsInOrder(attempts: map<string, Attempt>, ids: set<string>): seq<string> {
    Sort((a: string, b: string) => RowLeq(attempts, a, b), Listing(ids))
  }

  ghost function ExecutionsInOrder(executions: map<string, ExecutionRecord>, ids: set<string>): seq<string> {
    OrderedBy(map id | id in ids && id in executions :: executions[id].ordinal)
  }

  function LostError(sessionId: string): ErrorInfo {
    ErrorInfo("BackendSessionLost", "The backend session that owned this work is no longer live", Dict(sessionId))
  }

  function AttemptInterruption(a: Attempt, sessionId: string, now: Time): Event {
    Draft(a.runtimeId, AttemptInterrupted, now).(
      executionId := a.executionId, processId := Some(a.processId), attemptId := Some(a.attemptId),
      status := Some(Interrupted), statusClass := Some(TerminalFailure), error := Some(LostError(sessionId)),
      payload := NO_PAYLOAD.(ordinal := Some(a.ordinal), backendSessionId := a.backendSessionId))
  }

  function ExecutionInterruption(r: ExecutionRecord, sessionId: string, now: Time): Event {
    Draft(r.runtimeId, ExecutionInterrupted, now).(
      executionId := Some(r.executionId), status := Some(Interrupted), statusClass := Some(TerminalFailure),
      error := Some(LostError(sessionId)))
  }

  function InterruptAttempt(db: Db, a: Attempt, sessionId: string, now: Time): Tx<Event> {
    AppendEvent(db, AttemptInterruption(a, sessionId, now))
  }

  /** The record written back is the one read before the attempts were interrupted. */
  function InterruptExecution(db: Db, r: ExecutionRecord, sessionId: string, now: Time): Tx<Event> {
    match AppendEvent(db, ExecutionInterruption(r, sessionId, now))
    case Failure(error) => Failure(error)
    case Success((after, stored)) =>
      Success((after.(executions := after.executions[r.executionId := r.(
        status := Interrupted, finishedAt := Some(now), lastEventSequence := stored.sequence,
        error := Some(LostError(sessionId)))]), stored))
  }

  function InterruptAttempts(db: Db, rows: map<string, Attempt>, ids: seq<string>, sessionId: string, now: Time):
    Result<Db, StoreError>
  {
    if ids == [] then Success(db)
    else
      match InterruptAttempts(db, rows, ids[..|ids| - 1], sessionId, now)
      case Failure(error) => Failure(error)
      case Success(d) =>
        var id := ids[|ids| - 1];
        if id !in rows then Success(d)
        else
          match InterruptAttempt(d, rows[id], sessionId, now)
          case Failure(error) => Failure(error)
          case Success((after, _)) => Success(after)
  }

  function InterruptExecutions(
    db: Db, rows: map<string, ExecutionRecord>, ids: seq<string>, sessionId: string, now: Time):
    Result<Db, StoreError>
  {
    if ids == [] then Success(db)
    else
      match InterruptExecutions(db, rows, ids[..|ids| - 1], sessionId, now)
      case Failure(error) => Failure(error)
      case Success(d) =>
        var id := ids[|ids| - 1];
        if id !in rows then Success(d)
        else
          match InterruptExecution(d, rows[id], sessionId, now)
          case Failure(error) => Failure(error)
          case Success((after, _)) => Success(after)
  }

  /** Both stale lists are read before anything is written. */
  ghost function Reconcile(db: Db, sessionId: string, ownerId: string, now: Time): Tx<(seq<string>, seq<string>)> {
    if !HoldsLease(db, sessionId, ownerId, now) then Failure(LeaseLost)
    else
      var attempts := RowsInOrder(db.attempts, StaleAttempts(db, sessionId));
      var executions := ExecutionsInOrder(db.executions, StaleExecutions(db, sessionId));
      match InterruptAttempts(db, db.attempts, attempts, sessionId, now)
      case Failure(error) => Failure(error)
      case Success(d) =>
        match InterruptExecutions(d, db.executions, executions, sessionId, now)
        case Failure(error) => Failure(error)
        case Success(after) => Success((after, (executions, attempts)))
  }

  // ---------------------------------------------------------------- executions

  function BeginExecution(
    db: Db, executionId: string, kind: ExecutionKind, createdAt: Time,
    backendSessionId: Option<string>, recoveryPlanId: Option<string>, metadata: Json): Tx<ExecutionRecord>
  {
    var ordinal := |db.executions| + 1;
    if executionId in db.executions then Failure(DuplicateExecution)
    else if ordinal == 1 && !kind.Initial? then Failure(WrongKind)
    else if ordinal > 1 && !kind.Continue? then Failure(WrongKind)
    else if Blank(executionId) then Failure(RejectedValue)
    else
      var e := Draft(db.identity.runtimeId, ExecutionCreated, createdAt).(
        executionId := Some(executionId), status := Some(Pending), statusClass := Some(NotStarted),
        payload := NO_PAYLOAD.(kind := kind, ordinal := Some(ordinal), backendSessionId := backendSessionId,
                               recoveryPlanId := recoveryPlanId),
        metadata := metadata);
      match AppendEvent(db, e)
      case Failure(error) => Failure(error)
      case Success((d, stored)) =>
        var r := ExecutionRecord(executionId, db.identity.runtimeId, kind, ordinal, Pending, backendSessionId,
                                 recoveryPlanId, createdAt, None, None, stored.sequence, stored.sequence, None,
                                 metadata);
        Success((d.(executions := d.executions[executionId := r]), r))
  }

  predicate AllowedTransition(current: Status, target: Status) {
    match current
    case Pending => target.Running? || target.Cancelled? || target.Interrupted?
    case Running => target.Succeeded? || target.Failed? || target.Cancelled? || target.Interrupted?
    case _ => false
  }

  function ExecutionEventType(status: Status): EventType {
    match status
    case Pending => ExecutionCreated
    case Running => ExecutionStarted
    case Succeeded => ExecutionCompleted
    case Failed => ExecutionFailed
    case Cancelled => ExecutionCancelled
    case Interrupted => ExecutionInterrupted
    case _ => OtherType("")
  }

  function ExecutionEventClass(status: Status): StatusClass {
    match status
    case Pending => NotStarted
    case Running => Active
    case Succeeded => TerminalSuccess
    case Cancelled => TerminalCancelled
    case _ => TerminalFailure
  }

  function TransitionExecution(
    db: Db, executionId: string, status: Status, timestamp: Time, error: Option<ErrorInfo>): Tx<ExecutionRecord>
  {
    if executionId !in db.executions then Failure(UnknownExecution)
    else
      var r := db.executions[executionId];
      if !AllowedTransition(r.status, status) then Failure(InvalidTransition)
      else
        var e := Draft(r.runtimeId, ExecutionEventType(status), timestamp).(
          executionId := Some(executionId), status := Some(status),
          statusClass := Some(ExecutionEventClass(status)), error := error);
        match AppendEvent(db, e)
        case Failure(x) => Failure(x)
        case Success((d, stored)) =>
          var after := r.(status := status, lastEventSequence := stored.sequence, error := error,
                          startedAt := if status.Running? then Some(timestamp) else r.startedAt,
                          finishedAt := if status.Running? then r.finishedAt else Some(timestamp));
          Success((d.(executions := d.executions[executionId := after]), after))
  }

  // ---------------------------------------------------------------- processes and attempts

  function DeclareProcess(db: Db, spec: ProcessSpec, timestamp: Time): Tx<bool> {
    var id := spec.ResolvedId();
    if id in db.specs then
      if db.specs[id] != spec then Failure(SpecChanged) else Success((db, false))
    else
      var e := Draft(db.identity.runtimeId, ProcessCreated, timestamp).(
        processId := Some(id), parentProcessId := spec.parentProcessId, status := Some(Pending),
        statusClass := Some(NotStarted), payload := NO_PAYLOAD.(processType := Some(spec.processType)),
        metadata := spec.metadata);
      match AppendEvent(db.(specs := db.specs[id := spec]), e)
      case Failure(error) => Failure(error)
      case Success((d, _)) => Success((d, true))
  }

  function WriteSpecs(db: Db, specs: seq<ProcessSpec>): Db {
    if specs == [] then db
    else
      var d, last := WriteSpecs(db, specs[..|specs| - 1]), specs[|specs| - 1];
      d.(specs := d.specs[last.ResolvedId() := last])
  }

  function AttemptId(process: string, ordinal: int): string {
    process + ":attempt:" + Decimal(ordinal)
  }

  function AttemptEvent(
    db: Db, t: EventType, spec: ProcessSpec, process: string, executionId: string, ordinal: int, timestamp: Time,
    operation: Operation, backendSessionId: Option<string>, resumedFrom: Option<string>,
    checkpointId: Option<string>, metadata: Json): Event
    requires t.IsAttempt()
  {
    Draft(db.identity.runtimeId, t, timestamp).(
      executionId := Some(executionId), processId := Some(process), parentProcessId := spec.parentProcessId,
      attemptId := Some(AttemptId(process, ordinal)), checkpointId := checkpointId,
      status := Some(DefaultStatus(t)), statusClass := Some(DefaultClass(t)),
      payload := NO_PAYLOAD.(
        ordinal := Some(ordinal), operation := Some(OperationValue(operation)), executionKey := spec.executionKey,
        inputFingerprint := spec.inputFingerprint, implementationVersion := spec.implementationVersion,
        backendSessionId := backendSessionId, resumedFromAttemptId := resumedFrom),
      metadata := metadata)
  }

  ghost function BeginAttempt(
    db: Db, process: string, executionId: string, timestamp: Time, operation: Operation,
    backendSessionId: Option<string>, resumedFrom: Option<string>, checkpointId: Option<string>, metadata: Json):
    Tx<Attempt>
  {
    if process !in db.specs then Failure(UnknownProcess)
    else if executionId !in db.executions then Failure(UnknownExecution)
    else
      var x := db.executions[executionId];
      if !Unfinished(x.status) then Failure(AttemptState)
      else if x.backendSessionId.Some? && x.backendSessionId != backendSessionId then Failure(AttemptState)
      else
        OpenAttempt(db, process, executionId, MaxOrdinal(db.attempts, process) + 1, timestamp, operation,
                    backendSessionId, resumedFrom, checkpointId, metadata)
  }

  /** Append the created and the started event of one attempt and read its row back. */
  function OpenAttempt(
    db: Db, process: string, executionId: string, ordinal: int, timestamp: Time, operation: Operation,
    backendSessionId: Option<string>, resumedFrom: Option<string>, checkpointId: Option<string>, metadata: Json):
    Tx<Attempt>
    requires process in db.specs
  {
    var spec := db.specs[process];
    match AppendEvent(db, AttemptEvent(db, AttemptCreated, spec, process, executionId, ordinal, timestamp,
                                       operation, backendSessionId, resumedFrom, checkpointId, metadata))
    case Failure(error) => Failure(error)
    case Success((d, _)) =>
      match AppendEvent(d, AttemptEvent(d, AttemptStarted, spec, process, executionId, ordinal, timestamp,
                                        operation, backendSessionId, resumedFrom, checkpointId, metadata))
      case Failure(error) => Failure(error)
      case Success((after, _)) =>
        if AttemptId(process, ordinal) in after.attempts
        then Success((after, after.attempts[AttemptId(process, ordinal)])) else Failure(AttemptState)
  }

  function FinishingEvent(
    db: Db, a: Attempt, t: EventType, timestamp: Time, error: Option<ErrorInfo>, result: Option<Json>, metadata: Json):
    Event
    requires t.IsTerminalAttempt()
  {
    Draft(a.runtimeId, t, timestamp).(
      executionId := a.executionId, processId := Some(a.processId),
      parentProcessId := if a.processId in db.specs then db.specs[a.processId].parentProcessId else None,
      attemptId := Some(a.attemptId), checkpointId := a.checkpointId,
      status := Some(DefaultStatus(t)), statusClass := Some(DefaultClass(t)), error := error,
      payload := NO_PAYLOAD.(
        ordinal := Some(a.ordinal),
        operation := Some(if a.operation.Some? then OperationValue(a.operation.value) else OtherText),
        executionKey := a.executionKey, inputFingerprint := a.inputFingerprint,
        implementationVersion := a.implementationVersion, backendSessionId := a.backendSessionId,
        result := result),
      metadata := metadata)
  }

  function FinishAttempt(
    db: Db, attemptId: string, t: EventType, timestamp: Time, error: Option<ErrorInfo>,
    result: Option<Json>, metadata: Json): Tx<Attempt>
  {
    if !t.IsTerminalAttempt() then Failure(NotTerminalEvent)
    else if attemptId !in db.attempts then Failure(UnknownAttempt)
    else
      var a := db.attempts[attemptId];
      if !OpenClass(a.statusClass) then Failure(AttemptState)
      else
        match AppendEvent(db, FinishingEvent(db, a, t, timestamp, error, result, metadata))
        case Failure(x) => Failure(x)
        case Success((d, _)) =>
          if attemptId in d.attempts then Success((d, d.attempts[attemptId])) else Failure(UnknownAttempt)
  }

  // ---------------------------------------------------------------- commands

  /** The stored receipt, and whether this call created it. */
  datatype Reservation = Reservation(record: CommandRecord, created: bool)

  function AcceptanceEvent(
    db: Db, commandId: string, commandType: string, timestamp: Time, targetId: Option<string>,
    executionId: Option<string>, backendSessionId: Option<string>, request: Json, metadata: Json): Event
  {
    Draft(db.identity.runtimeId, CommandAccepted, timestamp).(
      executionId := executionId, subjectType := Some("command"), subjectId := Some(commandId),
      status := Some(Custom("accepted")), statusClass := Some(NotStarted),
      payload := NO_PAYLOAD.(commandType := commandType, targetId := targetId, backendSessionId := backendSessionId,
                             fingerprint := Fingerprint(commandType, targetId, executionId, request),
                             request := request),
      metadata := metadata)
  }

  function ReserveCommand(
    db: Db, commandId: string, commandType: string, timestamp: Time, targetId: Option<string>,
    executionId: Option<string>, backendSessionId: Option<string>, request: Json, metadata: Json): Tx<Reservation>
  {
    var digest := Fingerprint(commandType, targetId, executionId, request);
    if commandId in db.commands then
      if db.commands[commandId].fingerprint != digest then Failure(CommandConflict)
      else Success((db, Reservation(db.commands[commandId], false)))
    else
      match AppendEvent(db, AcceptanceEvent(db, commandId, commandType, timestamp, targetId, executionId,
                                            backendSessionId, request, metadata))
      case Failure(error) => Failure(error)
      case Success((d, stored)) =>
        if Blank(commandId) || Blank(commandType) || stored.sequence.None? then Failure(RejectedValue)
        else
          var n := stored.sequence.value;
          var r := CommandRecord(commandId, db.identity.runtimeId, commandType, digest, targetId, executionId,
                                 backendSessionId, Accepted, timestamp, None, n, n, request, Null, None, metadata);
          Success((d.(commands := d.commands[commandId := r]), Reservation(r, true)))
  }

  function FinishCommand(
    db: Db, commandId: string, status: CommandStatus, timestamp: Time, result: Json, error: Option<ErrorInfo>):
    Tx<CommandRecord>
  {
    if status.Accepted? then Failure(NotTerminalStatus)
    else if commandId !in db.commands then Failure(UnknownCommand)
    else
      var r := db.commands[commandId];
      if !r.status.Accepted? then
        if r.status == status && r.result == result && r.error == error then Success((db, r))
        else Failure(CommandConflict)
      else
        var done := status.CommandDone?;
        var e := Draft(r.runtimeId, if done then CommandSucceeded else CommandFailed, timestamp).(
          executionId := r.executionId, subjectType := Some("command"), subjectId := Some(r.commandId),
          status := Some(if done then Succeeded else Failed),
          statusClass := Some(if done then TerminalSuccess else TerminalFailure), error := error,
          payload := NO_PAYLOAD.(result := Some(result)));
        match AppendEvent(db, e)
        case Failure(x) => Failure(x)
        case Success((d, stored)) =>
          if stored.sequence.None? then Failure(RejectedValue)
          else
            var after := r.(status := status, finishedAt := Some(timestamp),
                            lastEventSequence := stored.sequence.value, result := result, error := error);
            Success((d.(commands := d.commands[commandId := after]), after))
  }

  /** `commands()`: receipts ORDER BY first_event_sequence. */
  ghost function CommandListing(db: Db): seq<CommandRecord> {
    Listed(db.commands, OrderedBy(map id | id in db.commands :: db.commands[id].firstEventSequence))
  }

  // ---------------------------------------------------------------- projection and ledger

  function WriteProjection(db: Db, p: Projection, cursor: int): Tx<()> {
    if p.core.runtimeId != db.identity.runtimeId then Failure(IdentityMismatch)
    else if cursor > MaxSequence(db.log) then Failure(CursorAhead)
    else Success((db.(projection := Some((p, cursor))), ()))
  }

  function EventsAfterProjection(db: Db): seq<Event> {
    if db.projection.Some? then EventsAfter(db.log, db.projection.value.1) else db.log
  }

  /** The projection a refresh computes from what it reads. */
  ghost function RefreshedProjection(db: Db, policy: Policy): Reduced {
    if db.projection.None? then Reduce(db.log, policy)
    else
      var (p, cursor) := db.projection.value;
      match Apply(p, EventsAfter(db.log, cursor), policy)
      case Success(q) => Success(q)
      case Failure(error) => if error.PredatesIncrementalState? then Reduce(db.log, policy) else Failure(error)
  }

  /** `refresh_projection` with nothing between its reads and its write. */
  ghost function RefreshProjection(db: Db, policy: Policy): Tx<Projection> {
    if db.projection.Some? && EventsAfter(db.log, db.projection.value.1) == [] then
      Success((db, db.projection.value.0))
    else
      match RefreshedProjection(db, policy)
      case Failure(error) => Failure(RefreshFailed(error))
      case Success(p) =>
        match WriteProjection(db, p, MaxSequence(db.log))
        case Failure(error) => Failure(error)
        case Success((after, _)) => Success((after, p))
  }

  ghost function AttemptIdsOf(attempts: map<string, Attempt>, process: string): seq<string> {
    OrderedBy(map id | id in attempts && attempts[id].processId == process :: attempts[id].ordinal)
  }

  function ProjectionCursor(db: Db): int {
    if db.projection.Some? then db.projection.value.1 else -1
  }

  function AttemptedProcesses(db: Db): set<string> {
    set id | id in db.attempts :: db.attempts[id].processId
  }

  /** `ledger()`: the materialised tables in their query order. */
  ghost function LedgerOf(db: Db): Ledger {
    Ledger(db.identity, db.executions,
           OrderedBy(map id | id in db.executions :: db.executions[id].ordinal),
           db.attempts,
           map process | process in AttemptedProcesses(db) :: AttemptIdsOf(db.attempts, process),
           MaxSequence(db.log), ProjectionCursor(db))
  }

  /** The write of `rebuild_ledger(replace=True)`: both tables are deleted and filled anew. */
  function WithLedgerRows(db: Db, l: Ledger): Db {
    db.(executions := l.executions, attempts := l.attempts)
  }

  /** `rebuild_ledger(replace=True)` with nothing between its reads and its write. */
  ghost function RebuildLedger(db: Db): Tx<Ledger> {
    match ReduceLedger(db.identity, db.log, ProjectionCursor(db))
    case Failure(error) => Failure(RebuildFailed(error))
    case Success(l) => Success((WithLedgerRows(db, l), l))
  }

  function Indexed(rs: seq<CommandRecord>): map<string, CommandRecord> {
    if rs == [] then map[] else Indexed(rs[..|rs| - 1])[rs[|rs| - 1].commandId := rs[|rs| - 1]]
  }

  /** The write of `rebuild_commands(replace=True)`. */
  function WithReceipts(db: Db, rs: seq<CommandRecord>): Db {
    db.(commands := Indexed(rs))
  }

  /** `rebuild_commands(replace=True)` with nothing between its read and its write. */
  ghost function RebuildCommands(db: Db): Tx<seq<CommandRecord>> {
    match ReduceCommands(db.identity, db.log)
    case Failure(error) => Failure(RebuildFailed(error))
    case Success(rs) => Success((WithReceipts(db, rs), rs))
  }
}
