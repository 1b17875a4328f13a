/** The store as it runs: an object whose methods read and update its tables step by step inside a
    transaction, each proved to leave what the transaction function says, or to roll back. */
module DurableStore {
  import opened RuntimeTypes
  import opened Sorting
  import opened RuntimeProjections
  import opened LedgerReplay
  import opened DurableTables
  import opened StoreInvariant
  import opened StoreProtocol
  import opened FrameworkReducer
  import opened StoreRuns
  import CheckpointProofs

  /** A committed transaction changed the database and returned its value; a failed one did neither. */
  ghost predicate Outcome<T>(before: Db, tx: Tx<T>, after: Db, r: Result<T, StoreError>) {
    match tx
    case Success((committed, value)) => after == committed && r == Success(value)
    case Failure(error) => after == before && r == Failure(error)
  }

  class RuntimeDurableStore {
    const identity: Identity
    var log: seq<Event>
    var specs: map<string, ProcessSpec>
    var executions: map<string, ExecutionRecord>
    var attempts: map<string, Attempt>
    var sessions: map<string, Session>
    var commands: map<string, CommandRecord>
    var projection: Option<(Projection, int)>

    function View(): Db
      reads this
    {
      Db(identity, log, specs, executions, attempts, sessions, commands, projection)
    }

    constructor Create(identity: Identity)
      ensures View() == EmptyDb(identity)
    {
      this.identity := identity;
      log, specs, executions, attempts, sessions, commands, projection :=
        [], map[], map[], map[], map[], map[], None;
    }

    method Rollback(saved: Db)
      requires saved.identity == identity
      modifies this
      ensures View() == saved
    {
      log, specs, executions, attempts := saved.log, saved.specs, saved.executions, saved.attempts;
      sessions, commands, projection := saved.sessions, saved.commands, saved.projection;
    }

    /** Update one attempt row; false leaves the failure to the enclosing transaction. */
    method ApplyAttemptEventTx(e: Event) returns (error: Option<StoreError>)
      modifies this`attempts
      ensures WriteAttempt(old(attempts), e) == if error.Some? then Failure(error.value) else Success(attempts)
    {
      if e.attemptId.None? || e.processId.None? || !e.eventType.IsAttempt() {
        return None;
      }
      var id := e.attemptId.value;
      var attempt;
      if id in attempts {
        attempt := attempts[id];
      } else {
        var ordinal := if e.payload.ordinal.Some? && e.payload.ordinal.value != 0 then e.payload.ordinal.value else 1;
        if RowMalformed(e.payload) || ordinal < 1 {
          return Some(RejectedValue);
        }
        if RowTaken(attempts, e.processId.value, ordinal) {
          return Some(IntegrityError);
        }
        attempt := Attempt(id, e.processId.value, e.runtimeId, e.executionId, ordinal, AttemptOperation(e.payload),
                           e.payload.executionKey, e.payload.inputFingerprint, e.payload.implementationVersion,
                           Pending, NotStarted, None, None, e.payload.resumedFromAttemptId, e.checkpointId,
                           e.payload.backendSessionId, e.sequence, None, None);
      }
      attempt := attempt.(lastEventSequence := e.sequence);
      if e.status.Some? { attempt := attempt.(status := e.status.value); }
      if e.statusClass.Some? { attempt := attempt.(statusClass := e.statusClass.value); }
      if e.error.Some? { attempt := attempt.(error := e.error); }
      if e.eventType.AttemptStarted? { attempt := attempt.(startedAt := Some(e.timestamp)); }
      if e.eventType.IsTerminalAttempt() { attempt := attempt.(finishedAt := Some(e.timestamp)); }
      attempts := attempts[id := attempt];
      error := None;
    }

    /** Allocate a sequence, insert, and update the rows the event mentions. */
    method AppendEventTx(e: Event) returns (r: Result<Event, StoreError>)
      modifies this`log, this`attempts, this`executions
      ensures match AppendEvent(old(View()), e)
        case Success((after, stored)) => View() == after && r == Success(stored)
        case Failure(error) => r == Failure(error)
    {
      if e.runtimeId != identity.runtimeId {
        return Failure(IdentityMismatch);
      }
      var sequence := MaxSequence(log) + 1;
      var stored := e.(eventId := IntId(sequence), sequence := Some(sequence));
      log := log + [stored];
      var error := ApplyAttemptEventTx(stored);
      if error.Some? {
        return Failure(error.value);
      }
      if stored.executionId.Some? && stored.executionId.value in executions {
        var id := stored.executionId.value;
        executions := executions[id := executions[id].(lastEventSequence := stored.sequence)];
      }
      r := Success(stored);
    }

    method AppendRaw(e: Event) returns (r: Result<Event, StoreError>)
      modifies this
      ensures Outcome(old(View()), AppendEvent(old(View()), e), View(), r)
    {
      var saved := View();
      r := AppendEventTx(e);
      if r.Failure? {
        Rollback(saved);
      }
    }

    // ------------------------------------------------------------ sessions

    method LoadActiveSessionTx() returns (active: Option<Session>)
      requires SessionsRight(sessions, identity.runtimeId)
      ensures active == LoadActive(sessions)
    {
      if exists id | id in sessions :: sessions[id].status.ActiveSession? {
        var id :| id in sessions && sessions[id].status.ActiveSession?;
        assert IsActive(sessions, id);
        active := Some(sessions[id]);
      } else {
        active := None;
      }
    }

    method WriteSessionTx(s: Session, t: EventType, now: Time) returns (r: Result<Session, StoreError>)
      modifies this`sessions, this`log, this`attempts, this`executions
      ensures match WriteSession(old(View()), s, t, now)
        case Success((after, value)) => View() == after && r == Success(value)
        case Failure(error) => r == Failure(error)
    {
      sessions := sessions[s.sessionId := s];
      var stored := AppendEventTx(SessionEvent(s, t, now));
      r := if stored.Success? then Success(s) else Failure(stored.error);
    }

    method AcquireBackendSession(sessionId: string, ownerId: string, now: Time, ttl: Time, metadata: Json)
      returns (r: Result<Session, StoreError>)
      requires Good(View())
      modifies this
      ensures Outcome(old(View()), AcquireSession(old(View()), sessionId, ownerId, now, ttl, metadata), View(), r)
    {
      hide Synced, Linked, Settled, Mirrors, WriteSession, SessionEvent, AppendEvent, Blank;
      if ttl <= 0.0 {
        return Failure(InvalidTtl);
      }
      var active := LoadActiveSessionTx();
      if active.Some? && active.value.expiresAt > now {
        return Failure(LeaseConflict);
      }
      var saved := View();
      if active.Some? {
        var displaced := active.value.(status := ExpiredSession, releasedAt := Some(now));
        var expired := WriteSessionTx(displaced, SessionExpired, now);
        if expired.Failure? {
          Rollback(saved);
          return Failure(expired.error);
        }
      }
      if sessionId in sessions {
        Rollback(saved);
        return Failure(DuplicateSession);
      }
      if Blank(sessionId) || Blank(ownerId) {
        Rollback(saved);
        return Failure(RejectedValue);
      }
      r := WriteSessionTx(Session(sessionId, identity.runtimeId, ownerId, ActiveSession, now, now, now + ttl, None,
                                  metadata), SessionAcquired, now);
      if r.Failure? {
        Rollback(saved);
      }
    }

    method RequireLiveSessionTx(sessionId: string, ownerId: string, now: Time) returns (r: Result<Session, StoreError>)
      requires SessionsRight(sessions, identity.runtimeId)
      ensures r == if HoldsLease(View(), sessionId, ownerId, now) then Success(LoadActive(sessions).value)
                   else Failure(LeaseLost)
    {
      var active := LoadActiveSessionTx();
      if active.None? || active.value.sessionId != sessionId || active.value.ownerId != ownerId
         || active.value.expiresAt <= now {
        return Failure(LeaseLost);
      }
      r := Success(active.value);
    }

    method RenewBackendSession(sessionId: string, ownerId: string, now: Time, ttl: Time)
      returns (r: Result<Session, StoreError>)
      requires Good(View())
      modifies this
      ensures Outcome(old(View()), RenewSession(old(View()), sessionId, ownerId, now, ttl), View(), r)
    {
      hide Synced, Linked, Settled, Mirrors;
      if ttl <= 0.0 {
        return Failure(InvalidTtl);
      }
      var live := RequireLiveSessionTx(sessionId, ownerId, now);
      if live.Failure? {
        return Failure(live.error);
      }
      var saved := View();
      r := WriteSessionTx(live.value.(heartbeatAt := now, expiresAt := now + ttl), SessionRenewed, now);
      if r.Failure? {
        Rollback(saved);
      }
    }

    method ReleaseBackendSession(sessionId: string, ownerId: string, now: Time)
      returns (r: Result<Session, StoreError>)
      requires Good(View())
      modifies this
      ensures Outcome(old(View()), ReleaseSession(old(View()), sessionId, ownerId, now), View(), r)
    {
      hide Synced, Linked, Settled, Mirrors;
      var live := RequireLiveSessionTx(sessionId, ownerId, now);
      if live.Failure? {
        return Failure(live.error);
      }
      var saved := View();
      r := WriteSessionTx(live.value.(status := ReleasedSession, releasedAt := Some(now)), SessionReleased, now);
      if r.Failure? {
        Rollback(saved);
      }
    }

    // ------------------------------------------------------------ reconciliation

    /** Interrupt the listed attempts, one appended event each. */
    method InterruptAttemptsTx(rows: map<string, Attempt>, ids: seq<string>, sessionId: string, now: Time)
      returns (error: Option<StoreError>)
      modifies this`log, this`attempts, this`executions
      ensures InterruptAttempts(old(View()), rows, ids, sessionId, now) ==
        if error.Some? then Failure(error.value) else Success(View())
    {
      ghost var before := View();
      for i := 0 to |ids|
        invariant InterruptAttempts(before, rows, ids[..i], sessionId, now) == Success(View())
      {
        assert ids[..i + 1][..i] == ids[..i];
        if ids[i] in rows {
          var stored := AppendEventTx(AttemptInterruption(rows[ids[i]], sessionId, now));
          if stored.Failure? {
            AttemptsFail(before, rows, ids, i + 1, sessionId, now);
            return Some(stored.error);
          }
        }
      }
      assert ids[..|ids|] == ids;
      error := None;
    }

    method InterruptExecutionsTx(rows: map<string, ExecutionRecord>, ids: seq<string>, sessionId: string, now: Time)
      returns (error: Option<StoreError>)
      modifies this`log, this`attempts, this`executions
      ensures InterruptExecutions(old(View()), rows, ids, sessionId, now) ==
        if error.Some? then Failure(error.value) else Success(View())
    {
      ghost var before := View();
      for i := 0 to |ids|
        invariant InterruptExecutions(before, rows, ids[..i], sessionId, now) == Success(View())
      {
        assert ids[..i + 1][..i] == ids[..i];
        if ids[i] in rows {
          var row := rows[ids[i]];
          var stored := AppendEventTx(ExecutionInterruption(row, sessionId, now));
          if stored.Failure? {
            ExecutionsFail(before, rows, ids, i + 1, sessionId, now);
            return Some(stored.error);
          }
          executions := executions[row.executionId := row.(
            status := Interrupted, finishedAt := Some(now), lastEventSequence := stored.value.sequence,
            error := Some(LostError(sessionId)))];
        }
      }
      assert ids[..|ids|] == ids;
      error := None;
    }

    method ReconcileInterruptedWork(sessionId: string, ownerId: string, now: Time)
      returns (r: Result<(seq<string>, seq<string>), StoreError>)
      requires Good(View())
      modifies this
      ensures Outcome(old(View()), Reconcile(old(View()), sessionId, ownerId, now), View(), r)
    {
      hide Synced, Linked, Settled, Mirrors, RowsInOrder, ExecutionsInOrder, StaleExecutions, StaleAttempts;
      var live := RequireLiveSessionTx(sessionId, ownerId, now);
      if live.Failure? {
        return Failure(live.error);
      }
      var saved := View();
      StaleAreRows(saved, sessionId);
      var staleAttempts := SelectAttempts(saved, StaleAttempts(saved, sessionId));
      var staleExecutions := SelectExecutions(saved, StaleExecutions(saved, sessionId));
      var error := InterruptAttemptsTx(saved.attempts, staleAttempts, sessionId, now);
      if error.None? {
        error := InterruptExecutionsTx(saved.executions, staleExecutions, sessionId, now);
      }
      if error.Some? {
        Rollback(saved);
        return Failure(error.value);
      }
      r := Success((staleExecutions, staleAttempts));
    }

    // ------------------------------------------------------------ executions

    method BeginExecutionWave(
      executionId: string, kind: ExecutionKind, createdAt: Time, backendSessionId: Option<string>,
      recoveryPlanId: Option<string>, metadata: Json) returns (r: Result<ExecutionRecord, StoreError>)
      modifies this
      ensures Outcome(old(View()), BeginExecution(old(View()), executionId, kind, createdAt, backendSessionId,
                                                  recoveryPlanId, metadata), View(), r)
    {
      hide AppendEvent, Blank;
      if executionId in executions {
        return Failure(DuplicateExecution);
      }
      var ordinal := |executions| + 1;
      if (ordinal == 1 && !kind.Initial?) || (ordinal > 1 && !kind.Continue?) {
        return Failure(WrongKind);
      }
      if Blank(executionId) {
        return Failure(RejectedValue);
      }
      var saved := View();
      var stored := AppendEventTx(Draft(identity.runtimeId, ExecutionCreated, createdAt).(
        executionId := Some(executionId), status := Some(Pending), statusClass := Some(NotStarted),
        payload := NO_PAYLOAD.(kind := kind, ordinal := Some(ordinal), backendSessionId := backendSessionId,
                               recoveryPlanId := recoveryPlanId),
        metadata := metadata));
      if stored.Failure? {
        Rollback(saved);
        return Failure(stored.error);
      }
      var record := ExecutionRecord(executionId, identity.runtimeId, kind, ordinal, Pending, backendSessionId,
                                    recoveryPlanId, createdAt, None, None, None, None, None, metadata);
      record := record.(firstEventSequence := stored.value.sequence, lastEventSequence := stored.value.sequence);
      executions := executions[executionId := record];
      r := Success(record);
    }

    method TransitionExecutionTo(executionId: string, status: Status, timestamp: Time, error: Option<ErrorInfo>)
      returns (r: Result<ExecutionRecord, StoreError>)
      modifies this
      ensures Outcome(old(View()), TransitionExecution(old(View()), executionId, status, timestamp, error), View(), r)
    {
      if executionId !in executions {
        return Failure(UnknownExecution);
      }
      var record := executions[executionId];
      if !AllowedTransition(record.status, status) {
        return Failure(InvalidTransition);
      }
      var saved := View();
      var stored := AppendEventTx(Draft(record.runtimeId, ExecutionEventType(status), timestamp).(
        executionId := Some(executionId), status := Some(status),
        statusClass := Some(ExecutionEventClass(status)), error := error));
      if stored.Failure? {
        Rollback(saved);
        return Failure(stored.error);
      }
      record := record.(status := status, lastEventSequence := stored.value.sequence, error := error);
      if status.Running? {
        record := record.(startedAt := Some(timestamp));
      } else {
        record := record.(finishedAt := Some(timestamp));
      }
      executions := executions[executionId := record];
      r := Success(record);
    }

    // ------------------------------------------------------------ processes and attempts

    method DeclareProcessOnce(spec: ProcessSpec, timestamp: Time) returns (r: Result<bool, StoreError>)
      modifies this
      ensures Outcome(old(View()), DeclareProcess(old(View()), spec, timestamp), View(), r)
    {
      var id := spec.ResolvedId();
      if id in specs {
        if specs[id] != spec {
          return Failure(SpecChanged);
        }
        return Success(false);
      }
      var saved := View();
      specs := specs[id := spec];
      var stored := AppendEventTx(Draft(identity.runtimeId, ProcessCreated, timestamp).(
        processId := Some(id), parentProcessId := spec.parentProcessId, status := Some(Pending),
        statusClass := Some(NotStarted), payload := NO_PAYLOAD.(processType := Some(spec.processType)),
        metadata := spec.metadata));
      if stored.Failure? {
        Rollback(saved);
        return Failure(stored.error);
      }
      r := Success(true);
    }

    method UpsertSpecs(entries: seq<ProcessSpec>)
      modifies this`specs
      ensures View() == WriteSpecs(old(View()), entries)
    {
      for i := 0 to |entries|
        invariant View() == WriteSpecs(old(View()), entries[..i])
      {
        assert entries[..i + 1][..i] == entries[..i];
        specs := specs[entries[i].ResolvedId() := entries[i]];
      }
      assert entries[..|entries|] == entries;
    }

    /** `COALESCE(MAX(ordinal), 0)` by a scan of the rows. */
    method QueryMaxOrdinal(process: string) returns (m: int)
      requires forall id | id in attempts :: attempts[id].ordinal >= 1
      ensures m == MaxOrdinal(attempts, process)
    {
      m := 0;
      var left := attempts.Keys;
      while left != {}
        invariant left <= attempts.Keys && m >= 0
        invariant forall id | id in attempts && id !in left && attempts[id].processId == process ::
          attempts[id].ordinal <= m
        invariant m == 0 ==> forall id | id in attempts && id !in left :: attempts[id].processId != process
        invariant m > 0 ==>
          exists id :: id in attempts && attempts[id].processId == process && attempts[id].ordinal == m
        decreases |left|
      {
        var id :| id in left;
        left := left - {id};
        if attempts[id].processId == process && attempts[id].ordinal > m {
          m := attempts[id].ordinal;
        }
      }
      assert IsMaxOrdinal(attempts, process, m);
      MaxOrdinalIs(attempts, process, m);
    }

    method BeginProcessAttempt(
      process: string, executionId: string, timestamp: Time, operation: Operation, backendSessionId: Option<string>,
      resumedFrom: Option<string>, checkpointId: Option<string>, metadata: Json)
      returns (r: Result<Attempt, StoreError>)
      requires forall id | id in attempts :: attempts[id].ordinal >= 1
      modifies this
      ensures Outcome(old(View()), BeginAttempt(old(View()), process, executionId, timestamp, operation,
                                                backendSessionId, resumedFrom, checkpointId, metadata), View(), r)
    {
      hide OpenAttempt, MaxOrdinal;
      if process !in specs {
        return Failure(UnknownProcess);
      }
      if executionId !in executions {
        return Failure(UnknownExecution);
      }
      var execution := executions[executionId];
      if !Unfinished(execution.status) {
        return Failure(AttemptState);
      }
      if execution.backendSessionId.Some? && execution.backendSessionId != backendSessionId {
        return Failure(AttemptState);
      }
      r := OpenNextAttempt(process, executionId, timestamp, operation, backendSessionId, resumedFrom, checkpointId,
                           metadata);
    }

    /** The attempt after the highest ordinal so far, or nothing at all. */
    method OpenNextAttempt(
      process: string, executionId: string, timestamp: Time, operation: Operation, backendSessionId: Option<string>,
      resumedFrom: Option<string>, checkpointId: Option<string>, metadata: Json)
      returns (r: Result<Attempt, StoreError>)
      requires process in specs && forall id | id in attempts :: attempts[id].ordinal >= 1
      modifies this
      ensures Outcome(old(View()), OpenAttempt(old(View()), process, executionId,
                                               MaxOrdinal(old(attempts), process) + 1, timestamp, operation,
                                               backendSessionId, resumedFrom, checkpointId, metadata), View(), r)
    {
      hide OpenAttempt, MaxOrdinal;
      var saved := View();
      var highest := QueryMaxOrdinal(process);
      r := OpenAttemptTx(process, executionId, highest + 1, timestamp, operation, backendSessionId, resumedFrom,
                         checkpointId, metadata);
      if r.Failure? {
        Rollback(saved);
      }
    }

    method OpenAttemptTx(
      process: string, executionId: string, ordinal: int, timestamp: Time, operation: Operation,
      backendSessionId: Option<string>, resumedFrom: Option<string>, checkpointId: Option<string>, metadata: Json)
      returns (r: Result<Attempt, StoreError>)
      requires process in specs
      modifies this`log, this`attempts, this`executions
      ensures match OpenAttempt(old(View()), process, executionId, ordinal, timestamp, operation, backendSessionId,
                                resumedFrom, checkpointId, metadata)
        case Success((after, attempt)) => View() == after && r == Success(attempt)
        case Failure(error) => r == Failure(error)
    {
      hide AppendEvent, AttemptId;
      var created := AppendEventTx(AttemptEvent(View(), AttemptCreated, specs[process], process, executionId, ordinal,
                                                timestamp, operation, backendSessionId, resumedFrom, checkpointId,
                                                metadata));
      if created.Failure? {
        return Failure(created.error);
      }
      var started := AppendEventTx(AttemptEvent(View(), AttemptStarted, specs[process], process, executionId, ordinal,
                                                timestamp, operation, backendSessionId, resumedFrom, checkpointId,
                                                metadata));
      if started.Failure? {
        return Failure(started.error);
      }
      if AttemptId(process, ordinal) !in attempts {
        return Failure(AttemptState);
      }
      r := Success(attempts[AttemptId(process, ordinal)]);
    }

    method FinishProcessAttempt(
      attemptId: string, t: EventType, timestamp: Time, error: Option<ErrorInfo>, result: Option<Json>, metadata: Json)
      returns (r: Result<Attempt, StoreError>)
      modifies this
      ensures Outcome(old(View()), FinishAttempt(old(View()), attemptId, t, timestamp, error, result, metadata),
                      View(), r)
    {
      hide FinishingEvent, AppendEvent;
      if !t.IsTerminalAttempt() {
        return Failure(NotTerminalEvent);
      }
      if attemptId !in attempts {
        return Failure(UnknownAttempt);
      }
      var a := attempts[attemptId];
      if !OpenClass(a.statusClass) {
        return Failure(AttemptState);
      }
      var saved := View();
      var stored := AppendEventTx(FinishingEvent(saved, a, t, timestamp, error, result, metadata));
      if stored.Failure? || attemptId !in attempts {
        Rollback(saved);
        return Failure(if stored.Failure? then stored.error else UnknownAttempt);
      }
      r := Success(attempts[attemptId]);
    }

    // ------------------------------------------------------------ commands

    method ReserveCommandOnce(
      commandId: string, commandType: string, timestamp: Time, targetId: Option<string>, executionId: Option<string>,
      backendSessionId: Option<string>, request: Json, metadata: Json) returns (r: Result<Reservation, StoreError>)
      modifies this
      ensures Outcome(old(View()), ReserveCommand(old(View()), commandId, commandType, timestamp, targetId, executionId,
                                                  backendSessionId, request, metadata), View(), r)
    {
      hide AppendEvent, AcceptanceEvent, Blank;
      var digest := Fingerprint(commandType, targetId, executionId, request);
      if commandId in commands {
        if commands[commandId].fingerprint != digest {
          return Failure(CommandConflict);
        }
        return Success(Reservation(commands[commandId], false));
      }
      var saved := View();
      var stored := AppendEventTx(AcceptanceEvent(saved, commandId, commandType, timestamp, targetId, executionId,
                                                  backendSessionId, request, metadata));
      if stored.Failure? {
        Rollback(saved);
        return Failure(stored.error);
      }
      if Blank(commandId) || Blank(commandType) || stored.value.sequence.None? {
        Rollback(saved);
        return Failure(RejectedValue);
      }
      var n := stored.value.sequence.value;
      var record := CommandRecord(commandId, identity.runtimeId, commandType, digest, targetId, executionId,
                                  backendSessionId, Accepted, timestamp, None, n, n, request, Null, None, metadata);
      commands := commands[commandId := record];
      r := Success(Reservation(record, true));
    }

    method FinishCommandOnce(
      commandId: string, status: CommandStatus, timestamp: Time, result: Json, error: Option<ErrorInfo>)
      returns (r: Result<CommandRecord, StoreError>)
      modifies this
      ensures Outcome(old(View()), FinishCommand(old(View()), commandId, status, timestamp, result, error), View(), r)
    {
      if status.Accepted? {
        return Failure(NotTerminalStatus);
      }
      if commandId !in commands {
        return Failure(UnknownCommand);
      }
      var record := commands[commandId];
      if !record.status.Accepted? {
        if record.status == status && record.result == result && record.error == error {
          return Success(record);
        }
        return Failure(CommandConflict);
      }
      var done := status.CommandDone?;
      var saved := View();
      var stored := AppendEventTx(Draft(record.runtimeId, if done then CommandSucceeded else CommandFailed, timestamp).(
        executionId := record.executionId, subjectType := Some("command"), subjectId := Some(record.commandId),
        status := Some(if done then Succeeded else Failed),
        statusClass := Some(if done then TerminalSuccess else TerminalFailure), error := error,
        payload := NO_PAYLOAD.(result := Some(result))));
      if stored.Failure? {
        Rollback(saved);
        return Failure(stored.error);
      }
      if stored.value.sequence.None? {
        Rollback(saved);
        return Failure(RejectedValue);
      }
      record := record.(status := status, finishedAt := Some(timestamp),
                        lastEventSequence := stored.value.sequence.value, result := result, error := error);
      commands := commands[commandId := record];
      r := Success(record);
    }

    /** `ledger()`: the rows in query order, attempts grouped by process as they come. */
    method LedgerNow() returns (l: Ledger)
      requires Good(View())
      ensures l == LedgerOf(View())
    {
      hide Observed, Linked, Settled, CommandsSynced, OrderedBy, RowsInOrder;
      var order := SelectExecutions(View(), executions.Keys);
      assert (map id | id in executions.Keys && id in executions :: executions[id].ordinal)
        == (map id | id in executions :: executions[id].ordinal);
      var rows := SelectAttempts(View(), attempts.Keys);
      var lists := GroupRows(rows);
      GroupedIsOrdered(View());
      l := Ledger(identity, executions, order, attempts, lists, MaxSequence(log),
                  if projection.Some? then projection.value.1 else -1);
    }

    /** The attempt ids of each process, in the order of the rows. */
    method GroupRows(rows: seq<string>) returns (lists: map<string, seq<string>>)
      ensures lists == Grouped(attempts, rows)
    {
      lists := map[];
      for i := 0 to |rows|
        invariant lists == Grouped(attempts, rows[..i])
      {
        assert rows[..i + 1][..i] == rows[..i];
        if rows[i] in attempts {
          var process := attempts[rows[i]].processId;
          lists := lists[process := (if process in lists then lists[process] else []) + [rows[i]]];
        }
      }
      assert rows[..|rows|] == rows;
    }

    /** `commands()` */
    method Commands() returns (receipts: seq<CommandRecord>)
      requires Good(View())
      ensures receipts == CommandListing(View())
    {
      hide Observed, Linked, Settled, ExecutionsSynced, AttemptsSynced, OrderedBy;
      var keys := ListKeys(commands.Keys);
      var rank := map id | id in commands :: commands[id].firstEventSequence;
      ListedOnce(keys, commands.Keys);
      assert rank.Keys == commands.Keys;
      ReceiptRanks(View());
      var order := SelectOrdered(rank, keys);
      receipts := Listed(commands, order);
    }

    // ------------------------------------------------------------ projection and rebuilds

    /** `refresh_projection`, taken as one step. */
    method RefreshProjectionNow(reducer: RuntimeFrameworkReducer) returns (r: Result<Projection, StoreError>)
      requires projection.Some? ==> CheckpointProofs.Filed(projection.value.0.core.checkpoints)
      modifies this`projection
      ensures Outcome(old(View()), RefreshProjection(old(View()), reducer.policy), View(), r)
      ensures projection.Some? ==> CheckpointProofs.Filed(projection.value.0.core.checkpoints)
    {
      hide Reduce, Apply;
      var reduced;
      if projection.None? {
        reduced := reducer.Reduce(log);
      } else {
        var pending := EventsAfter(log, projection.value.1);
        if pending == [] {
          return Success(projection.value.0);
        }
        reduced := reducer.Apply(projection.value.0, pending);
        if reduced.Failure? && reduced.error.PredatesIncrementalState? {
          reduced := reducer.Reduce(log);
        }
      }
      if reduced.Failure? {
        return Failure(RefreshFailed(reduced.error));
      }
      if reduced.value.core.runtimeId != identity.runtimeId {
        return Failure(IdentityMismatch);
      }
      projection := Some((reduced.value, MaxSequence(log)));
      r := Success(reduced.value);
    }

    /** `rebuild_ledger(replace=True)` */
    method RebuildLedgerRows() returns (r: Result<Ledger, StoreError>)
      modifies this`executions, this`attempts
      ensures Outcome(old(View()), RebuildLedger(old(View())), View(), r)
    {
      hide ReduceLedger;
      var rebuilt := ReduceLedgerEvents(identity, log, if projection.Some? then projection.value.1 else -1);
      if rebuilt.Failure? {
        return Failure(RebuildFailed(rebuilt.error));
      }
      executions, attempts := rebuilt.value.executions, rebuilt.value.attempts;
      r := Success(rebuilt.value);
    }

    /** `rebuild_commands(replace=True)` */
    method RebuildCommandRows() returns (r: Result<seq<CommandRecord>, StoreError>)
      modifies this`commands
      ensures Outcome(old(View()), RebuildCommands(old(View())), View(), r)
    {
      hide ReduceCommands;
      var rebuilt := ReduceCommandEvents(identity, log);
      if rebuilt.Failure? {
        return Failure(RebuildFailed(rebuilt.error));
      }
      commands := map[];
      for i := 0 to |rebuilt.value|
        invariant View() == old(View()).(commands := Indexed(rebuilt.value[..i]))
      {
        assert rebuilt.value[..i + 1][..i] == rebuilt.value[..i];
        commands := commands[rebuilt.value[i].commandId := rebuilt.value[i]];
      }
      assert rebuilt.value[..|rebuilt.value|] == rebuilt.value;
      r := Success(rebuilt.value);
    }

    // ------------------------------------------------------------ any operation

    method PerformSessionOp(op: Op, ghost policy: Policy)
      requires Good(View()) && (op.Acquire? || op.Renew? || op.Release? || op.ReconcileWork?)
      modifies this
      ensures View() == Perform(old(View()), op, policy)
    {
      hide Good, AcquireSession, RenewSession, ReleaseSession, Reconcile;
      match op {
        case Acquire(s, o, now, ttl, metadata) => var r := AcquireBackendSession(s, o, now, ttl, metadata);
        case Renew(s, o, now, ttl) => var r := RenewBackendSession(s, o, now, ttl);
        case Release(s, o, now) => var r := ReleaseBackendSession(s, o, now);
        case ReconcileWork(s, o, now) => var r := ReconcileInterruptedWork(s, o, now);
      }
    }

    method PerformWorkOp(op: Op, ghost policy: Policy)
      requires op.Append? || op.Declare? || op.WriteProcessSpecs? || op.Begin? || op.Transition?
      modifies this
      ensures View() == Perform(old(View()), op, policy)
    {
      hide AppendEvent, DeclareProcess, WriteSpecs, BeginExecution, TransitionExecution;
      match op {
        case Append(e) => var r := AppendRaw(e);
        case Declare(spec, t) => var r := DeclareProcessOnce(spec, t);
        case WriteProcessSpecs(entries) => UpsertSpecs(entries);
        case Begin(x, kind, t, b, p, metadata) => var r := BeginExecutionWave(x, kind, t, b, p, metadata);
        case Transition(x, status, t, error) => var r := TransitionExecutionTo(x, status, t, error);
      }
    }

    method PerformAttemptOrCommandOp(op: Op, ghost policy: Policy)
      requires Good(View()) && (op.BeginProcess? || op.FinishProcess? || op.Reserve? || op.Finish?)
      modifies this
      ensures View() == Perform(old(View()), op, policy)
    {
      hide Good, BeginAttempt, FinishAttempt, ReserveCommand, FinishCommand;
      PositiveOrdinals(View());
      match op {
        case BeginProcess(p, x, t, o, b, f, c, metadata) => var r := BeginProcessAttempt(p, x, t, o, b, f, c, metadata);
        case FinishProcess(a, t, at, error, result, metadata) =>
          var r := FinishProcessAttempt(a, t, at, error, result, metadata);
        case Reserve(c, ct, t, target, x, b, request, metadata) =>
          var r := ReserveCommandOnce(c, ct, t, target, x, b, request, metadata);
        case Finish(c, status, t, result, error) => var r := FinishCommandOnce(c, status, t, result, error);
      }
    }

    method PerformDerivedOp(op: Op, reducer: RuntimeFrameworkReducer)
      requires ProjectionRight(View(), reducer.policy)
      requires op.Refresh? || op.RebuildTheLedger? || op.RebuildTheCommands?
      modifies this
      ensures View() == Perform(old(View()), op, reducer.policy)
    {
      hide ProjectionRight, RefreshProjection, RebuildLedger, RebuildCommands;
      FiledProjection(View(), reducer.policy);
      hide CheckpointProofs.Filed;
      match op {
        case Refresh => var r := RefreshProjectionNow(reducer);
        case RebuildTheLedger => var r := RebuildLedgerRows();
        case RebuildTheCommands => var r := RebuildCommandRows();
      }
    }

    /** Any operation of a run, on the object: it leaves what the run says. */
    method PerformOp(op: Op, reducer: RuntimeFrameworkReducer)
      requires Good(View()) && ProjectionRight(View(), reducer.policy)
      modifies this
      ensures View() == Perform(old(View()), op, reducer.policy)
    {
      hide Good, ProjectionRight, Perform;
      if op.Acquire? || op.Renew? || op.Release? || op.ReconcileWork? {
        PerformSessionOp(op, reducer.policy);
      } else if op.BeginProcess? || op.FinishProcess? || op.Reserve? || op.Finish? {
        PerformAttemptOrCommandOp(op, reducer.policy);
      } else if op.Refresh? || op.RebuildTheLedger? || op.RebuildTheCommands? {
        PerformDerivedOp(op, reducer);
      } else {
        PerformWorkOp(op, reducer.policy);
      }
    }
  }

  lemma PositiveOrdinals(db: Db)
    requires Good(db)
    ensures forall id | id in db.attempts :: db.attempts[id].ordinal >= 1
  {
    forall id | id in db.attempts ensures db.attempts[id].ordinal >= 1 {
      RowRight(db, id);
    }
  }

  lemma FiledProjection(db: Db, policy: Policy)
    requires ProjectionRight(db, policy)
    ensures db.projection.Some? ==> CheckpointProofs.Filed(db.projection.value.0.core.checkpoints)
  {
    hide Reduce;
    if db.projection.Some? {
      CheckpointProofs.ReducedFiled(db.log[..db.projection.value.1 + 1], policy);
    }
  }

  // ---------------------------------------------------------------- the ledger reducer as it runs

  /** `RuntimeExecutionLedgerReducer.reduce`: the execution loop, then the framework reducer. */
  method ReduceLedgerEvents(identity: Identity, events: seq<Event>, projectionSequence: int)
    returns (r: Result<Ledger, ReplayError>)
    ensures r == ReduceLedger(identity, events, projectionSequence)
  {
    if !AllSequenced(events) {
      return Failure(MissingSequence);
    }
    var ordered := Sort(SequenceLeq, events);
    var x := ReplayExecutionLoop(ordered, identity.runtimeId);
    if x.Failure? {
      return Failure(x.error);
    }
    var reducer := new RuntimeFrameworkReducer(Policy(true, true));
    var reduced := reducer.Reduce(ordered);
    if reduced.Failure? {
      return Failure(ReducerFailed(reduced.error));
    }
    var p := reduced.value;
    r := Success(Ledger(identity, x.value.byId, x.value.order, p.core.attempts.byId, p.core.attempts.idsByProcess,
                        LastSequence(ordered), projectionSequence));
  }

  // ---------------------------------------------------------------- lemmas the methods use

  // Grouping rows that come in (process, ordinal) order.

  function Grouped(attempts: map<string, Attempt>, rows: seq<string>): map<string, seq<string>> {
    if rows == [] then map[]
    else
      var g, id := Grouped(attempts, rows[..|rows| - 1]), rows[|rows| - 1];
      if id !in attempts then g
      else
        var p := attempts[id].processId;
        g[p := (if p in g then g[p] else []) + [id]]
  }

  ghost predicate Climbs(attempts: map<string, Attempt>, ids: seq<string>, p: string) {
    && (forall id <- ids :: id in attempts && attempts[id].processId == p)
    && (forall i, j | 0 <= i < j < |ids| :: attempts[ids[i]].ordinal < attempts[ids[j]].ordinal)
  }

  ghost predicate UniqueRows(attempts: map<string, Attempt>) {
    forall a, b | a in attempts && b in attempts && attempts[a].processId == attempts[b].processId
                  && attempts[a].ordinal == attempts[b].ordinal :: a == b
  }

  lemma {:induction false} GroupsClimb(attempts: map<string, Attempt>, rows: seq<string>, p: string)
    requires UniqueRows(attempts) && Distinct(rows) && (forall id <- rows :: id in attempts)
    requires Sorted((a: string, b: string) => RowLeq(attempts, a, b), rows)
    ensures p in Grouped(attempts, rows) <==> exists id :: id in rows && attempts[id].processId == p
    ensures p in Grouped(attempts, rows) ==>
      && Climbs(attempts, Grouped(attempts, rows)[p], p)
      && forall id :: id in Grouped(attempts, rows)[p] <==> id in rows && attempts[id].processId == p
  {
    if rows != [] {
      var init, last := rows[..|rows| - 1], rows[|rows| - 1];
      assert rows == init + [last];
      GroupsClimb(attempts, init, p);
      RowsBefore(attempts, rows);
      hide Sorted, UniqueRows, Distinct, RowLeq;
    }
  }

  /** In sorted rows of one process the last has the largest ordinal. */
  lemma RowsBefore(attempts: map<string, Attempt>, rows: seq<string>)
    requires UniqueRows(attempts) && Distinct(rows) && rows != [] && (forall id <- rows :: id in attempts)
    requires Sorted((a: string, b: string) => RowLeq(attempts, a, b), rows)
    ensures var last := rows[|rows| - 1];
      forall id | id in rows[..|rows| - 1] && attempts[id].processId == attempts[last].processId ::
        attempts[id].ordinal < attempts[last].ordinal
  {
    var init, last := rows[..|rows| - 1], rows[|rows| - 1];
    forall id | id in init && attempts[id].processId == attempts[last].processId
      ensures attempts[id].ordinal < attempts[last].ordinal
    {
      var i :| 0 <= i < |init| && init[i] == id;
      assert RowLeq(attempts, rows[i], rows[|rows| - 1]);
      assert rows[i] != rows[|rows| - 1];
    }
  }

  lemma GroupedIsOrdered(db: Db)
    requires Synced(db)
    ensures Grouped(db.attempts, RowsInOrder(db.attempts, db.attempts.Keys)) ==
      map p | p in AttemptedProcesses(db) :: AttemptIdsOf(db.attempts, p)
  {
    hide Synced, RowsInOrder, Sorted, UniqueRows, Distinct, AttemptIdsOf, Grouped, RowLeq;
    RowsListed(db);
    RowsUnique(db);
    GroupsAreLists(db.attempts, RowsInOrder(db.attempts, db.attempts.Keys));
  }

  lemma RowsListed(db: Db)
    requires Synced(db)
    ensures var rows := RowsInOrder(db.attempts, db.attempts.Keys);
      && Distinct(rows) && (forall id :: id in rows <==> id in db.attempts)
      && Sorted((a: string, b: string) => RowLeq(db.attempts, a, b), rows)
  {
    var rows, keys := RowsInOrder(db.attempts, db.attempts.Keys), Listing(db.attempts.Keys);
    ListedOnce(rows, db.attempts.Keys);
    ListedOnce(keys, db.attempts.Keys);
    RowOrder(db, db.attempts.Keys, keys);
    hide Synced;
    SortSorted((a: string, b: string) => RowLeq(db.attempts, a, b), keys);
  }

  lemma GroupsAreLists(attempts: map<string, Attempt>, rows: seq<string>)
    requires UniqueRows(attempts) && Distinct(rows) && (forall id :: id in rows <==> id in attempts)
    requires Sorted((a: string, b: string) => RowLeq(attempts, a, b), rows)
    ensures forall p :: p in Grouped(attempts, rows) <==> exists id :: id in attempts && attempts[id].processId == p
    ensures forall p | p in Grouped(attempts, rows) :: Grouped(attempts, rows)[p] == AttemptIdsOf(attempts, p)
  {
    var g := Grouped(attempts, rows);
    hide Sorted, UniqueRows, Distinct, OrderedBy, Grouped, RowLeq;
    forall p
      ensures p in g <==> exists id :: id in attempts && attempts[id].processId == p
      ensures p in g ==> g[p] == AttemptIdsOf(attempts, p)
    {
      GroupsClimb(attempts, rows, p);
      if p in g {
        OrderedByIs(map id | id in attempts && attempts[id].processId == p :: attempts[id].ordinal, g[p]);
      }
    }
  }

  lemma RowsUnique(db: Db)
    requires Synced(db)
    ensures UniqueRows(db.attempts)
  {
    hide Synced;
    forall a, b | a in db.attempts && b in db.attempts && db.attempts[a].processId == db.attempts[b].processId
                  && db.attempts[a].ordinal == db.attempts[b].ordinal ensures a == b {
      RowNamed(db, a);
      RowNamed(db, b);
    }
  }

  lemma ReceiptRanks(db: Db)
    requires Synced(db)
    ensures forall a, b | a in db.commands && b in db.commands
      && db.commands[a].firstEventSequence == db.commands[b].firstEventSequence :: a == b
  {
    var x := ReplayCommands(db.log, db.identity.runtimeId).value;
    forall a, b | a in db.commands && b in db.commands
      && db.commands[a].firstEventSequence == db.commands[b].firstEventSequence
      ensures a == b
    {
      var i :| 0 <= i < |x.order| && x.order[i] == a;
      var j :| 0 <= j < |x.order| && x.order[j] == b;
      assert i < j || j < i || i == j;
    }
  }

  lemma StaleAreRows(db: Db, sessionId: string)
    ensures StaleAttempts(db, sessionId) <= db.attempts.Keys
    ensures StaleExecutions(db, sessionId) <= db.executions.Keys
  {
  }

  lemma MaxOrdinalIs(attempts: map<string, Attempt>, process: string, m: int)
    requires IsMaxOrdinal(attempts, process, m) && m >= 0
    requires forall id | id in attempts :: attempts[id].ordinal >= 1
    ensures MaxOrdinal(attempts, process) == m
  {
    var k := MaxOrdinal(attempts, process);
    assert IsMaxOrdinal(attempts, process, k);
  }

  lemma {:induction false} AttemptsFail(
    db: Db, rows: map<string, Attempt>, ids: seq<string>, k: nat, sessionId: string, now: Time)
    requires k <= |ids| && InterruptAttempts(db, rows, ids[..k], sessionId, now).Failure?
    ensures InterruptAttempts(db, rows, ids, sessionId, now) == InterruptAttempts(db, rows, ids[..k], sessionId, now)
    decreases |ids|
  {
    if k < |ids| {
      assert ids[..|ids| - 1][..k] == ids[..k];
      AttemptsFail(db, rows, ids[..|ids| - 1], k, sessionId, now);
    } else {
      assert ids[..k] == ids;
    }
  }

  lemma {:induction false} ExecutionsFail(
    db: Db, rows: map<string, ExecutionRecord>, ids: seq<string>, k: nat, sessionId: string, now: Time)
    requires k <= |ids| && InterruptExecutions(db, rows, ids[..k], sessionId, now).Failure?
    ensures InterruptExecutions(db, rows, ids, sessionId, now) ==
      InterruptExecutions(db, rows, ids[..k], sessionId, now)
    decreases |ids|
  {
    if k < |ids| {
      assert ids[..|ids| - 1][..k] == ids[..k];
      ExecutionsFail(db, rows, ids[..|ids| - 1], k, sessionId, now);
    } else {
      assert ids[..k] == ids;
    }
  }

  lemma RowOrder(db: Db, ids: set<string>, s: seq<string>)
    requires Synced(db) && ids <= db.attempts.Keys && forall id <- s :: id in ids
    ensures var leq := (a: string, b: string) => RowLeq(db.attempts, a, b);
      Preorder(leq, s) && Separates(leq, s)
  {
    var rows := db.attempts;
    hide Synced, AttemptId, TextLeq;
    var leq := (a: string, b: string) => RowLeq(rows, a, b);
    forall a, b, c | a in s && b in s && c in s
      ensures leq(a, b) || leq(b, a)
      ensures leq(a, b) && leq(b, c) ==> leq(a, c)
      ensures leq(a, b) && leq(b, a) ==> a == b
    {
      ProcessOrder(rows[a].processId, rows[b].processId, rows[c].processId);
      RowNamed(db, a);
      RowNamed(db, b);
    }
  }

  lemma RowNamed(db: Db, id: string)
    requires Synced(db) && id in db.attempts
    ensures db.attempts[id].ordinal >= 1 && id == AttemptId(db.attempts[id].processId, db.attempts[id].ordinal)
  {
    RowRight(db, id);
    hide Synced;
  }

  lemma RowRight(db: Db, id: string)
    requires Synced(db) && id in db.attempts
    ensures id in ReplayAttempts(db.log).value.byId
    ensures AttemptRowRight(ReplayAttempts(db.log).value, db.identity.runtimeId, id)
    ensures ReplayAttempts(db.log).value.byId == db.attempts
  {
  }

  lemma ProcessOrder(a: string, b: string, c: string)
    ensures TextLeq(a, b) || TextLeq(b, a)
    ensures TextLeq(a, b) && TextLeq(b, a) ==> a == b
    ensures TextLeq(a, b) && TextLeq(b, c) ==> TextLeq(a, c)
  {
    TextLeqTotal(a, b);
    if TextLeq(a, b) && TextLeq(b, a) { TextLeqAntisymmetric(a, b); }
    if TextLeq(a, b) && TextLeq(b, c) { TextLeqTransitive(a, b, c); }
  }

  /** `ORDER BY process_id, ordinal` */
  method SelectAttempts(db: Db, ids: set<string>) returns (rows: seq<string>)
    requires Synced(db) && ids <= db.attempts.Keys
    ensures rows == RowsInOrder(db.attempts, ids)
  {
    var keys := ListKeys(ids);
    var leq := (a: string, b: string) => RowLeq(db.attempts, a, b);
    ListedOnce(keys, ids);
    RowOrder(db, ids, keys);
    rows := Sort(leq, keys);
    SortPermutation(leq, keys, Listing(ids));
  }

  lemma OrdinalsDiffer(db: Db)
    requires Synced(db)
    ensures forall a, b | a in db.executions && b in db.executions
      && db.executions[a].ordinal == db.executions[b].ordinal :: a == b
  {
    hide AttemptsSynced, CommandsSynced, Dense;
  }

  method SelectExecutions(db: Db, ids: set<string>) returns (rows: seq<string>)
    requires Synced(db) && ids <= db.executions.Keys
    ensures rows == ExecutionsInOrder(db.executions, ids)
  {
    OrdinalsDiffer(db);
    hide Synced, OrderedBy;
    var keys := ListKeys(ids);
    var rank := map id | id in ids && id in db.executions :: db.executions[id].ordinal;
    assert rank.Keys == ids;
    ListedOnce(keys, ids);
    rows := SelectOrdered(rank, keys);
  }

  /** `ORDER BY` a numeric column that has no duplicates. */
  method SelectOrdered(rank: map<string, int>, keys: seq<string>) returns (rows: seq<string>)
    requires multiset(keys) == multiset(rank.Keys) && (forall key :: key in keys <==> key in rank)
    requires forall a, b | a in rank && b in rank && rank[a] == rank[b] :: a == b
    ensures rows == OrderedBy(rank)
  {
    var leq := (a: string, b: string) => Rank(rank, a) <= Rank(rank, b);
    rows := Sort(leq, keys);
    SortPermutation(leq, keys, Listing(rank.Keys));
  }
}
