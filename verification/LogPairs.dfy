/** Pairs of events that one transaction appends together: the log of a run never separates them. */
module LogPairs {
  import opened RuntimeTypes
  import opened RuntimeProjections
  import opened LedgerReplay
  import opened DurableTables
  import opened StoreProtocol
  import opened StoreSteps
  import opened StoreRuns

  /** The created event of an attempt and the event that starts it. */
  predicate Starts(created: Event, started: Event) {
    && started.eventType.AttemptStarted? && started.attemptId == created.attemptId
    && started.processId == created.processId && started.executionId == created.executionId
    && started.timestamp == created.timestamp
  }

  /** The displacement of a session and the acquisition that displaced it. */
  predicate Replaces(expired: Event, acquired: Event) {
    && acquired.eventType.SessionAcquired? && acquired.timestamp == expired.timestamp
    && expired.subjectId.Some? && acquired.subjectId.Some? && acquired.subjectId != expired.subjectId
  }

  predicate OpensPair(e: Event) {
    e.eventType.AttemptCreated? || e.eventType.SessionExpired?
  }

  predicate Pair(e: Event, f: Event) {
    (e.eventType.AttemptCreated? ==> Starts(e, f)) && (e.eventType.SessionExpired? ==> Replaces(e, f))
  }

  /** Every event that opens a pair is followed at once by the one that closes it. */
  ghost predicate Paired(log: seq<Event>) {
    forall i | 0 <= i < |log| && OpensPair(log[i]) :: i + 1 < |log| && Pair(log[i], log[i + 1])
  }

  /** What a transaction appended is paired in itself. */
  ghost predicate AppendsPaired(db: Db, after: Db) {
    exists tail :: after.log == db.log + tail && Paired(tail)
  }

  lemma PairedConcat(log: seq<Event>, tail: seq<Event>)
    requires Paired(log) && Paired(tail)
    ensures Paired(log + tail)
  {
    var whole := log + tail;
    forall i | 0 <= i < |whole| && OpensPair(whole[i]) ensures i + 1 < |whole| && Pair(whole[i], whole[i + 1]) {
      if i < |log| {
        assert whole[i] == log[i] && whole[i + 1] == log[i + 1];
      } else {
        assert whole[i] == tail[i - |log|] && whole[i + 1] == tail[i - |log| + 1];
      }
    }
  }

  lemma NoneAppended(db: Db, after: Db)
    requires after.log == db.log
    ensures AppendsPaired(db, after)
  {
    assert after.log == db.log + [];
    assert Paired([]);
  }

  lemma OneAppended(db: Db, after: Db, e: Event)
    requires after.log == db.log + [e] && !OpensPair(e)
    ensures AppendsPaired(db, after)
  {
    assert Paired([e]);
  }

  lemma TwoAppended(db: Db, after: Db, e: Event, f: Event)
    requires after.log == db.log + [e] + [f] && Pair(e, f) && !OpensPair(f)
    ensures AppendsPaired(db, after)
  {
    assert after.log == db.log + [e, f];
    assert Paired([e, f]);
  }

  /** What a committed append leaves in the log. */
  lemma AppendedOne(db: Db, e: Event)
    requires AppendEvent(db, e).Success?
    ensures var (after, stored) := AppendEvent(db, e).value;
      stored == StoredEvent(db, e) && after.log == db.log + [stored]
  {
    hide WriteAttempt, TouchExecution;
  }

  lemma WrittenOne(db: Db, s: Session, t: EventType, now: Time)
    requires WriteSession(db, s, t, now).Success?
    ensures var after := WriteSession(db, s, t, now).value.0;
      after.log == db.log + [StoredEvent(db, SessionEvent(s, t, now))]
  {
    AppendedOne(db.(sessions := db.sessions[s.sessionId := s]), SessionEvent(s, t, now));
    hide AppendEvent;
  }

  // ---------------------------------------------------------------- sessions

  function Displaced(s: Session, now: Time): Session {
    s.(status := ExpiredSession, releasedAt := Some(now))
  }

  lemma DisplacedOne(db: Db, active: Session, now: Time)
    requires DisplaceSession(db, Some(active), now).Success?
    ensures DisplaceSession(db, Some(active), now).value.log ==
      db.log + [StoredEvent(db, SessionEvent(Displaced(active, now), SessionExpired, now))]
  {
    hide WriteSession;
    WrittenOne(db, Displaced(active, now), SessionExpired, now);
  }

  lemma AcquirePaired(db: Db, sessionId: string, ownerId: string, now: Time, ttl: Time, metadata: Json)
    requires Good(db) && AcquireSession(db, sessionId, ownerId, now, ttl, metadata).Success?
    ensures AppendsPaired(db, AcquireSession(db, sessionId, ownerId, now, ttl, metadata).value.0)
  {
    hide Good, WriteSession, DisplaceSession, AppendsPaired, Paired, LoadActive;
    var active := LoadActive(db.sessions);
    ActiveKnown(db);
    var d := DisplaceSession(db, active, now).value;
    var s := Session(sessionId, d.identity.runtimeId, ownerId, ActiveSession, now, now, now + ttl, None, metadata);
    var after := AcquireSession(db, sessionId, ownerId, now, ttl, metadata).value.0;
    DisplaceStep(db, now);
    hide Extends, AppendEvent, StoredEvent, SessionEvent;
    WrittenOne(d, s, SessionAcquired, now);
    if active.Some? {
      DisplacedOne(db, active.value, now);
      assert active.value.sessionId in d.sessions;
      ReplacedPair(db, d, after, active.value, s, now);
    } else {
      assert d == db by { NotDisplaced(db, now); }
      OneAppended(db, after, StoredEvent(d, SessionEvent(s, SessionAcquired, now)));
    }
  }

  lemma ActiveKnown(db: Db)
    requires Good(db)
    ensures LoadActive(db.sessions).Some? ==> LoadActive(db.sessions).value.sessionId in db.sessions
  {
    ActiveLoaded(db);
  }

  lemma ReplacedPair(db: Db, d: Db, after: Db, active: Session, s: Session, now: Time)
    requires d.log == db.log + [StoredEvent(db, SessionEvent(Displaced(active, now), SessionExpired, now))]
    requires after.log == d.log + [StoredEvent(d, SessionEvent(s, SessionAcquired, now))]
    requires s.sessionId != active.sessionId
    ensures AppendsPaired(db, after)
  {
    hide AppendsPaired, Paired, MaxSequence;
    TwoAppended(db, after, StoredEvent(db, SessionEvent(Displaced(active, now), SessionExpired, now)),
                StoredEvent(d, SessionEvent(s, SessionAcquired, now)));
  }

  lemma NotDisplaced(db: Db, now: Time)
    ensures DisplaceSession(db, None, now) == Success(db)
  {
  }

  lemma LeasePaired(db: Db, s: Session, t: EventType, now: Time)
    requires WriteSession(db, s, t, now).Success? && (t.SessionRenewed? || t.SessionReleased?)
    ensures AppendsPaired(db, WriteSession(db, s, t, now).value.0)
  {
    hide WriteSession;
    WrittenOne(db, s, t, now);
    OneAppended(db, WriteSession(db, s, t, now).value.0, StoredEvent(db, SessionEvent(s, t, now)));
  }

  lemma {:induction false} AttemptsInterruptedPaired(
    db: Db, rows: map<string, Attempt>, ids: seq<string>, sessionId: string, now: Time)
    requires InterruptAttempts(db, rows, ids, sessionId, now).Success?
    ensures AppendsPaired(db, InterruptAttempts(db, rows, ids, sessionId, now).value)
  {
    if ids == [] {
      NoneAppended(db, db);
    } else {
      var init, last := ids[..|ids| - 1], ids[|ids| - 1];
      AttemptsInterruptedPaired(db, rows, init, sessionId, now);
      var d := InterruptAttempts(db, rows, init, sessionId, now).value;
      if last in rows {
        var e := AttemptInterruption(rows[last], sessionId, now);
        AppendedOne(d, e);
        hide AppendEvent;
        OneAppended(d, InterruptAttempts(db, rows, ids, sessionId, now).value, StoredEvent(d, e));
        PairedThen(db, d, InterruptAttempts(db, rows, ids, sessionId, now).value);
      }
    }
  }

  lemma {:induction false} ExecutionsInterruptedPaired(
    db: Db, rows: map<string, ExecutionRecord>, ids: seq<string>, sessionId: string, now: Time)
    requires InterruptExecutions(db, rows, ids, sessionId, now).Success?
    ensures AppendsPaired(db, InterruptExecutions(db, rows, ids, sessionId, now).value)
  {
    if ids == [] {
      NoneAppended(db, db);
    } else {
      var init, last := ids[..|ids| - 1], ids[|ids| - 1];
      ExecutionsInterruptedPaired(db, rows, init, sessionId, now);
      var d := InterruptExecutions(db, rows, init, sessionId, now).value;
      if last in rows {
        var e := ExecutionInterruption(rows[last], sessionId, now);
        AppendedOne(d, e);
        hide AppendEvent;
        OneAppended(d, InterruptExecutions(db, rows, ids, sessionId, now).value, StoredEvent(d, e));
        PairedThen(db, d, InterruptExecutions(db, rows, ids, sessionId, now).value);
      }
    }
  }

  lemma PairedThen(db: Db, d: Db, after: Db)
    requires AppendsPaired(db, d) && AppendsPaired(d, after)
    ensures AppendsPaired(db, after)
  {
    var s :| d.log == db.log + s && Paired(s);
    var t :| after.log == d.log + t && Paired(t);
    assert after.log == db.log + (s + t);
    PairedConcat(s, t);
  }

  lemma ReconcilePaired(db: Db, sessionId: string, ownerId: string, now: Time)
    requires Reconcile(db, sessionId, ownerId, now).Success?
    ensures AppendsPaired(db, Reconcile(db, sessionId, ownerId, now).value.0)
  {
    hide InterruptAttempts, InterruptExecutions, RowsInOrder, ExecutionsInOrder, StaleAttempts, StaleExecutions;
    hide AppendsPaired, HoldsLease;
    var attempts := RowsInOrder(db.attempts, StaleAttempts(db, sessionId));
    var executions := ExecutionsInOrder(db.executions, StaleExecutions(db, sessionId));
    AttemptsInterruptedPaired(db, db.attempts, attempts, sessionId, now);
    var d := InterruptAttempts(db, db.attempts, attempts, sessionId, now).value;
    ExecutionsInterruptedPaired(d, db.executions, executions, sessionId, now);
    PairedThen(db, d, Reconcile(db, sessionId, ownerId, now).value.0);
  }

  // ---------------------------------------------------------------- attempts

  lemma BeginAttemptPaired(
    db: Db, process: string, executionId: string, timestamp: Time, operation: Operation,
    backendSessionId: Option<string>, resumedFrom: Option<string>, checkpointId: Option<string>, metadata: Json)
    requires BeginAttempt(db, process, executionId, timestamp, operation, backendSessionId, resumedFrom, checkpointId,
                          metadata).Success?
    ensures AppendsPaired(db, BeginAttempt(db, process, executionId, timestamp, operation, backendSessionId,
                                           resumedFrom, checkpointId, metadata).value.0)
  {
    hide AppendEvent, MaxOrdinal, AppendsPaired, Paired, AttemptId;
    var n, spec := MaxOrdinal(db.attempts, process) + 1, db.specs[process];
    var e := AttemptEvent(db, AttemptCreated, spec, process, executionId, n, timestamp, operation,
                          backendSessionId, resumedFrom, checkpointId, metadata);
    AppendedOne(db, e);
    var d := AppendEvent(db, e).value.0;
    var f := AttemptEvent(d, AttemptStarted, spec, process, executionId, n, timestamp, operation,
                          backendSessionId, resumedFrom, checkpointId, metadata);
    AppendedOne(d, f);
    TwoAppended(db, AppendEvent(d, f).value.0, StoredEvent(db, e), StoredEvent(d, f));
  }

  lemma FinishAttemptPaired(
    db: Db, attemptId: string, t: EventType, timestamp: Time, error: Option<ErrorInfo>, result: Option<Json>,
    metadata: Json)
    requires FinishAttempt(db, attemptId, t, timestamp, error, result, metadata).Success?
    ensures AppendsPaired(db, FinishAttempt(db, attemptId, t, timestamp, error, result, metadata).value.0)
  {
    var after := FinishAttempt(db, attemptId, t, timestamp, error, result, metadata).value.0;
    assert exists e :: AppendEvent(db, e).Success? && e.eventType == t && AppendEvent(db, e).value.0 == after;
    var e :| AppendEvent(db, e).Success? && e.eventType == t && AppendEvent(db, e).value.0 == after;
    AppendedOne(db, e);
    hide AppendEvent, FinishAttempt;
    OneAppended(db, after, StoredEvent(db, e));
  }

  // ---------------------------------------------------------------- the other operations

  lemma AppendPaired(db: Db, d: Db, e: Event, after: Db)
    requires d.log == db.log && AppendEvent(d, e).Success? && !OpensPair(e)
    requires after.log == AppendEvent(d, e).value.0.log
    ensures AppendsPaired(db, after)
  {
    AppendedOne(d, e);
    hide AppendEvent;
    OneAppended(db, after, StoredEvent(d, e));
  }

  lemma DeclarePaired(db: Db, spec: ProcessSpec, timestamp: Time)
    requires DeclareProcess(db, spec, timestamp).Success?
    ensures AppendsPaired(db, DeclareProcess(db, spec, timestamp).value.0)
  {
    hide AppendsPaired, AppendEvent;
    var after, id := DeclareProcess(db, spec, timestamp).value.0, spec.ResolvedId();
    if id in db.specs {
      NoneAppended(db, after);
    } else {
      AppendPaired(db, db.(specs := db.specs[id := spec]), Draft(db.identity.runtimeId, ProcessCreated, timestamp).(
        processId := Some(id), parentProcessId := spec.parentProcessId, status := Some(Pending),
        statusClass := Some(NotStarted), payload := NO_PAYLOAD.(processType := Some(spec.processType)),
        metadata := spec.metadata), after);
    }
  }

  lemma {:induction false} WriteSpecsLog(db: Db, specs: seq<ProcessSpec>)
    ensures WriteSpecs(db, specs).log == db.log
  {
    if specs != [] { WriteSpecsLog(db, specs[..|specs| - 1]); }
  }

  lemma BeginPaired(
    db: Db, executionId: string, kind: ExecutionKind, createdAt: Time, backendSessionId: Option<string>,
    recoveryPlanId: Option<string>, metadata: Json)
    requires BeginExecution(db, executionId, kind, createdAt, backendSessionId, recoveryPlanId, metadata).Success?
    ensures AppendsPaired(db, BeginExecution(db, executionId, kind, createdAt, backendSessionId, recoveryPlanId,
                                             metadata).value.0)
  {
    hide AppendsPaired, AppendEvent;
    AppendPaired(db, db, Draft(db.identity.runtimeId, ExecutionCreated, createdAt).(
      executionId := Some(executionId), status := Some(Pending), statusClass := Some(NotStarted),
      payload := NO_PAYLOAD.(kind := kind, ordinal := Some(|db.executions| + 1), backendSessionId := backendSessionId,
                             recoveryPlanId := recoveryPlanId),
      metadata := metadata),
      BeginExecution(db, executionId, kind, createdAt, backendSessionId, recoveryPlanId, metadata).value.0);
  }

  lemma TransitionPaired(db: Db, executionId: string, status: Status, timestamp: Time, error: Option<ErrorInfo>)
    requires TransitionExecution(db, executionId, status, timestamp, error).Success?
    ensures AppendsPaired(db, TransitionExecution(db, executionId, status, timestamp, error).value.0)
  {
    hide AppendsPaired, AppendEvent;
    AppendPaired(db, db, Draft(db.executions[executionId].runtimeId, ExecutionEventType(status), timestamp).(
      executionId := Some(executionId), status := Some(status), statusClass := Some(ExecutionEventClass(status)),
      error := error), TransitionExecution(db, executionId, status, timestamp, error).value.0);
  }

  lemma ReservePaired(
    db: Db, commandId: string, commandType: string, timestamp: Time, targetId: Option<string>,
    executionId: Option<string>, backendSessionId: Option<string>, request: Json, metadata: Json)
    requires ReserveCommand(db, commandId, commandType, timestamp, targetId, executionId, backendSessionId, request,
                            metadata).Success?
    ensures AppendsPaired(db, ReserveCommand(db, commandId, commandType, timestamp, targetId, executionId,
                                             backendSessionId, request, metadata).value.0)
  {
    hide AppendsPaired, AppendEvent;
    var after := ReserveCommand(db, commandId, commandType, timestamp, targetId, executionId, backendSessionId, request,
                                metadata).value.0;
    if commandId in db.commands {
      NoneAppended(db, after);
    } else {
      AppendPaired(db, db, Draft(db.identity.runtimeId, CommandAccepted, timestamp).(
        executionId := executionId, subjectType := Some("command"), subjectId := Some(commandId),
        status := Some(Custom("accepted")), statusClass := Some(NotStarted),
        payload := NO_PAYLOAD.(commandType := commandType, targetId := targetId, backendSessionId := backendSessionId,
                               fingerprint := Fingerprint(commandType, targetId, executionId, request),
                               request := request),
        metadata := metadata), after);
    }
  }

  lemma FinishCommandPaired(
    db: Db, commandId: string, status: CommandStatus, timestamp: Time, result: Json, error: Option<ErrorInfo>)
    requires FinishCommand(db, commandId, status, timestamp, result, error).Success?
    ensures AppendsPaired(db, FinishCommand(db, commandId, status, timestamp, result, error).value.0)
  {
    hide AppendsPaired, AppendEvent;
    var after, r := FinishCommand(db, commandId, status, timestamp, result, error).value.0, db.commands[commandId];
    if r.status.Accepted? {
      var done := status.CommandDone?;
      AppendPaired(db, db, Draft(r.runtimeId, if done then CommandSucceeded else CommandFailed, timestamp).(
        executionId := r.executionId, subjectType := Some("command"), subjectId := Some(r.commandId),
        status := Some(if done then Succeeded else Failed),
        statusClass := Some(if done then TerminalSuccess else TerminalFailure), error := error,
        payload := NO_PAYLOAD.(result := Some(result))), after);
    } else {
      NoneAppended(db, after);
    }
  }

  lemma SessionOpsPaired(db: Db, op: Op, policy: Policy)
    requires Good(db) && (op.Acquire? || op.Renew? || op.Release? || op.ReconcileWork?)
    requires Commit(db, op, policy).Some?
    ensures AppendsPaired(db, Commit(db, op, policy).value)
  {
    hide Good, AppendsPaired, WriteSession, LoadActive;
    match op
    case Acquire(s, o, now, ttl, metadata) =>
      hide RenewSession, ReleaseSession;
      AcquirePaired(db, s, o, now, ttl, metadata);
    case Renew(s, o, now, ttl) =>
      hide AcquireSession;
      LeasePaired(db, LoadActive(db.sessions).value.(heartbeatAt := now, expiresAt := now + ttl), SessionRenewed, now);
    case Release(s, o, now) =>
      hide AcquireSession;
      LeasePaired(db, LoadActive(db.sessions).value.(status := ReleasedSession, releasedAt := Some(now)),
                  SessionReleased, now);
    case ReconcileWork(s, o, now) => ReconcilePaired(db, s, o, now);
  }

  lemma WorkOpsPaired(db: Db, op: Op, policy: Policy)
    requires op.Declare? || op.WriteProcessSpecs? || op.Begin? || op.Transition?
    requires Commit(db, op, policy).Some?
    ensures AppendsPaired(db, Commit(db, op, policy).value)
  {
    hide AppendsPaired, DeclareProcess, BeginExecution, TransitionExecution, WriteSpecs;
    match op
    case Declare(spec, t) => DeclarePaired(db, spec, t);
    case WriteProcessSpecs(specs) => WriteSpecsLog(db, specs); NoneAppended(db, WriteSpecs(db, specs));
    case Begin(x, kind, t, b, r, metadata) => BeginPaired(db, x, kind, t, b, r, metadata);
    case Transition(x, status, t, error) => TransitionPaired(db, x, status, t, error);
  }

  lemma AttemptAndCommandOpsPaired(db: Db, op: Op, policy: Policy)
    requires op.Append? || op.BeginProcess? || op.FinishProcess? || op.Reserve? || op.Finish?
    requires Disciplined(db, op) && Commit(db, op, policy).Some?
    ensures AppendsPaired(db, Commit(db, op, policy).value)
  {
    hide AppendsPaired, AppendEvent, BeginAttempt, FinishAttempt, ReserveCommand, FinishCommand;
    match op
    case Append(e) => AppendPaired(db, db, e, AppendEvent(db, e).value.0);
    case BeginProcess(p, x, t, o, b, r, c, metadata) => BeginAttemptPaired(db, p, x, t, o, b, r, c, metadata);
    case FinishProcess(a, t, at, error, result, metadata) => FinishAttemptPaired(db, a, t, at, error, result, metadata);
    case Reserve(c, ct, t, target, x, b, request, metadata) =>
      ReservePaired(db, c, ct, t, target, x, b, request, metadata);
    case Finish(c, status, t, result, error) => FinishCommandPaired(db, c, status, t, result, error);
  }

  lemma DerivedOpsPaired(db: Db, op: Op, policy: Policy)
    requires (op.Refresh? || op.RebuildTheLedger? || op.RebuildTheCommands?) && Commit(db, op, policy).Some?
    ensures AppendsPaired(db, Commit(db, op, policy).value)
  {
    hide AppendsPaired, RefreshedProjection, ReduceLedger, ReduceCommands;
    NoneAppended(db, Commit(db, op, policy).value);
  }

  lemma OpPaired(db: Db, op: Op, policy: Policy)
    requires Good(db) && Disciplined(db, op)
    ensures AppendsPaired(db, Perform(db, op, policy))
  {
    hide Good, AppendsPaired, Commit, Disciplined;
    if Commit(db, op, policy).None? {
      NoneAppended(db, db);
    } else if op.Acquire? || op.Renew? || op.Release? || op.ReconcileWork? {
      SessionOpsPaired(db, op, policy);
    } else if op.Declare? || op.WriteProcessSpecs? || op.Begin? || op.Transition? {
      WorkOpsPaired(db, op, policy);
    } else if op.Refresh? || op.RebuildTheLedger? || op.RebuildTheCommands? {
      DerivedOpsPaired(db, op, policy);
    } else {
      AttemptAndCommandOpsPaired(db, op, policy);
    }
  }

  /** Main result: in the log of every disciplined run each created attempt starts with the next event,
      and each displaced session is displaced by another one whose acquisition is the next event. */
  lemma {:induction false} RunPaired(identity: Identity, ops: seq<Op>, policy: Policy)
    requires DisciplinedRun(EmptyDb(identity), ops, policy)
    ensures Paired(Run(EmptyDb(identity), ops, policy).log)
  {
    if ops == [] {
      assert Run(EmptyDb(identity), ops, policy).log == [];
    } else {
      var init, last := ops[..|ops| - 1], ops[|ops| - 1];
      RunPaired(identity, init, policy);
      RunGood(identity, init, policy);
      hide Good, Paired, Perform, Disciplined, ProjectionRight;
      var db := Run(EmptyDb(identity), init, policy);
      OpPaired(db, last, policy);
      var tail :| Perform(db, last, policy).log == db.log + tail && Paired(tail);
      PairedConcat(db.log, tail);
    }
  }
}
