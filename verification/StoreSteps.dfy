/** Every transaction keeps the invariant. */
module StoreSteps {
  import opened RuntimeTypes
  import opened RuntimeProjections
  import opened LedgerReplay
  import opened DurableTables
  import opened StoreInvariant
  import opened StoreProtocol

  // ---------------------------------------------------------------- appending

  /** The attempt row an allowed event writes is the one replay makes. */
  lemma AllowedRow(attempts: map<string, Attempt>, e: Event)
    requires AttemptAdmits(attempts, e)
    ensures WriteAttempt(attempts, e) == Success(AttemptEffect(attempts, e))
  {
    hide UpdatedRow, NewRow, DefaultStatus, DefaultClass, AttemptId;
    if TouchesAttempt(e) && e.attemptId.value !in attempts {
      var k :| IsMaxOrdinal(attempts, e.processId.value, k) && Opening(e, k);
      assert !RowTaken(attempts, e.processId.value, k + 1);
    }
  }

  /** An append the protocol allows commits, and its attempt rows are what replay makes of them. */
  lemma Appended(db: Db, e: Event)
    requires Synced(db) && e.runtimeId == db.identity.runtimeId
    requires AttemptAdmits(db.attempts, StoredEvent(db, e))
    ensures var stored := StoredEvent(db, e);
      && Canonical(stored, |db.log|, db.identity.runtimeId)
      && AppendEvent(db, e) == Success((db.(
           log := db.log + [stored], attempts := AttemptEffect(db.attempts, stored),
           executions := TouchExecution(db.executions, stored)), stored))
  {
    hide WriteAttempt, AttemptEffect, AttemptAdmits, ExecutionsSynced, AttemptsSynced, CommandsSynced, Readable;
    DenseMax(db.log, db.identity.runtimeId);
    AllowedRow(db.attempts, StoredEvent(db, e));
  }

  /** Appending an event that is not an execution event is one emitted event. */
  lemma PlainEmit(db: Db, e: Event)
    requires Inv(db) && e.runtimeId == db.identity.runtimeId
    requires !e.eventType.IsExecution() && !e.eventType.IsSession() && !e.eventType.IsCommand()
    requires Refers(db.executions, e.executionId) && Legible(e)
    requires AttemptAdmits(db.attempts, StoredEvent(db, e)) && OpensInLive(db.executions, e)
    ensures AppendEvent(db, e) == Success((Emitted(db, StoredEvent(db, e), db.sessions), StoredEvent(db, e)))
    ensures Inv(Emitted(db, StoredEvent(db, e), db.sessions))
  {
    var stored := StoredEvent(db, e);
    Appended(db, e);
    OtherTables(db, stored);
    assert ExecutionEffect(db.executions, stored) == TouchExecution(db.executions, stored);
    EmitKeepsInv(db, stored, db.sessions);
  }

  /** Raw appends the ledger can replay: no lifecycle types, only declared executions, and nothing the
      framework reducer cannot read. */
  predicate PlainEvent(db: Db, e: Event) {
    && !e.eventType.IsExecution() && !e.eventType.IsSession() && !e.eventType.IsCommand()
    && !e.eventType.IsAttempt() && Refers(db.executions, e.executionId) && Legible(e)
  }

  lemma AppendStep(db: Db, e: Event)
    requires Good(db) && PlainEvent(db, e) && AppendEvent(db, e).Success?
    ensures Good(AppendEvent(db, e).value.0) && Extends(db, AppendEvent(db, e).value.0)
  {
    PlainEmit(db, e);
    OtherTables(db, StoredEvent(db, e));
  }

  lemma NotAttempt(attempts: map<string, Attempt>, e: Event)
    requires e.eventType.IsExecution() || e.eventType.IsSession() || e.eventType.IsCommand()
    ensures !e.eventType.IsAttempt() && AttemptAdmits(attempts, e)
  {
  }

  lemma StoredLegible(db: Db, e: Event)
    requires Legible(e)
    ensures Legible(StoredEvent(db, e))
  {
  }

  lemma AppendedInGood(db: Db, e: Event)
    requires Good(db) && e.runtimeId == db.identity.runtimeId && AttemptAdmits(db.attempts, StoredEvent(db, e))
    ensures var stored := StoredEvent(db, e);
      && Canonical(stored, |db.log|, db.identity.runtimeId)
      && AppendEvent(db, e) == Success((db.(
           log := db.log + [stored], attempts := AttemptEffect(db.attempts, stored),
           executions := TouchExecution(db.executions, stored)), stored))
  {
    hide AttemptAdmits, AttemptEffect, AppendEvent, TouchExecution, Observed, Settled, Linked;
    Appended(db, e);
  }

  /** An admitted event that is not an attempt event keeps everything. */
  lemma EmitGood(db: Db, e: Event, sessions: map<string, Session>)
    requires Good(db) && Admits(db, e, sessions) && !e.eventType.IsAttempt()
    ensures Good(Emitted(db, e, sessions)) && Extends(db, Emitted(db, e, sessions))
  {
    hide Inv, Admits, ExecutionEffect, CommandEffect;
    EmitKeepsInv(db, e, sessions);
    OtherTables(db, e);
    hide AttemptEffect;
  }

  // ---------------------------------------------------------------- sessions

  lemma ActiveLoaded(db: Db)
    requires SessionsRight(db.sessions, db.identity.runtimeId)
    ensures LoadActive(db.sessions).None? <==> forall id :: !IsActive(db.sessions, id)
    ensures LoadActive(db.sessions).Some? ==>
      var s := LoadActive(db.sessions).value; IsActive(db.sessions, s.sessionId) && db.sessions[s.sessionId] == s
  {
  }

  lemma SessionWritten(db: Db, s: Session, t: EventType, now: Time)
    requires Good(db) && t.IsSession() && s.runtimeId == db.identity.runtimeId
    requires SessionStep(db.sessions, SessionEvent(s, t, now), db.sessions[s.sessionId := s], db.identity.runtimeId)
    ensures WriteSession(db, s, t, now).Success?
    ensures var after := WriteSession(db, s, t, now).value.0;
      && Good(after) && Extends(db, after) && after.sessions == db.sessions[s.sessionId := s]
      && WriteSession(db, s, t, now).value.1 == s
  {
    var e := SessionEvent(s, t, now);
    var stored := StoredEvent(db, e);
    var sessions := db.sessions[s.sessionId := s];
    assert Legible(stored);
    hide Good, Extends, AppendEvent, ExecutionEffect, AttemptEffect, CommandEffect, Legible, AttemptAdmits, Admits;
    NotAttempt(db.attempts, stored);
    AppendedInGood(db, e);
    SessionAdmitted(db, stored, sessions);
    EmitGood(db, stored, sessions);
    SessionEmitted(db, e, stored, sessions);
  }

  lemma SessionAdmitted(db: Db, e: Event, sessions: map<string, Session>)
    requires Canonical(e, |db.log|, db.identity.runtimeId) && Legible(e) && e.eventType.IsSession()
    requires e.executionId.None? && SessionStep(db.sessions, e, sessions, db.identity.runtimeId)
    ensures Admits(db, e, sessions)
  {
    hide SessionStep, Legible;
  }

  /** The session row is written before the append, which does not look at it. */
  lemma SessionEmitted(db: Db, e: Event, stored: Event, sessions: map<string, Session>)
    requires stored == StoredEvent(db, e) && e.eventType.IsSession() && e.executionId.None?
    requires AppendEvent(db, e).Success?
    ensures AppendEvent(db.(sessions := sessions), e) == Success((Emitted(db, stored, sessions), stored))
  {
  }

  /** Displacing an expired owner leaves nobody active. */
  lemma DisplaceStep(db: Db, now: Time)
    requires Good(db)
    requires var active := LoadActive(db.sessions); active.Some? ==> active.value.expiresAt <= now
    ensures var r := DisplaceSession(db, LoadActive(db.sessions), now);
      && r.Success? && Good(r.value) && Extends(db, r.value)
      && (forall id :: !IsActive(r.value.sessions, id))
      && (forall id :: id in r.value.sessions <==> id in db.sessions)
  {
    ActiveLoaded(db);
    var active := LoadActive(db.sessions);
    if active.Some? {
      var s := active.value.(status := ExpiredSession, releasedAt := Some(now));
      hide Synced, Mirrors;
      SessionWritten(db, s, SessionExpired, now);
    }
  }

  lemma AcquireStep(db: Db, sessionId: string, ownerId: string, now: Time, ttl: Time, metadata: Json)
    requires Good(db) && AcquireSession(db, sessionId, ownerId, now, ttl, metadata).Success?
    ensures Good(AcquireSession(db, sessionId, ownerId, now, ttl, metadata).value.0)
    ensures Extends(db, AcquireSession(db, sessionId, ownerId, now, ttl, metadata).value.0)
  {
    hide Inv, Settled, DisplaceSession, WriteSession;
    DisplaceStep(db, now);
    var d := DisplaceSession(db, LoadActive(db.sessions), now).value;
    var s := Session(sessionId, d.identity.runtimeId, ownerId, ActiveSession, now, now, now + ttl, None, metadata);
    SessionWritten(d, s, SessionAcquired, now);
  }

  lemma RenewStep(db: Db, sessionId: string, ownerId: string, now: Time, ttl: Time)
    requires Good(db) && RenewSession(db, sessionId, ownerId, now, ttl).Success?
    ensures Good(RenewSession(db, sessionId, ownerId, now, ttl).value.0)
    ensures Extends(db, RenewSession(db, sessionId, ownerId, now, ttl).value.0)
  {
    ActiveLoaded(db);
    SessionWritten(db, LoadActive(db.sessions).value.(heartbeatAt := now, expiresAt := now + ttl), SessionRenewed, now);
  }

  lemma ReleaseStep(db: Db, sessionId: string, ownerId: string, now: Time)
    requires Good(db) && ReleaseSession(db, sessionId, ownerId, now).Success?
    ensures Good(ReleaseSession(db, sessionId, ownerId, now).value.0)
    ensures Extends(db, ReleaseSession(db, sessionId, ownerId, now).value.0)
  {
    ActiveLoaded(db);
    SessionWritten(db, LoadActive(db.sessions).value.(status := ReleasedSession, releasedAt := Some(now)),
                   SessionReleased, now);
  }

  // ---------------------------------------------------------------- executions

  /** Writing the row that replay makes of an execution event overrides what the append touched. */
  lemma ExecutionEmit(db: Db, e: Event, row: ExecutionRecord)
    requires Good(db) && e.runtimeId == db.identity.runtimeId && e.eventType.IsExecution() && Legible(e)
    requires ExecutionAdmits(db.executions, StoredEvent(db, e))
    requires ExecutionEffect(db.executions, StoredEvent(db, e)) == db.executions[e.executionId.value := row]
    ensures AppendEvent(db, e).Success?
    ensures var d := AppendEvent(db, e).value.0;
      var after := d.(executions := d.executions[e.executionId.value := row]);
      Good(after) && Extends(db, after) && after == Emitted(db, StoredEvent(db, e), db.sessions)
  {
    hide Good, Extends, ExecutionEffect, AttemptEffect, CommandEffect, AppendEvent, Legible, ExecutionAdmits;
    hide AttemptAdmits, Admits;
    var stored := StoredEvent(db, e);
    StoredLegible(db, e);
    NotAttempt(db.attempts, stored);
    AppendedInGood(db, e);
    OtherTables(db, stored);
    ExecutionAdmitted(db, stored);
    EmitGood(db, stored, db.sessions);
    ExecutionNamed(db.executions, stored);
    var id := e.executionId.value;
    assert TouchExecution(db.executions, stored)[id := row] == db.executions[id := row];
  }

  lemma ExecutionNamed(executions: map<string, ExecutionRecord>, e: Event)
    requires ExecutionAdmits(executions, e) && e.eventType.IsExecution()
    ensures e.executionId.Some?
  {
  }

  lemma ExecutionAdmitted(db: Db, e: Event)
    requires Canonical(e, |db.log|, db.identity.runtimeId) && Legible(e) && e.eventType.IsExecution()
    requires ExecutionAdmits(db.executions, e)
    ensures Admits(db, e, db.sessions)
  {
    hide ExecutionAdmits, Legible;
  }

  lemma BeginExecutionStep(
    db: Db, executionId: string, kind: ExecutionKind, createdAt: Time,
    backendSessionId: Option<string>, recoveryPlanId: Option<string>, metadata: Json)
    requires Good(db)
    requires BeginExecution(db, executionId, kind, createdAt, backendSessionId, recoveryPlanId, metadata).Success?
    ensures Good(BeginExecution(db, executionId, kind, createdAt, backendSessionId, recoveryPlanId, metadata).value.0)
    ensures Extends(db, BeginExecution(db, executionId, kind, createdAt, backendSessionId, recoveryPlanId,
                                       metadata).value.0)
  {
    hide Synced, Observed, Settled;
    var (after, r) :=
      BeginExecution(db, executionId, kind, createdAt, backendSessionId, recoveryPlanId, metadata).value;
    var e := Draft(db.identity.runtimeId, ExecutionCreated, createdAt).(
      executionId := Some(executionId), status := Some(Pending), statusClass := Some(NotStarted),
      payload := NO_PAYLOAD.(kind := kind, ordinal := Some(|db.executions| + 1),
                             backendSessionId := backendSessionId, recoveryPlanId := recoveryPlanId),
      metadata := metadata);
    assert |db.executions| == 0 <==> db.executions == map[];
    assert r == DeclaredBy(StoredEvent(db, e));
    ExecutionEmit(db, e, r);
  }

  lemma RecordOf(db: Db, id: string)
    requires Synced(db) && id in db.executions
    ensures db.executions[id].executionId == id && db.executions[id].runtimeId == db.identity.runtimeId
  {
  }

  lemma TransitionStep(db: Db, executionId: string, status: Status, timestamp: Time, error: Option<ErrorInfo>)
    requires Good(db) && TransitionExecution(db, executionId, status, timestamp, error).Success?
    ensures Good(TransitionExecution(db, executionId, status, timestamp, error).value.0)
    ensures Extends(db, TransitionExecution(db, executionId, status, timestamp, error).value.0)
  {
    hide Synced, Observed, Settled;
    RecordOf(db, executionId);
    var (after, r) := TransitionExecution(db, executionId, status, timestamp, error).value;
    var before := db.executions[executionId];
    var e := Draft(before.runtimeId, ExecutionEventType(status), timestamp).(
      executionId := Some(executionId), status := Some(status),
      statusClass := Some(ExecutionEventClass(status)), error := error);
    assert r == TransitionedBy(before, StoredEvent(db, e));
    ExecutionEmit(db, e, r);
  }

  // ---------------------------------------------------------------- processes and attempts

  lemma SpecsIrrelevant(db: Db, specs: map<string, ProcessSpec>)
    requires Good(db)
    ensures Good(db.(specs := specs))
  {
  }

  lemma DeclareStep(db: Db, spec: ProcessSpec, timestamp: Time)
    requires Good(db) && DeclareProcess(db, spec, timestamp).Success?
    ensures Good(DeclareProcess(db, spec, timestamp).value.0)
    ensures Extends(db, DeclareProcess(db, spec, timestamp).value.0)
  {
    var id := spec.ResolvedId();
    if id !in db.specs {
      var e := Draft(db.identity.runtimeId, ProcessCreated, timestamp).(
        processId := Some(id), parentProcessId := spec.parentProcessId, status := Some(Pending),
        statusClass := Some(NotStarted), payload := NO_PAYLOAD.(processType := Some(spec.processType)),
        metadata := spec.metadata);
      var d := db.(specs := db.specs[id := spec]);
      SpecsIrrelevant(db, d.specs);
      AppendStep(d, e);
    }
  }

  lemma {:induction false} WriteSpecsStep(db: Db, specs: seq<ProcessSpec>)
    requires Good(db)
    ensures Good(WriteSpecs(db, specs)) && Extends(db, WriteSpecs(db, specs))
  {
    if specs != [] {
      var d, last := WriteSpecs(db, specs[..|specs| - 1]), specs[|specs| - 1];
      WriteSpecsStep(db, specs[..|specs| - 1]);
      SpecsIrrelevant(d, d.specs[last.ResolvedId() := last]);
    }
  }

  /** In a right table the query for the largest ordinal has an answer, and the next id is free. */
  lemma NextAttempt(db: Db, process: string)
    requires Synced(db)
    ensures var k := MaxOrdinal(db.attempts, process);
      k >= 0 && IsMaxOrdinal(db.attempts, process, k) && AttemptId(process, k + 1) !in db.attempts
  {
    hide AttemptIndexRight, IsMaxOrdinal, MaxOrdinal, AttemptId;
    NextInIndex(ReplayAttempts(db.log).value, db.identity.runtimeId, process);
  }

  lemma NextInIndex(x: AttemptIndex, runtimeId: string, process: string)
    requires AttemptIndexRight(x, runtimeId)
    ensures var k := MaxOrdinal(x.byId, process);
      k >= 0 && IsMaxOrdinal(x.byId, process, k) && AttemptId(process, k + 1) !in x.byId
  {
    hide AttemptIndexRight;
    var known := if process in x.idsByProcess then |x.idsByProcess[process]| else 0;
    MaxOrdinalIsLength(x, runtimeId, process, known);
    assert IsMaxOrdinal(x.byId, process, known);
    var k := MaxOrdinal(x.byId, process);
    NoNegativeMax(x, runtimeId, process, k);
    if AttemptId(process, k + 1) in x.byId {
      NotThatMany(x, runtimeId, process, k);
      assert false;
    }
  }

  lemma NoNegativeMax(x: AttemptIndex, runtimeId: string, process: string, m: int)
    requires AttemptIndexRight(x, runtimeId) && IsMaxOrdinal(x.byId, process, m)
    ensures m >= 0
  {
    if m != 0 {
      var id :| id in x.byId && x.byId[id].processId == process && x.byId[id].ordinal == m;
      assert AttemptRowRight(x, runtimeId, id);
    }
  }

  /** A row under the next id would have a larger ordinal than the largest. */
  lemma NotThatMany(x: AttemptIndex, runtimeId: string, process: string, k: int)
    requires AttemptIndexRight(x, runtimeId) && k >= 0 && AttemptId(process, k + 1) in x.byId
    ensures !IsMaxOrdinal(x.byId, process, k)
  {
    var id := AttemptId(process, k + 1);
    assert AttemptRowRight(x, runtimeId, id);
    var a := x.byId[id];
    AttemptIdInjective(process, k + 1, a.processId, a.ordinal);
  }

  lemma BeginAttemptStep(
    db: Db, process: string, executionId: string, timestamp: Time, operation: Operation,
    backendSessionId: Option<string>, resumedFrom: Option<string>, checkpointId: Option<string>, metadata: Json)
    requires Good(db) && checkpointId != Some("")
    requires BeginAttempt(db, process, executionId, timestamp, operation, backendSessionId, resumedFrom,
                          checkpointId, metadata).Success?
    ensures Good(BeginAttempt(db, process, executionId, timestamp, operation, backendSessionId, resumedFrom,
                              checkpointId, metadata).value.0)
    ensures Extends(db, BeginAttempt(db, process, executionId, timestamp, operation, backendSessionId, resumedFrom,
                              checkpointId, metadata).value.0)
  {
    hide Good, Extends, OpenAttempt, MaxOrdinal;
    OpenAttemptStep(db, process, executionId, timestamp, operation, backendSessionId, resumedFrom, checkpointId,
                    metadata);
  }

  lemma OpenAttemptStep(
    db: Db, process: string, executionId: string, timestamp: Time, operation: Operation,
    backendSessionId: Option<string>, resumedFrom: Option<string>, checkpointId: Option<string>, metadata: Json)
    requires Good(db) && checkpointId != Some("") && process in db.specs
    requires executionId in db.executions && Unfinished(db.executions[executionId].status)
    ensures var r := OpenAttempt(db, process, executionId, MaxOrdinal(db.attempts, process) + 1, timestamp, operation,
                                 backendSessionId, resumedFrom, checkpointId, metadata);
      r.Success? && Good(r.value.0) && Extends(db, r.value.0)
  {
    hide Good, AppendEvent, AttemptEvent, Extends, IsMaxOrdinal, MaxOrdinal, OpeningEvents, AttemptId, OpenAttempt;
    NextInGood(db, process);
    var k := MaxOrdinal(db.attempts, process);
    var spec := db.specs[process];
    var e := AttemptEvent(db, AttemptCreated, spec, process, executionId, k + 1, timestamp, operation,
                          backendSessionId, resumedFrom, checkpointId, metadata);
    var f := AttemptEvent(db, AttemptStarted, spec, process, executionId, k + 1, timestamp, operation,
                          backendSessionId, resumedFrom, checkpointId, metadata);
    AttemptEventFacts(db, spec, process, executionId, k + 1, timestamp, operation, backendSessionId, resumedFrom,
                      checkpointId, metadata);
    OpenedPair(db, process, executionId, checkpointId, e, f, k);
    var d := AppendEvent(db, e).value.0;
    SameAttemptEvent(db, d, AttemptStarted, spec, process, executionId, k + 1, timestamp, operation,
                     backendSessionId, resumedFrom, checkpointId, metadata);
    OpenedBy(db, process, executionId, k + 1, timestamp, operation, backendSessionId, resumedFrom, checkpointId,
             metadata, e, f);
  }

  lemma NextInGood(db: Db, process: string)
    requires Good(db)
    ensures var k := MaxOrdinal(db.attempts, process);
      k >= 0 && IsMaxOrdinal(db.attempts, process, k) && AttemptId(process, k + 1) !in db.attempts
  {
    NextAttempt(db, process);
  }

  lemma OpenedBy(
    db: Db, process: string, executionId: string, ordinal: int, timestamp: Time, operation: Operation,
    backendSessionId: Option<string>, resumedFrom: Option<string>, checkpointId: Option<string>, metadata: Json,
    e: Event, f: Event)
    requires process in db.specs
    requires e == AttemptEvent(db, AttemptCreated, db.specs[process], process, executionId, ordinal, timestamp,
                               operation, backendSessionId, resumedFrom, checkpointId, metadata)
    requires AppendEvent(db, e).Success?
    requires f == AttemptEvent(AppendEvent(db, e).value.0, AttemptStarted, db.specs[process], process, executionId,
                               ordinal, timestamp, operation, backendSessionId, resumedFrom, checkpointId, metadata)
    requires AppendEvent(AppendEvent(db, e).value.0, f).Success?
    requires AttemptId(process, ordinal) in AppendEvent(AppendEvent(db, e).value.0, f).value.0.attempts
    ensures var r := OpenAttempt(db, process, executionId, ordinal, timestamp, operation, backendSessionId, resumedFrom,
                                 checkpointId, metadata);
      r.Success? && r.value.0 == AppendEvent(AppendEvent(db, e).value.0, f).value.0
  {
    hide AppendEvent, AttemptEvent, AttemptId;
  }

  /** Both events of a new attempt. */
  lemma OpenedPair(
    db: Db, process: string, executionId: string, checkpointId: Option<string>, e: Event, f: Event, k: int)
    requires Good(db) && k >= 0 && IsMaxOrdinal(db.attempts, process, k) && AttemptId(process, k + 1) !in db.attempts
    requires executionId in db.executions && Unfinished(db.executions[executionId].status) && checkpointId != Some("")
    requires OpeningEvents(db, process, executionId, k + 1, checkpointId, e, f)
    ensures AppendEvent(db, e).Success? && AppendEvent(db, e).value.0.identity == db.identity
    ensures var r := AppendEvent(AppendEvent(db, e).value.0, f);
      r.Success? && Good(r.value.0) && Extends(db, r.value.0) && AttemptId(process, k + 1) in r.value.0.attempts
  {
    assert Inv(db) by { InvOf(db); }
    hide Good, Inv, Extends, AppendEvent, IsMaxOrdinal, AttemptId, Legible, TouchesAttempt;
    OpeningEmit(db, e, k);
    StartingEmit(db, e, f);
  }

  lemma InvOf(db: Db)
    requires Good(db)
    ensures Inv(db)
  {
  }

  lemma SameAttemptEvent(
    db: Db, d: Db, t: EventType, spec: ProcessSpec, process: string, executionId: string, ordinal: int,
    timestamp: Time, operation: Operation, backendSessionId: Option<string>, resumedFrom: Option<string>,
    checkpointId: Option<string>, metadata: Json)
    requires t.IsAttempt() && d.identity == db.identity
    ensures AttemptEvent(d, t, spec, process, executionId, ordinal, timestamp, operation, backendSessionId, resumedFrom,
                         checkpointId, metadata)
      == AttemptEvent(db, t, spec, process, executionId, ordinal, timestamp, operation, backendSessionId, resumedFrom,
                      checkpointId, metadata)
  {
  }

  /** What matters of the two events that open an attempt. */
  predicate OpeningEvents(
    db: Db, process: string, executionId: string, ordinal: int, checkpointId: Option<string>, e: Event, f: Event)
  {
    && TouchesAttempt(e) && e.eventType.AttemptCreated? && e.runtimeId == db.identity.runtimeId
    && e.processId == Some(process) && e.attemptId == Some(AttemptId(process, ordinal))
    && e.executionId == Some(executionId) && e.checkpointId == checkpointId
    && e.payload.ordinal == Some(ordinal) && e.payload.malformed == {}
    && e.status == Some(Pending) && e.statusClass == Some(NotStarted) && Legible(e)
    && f == e.(eventType := AttemptStarted, status := Some(Running), statusClass := Some(Active))
  }

  lemma AttemptEventFacts(
    db: Db, spec: ProcessSpec, process: string, executionId: string, ordinal: int, timestamp: Time,
    operation: Operation, backendSessionId: Option<string>, resumedFrom: Option<string>, checkpointId: Option<string>,
    metadata: Json)
    ensures OpeningEvents(db, process, executionId, ordinal, checkpointId,
                          AttemptEvent(db, AttemptCreated, spec, process, executionId, ordinal, timestamp, operation,
                                       backendSessionId, resumedFrom, checkpointId, metadata),
                          AttemptEvent(db, AttemptStarted, spec, process, executionId, ordinal, timestamp, operation,
                                       backendSessionId, resumedFrom, checkpointId, metadata))
  {
    hide AttemptId;
  }

  lemma OpeningEmit(db: Db, e: Event, k: int)
    requires Inv(db) && e.runtimeId == db.identity.runtimeId
    requires TouchesAttempt(e) && Opening(e, k) && IsMaxOrdinal(db.attempts, e.processId.value, k)
    requires e.attemptId.value !in db.attempts && OpensInLive(db.executions, e)
    requires e.status == Some(Pending) && e.statusClass == Some(NotStarted) && Legible(e)
    ensures AppendEvent(db, e) == Success((Emitted(db, StoredEvent(db, e), db.sessions), StoredEvent(db, e)))
    ensures Inv(Emitted(db, StoredEvent(db, e), db.sessions))
  {
    hide Inv, Emitted, AttemptId;
    assert Opening(StoredEvent(db, e), k);
    PlainEmit(db, e);
  }

  lemma StartingEmit(db: Db, e: Event, f: Event)
    requires Good(db) && TouchesAttempt(e) && e.eventType.AttemptCreated? && e.attemptId.value !in db.attempts
    requires e.executionId.Some? && e.executionId.value in db.executions
    requires f == e.(eventType := AttemptStarted, status := Some(Running), statusClass := Some(Active))
    requires f.runtimeId == db.identity.runtimeId && e.statusClass == Some(NotStarted) && Legible(e)
    requires Inv(Emitted(db, StoredEvent(db, e), db.sessions))
    ensures var d := Emitted(db, StoredEvent(db, e), db.sessions);
      && AppendEvent(d, f) == Success((Emitted(d, StoredEvent(d, f), d.sessions), StoredEvent(d, f)))
      && Good(AppendEvent(d, f).value.0) && Extends(db, AppendEvent(d, f).value.0)
      && e.attemptId.value in AppendEvent(d, f).value.0.attempts
  {
    hide Inv, CommandEffect, AppendEvent, AttemptId, UpdatedRow, NewRow, Continuing;
    var id := e.attemptId.value;
    var d := Emitted(db, StoredEvent(db, e), db.sessions);
    StartsOpened(StoredEvent(db, e), StoredEvent(d, f));
    PlainEmit(d, f);
    hide ExecutionEffect;
    var after := Emitted(d, StoredEvent(d, f), d.sessions);
    assert after.attempts == db.attempts[id := after.attempts[id]];
    StartedClass(d.attempts[id], StoredEvent(d, f));
  }

  /** The started event continues the row of the created one. */
  lemma StartsOpened(e: Event, f: Event)
    requires TouchesAttempt(e) && e.eventType.AttemptCreated? && e.statusClass == Some(NotStarted)
    requires f == e.(eventType := AttemptStarted, status := Some(Running), statusClass := Some(Active),
                     eventId := f.eventId, sequence := f.sequence)
    ensures Continuing(UpdatedRow(NewRow(e), e), f)
  {
  }

  lemma StartedClass(a: Attempt, e: Event)
    requires e.statusClass == Some(Active)
    ensures UpdatedRow(a, e).statusClass.Active?
  {
  }

  lemma RowOf(db: Db, id: string)
    requires Synced(db) && id in db.attempts
    ensures db.attempts[id].attemptId == id && db.attempts[id].runtimeId == db.identity.runtimeId
  {
    assert AttemptRowRight(ReplayAttempts(db.log).value, db.identity.runtimeId, id);
  }

  /** A terminal attempt event for an open row. */
  lemma TerminalEmit(db: Db, id: string, e: Event)
    requires Good(db) && id in db.attempts && OpenClass(db.attempts[id].statusClass)
    requires e.eventType.IsTerminalAttempt() && e.runtimeId == db.identity.runtimeId
    requires e.attemptId == Some(id) && e.processId == Some(db.attempts[id].processId)
    requires e.executionId.Some? && e.executionId.value in db.executions
    requires e.checkpointId.None? || e.checkpointId == db.attempts[id].checkpointId
    requires e.payload.resumedFromAttemptId.None? && Legible(e)
    requires e.status == Some(DefaultStatus(e.eventType)) && e.statusClass == Some(DefaultClass(e.eventType))
    ensures AppendEvent(db, e) == Success((Emitted(db, StoredEvent(db, e), db.sessions), StoredEvent(db, e)))
    ensures Good(AppendEvent(db, e).value.0)
    ensures AppendEvent(db, e).value.0.attempts == db.attempts[id := UpdatedRow(db.attempts[id], StoredEvent(db, e))]
    ensures Extends(db, AppendEvent(db, e).value.0)
  {
    hide Synced, Observed;
    assert Continuing(db.attempts[id], StoredEvent(db, e));
    PlainEmit(db, e);
  }

  lemma FinishAttemptStep(
    db: Db, attemptId: string, t: EventType, timestamp: Time, error: Option<ErrorInfo>,
    result: Option<Json>, metadata: Json)
    requires Good(db)
    requires FinishAttempt(db, attemptId, t, timestamp, error, result, metadata).Success?
    ensures Good(FinishAttempt(db, attemptId, t, timestamp, error, result, metadata).value.0)
    ensures Extends(db, FinishAttempt(db, attemptId, t, timestamp, error, result, metadata).value.0)
  {
    RowOf(db, attemptId);
    RowLinked(db, attemptId);
    hide Good, Extends, AppendEvent, FinishingEvent;
    var a := db.attempts[attemptId];
    FinishingFits(db, a, t, timestamp, error, result, metadata);
    TerminalEmit(db, attemptId, FinishingEvent(db, a, t, timestamp, error, result, metadata));
  }

  lemma RowLinked(db: Db, id: string)
    requires Good(db) && id in db.attempts
    ensures db.attempts[id].executionId.Some? && db.attempts[id].executionId.value in db.executions
  {
  }

  lemma FinishingFits(
    db: Db, a: Attempt, t: EventType, timestamp: Time, error: Option<ErrorInfo>, result: Option<Json>, metadata: Json)
    requires t.IsTerminalAttempt()
    ensures var e := FinishingEvent(db, a, t, timestamp, error, result, metadata);
      && e.eventType == t && e.runtimeId == a.runtimeId && e.attemptId == Some(a.attemptId)
      && e.processId == Some(a.processId) && e.executionId == a.executionId && e.checkpointId == a.checkpointId
      && e.payload.resumedFromAttemptId.None? && Legible(e)
      && e.status == Some(DefaultStatus(t)) && e.statusClass == Some(DefaultClass(t))
  {
  }

  // ---------------------------------------------------------------- commands

  lemma CommandEmit(db: Db, e: Event, row: CommandRecord)
    requires Good(db) && e.runtimeId == db.identity.runtimeId && e.eventType.IsCommand() && Legible(e)
    requires Refers(db.executions, e.executionId) && CommandAdmits(db.commands, StoredEvent(db, e))
    requires CommandEffect(db.commands, StoredEvent(db, e)) == db.commands[e.subjectId.value := row]
    ensures AppendEvent(db, e).Success? && AppendEvent(db, e).value.1 == StoredEvent(db, e)
    ensures var d := AppendEvent(db, e).value.0;
      var after := d.(commands := d.commands[e.subjectId.value := row]);
      Good(after) && Extends(db, after) && after == Emitted(db, StoredEvent(db, e), db.sessions)
  {
    hide Good, Extends, ExecutionEffect, AttemptEffect, CommandEffect, AppendEvent, Legible, CommandAdmits;
    hide AttemptAdmits, Admits, TouchExecution;
    var stored := StoredEvent(db, e);
    StoredLegible(db, e);
    NotAttempt(db.attempts, stored);
    OnlyTouched(db.executions, stored);
    AppendedInGood(db, e);
    OtherTables(db, stored);
    CommandAdmitted(db, stored);
    EmitGood(db, stored, db.sessions);
  }

  /** An event that is no execution event only touches its execution. */
  lemma OnlyTouched(executions: map<string, ExecutionRecord>, e: Event)
    requires !e.eventType.IsExecution()
    ensures ExecutionEffect(executions, e) == TouchExecution(executions, e)
  {
  }

  lemma CommandAdmitted(db: Db, e: Event)
    requires Canonical(e, |db.log|, db.identity.runtimeId) && Legible(e) && e.eventType.IsCommand()
    requires Refers(db.executions, e.executionId) && CommandAdmits(db.commands, e)
    ensures Admits(db, e, db.sessions)
  {
    hide CommandAdmits, Legible;
  }

  lemma ReserveStep(
    db: Db, commandId: string, commandType: string, timestamp: Time, targetId: Option<string>,
    executionId: Option<string>, backendSessionId: Option<string>, request: Json, metadata: Json)
    requires Good(db) && Refers(db.executions, executionId)
    requires ReserveCommand(db, commandId, commandType, timestamp, targetId, executionId, backendSessionId,
                            request, metadata).Success?
    ensures Good(ReserveCommand(db, commandId, commandType, timestamp, targetId, executionId, backendSessionId,
                                request, metadata).value.0)
    ensures Extends(db, ReserveCommand(db, commandId, commandType, timestamp, targetId, executionId, backendSessionId,
                                request, metadata).value.0)
  {
    hide Good, AppendEvent, AcceptanceEvent, Blank;
    if commandId in db.commands {
      assert Extends(db, db);
    } else {
      var (after, r) := ReserveCommand(db, commandId, commandType, timestamp, targetId, executionId,
                                       backendSessionId, request, metadata).value;
      var e := AcceptanceEvent(db, commandId, commandType, timestamp, targetId, executionId, backendSessionId, request,
                               metadata);
      hide Extends;
      AcceptanceFits(db, commandId, commandType, timestamp, targetId, executionId, backendSessionId, request, metadata);
      CommandEmit(db, e, AcceptedBy(StoredEvent(db, e)));
      hide AcceptedBy;
      assert r.record == AcceptedBy(StoredEvent(db, e));
    }
  }

  lemma AcceptanceFits(
    db: Db, commandId: string, commandType: string, timestamp: Time, targetId: Option<string>,
    executionId: Option<string>, backendSessionId: Option<string>, request: Json, metadata: Json)
    requires commandId !in db.commands && !Blank(commandId) && !Blank(commandType)
    ensures var e := AcceptanceEvent(db, commandId, commandType, timestamp, targetId, executionId, backendSessionId,
                                     request, metadata);
      var stored := StoredEvent(db, e);
      && e.eventType.IsCommand() && e.runtimeId == db.identity.runtimeId && e.executionId == executionId
      && e.subjectId == Some(commandId) && Legible(e) && CommandAdmits(db.commands, stored)
      && CommandEffect(db.commands, stored) == db.commands[commandId := AcceptedBy(stored)]
      && AcceptedBy(stored) == CommandRecord(
           commandId, db.identity.runtimeId, commandType, Fingerprint(commandType, targetId, executionId, request),
           targetId, executionId, backendSessionId, Accepted, timestamp, None, stored.sequence.value,
           stored.sequence.value, request, Null, None, metadata)
  {
    hide Blank;
  }

  lemma ReceiptOf(db: Db, id: string)
    requires Synced(db) && id in db.commands
    ensures db.commands[id].commandId == id && db.commands[id].runtimeId == db.identity.runtimeId
  {
  }

  lemma FinishCommandStep(
    db: Db, commandId: string, status: CommandStatus, timestamp: Time, result: Json, error: Option<ErrorInfo>)
    requires Good(db) && FinishCommand(db, commandId, status, timestamp, result, error).Success?
    ensures Good(FinishCommand(db, commandId, status, timestamp, result, error).value.0)
    ensures Extends(db, FinishCommand(db, commandId, status, timestamp, result, error).value.0)
  {
    hide Synced, Observed, Settled, WriteAttempt, TouchExecution;
    ReceiptOf(db, commandId);
    var r := db.commands[commandId];
    if r.status.Accepted? {
      var (after, row) := FinishCommand(db, commandId, status, timestamp, result, error).value;
      var done := status.CommandDone?;
      var e := Draft(r.runtimeId, if done then CommandSucceeded else CommandFailed, timestamp).(
        executionId := r.executionId, subjectType := Some("command"), subjectId := Some(r.commandId),
        status := Some(if done then Succeeded else Failed),
        statusClass := Some(if done then TerminalSuccess else TerminalFailure), error := error,
        payload := NO_PAYLOAD.(result := Some(result)));
      assert row == FinishedBy(r, StoredEvent(db, e));
      CommandEmit(db, e, row);
    }
  }
}
