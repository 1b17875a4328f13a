/** What each store operation does, on its arguments alone: exactly when it commits, the rows it writes and
    the events it appends, field by field. */
module StoreEffects {
  import opened RuntimeTypes
  import opened RuntimeProjections
  import opened LedgerReplay
  import opened DurableTables
  import opened StoreInvariant
  import opened StoreProtocol
  import opened StoreSteps

  // ---------------------------------------------------------------- databases

  /** What the effects rest on: a dense log, and rows filed under their own ids. */
  ghost predicate Orderly(db: Db) {
    && Dense(db.log, db.identity.runtimeId) && SessionsRight(db.sessions, db.identity.runtimeId)
    && (forall id | id in db.executions ::
          db.executions[id].executionId == id && db.executions[id].runtimeId == db.identity.runtimeId)
    && (forall id | id in db.attempts ::
          && db.attempts[id].attemptId == id && db.attempts[id].runtimeId == db.identity.runtimeId
          && db.attempts[id].executionId.Some? && db.attempts[id].executionId.value in db.executions)
    && (forall id | id in db.commands ::
          db.commands[id].commandId == id && db.commands[id].runtimeId == db.identity.runtimeId)
  }

  /** Every database of a disciplined run is orderly. */
  lemma GoodIsOrderly(db: Db)
    requires Good(db)
    ensures Orderly(db)
  {
    hide Mirrors, Watch, Settled, Readable;
    forall id | id in db.attempts
      ensures db.attempts[id].attemptId == id && db.attempts[id].runtimeId == db.identity.runtimeId
    {
      RowOf(db, id);
    }
  }

  // ---------------------------------------------------------------- one appended event

  /** The `n`-th event of a log with no field filled in but those every event has. */
  function Nth(n: int, runtimeId: string, t: EventType, timestamp: Time): Event {
    Event(IntId(n), runtimeId, t, timestamp, None, None, None, None, None, Some(n),
          None, None, None, None, None, None, None, NO_PAYLOAD, Null)
  }

  /** An event that names no attempt and no execution changes nothing but the log. */
  lemma LoggedAlone(db: Db, e: Event)
    requires MaxSequence(db.log) == |db.log| - 1 && e.runtimeId == db.identity.runtimeId
    requires !e.eventType.IsAttempt() && e.executionId.None?
    ensures AppendEvent(db, e) ==
      var stored := e.(eventId := IntId(|db.log|), sequence := Some(|db.log|));
      Success((db.(log := db.log + [stored]), stored))
  {
  }

  /** An event of an execution moves the last sequence of its row, and nothing else. */
  lemma LoggedFor(db: Db, e: Event)
    requires MaxSequence(db.log) == |db.log| - 1 && e.runtimeId == db.identity.runtimeId
    requires !e.eventType.IsAttempt() && e.executionId.Some?
    ensures AppendEvent(db, e).Success?
    ensures AppendEvent(db, e).value ==
      var stored, x := e.(eventId := IntId(|db.log|), sequence := Some(|db.log|)), e.executionId.value;
      (db.(log := db.log + [stored],
           executions := if x in db.executions
             then db.executions[x := db.executions[x].(lastEventSequence := Some(|db.log|))] else db.executions),
       stored)
  {
  }

  lemma LastOfLog(db: Db)
    requires Orderly(db)
    ensures MaxSequence(db.log) == |db.log| - 1
  {
    DenseMax(db.log, db.identity.runtimeId);
  }

  // ---------------------------------------------------------------- leases

  /** The session holds the lease: its row is active, it is the caller's, and it has not expired. */
  predicate Holds(sessions: map<string, Session>, id: string, ownerId: string, now: Time) {
    && id in sessions && sessions[id].status.ActiveSession?
    && sessions[id].ownerId == ownerId && sessions[id].expiresAt > now
  }

  lemma HoldsExactly(db: Db, id: string, ownerId: string, now: Time)
    requires Orderly(db)
    ensures HoldsLease(db, id, ownerId, now) <==> Holds(db.sessions, id, ownerId, now)
    ensures HoldsLease(db, id, ownerId, now) ==> LoadActive(db.sessions) == Some(db.sessions[id])
  {
    hide Orderly, LoadActive;
    ActiveExactly(db);
    assert IsActive(db.sessions, id) <==> id in db.sessions && db.sessions[id].status.ActiveSession?;
  }

  lemma SessionNamed(db: Db, id: string)
    requires Orderly(db) && id in db.sessions
    ensures db.sessions[id].sessionId == id && db.sessions[id].runtimeId == db.identity.runtimeId
  {
  }

  /** Every session event of a row. */
  function SessionEntry(n: int, s: Session, t: EventType, now: Time, status: string, c: StatusClass): Event {
    Nth(n, s.runtimeId, t, now).(
      subjectType := Some("backend_session"), subjectId := Some(s.sessionId), status := Some(Custom(status)),
      statusClass := Some(c), payload := NO_PAYLOAD.(ownerId := s.ownerId, expiresAt := s.expiresAt),
      metadata := s.metadata)
  }

  lemma SessionLogged(db: Db, s: Session, t: EventType, now: Time)
    requires MaxSequence(db.log) == |db.log| - 1 && s.runtimeId == db.identity.runtimeId && t.IsSession()
    ensures WriteSession(db, s, t, now) ==
      Success((db.(
        sessions := db.sessions[s.sessionId := s],
        log := db.log + [match s.status
                         case ActiveSession => SessionEntry(|db.log|, s, t, now, "active", Active)
                         case ReleasedSession => SessionEntry(|db.log|, s, t, now, "released", TerminalSuccess)
                         case ExpiredSession => SessionEntry(|db.log|, s, t, now, "expired", TerminalSuccess)]), s))
  {
    hide AppendEvent;
    LoggedAlone(db.(sessions := db.sessions[s.sessionId := s]), SessionEvent(s, t, now));
  }

  /** Renewing: by the owner of the live lease only, and it moves the expiry to `now + ttl`. */
  lemma RenewEffect(db: Db, id: string, ownerId: string, now: Time, ttl: Time)
    requires Orderly(db)
    ensures RenewSession(db, id, ownerId, now, ttl).Success? <==> ttl > 0.0 && Holds(db.sessions, id, ownerId, now)
    ensures RenewSession(db, id, ownerId, now, ttl).Success? ==>
      var row := db.sessions[id].(heartbeatAt := now, expiresAt := now + ttl);
      RenewSession(db, id, ownerId, now, ttl).value ==
        (db.(sessions := db.sessions[id := row],
             log := db.log + [SessionEntry(|db.log|, row, SessionRenewed, now, "active", Active)]), row)
  {
    hide Orderly, HoldsLease, WriteSession, LoadActive;
    LastOfLog(db);
    HoldsExactly(db, id, ownerId, now);
    if id in db.sessions { SessionNamed(db, id); }
    if ttl > 0.0 && Holds(db.sessions, id, ownerId, now) {
      SessionLogged(db, db.sessions[id].(heartbeatAt := now, expiresAt := now + ttl), SessionRenewed, now);
    }
  }

  /** Releasing: by the owner of the live lease only. */
  lemma ReleaseEffect(db: Db, id: string, ownerId: string, now: Time)
    requires Orderly(db)
    ensures ReleaseSession(db, id, ownerId, now).Success? <==> Holds(db.sessions, id, ownerId, now)
    ensures ReleaseSession(db, id, ownerId, now).Success? ==>
      var row := db.sessions[id].(status := ReleasedSession, releasedAt := Some(now));
      ReleaseSession(db, id, ownerId, now).value ==
        (db.(sessions := db.sessions[id := row],
             log := db.log + [SessionEntry(|db.log|, row, SessionReleased, now, "released", TerminalSuccess)]), row)
  {
    hide Orderly, HoldsLease, WriteSession, LoadActive;
    LastOfLog(db);
    HoldsExactly(db, id, ownerId, now);
    if id in db.sessions { SessionNamed(db, id); }
    if Holds(db.sessions, id, ownerId, now) {
      SessionLogged(db, db.sessions[id].(status := ReleasedSession, releasedAt := Some(now)), SessionReleased, now);
    }
  }

  /** Acquiring: when no lease is live and the id is new. An owner past its expiry is marked expired first. */
  lemma AcquireEffect(db: Db, id: string, ownerId: string, now: Time, ttl: Time, metadata: Json)
    requires Orderly(db)
    ensures AcquireSession(db, id, ownerId, now, ttl, metadata).Success? <==>
      && ttl > 0.0 && id !in db.sessions && !Blank(id) && !Blank(ownerId)
      && forall s | s in db.sessions && db.sessions[s].status.ActiveSession? :: db.sessions[s].expiresAt <= now
    ensures AcquireSession(db, id, ownerId, now, ttl, metadata).Success? ==>
      var (after, row) := AcquireSession(db, id, ownerId, now, ttl, metadata).value;
      && row == Session(id, db.identity.runtimeId, ownerId, ActiveSession, now, now, now + ttl, None, metadata)
      && (if exists s :: IsActive(db.sessions, s)
          then exists s :: IsActive(db.sessions, s) && Displaced(db, s, row, now, after)
          else after == db.(sessions := db.sessions[id := row],
                            log := db.log + [SessionEntry(|db.log|, row, SessionAcquired, now, "active", Active)]))
  {
    hide Orderly, LoadActive, WriteSession, DisplaceSession, Blank, Displaced, SessionEntry;
    LastOfLog(db);
    ActiveExactly(db);
    var active := LoadActive(db.sessions);
    if active.Some? { SessionNamed(db, active.value.sessionId); }
    forall s | s in db.sessions && db.sessions[s].status.ActiveSession?
      ensures active.Some? && s == active.value.sessionId
    {
      assert IsActive(db.sessions, s);
    }
    assert active.Some? ==> active.value.sessionId in db.sessions;
    var row := Session(id, db.identity.runtimeId, ownerId, ActiveSession, now, now, now + ttl, None, metadata);
    DisplacedWrites(db, active, row, now);
  }

  lemma ActiveExactly(db: Db)
    requires Orderly(db)
    ensures LoadActive(db.sessions).None? <==> forall s :: !IsActive(db.sessions, s)
    ensures LoadActive(db.sessions).Some? ==>
      var a := LoadActive(db.sessions).value;
      && IsActive(db.sessions, a.sessionId) && db.sessions[a.sessionId] == a
      && forall s | IsActive(db.sessions, s) :: s == a.sessionId
  {
    ActiveLoaded(db);
  }

  /** The old owner's row is marked expired now, and the new one's written after it. */
  ghost predicate Displaced(db: Db, former: string, row: Session, now: Time, after: Db)
    requires former in db.sessions
  {
    var expired := db.sessions[former].(status := ExpiredSession, releasedAt := Some(now));
    after == db.(
      sessions := db.sessions[former := expired][row.sessionId := row],
      log := db.log + [SessionEntry(|db.log|, expired, SessionExpired, now, "expired", TerminalSuccess),
                       SessionEntry(|db.log| + 1, row, SessionAcquired, now, "active", Active)])
  }

  lemma LongerLog(log: seq<Event>, e: Event)
    requires MaxSequence(log) == |log| - 1 && e.sequence == Some(|log|)
    ensures MaxSequence(log + [e]) == |log|
  {
    assert (log + [e])[..|log|] == log;
  }

  /** The transaction after its checks: the displacement if there is one, then the new session. */
  lemma DisplacedWrites(db: Db, active: Option<Session>, row: Session, now: Time)
    requires MaxSequence(db.log) == |db.log| - 1 && row.status.ActiveSession? && row.runtimeId == db.identity.runtimeId
    requires active.Some? ==>
      active.value.sessionId in db.sessions && db.sessions[active.value.sessionId] == active.value
      && active.value.runtimeId == db.identity.runtimeId
    ensures DisplaceSession(db, active, now).Success?
    ensures var d := DisplaceSession(db, active, now).value;
      && d.sessions.Keys == db.sessions.Keys && d.identity == db.identity
      && var r := WriteSession(d, row, SessionAcquired, now);
      && r.Success? && r.value.1 == row
      && (active.Some? ==> Displaced(db, active.value.sessionId, row, now, r.value.0))
      && (active.None? ==>
            r.value.0 == db.(
              sessions := db.sessions[row.sessionId := row],
              log := db.log + [SessionEntry(|db.log|, row, SessionAcquired, now, "active", Active)]))
  {
    hide WriteSession;
    if active.Some? {
      var expired := active.value.(status := ExpiredSession, releasedAt := Some(now));
      SessionLogged(db, expired, SessionExpired, now);
      LongerLog(db.log, SessionEntry(|db.log|, expired, SessionExpired, now, "expired", TerminalSuccess));
    }
    SessionLogged(DisplaceSession(db, active, now).value, row, SessionAcquired, now);
  }

  // ---------------------------------------------------------------- executions

  /** The status, the class and the event an execution moves to. */
  predicate MovesTo(status: Status, t: EventType, c: StatusClass) {
    match status
    case Running => t.ExecutionStarted? && c.Active?
    case Succeeded => t.ExecutionCompleted? && c.TerminalSuccess?
    case Failed => t.ExecutionFailed? && c.TerminalFailure?
    case Cancelled => t.ExecutionCancelled? && c.TerminalCancelled?
    case Interrupted => t.ExecutionInterrupted? && c.TerminalFailure?
    case _ => false
  }

  /** The first execution is initial, the later ones continue; each gets the next ordinal. */
  lemma BeginExecutionEffect(
    db: Db, id: string, kind: ExecutionKind, createdAt: Time, backendSessionId: Option<string>,
    recoveryPlanId: Option<string>, metadata: Json)
    requires Orderly(db)
    ensures BeginExecution(db, id, kind, createdAt, backendSessionId, recoveryPlanId, metadata).Success? <==>
      id !in db.executions && !Blank(id) && (kind.Initial? <==> db.executions == map[])
    ensures BeginExecution(db, id, kind, createdAt, backendSessionId, recoveryPlanId, metadata).Success? ==>
      var n, rid, ordinal := |db.log|, db.identity.runtimeId, |db.executions| + 1;
      var row := ExecutionRecord(id, rid, kind, ordinal, Pending, backendSessionId, recoveryPlanId, createdAt, None,
                                 None, Some(n), Some(n), None, metadata);
      BeginExecution(db, id, kind, createdAt, backendSessionId, recoveryPlanId, metadata).value ==
        (db.(executions := db.executions[id := row],
             log := db.log + [Nth(n, rid, ExecutionCreated, createdAt).(
               executionId := Some(id), status := Some(Pending), statusClass := Some(NotStarted),
               payload := NO_PAYLOAD.(kind := kind, ordinal := Some(ordinal), backendSessionId := backendSessionId,
                                      recoveryPlanId := recoveryPlanId),
               metadata := metadata)]), row)
  {
    hide Orderly, AppendEvent, Blank, Draft, Nth;
    LastOfLog(db);
    DraftedNth(db, ExecutionCreated, createdAt);
    if id !in db.executions {
      LoggedFor(db, Draft(db.identity.runtimeId, ExecutionCreated, createdAt).(
        executionId := Some(id), status := Some(Pending), statusClass := Some(NotStarted),
        payload := NO_PAYLOAD.(kind := kind, ordinal := Some(|db.executions| + 1), backendSessionId := backendSessionId,
                               recoveryPlanId := recoveryPlanId),
        metadata := metadata));
    }
  }

  /** A provisional event is empty, and its stored form is the next entry. */
  lemma DraftedNth(db: Db, t: EventType, timestamp: Time)
    ensures var e := Draft(db.identity.runtimeId, t, timestamp);
      && e.runtimeId == db.identity.runtimeId && e.eventType == t
      && e.executionId.None?
      && e.(eventId := IntId(|db.log|), sequence := Some(|db.log|))
         == Nth(|db.log|, db.identity.runtimeId, t, timestamp)
  {
  }

  /** A pending execution starts, is cancelled or is interrupted; a running one ends. */
  lemma TransitionCommits(db: Db, id: string, status: Status, timestamp: Time, error: Option<ErrorInfo>)
    requires Orderly(db)
    ensures TransitionExecution(db, id, status, timestamp, error).Success? <==>
      && id in db.executions
      && (match db.executions[id].status
          case Pending => status.Running? || status.Cancelled? || status.Interrupted?
          case Running => status.Succeeded? || status.Failed? || status.Cancelled? || status.Interrupted?
          case _ => false)
  {
    hide Orderly, AppendEvent, ExecutionEventType, ExecutionEventClass, AllowedTransition;
    if id in db.executions {
      Allowed(db.executions, id, status);
      if AllowedTransition(db.executions[id].status, status) {
        RecordNamed(db, id);
        TypesMove(db.executions[id].status, status);
        LastOfLog(db);
        LoggedFor(db, Draft(db.identity.runtimeId, ExecutionEventType(status), timestamp).(
          executionId := Some(id), status := Some(status), statusClass := Some(ExecutionEventClass(status)),
          error := error));
      }
    }
  }

  /** What a transition leaves: the new status, its time and its error in the row, and one event that says so. */
  lemma TransitionEffect(db: Db, id: string, status: Status, timestamp: Time, error: Option<ErrorInfo>)
    requires Orderly(db) && TransitionExecution(db, id, status, timestamp, error).Success?
    ensures id in db.executions
    ensures
      var (after, row) := TransitionExecution(db, id, status, timestamp, error).value;
      var n, before := |db.log|, db.executions[id];
      && row == before.(status := status, error := error, lastEventSequence := Some(n),
                        startedAt := if status.Running? then Some(timestamp) else before.startedAt,
                        finishedAt := if status.Running? then before.finishedAt else Some(timestamp))
      && after == db.(executions := db.executions[id := row], log := after.log)
      && exists t, c :: MovesTo(status, t, c) && after.log == db.log + [
           Nth(n, db.identity.runtimeId, t, timestamp).(
             executionId := Some(id), status := Some(status), statusClass := Some(c), error := error)]
  {
    hide Orderly, AppendEvent, ExecutionEventType, ExecutionEventClass, Draft, Nth, MovesTo, AllowedTransition;
    LastOfLog(db);
    RecordNamed(db, id);
    TypesMove(db.executions[id].status, status);
    DraftedNth(db, ExecutionEventType(status), timestamp);
    LoggedFor(db, Draft(db.identity.runtimeId, ExecutionEventType(status), timestamp).(
      executionId := Some(id), status := Some(status), statusClass := Some(ExecutionEventClass(status)),
      error := error));
  }

  lemma TypesMove(before: Status, status: Status)
    requires AllowedTransition(before, status)
    ensures MovesTo(status, ExecutionEventType(status), ExecutionEventClass(status))
    ensures !ExecutionEventType(status).IsAttempt()
  {
  }

  lemma Allowed(executions: map<string, ExecutionRecord>, id: string, status: Status)
    requires id in executions
    ensures AllowedTransition(executions[id].status, status) <==>
      match executions[id].status
      case Pending => status.Running? || status.Cancelled? || status.Interrupted?
      case Running => status.Succeeded? || status.Failed? || status.Cancelled? || status.Interrupted?
      case _ => false
  {
  }

  lemma RecordNamed(db: Db, id: string)
    requires Orderly(db) && id in db.executions
    ensures db.executions[id].executionId == id && db.executions[id].runtimeId == db.identity.runtimeId
  {
  }

  // ---------------------------------------------------------------- declarations

  /** A process is declared once: again under the same declaration it is a no-op, under another it raises. */
  lemma DeclareEffect(db: Db, spec: ProcessSpec, timestamp: Time)
    requires Orderly(db)
    ensures var id := spec.ResolvedId();
      DeclareProcess(db, spec, timestamp) ==
      if id !in db.specs then
        Success((db.(specs := db.specs[id := spec],
                     log := db.log + [Nth(|db.log|, db.identity.runtimeId, ProcessCreated, timestamp).(
                       processId := Some(id), parentProcessId := spec.parentProcessId, status := Some(Pending),
                       statusClass := Some(NotStarted),
                       payload := NO_PAYLOAD.(processType := Some(spec.processType)),
                       metadata := spec.metadata)]), true))
      else if db.specs[id] == spec then Success((db, false)) else Failure(SpecChanged)
    ensures spec.ResolvedId() ==
      if spec.processId == None || spec.processId == Some("") then spec.processType else spec.processId.value
  {
    hide Orderly, AppendEvent;
    LastOfLog(db);
    var id := spec.ResolvedId();
    if id !in db.specs {
      LoggedAlone(db.(specs := db.specs[id := spec]), Draft(db.identity.runtimeId, ProcessCreated, timestamp).(
        processId := Some(id), parentProcessId := spec.parentProcessId, status := Some(Pending),
        statusClass := Some(NotStarted), payload := NO_PAYLOAD.(processType := Some(spec.processType)),
        metadata := spec.metadata));
    }
  }

  /** Bulk declarations: the last one of each id wins, the others stay, and no event is appended. */
  lemma {:induction false} WriteSpecsEffect(db: Db, specs: seq<ProcessSpec>)
    ensures var after := WriteSpecs(db, specs);
      && after == db.(specs := after.specs)
      && (forall id :: id in after.specs <==> id in db.specs || exists s :: s in specs && s.ResolvedId() == id)
      && (forall id | id in after.specs && !(exists s :: s in specs && s.ResolvedId() == id) ::
            after.specs[id] == db.specs[id])
      && (forall k | 0 <= k < |specs|
                     && (forall j | k < j < |specs| :: specs[j].ResolvedId() != specs[k].ResolvedId()) ::
            after.specs[specs[k].ResolvedId()] == specs[k])
  {
    if specs != [] {
      var init, last := specs[..|specs| - 1], specs[|specs| - 1];
      assert specs == init + [last];
      WriteSpecsEffect(db, init);
    }
  }

  // ---------------------------------------------------------------- attempts

  /** How an attempt ends: the status and the class that go with the event. */
  predicate EndsAs(t: EventType, status: Status, c: StatusClass) {
    match t
    case AttemptCompleted => status.Succeeded? && c.TerminalSuccess?
    case AttemptFailed => status.Failed? && c.TerminalFailure?
    case AttemptCancelled => status.Cancelled? && c.TerminalCancelled?
    case AttemptInterrupted => status.Interrupted? && c.TerminalFailure?
    case _ => false
  }

  /** An open attempt and one of the four terminal events are all it takes. */
  lemma FinishAttemptCommits(
    db: Db, id: string, t: EventType, timestamp: Time, error: Option<ErrorInfo>, result: Option<Json>, metadata: Json)
    requires Orderly(db)
    ensures FinishAttempt(db, id, t, timestamp, error, result, metadata).Success? <==>
      && (t.AttemptCompleted? || t.AttemptFailed? || t.AttemptCancelled? || t.AttemptInterrupted?)
      && id in db.attempts && (db.attempts[id].statusClass.NotStarted? || db.attempts[id].statusClass.Active?)
  {
    hide FinishingEvent;
    if t.IsTerminalAttempt() && id in db.attempts {
      FinishingNames(db, id, t, timestamp, error, result, metadata);
    }
    hide Orderly, StoredEvent, UpdatedRow;
  }

  lemma FinishingNames(
    db: Db, id: string, t: EventType, timestamp: Time, error: Option<ErrorInfo>, result: Option<Json>, metadata: Json)
    requires Orderly(db) && t.IsTerminalAttempt() && id in db.attempts
    ensures var e := FinishingEvent(db, db.attempts[id], t, timestamp, error, result, metadata);
      && e.eventType == t && e.runtimeId == db.identity.runtimeId && TouchesAttempt(e) && e.attemptId.value == id
      && e.executionId.Some? && e.executionId.value in db.executions
  {
  }

  /** The event, with everything it takes over from the attempt's row and its process's declaration. */
  ghost predicate FinishedEntry(
    e: Event, db: Db, a: Attempt, t: EventType, timestamp: Time, error: Option<ErrorInfo>, result: Option<Json>,
    metadata: Json)
  {
    exists status, c :: EndsAs(t, status, c) &&
      e == Nth(|db.log|, db.identity.runtimeId, t, timestamp).(
        executionId := a.executionId, processId := Some(a.processId), attemptId := Some(a.attemptId),
        parentProcessId := if a.processId in db.specs then db.specs[a.processId].parentProcessId else None,
        checkpointId := a.checkpointId, status := Some(status), statusClass := Some(c), error := error,
        payload := NO_PAYLOAD.(
          ordinal := Some(a.ordinal), operation := e.payload.operation, executionKey := a.executionKey,
          inputFingerprint := a.inputFingerprint, implementationVersion := a.implementationVersion,
          backendSessionId := a.backendSessionId, result := result),
        metadata := metadata)
      && e.payload.operation == Some(match a.operation
                                     case Some(Start) => StartText
                                     case Some(Resume) => ResumeText
                                     case Some(Retry) => RetryText
                                     case _ => OtherText)
  }

  /** What a finished attempt leaves: its row with the new status, the finish time and the error, if one was
      given; one event that carries the error and the result; and nothing else but the last sequence of the
      attempt's execution. */
  lemma FinishAttemptEffect(
    db: Db, id: string, t: EventType, timestamp: Time, error: Option<ErrorInfo>, result: Option<Json>, metadata: Json)
    requires Orderly(db) && FinishAttempt(db, id, t, timestamp, error, result, metadata).Success?
    ensures id in db.attempts
    ensures var (after, row) := FinishAttempt(db, id, t, timestamp, error, result, metadata).value;
      var a, n := db.attempts[id], |db.log|;
      && a.executionId.Some? && a.executionId.value in db.executions
      && after == db.(
           attempts := db.attempts[id := row], log := after.log,
           executions := db.executions[
             a.executionId.value := db.executions[a.executionId.value].(lastEventSequence := Some(n))])
      && EndsAs(t, row.status, row.statusClass)
      && row == a.(status := row.status, statusClass := row.statusClass, finishedAt := Some(timestamp),
                   lastEventSequence := Some(n), error := if error.Some? then error else a.error)
      && exists e :: after.log == db.log + [e] && FinishedEntry(e, db, a, t, timestamp, error, result, metadata)
  {
    hide FinishingEvent, FinishedEntry, EndsAs;
    LastOfLog(db);
    FinishingNames(db, id, t, timestamp, error, result, metadata);
    var a := db.attempts[id];
    var e := FinishingEvent(db, a, t, timestamp, error, result, metadata);
    FinishingFilled(db, a, t, timestamp, error, result, metadata);
    hide Orderly;
    assert FinishedEntry(StoredEvent(db, e), db, a, t, timestamp, error, result, metadata);
  }

  lemma FinishingFilled(
    db: Db, a: Attempt, t: EventType, timestamp: Time, error: Option<ErrorInfo>, result: Option<Json>, metadata: Json)
    requires t.IsTerminalAttempt() && MaxSequence(db.log) == |db.log| - 1 && a.runtimeId == db.identity.runtimeId
    ensures var e := FinishingEvent(db, a, t, timestamp, error, result, metadata);
      && FinishedEntry(StoredEvent(db, e), db, a, t, timestamp, error, result, metadata)
      && e.status.Some? && e.statusClass.Some? && EndsAs(t, e.status.value, e.statusClass.value)
      && e.timestamp == timestamp && e.error == error
  {
    assert EndsAs(t, DefaultStatus(t), DefaultClass(t));
  }

  /** An appended attempt event: the row as the store writes it, and the last sequence of the execution. */
  lemma LoggedAttempt(db: Db, e: Event)
    requires MaxSequence(db.log) == |db.log| - 1 && e.runtimeId == db.identity.runtimeId && TouchesAttempt(e)
    requires e.executionId.Some? && e.executionId.value in db.executions && AppendEvent(db, e).Success?
    ensures var s, id, x :=
      e.(eventId := IntId(|db.log|), sequence := Some(|db.log|)), e.attemptId.value, e.executionId.value;
      AppendEvent(db, e).value ==
        (db.(log := db.log + [s],
             attempts := db.attempts[id := UpdatedRow(if id in db.attempts then db.attempts[id] else NewRow(s), s)],
             executions := db.executions[x := db.executions[x].(lastEventSequence := Some(|db.log|))]), s)
  {
    hide UpdatedRow, NewRow, RowMalformed, RowTaken, RowOrdinal;
  }

  /** Either event of a new attempt. */
  function OpeningEntry(
    n: int, runtimeId: string, t: EventType, status: Status, c: StatusClass, spec: ProcessSpec, a: Attempt,
    timestamp: Time, operation: Operation, metadata: Json): Event
  {
    Nth(n, runtimeId, t, timestamp).(
      executionId := a.executionId, processId := Some(a.processId), parentProcessId := spec.parentProcessId,
      attemptId := Some(a.attemptId), checkpointId := a.checkpointId, status := Some(status), statusClass := Some(c),
      payload := NO_PAYLOAD.(
        ordinal := Some(a.ordinal),
        operation := Some(match operation
                          case Start => StartText
                          case Resume => ResumeText
                          case Retry => RetryText
                          case _ => OtherText),
        executionKey := spec.executionKey, inputFingerprint := spec.inputFingerprint,
        implementationVersion := spec.implementationVersion, backendSessionId := a.backendSessionId,
        resumedFromAttemptId := a.resumedFromAttemptId),
      metadata := metadata)
  }

  /** The row of a new attempt, once both its events are appended. */
  function OpenedRow(
    n: int, runtimeId: string, spec: ProcessSpec, process: string, executionId: string, ordinal: int, timestamp: Time,
    operation: Operation, backendSessionId: Option<string>, resumedFrom: Option<string>, checkpointId: Option<string>):
    Attempt
  {
    Attempt(process + ":attempt:" + Decimal(ordinal), process, runtimeId, Some(executionId), ordinal,
            (match operation
             case Start => Some(Start)
             case Resume => Some(Resume)
             case Retry => Some(Retry)
             case _ => None),
            spec.executionKey, spec.inputFingerprint, spec.implementationVersion, Running, Active, Some(timestamp),
            None, resumedFrom, checkpointId, backendSessionId, Some(n), Some(n + 1), None)
  }

  lemma OpeningFilled(
    db: Db, t: EventType, spec: ProcessSpec, row: Attempt, ordinal: int, timestamp: Time, operation: Operation,
    metadata: Json)
    requires t.AttemptCreated? || t.AttemptStarted?
    requires row.executionId.Some? && row.attemptId == AttemptId(row.processId, ordinal) && row.ordinal == ordinal
    ensures var e := AttemptEvent(db, t, spec, row.processId, row.executionId.value, ordinal, timestamp, operation,
                                  row.backendSessionId, row.resumedFromAttemptId, row.checkpointId, metadata);
      e.(eventId := IntId(|db.log|), sequence := Some(|db.log|)) ==
        if t.AttemptCreated? then
          OpeningEntry(|db.log|, db.identity.runtimeId, t, Pending, NotStarted, spec, row, timestamp, operation,
                       metadata)
        else
          OpeningEntry(|db.log|, db.identity.runtimeId, t, Running, Active, spec, row, timestamp, operation, metadata)
  {
    hide AttemptId;
  }

  /** Inserted by the created event and updated by the started one. */
  lemma RowOpened(
    n: int, runtimeId: string, spec: ProcessSpec, process: string, executionId: string, ordinal: int, timestamp: Time,
    operation: Operation, backendSessionId: Option<string>, resumedFrom: Option<string>, checkpointId: Option<string>,
    metadata: Json)
    requires ordinal >= 1
    ensures var row := OpenedRow(n, runtimeId, spec, process, executionId, ordinal, timestamp, operation,
                                 backendSessionId, resumedFrom, checkpointId);
      var s := OpeningEntry(n, runtimeId, AttemptCreated, Pending, NotStarted, spec, row, timestamp, operation,
                            metadata);
      var t := OpeningEntry(n + 1, runtimeId, AttemptStarted, Running, Active, spec, row, timestamp, operation,
                            metadata);
      UpdatedRow(UpdatedRow(NewRow(s), s), t) == row
  {
  }

  /** A begun attempt: the next ordinal of its process, the id made from it, a running row with everything the
      declaration and the call say, and its two events. */
  lemma BeginAttemptEffect(
    db: Db, process: string, executionId: string, timestamp: Time, operation: Operation,
    backendSessionId: Option<string>, resumedFrom: Option<string>, checkpointId: Option<string>, metadata: Json)
    requires Good(db)
    requires BeginAttempt(db, process, executionId, timestamp, operation, backendSessionId, resumedFrom, checkpointId,
                          metadata).Success?
    ensures process in db.specs && executionId in db.executions
    ensures var (after, row) := BeginAttempt(db, process, executionId, timestamp, operation, backendSessionId,
                                             resumedFrom, checkpointId, metadata).value;
      var n, rid, spec := |db.log|, db.identity.runtimeId, db.specs[process];
      && (forall id | id in db.attempts && db.attempts[id].processId == process ::
            db.attempts[id].ordinal < row.ordinal)
      && (row.ordinal == 1 ||
          exists id :: id in db.attempts && db.attempts[id].processId == process
                       && db.attempts[id].ordinal == row.ordinal - 1)
      && row == OpenedRow(n, rid, spec, process, executionId, row.ordinal, timestamp, operation, backendSessionId,
                          resumedFrom, checkpointId)
      && row.attemptId !in db.attempts
      && after == db.(
           attempts := db.attempts[row.attemptId := row],
           executions := db.executions[
             executionId := db.executions[executionId].(lastEventSequence := Some(n + 1))],
           log := db.log + [
             OpeningEntry(n, rid, AttemptCreated, Pending, NotStarted, spec, row, timestamp, operation, metadata),
             OpeningEntry(n + 1, rid, AttemptStarted, Running, Active, spec, row, timestamp, operation, metadata)])
  {
    hide Good, OpenAttempt, IsMaxOrdinal, MaxOrdinal, OpenedRow, OpeningEntry, AttemptId;
    NextInGood(db, process);
    LargestOrdinal(db, process);
    GoodIsOrderly(db);
    LastOfLog(db);
    OpenAttemptEffect(db, process, executionId, MaxOrdinal(db.attempts, process) + 1, timestamp, operation,
                      backendSessionId, resumedFrom, checkpointId, metadata);
  }

  lemma LargestOrdinal(db: Db, process: string)
    requires IsMaxOrdinal(db.attempts, process, MaxOrdinal(db.attempts, process))
    ensures var k := MaxOrdinal(db.attempts, process);
      && (forall id | id in db.attempts && db.attempts[id].processId == process :: db.attempts[id].ordinal <= k)
      && (k == 0 ||
          exists id :: id in db.attempts && db.attempts[id].processId == process && db.attempts[id].ordinal == k)
  {
  }

  lemma OpenAttemptEffect(
    db: Db, process: string, executionId: string, ordinal: int, timestamp: Time, operation: Operation,
    backendSessionId: Option<string>, resumedFrom: Option<string>, checkpointId: Option<string>, metadata: Json)
    requires MaxSequence(db.log) == |db.log| - 1 && process in db.specs && executionId in db.executions && ordinal >= 1
    requires AttemptId(process, ordinal) !in db.attempts
    requires OpenAttempt(db, process, executionId, ordinal, timestamp, operation, backendSessionId, resumedFrom,
                         checkpointId, metadata).Success?
    ensures var (after, row) := OpenAttempt(db, process, executionId, ordinal, timestamp, operation, backendSessionId,
                                            resumedFrom, checkpointId, metadata).value;
      var n, rid, spec := |db.log|, db.identity.runtimeId, db.specs[process];
      && row.attemptId == AttemptId(process, ordinal) && row.ordinal == ordinal
      && row == OpenedRow(n, rid, spec, process, executionId, ordinal, timestamp, operation, backendSessionId,
                          resumedFrom, checkpointId)
      && after == db.(
           attempts := db.attempts[row.attemptId := row],
           executions := db.executions[
             executionId := db.executions[executionId].(lastEventSequence := Some(n + 1))],
           log := db.log + [
             OpeningEntry(n, rid, AttemptCreated, Pending, NotStarted, spec, row, timestamp, operation, metadata),
             OpeningEntry(n + 1, rid, AttemptStarted, Running, Active, spec, row, timestamp, operation, metadata)])
  {
    hide OpenedRow, OpeningEntry, AttemptId, AppendEvent, AttemptEvent, UpdatedRow, NewRow, TouchesAttempt;
    var n, rid, spec := |db.log|, db.identity.runtimeId, db.specs[process];
    var row := OpenedRow(n, rid, spec, process, executionId, ordinal, timestamp, operation, backendSessionId,
                         resumedFrom, checkpointId);
    RowIdentified(n, rid, spec, process, executionId, ordinal, timestamp, operation, backendSessionId, resumedFrom,
                  checkpointId);
    RowOpened(n, rid, spec, process, executionId, ordinal, timestamp, operation, backendSessionId, resumedFrom,
              checkpointId, metadata);
    var e := AttemptEvent(db, AttemptCreated, spec, process, executionId, ordinal, timestamp, operation,
                          backendSessionId, resumedFrom, checkpointId, metadata);
    OpeningNames(db, AttemptCreated, spec, process, executionId, ordinal, timestamp, operation, backendSessionId,
                 resumedFrom, checkpointId, metadata);
    LoggedAttempt(db, e);
    OpeningFilled(db, AttemptCreated, spec, row, ordinal, timestamp, operation, metadata);
    var d, s := AppendEvent(db, e).value.0, e.(eventId := IntId(n), sequence := Some(n));
    LongerLog(db.log, s);
    var f := AttemptEvent(d, AttemptStarted, spec, process, executionId, ordinal, timestamp, operation,
                          backendSessionId, resumedFrom, checkpointId, metadata);
    OpeningNames(d, AttemptStarted, spec, process, executionId, ordinal, timestamp, operation, backendSessionId,
                 resumedFrom, checkpointId, metadata);
    LoggedAttempt(d, f);
    OpeningFilled(d, AttemptStarted, spec, row, ordinal, timestamp, operation, metadata);
    TwiceWritten(db.attempts, row.attemptId, d.attempts[row.attemptId], row);
    TwiceWritten(db.executions, executionId, d.executions[executionId],
                 db.executions[executionId].(lastEventSequence := Some(n + 1)));
    assert db.log + [s] + [f.(eventId := IntId(n + 1), sequence := Some(n + 1))]
      == db.log + [s, f.(eventId := IntId(n + 1), sequence := Some(n + 1))];
  }

  lemma RowIdentified(
    n: int, runtimeId: string, spec: ProcessSpec, process: string, executionId: string, ordinal: int, timestamp: Time,
    operation: Operation, backendSessionId: Option<string>, resumedFrom: Option<string>, checkpointId: Option<string>)
    ensures var row := OpenedRow(n, runtimeId, spec, process, executionId, ordinal, timestamp, operation,
                                 backendSessionId, resumedFrom, checkpointId);
      && row.attemptId == AttemptId(process, ordinal) && row.processId == process && row.ordinal == ordinal
      && row.executionId == Some(executionId) && row.backendSessionId == backendSessionId
      && row.resumedFromAttemptId == resumedFrom && row.checkpointId == checkpointId
  {
  }

  lemma TwiceWritten<T>(m: map<string, T>, id: string, first: T, second: T)
    ensures m[id := first][id := second] == m[id := second]
  {
  }

  lemma OpeningNames(
    db: Db, t: EventType, spec: ProcessSpec, process: string, executionId: string, ordinal: int, timestamp: Time,
    operation: Operation, backendSessionId: Option<string>, resumedFrom: Option<string>, checkpointId: Option<string>,
    metadata: Json)
    requires t.IsAttempt()
    ensures var e := AttemptEvent(db, t, spec, process, executionId, ordinal, timestamp, operation,
                                  backendSessionId, resumedFrom, checkpointId, metadata);
      && e.runtimeId == db.identity.runtimeId && TouchesAttempt(e) && e.executionId == Some(executionId)
      && e.attemptId == Some(AttemptId(process, ordinal))
  {
    hide AttemptId;
  }

  // ---------------------------------------------------------------- commands

  function Touched(executions: map<string, ExecutionRecord>, executionId: Option<string>, n: int):
    map<string, ExecutionRecord>
  {
    if executionId.Some? && executionId.value in executions
    then executions[executionId.value := executions[executionId.value].(lastEventSequence := Some(n))]
    else executions
  }

  lemma LoggedTouching(db: Db, e: Event)
    requires MaxSequence(db.log) == |db.log| - 1 && e.runtimeId == db.identity.runtimeId && !e.eventType.IsAttempt()
    ensures AppendEvent(db, e) ==
      var s := e.(eventId := IntId(|db.log|), sequence := Some(|db.log|));
      Success((db.(log := db.log + [s], executions := Touched(db.executions, e.executionId, |db.log|)), s))
  {
  }

  /** A reservation: a known id answers with its receipt when the request is the same and raises when it is
      not; a new one is accepted, with everything the request says. */
  lemma ReserveEffect(
    db: Db, id: string, commandType: string, timestamp: Time, targetId: Option<string>, executionId: Option<string>,
    backendSessionId: Option<string>, request: Json, metadata: Json)
    requires Orderly(db)
    ensures var n, rid, digest := |db.log|, db.identity.runtimeId,
                                  Fingerprint(commandType, targetId, executionId, request);
      var row := CommandRecord(id, rid, commandType, digest, targetId, executionId, backendSessionId, Accepted,
                               timestamp, None, n, n, request, Null, None, metadata);
      ReserveCommand(db, id, commandType, timestamp, targetId, executionId, backendSessionId, request, metadata) ==
      if id in db.commands then
        if db.commands[id].fingerprint == digest then Success((db, Reservation(db.commands[id], false)))
        else Failure(CommandConflict)
      else if Blank(id) || Blank(commandType) then Failure(RejectedValue)
      else
        Success((db.(
          commands := db.commands[id := row], executions := Touched(db.executions, executionId, n),
          log := db.log + [Nth(n, rid, CommandAccepted, timestamp).(
            executionId := executionId, subjectType := Some("command"), subjectId := Some(id),
            status := Some(Custom("accepted")), statusClass := Some(NotStarted),
            payload := NO_PAYLOAD.(commandType := commandType, targetId := targetId,
                                   backendSessionId := backendSessionId, fingerprint := digest, request := request),
            metadata := metadata)]), Reservation(row, true)))
  {
    hide Orderly, AppendEvent, Blank, Touched;
    LastOfLog(db);
    LoggedTouching(db, AcceptanceEvent(db, id, commandType, timestamp, targetId, executionId, backendSessionId, request,
                                       metadata));
  }

  /** An answer: the first one is stored with its result and error; the same again returns the receipt, and
      any other raises. */
  lemma FinishCommandEffect(
    db: Db, id: string, status: CommandStatus, timestamp: Time, result: Json, error: Option<ErrorInfo>)
    requires Orderly(db)
    ensures var n := |db.log|;
      FinishCommand(db, id, status, timestamp, result, error) ==
      if status.Accepted? then Failure(NotTerminalStatus)
      else if id !in db.commands then Failure(UnknownCommand)
      else
        var r := db.commands[id];
        if !r.status.Accepted? then
          if (r.status, r.result, r.error) == (status, result, error) then Success((db, r))
          else Failure(CommandConflict)
        else
          var row := r.(status := status, finishedAt := Some(timestamp), lastEventSequence := n, result := result,
                        error := error);
          Success((db.(
            commands := db.commands[id := row], executions := Touched(db.executions, r.executionId, n),
            log := db.log + [
              (if status.CommandDone?
               then Nth(n, db.identity.runtimeId, CommandSucceeded, timestamp).(
                 status := Some(Succeeded), statusClass := Some(TerminalSuccess))
               else Nth(n, db.identity.runtimeId, CommandFailed, timestamp).(
                 status := Some(Failed), statusClass := Some(TerminalFailure))).(
                executionId := r.executionId, subjectType := Some("command"), subjectId := Some(id), error := error,
                payload := NO_PAYLOAD.(result := Some(result)))]), row))
  {
    hide AppendEvent, Touched;
    LastOfLog(db);
    if id in db.commands {
      var r := db.commands[id];
      assert r.commandId == id && r.runtimeId == db.identity.runtimeId;
      hide Orderly;
      var t := if status.CommandDone? then CommandSucceeded else CommandFailed;
      LoggedTouching(db, Draft(r.runtimeId, t, timestamp).(
        executionId := r.executionId, subjectType := Some("command"), subjectId := Some(r.commandId),
        status := Some(if status.CommandDone? then Succeeded else Failed),
        statusClass := Some(if status.CommandDone? then TerminalSuccess else TerminalFailure), error := error,
        payload := NO_PAYLOAD.(result := Some(result))));
    }
  }

  // ---------------------------------------------------------------- the stored projection

  /** A projection of this runtime is stored with its cursor, unless that is past the last event. */
  lemma WriteProjectionEffect(db: Db, p: Projection, cursor: int)
    requires Orderly(db)
    ensures WriteProjection(db, p, cursor) ==
      if p.core.runtimeId != db.identity.runtimeId then Failure(StoreError.IdentityMismatch)
      else if cursor >= |db.log| then Failure(CursorAhead)
      else Success((db.(projection := Some((p, cursor))), ()))
  {
    LastOfLog(db);
  }

  // ---------------------------------------------------------------- raw events

  /** A row that is there already: whatever the event carries, and its time. */
  ghost predicate RowKept(before: Attempt, e: Event, n: int, after: Attempt) {
    after == before.(
      lastEventSequence := Some(n),
      status := if e.status.Some? then e.status.value else before.status,
      statusClass := if e.statusClass.Some? then e.statusClass.value else before.statusClass,
      error := if e.error.Some? then e.error else before.error,
      startedAt := if e.eventType == AttemptStarted then Some(e.timestamp) else before.startedAt,
      finishedAt := if e.eventType == AttemptCompleted || e.eventType == AttemptFailed
                       || e.eventType == AttemptCancelled || e.eventType == AttemptInterrupted
                    then Some(e.timestamp) else before.finishedAt)
  }

  /** A row made from the event: pending and not started unless it says otherwise, and numbered one unless it
      carries an ordinal. */
  ghost predicate RowMade(e: Event, n: int, after: Attempt)
    requires TouchesAttempt(e)
  {
    exists first: Attempt ::
      && RowKept(first, e, n, after)
      && first == Attempt(
           e.attemptId.value, e.processId.value, e.runtimeId, e.executionId,
           if e.payload.ordinal == None || e.payload.ordinal == Some(0) then 1 else e.payload.ordinal.value,
           first.operation, e.payload.executionKey, e.payload.inputFingerprint, e.payload.implementationVersion,
           Pending, NotStarted, None, None, e.payload.resumedFromAttemptId, e.checkpointId,
           e.payload.backendSessionId, Some(n), None, None)
      && first.operation == match (if e.payload.operation.Some? then e.payload.operation else e.payload.recoveryAction)
                            case Some(StartText) => Some(Start)
                            case Some(RestartText) => Some(Start)
                            case Some(ResumeText) => Some(Resume)
                            case Some(RetryText) => Some(Retry)
                            case _ => None
  }

  /** Any event that commits: it joins the log under the next number, moves the last sequence of the execution
      it names, and makes or updates the row of the attempt it is about. */
  lemma AppendEffect(db: Db, e: Event)
    requires Orderly(db) && AppendEvent(db, e).Success?
    ensures var n, (after, stored) := |db.log|, AppendEvent(db, e).value;
      && stored == e.(eventId := IntId(n), sequence := Some(n))
      && after == db.(log := db.log + [stored], executions := Touched(db.executions, e.executionId, n),
                      attempts := after.attempts)
      && (if e.eventType.IsAttempt() && e.processId.Some? && e.attemptId.Some? then
            var id := e.attemptId.value;
            && id in after.attempts && after.attempts == db.attempts[id := after.attempts[id]]
            && (if id in db.attempts then RowKept(db.attempts[id], e, n, after.attempts[id])
                else RowMade(e, n, after.attempts[id]))
          else after.attempts == db.attempts)
  {
    LastOfLog(db);
    hide Orderly;
    var n := |db.log|;
    var stored := e.(eventId := IntId(n), sequence := Some(n));
    if TouchesAttempt(e) {
      var id := e.attemptId.value;
      if id in db.attempts {
        RowUpdated(db.attempts[id], e, stored, n);
      } else {
        RowUpdated(NewRow(stored), e, stored, n);
        NewRowSays(e, stored, n);
      }
      hide UpdatedRow, NewRow, RowKept, RowMalformed, RowTaken, RowOrdinal;
    }
  }

  lemma RowUpdated(a: Attempt, e: Event, stored: Event, n: int)
    requires stored == e.(eventId := IntId(n), sequence := Some(n))
    ensures RowKept(a, e, n, UpdatedRow(a, stored))
  {
  }

  lemma NewRowSays(e: Event, stored: Event, n: int)
    requires TouchesAttempt(e) && stored == e.(eventId := IntId(n), sequence := Some(n))
    ensures RowMade(e, n, UpdatedRow(NewRow(stored), stored))
  {
    RowUpdated(NewRow(stored), e, stored, n);
    hide RowKept, UpdatedRow;
  }
}
