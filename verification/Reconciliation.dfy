/** Reconciliation by a live session: what it interrupts, what it leaves, and that doing it again at
    once appends nothing. */
module ReconciliationProofs {
  import opened RuntimeTypes
  import opened Sorting
  import opened RuntimeProjections
  import opened LedgerReplay
  import opened DurableTables
  import opened StoreInvariant
  import opened StoreProtocol
  import opened StoreSteps

  /** Execution rows agree except for the sequence of the last event that mentioned them. */
  ghost predicate SameButTouched(before: map<string, ExecutionRecord>, after: map<string, ExecutionRecord>) {
    && after.Keys == before.Keys
    && forall id | id in before :: after[id] == before[id].(lastEventSequence := after[id].lastEventSequence)
  }

  /** The tables an interruption leaves alone. */
  ghost predicate SameElsewhere(db: Db, d: Db) {
    d.specs == db.specs && d.sessions == db.sessions && d.commands == db.commands
    && Extends(db, d)
  }

  /** The row as it was, but interrupted now by this session. */
  predicate InterruptedRow(before: Attempt, after: Attempt, sessionId: string, now: Time) {
    after == before.(status := Interrupted, statusClass := TerminalFailure, finishedAt := Some(now),
                     error := Some(LostError(sessionId)), lastEventSequence := after.lastEventSequence)
  }

  /** Exactly the listed attempts were interrupted. */
  ghost predicate AttemptsInterrupted(db: Db, d: Db, ids: seq<string>, sessionId: string, now: Time) {
    && d.attempts.Keys == db.attempts.Keys
    && (forall id | id in db.attempts && id !in ids :: d.attempts[id] == db.attempts[id])
    && (forall id | id in db.attempts && id in ids :: InterruptedRow(db.attempts[id], d.attempts[id], sessionId, now))
    && SameButTouched(db.executions, d.executions) && SameElsewhere(db, d)
  }

  predicate InterruptedRecord(before: ExecutionRecord, after: ExecutionRecord, sessionId: string, now: Time) {
    after == before.(status := Interrupted, finishedAt := Some(now), error := Some(LostError(sessionId)),
                     lastEventSequence := after.lastEventSequence)
  }

  /** Exactly the listed executions were interrupted. */
  ghost predicate ExecutionsInterrupted(
    db: Db, rows: map<string, ExecutionRecord>, d: Db, ids: seq<string>, sessionId: string, now: Time)
  {
    && d.executions.Keys == rows.Keys && d.attempts == db.attempts && SameElsewhere(db, d)
    && (forall id | id in rows && id !in ids ::
          d.executions[id] == rows[id].(lastEventSequence := d.executions[id].lastEventSequence))
    && (forall id | id in rows && id in ids :: InterruptedRecord(rows[id], d.executions[id], sessionId, now))
  }

  lemma TouchedBy(executions: map<string, ExecutionRecord>, e: Event)
    requires !e.eventType.IsExecution()
    ensures SameButTouched(executions, ExecutionEffect(executions, e))
  {
  }

  /** Interrupting one open attempt. */
  lemma AttemptInterruptedStep(db: Db, id: string, sessionId: string, now: Time)
    requires Good(db) && id in db.attempts && OpenClass(db.attempts[id].statusClass)
    ensures var r := InterruptAttempt(db, db.attempts[id], sessionId, now);
      && r.Success? && Good(r.value.0) && AttemptsInterrupted(db, r.value.0, [id], sessionId, now)
      && |r.value.0.log| == |db.log| + 1
  {
    RowOf(db, id);
    RowLinked(db, id);
    hide Good, Extends, AppendEvent, AttemptsInterrupted, AttemptInterruption, Legible, UpdatedRow, Emitted;
    hide DefaultStatus, DefaultClass;
    var e := AttemptInterruption(db.attempts[id], sessionId, now);
    InterruptionFits(db.attempts[id], sessionId, now);
    InterruptionUpdates(db, id, sessionId, now);
    TerminalEmit(db, id, e);
    EmittedElsewhere(db, id, e, AppendEvent(db, e).value.0, sessionId, now);
  }

  /** An emitted attempt event touches nothing but its row and its execution's last sequence. */
  lemma EmittedElsewhere(db: Db, id: string, e: Event, d: Db, sessionId: string, now: Time)
    requires d == Emitted(db, StoredEvent(db, e), db.sessions) && Extends(db, d) && e.eventType.IsAttempt()
    requires id in db.attempts && d.attempts == db.attempts[id := UpdatedRow(db.attempts[id], StoredEvent(db, e))]
    requires InterruptedRow(db.attempts[id], UpdatedRow(db.attempts[id], StoredEvent(db, e)), sessionId, now)
    ensures AttemptsInterrupted(db, d, [id], sessionId, now) && |d.log| == |db.log| + 1
  {
    hide Extends, ExecutionEffect, AttemptEffect, CommandEffect, UpdatedRow, InterruptedRow, AttemptsInterrupted;
    TouchedBy(db.executions, StoredEvent(db, e));
    OtherTables(db, StoredEvent(db, e));
    hide StoredEvent, SameButTouched;
    OneInterrupted(db, d, id, sessionId, now);
  }

  lemma InterruptionFits(a: Attempt, sessionId: string, now: Time)
    ensures var e := AttemptInterruption(a, sessionId, now);
      && e.eventType.IsTerminalAttempt() && e.runtimeId == a.runtimeId && e.attemptId == Some(a.attemptId)
      && e.processId == Some(a.processId) && e.executionId == a.executionId && e.checkpointId.None?
      && e.payload.resumedFromAttemptId.None? && Legible(e)
      && e.status == Some(DefaultStatus(e.eventType)) && e.statusClass == Some(DefaultClass(e.eventType))
  {
  }

  lemma OneInterrupted(db: Db, d: Db, id: string, sessionId: string, now: Time)
    requires id in db.attempts && id in d.attempts && d.attempts == db.attempts[id := d.attempts[id]]
    requires InterruptedRow(db.attempts[id], d.attempts[id], sessionId, now)
    requires SameButTouched(db.executions, d.executions) && SameElsewhere(db, d)
    ensures AttemptsInterrupted(db, d, [id], sessionId, now)
  {
    hide SameButTouched, SameElsewhere;
  }

  lemma InterruptionUpdates(db: Db, id: string, sessionId: string, now: Time)
    requires id in db.attempts
    ensures InterruptedRow(db.attempts[id],
      UpdatedRow(db.attempts[id], StoredEvent(db, AttemptInterruption(db.attempts[id], sessionId, now))),
      sessionId, now)
  {
  }

  lemma {:induction false} AttemptsInterruptedFold(db: Db, ids: seq<string>, sessionId: string, now: Time)
    requires Good(db) && Distinct(ids)
    requires forall id <- ids :: id in db.attempts && OpenClass(db.attempts[id].statusClass)
    ensures var r := InterruptAttempts(db, db.attempts, ids, sessionId, now);
      && r.Success? && Good(r.value) && AttemptsInterrupted(db, r.value, ids, sessionId, now)
      && |r.value.log| == |db.log| + |ids|
  {
    hide Good, InterruptAttempt, AttemptsInterrupted;
    if ids == [] {
      assert AttemptsInterrupted(db, db, [], sessionId, now) by { NoAttempts(db, sessionId, now); }
    } else {
      var init, id := ids[..|ids| - 1], ids[|ids| - 1];
      assert ids == init + [id] && id !in init;
      AttemptsInterruptedFold(db, init, sessionId, now);
      var d := InterruptAttempts(db, db.attempts, init, sessionId, now).value;
      StillOpen(db, d, init, id, sessionId, now);
      AttemptInterruptedStep(d, id, sessionId, now);
      OneMoreAttempt(db, d, InterruptAttempt(d, d.attempts[id], sessionId, now).value.0, init, id, sessionId, now);
    }
  }

  lemma NoAttempts(db: Db, sessionId: string, now: Time)
    ensures AttemptsInterrupted(db, db, [], sessionId, now)
  {
  }

  lemma StillOpen(db: Db, d: Db, ids: seq<string>, id: string, sessionId: string, now: Time)
    requires AttemptsInterrupted(db, d, ids, sessionId, now) && id in db.attempts && id !in ids
    ensures id in d.attempts && d.attempts[id] == db.attempts[id]
  {
  }

  lemma OneMoreAttempt(db: Db, d: Db, after: Db, ids: seq<string>, id: string, sessionId: string, now: Time)
    requires AttemptsInterrupted(db, d, ids, sessionId, now) && id in db.attempts && id !in ids
    requires AttemptsInterrupted(d, after, [id], sessionId, now)
    ensures AttemptsInterrupted(db, after, ids + [id], sessionId, now)
  {
    hide InterruptedRow;
  }

  /** Interrupting one unfinished execution from the row read earlier. */
  lemma ExecutionInterruptedStep(db: Db, row: ExecutionRecord, id: string, sessionId: string, now: Time)
    requires Good(db) && id in db.executions && Unfinished(row.status)
    requires row == db.executions[id].(lastEventSequence := row.lastEventSequence)
    ensures var r := InterruptExecution(db, row, sessionId, now);
      && r.Success? && Good(r.value.0) && ExecutionsInterrupted(db, db.executions, r.value.0, [id], sessionId, now)
      && |r.value.0.log| == |db.log| + 1
  {
    hide Synced, Observed, Settled;
    RecordOf(db, id);
    var e := ExecutionInterruption(row, sessionId, now);
    var stored := StoredEvent(db, e);
    var after := row.(status := Interrupted, finishedAt := Some(now), lastEventSequence := stored.sequence,
                      error := Some(LostError(sessionId)));
    assert after == TransitionedBy(db.executions[id], stored);
    ExecutionEmit(db, e, after);
    assert InterruptedRecord(db.executions[id], after, sessionId, now);
  }

  lemma {:induction false} ExecutionsInterruptedFold(
    db: Db, rows: map<string, ExecutionRecord>, ids: seq<string>, sessionId: string, now: Time)
    requires Good(db) && Distinct(ids) && SameButTouched(rows, db.executions)
    requires forall id <- ids :: id in rows && Unfinished(rows[id].status)
    ensures var r := InterruptExecutions(db, rows, ids, sessionId, now);
      && r.Success? && Good(r.value) && ExecutionsInterrupted(db, rows, r.value, ids, sessionId, now)
      && |r.value.log| == |db.log| + |ids|
  {
    hide Good, InterruptExecution, ExecutionsInterrupted;
    if ids == [] {
      assert ExecutionsInterrupted(db, rows, db, [], sessionId, now) by { NoneInterrupted(db, rows, sessionId, now); }
    } else {
      var init, id := ids[..|ids| - 1], ids[|ids| - 1];
      assert ids == init + [id] && id !in init;
      ExecutionsInterruptedFold(db, rows, init, sessionId, now);
      var d := InterruptExecutions(db, rows, init, sessionId, now).value;
      StillUntouched(db, rows, d, init, id, sessionId, now);
      ExecutionInterruptedStep(d, rows[id], id, sessionId, now);
      OneMoreInterrupted(db, rows, d, InterruptExecution(d, rows[id], sessionId, now).value.0, init, id,
                         sessionId, now);
    }
  }

  lemma NoneInterrupted(db: Db, rows: map<string, ExecutionRecord>, sessionId: string, now: Time)
    requires SameButTouched(rows, db.executions)
    ensures ExecutionsInterrupted(db, rows, db, [], sessionId, now)
  {
  }

  lemma StillUntouched(
    db: Db, rows: map<string, ExecutionRecord>, d: Db, ids: seq<string>, id: string, sessionId: string, now: Time)
    requires ExecutionsInterrupted(db, rows, d, ids, sessionId, now) && id in rows && id !in ids
    ensures id in d.executions && rows[id] == d.executions[id].(lastEventSequence := rows[id].lastEventSequence)
  {
  }

  lemma OneMoreInterrupted(
    db: Db, rows: map<string, ExecutionRecord>, d: Db, after: Db, ids: seq<string>, id: string,
    sessionId: string, now: Time)
    requires ExecutionsInterrupted(db, rows, d, ids, sessionId, now) && id in rows && id !in ids
    requires ExecutionsInterrupted(d, d.executions, after, [id], sessionId, now)
    ensures ExecutionsInterrupted(db, rows, after, ids + [id], sessionId, now)
  {
  }

  ghost predicate ReconciledBy(db: Db, after: Db, sessionId: string, now: Time) {
    && Good(after) && SameElsewhere(db, after)
    && |after.log| == |db.log| + |StaleAttempts(db, sessionId)| + |StaleExecutions(db, sessionId)|
    && after.attempts.Keys == db.attempts.Keys && after.executions.Keys == db.executions.Keys
    && (forall id | id in db.attempts ::
          if id in StaleAttempts(db, sessionId) then InterruptedRow(db.attempts[id], after.attempts[id], sessionId, now)
          else after.attempts[id] == db.attempts[id])
    && (forall id | id in db.executions ::
          var touched := db.executions[id].(lastEventSequence := after.executions[id].lastEventSequence);
          if id in StaleExecutions(db, sessionId)
          then InterruptedRecord(db.executions[id], after.executions[id], sessionId, now)
          else after.executions[id] == touched)
  }

  /** A committed reconciliation interrupts exactly the stale work, with one event for each piece. */
  lemma ReconcileEffect(db: Db, sessionId: string, ownerId: string, now: Time)
    requires Good(db) && HoldsLease(db, sessionId, ownerId, now)
    ensures var r := Reconcile(db, sessionId, ownerId, now);
      r.Success? && ReconciledBy(db, r.value.0, sessionId, now)
  {
    hide Good, InterruptAttempts, InterruptExecutions, RowsInOrder, ExecutionsInOrder, StaleAttempts, StaleExecutions;
    var attempts := RowsInOrder(db.attempts, StaleAttempts(db, sessionId));
    var executions := ExecutionsInOrder(db.executions, StaleExecutions(db, sessionId));
    StaleListings(db, sessionId);
    AttemptsInterruptedFold(db, attempts, sessionId, now);
    var d := InterruptAttempts(db, db.attempts, attempts, sessionId, now).value;
    ExecutionsInterruptedFold(d, db.executions, executions, sessionId, now);
    BothInterrupted(db, d, InterruptExecutions(d, db.executions, executions, sessionId, now).value,
                    attempts, executions, sessionId, now);
  }

  /** Reconciling keeps the invariant and only extends the log. */
  lemma ReconcileStep(db: Db, sessionId: string, ownerId: string, now: Time)
    requires Good(db) && Reconcile(db, sessionId, ownerId, now).Success?
    ensures Good(Reconcile(db, sessionId, ownerId, now).value.0)
    ensures Extends(db, Reconcile(db, sessionId, ownerId, now).value.0)
  {
    hide Good, Extends, InterruptAttempts, InterruptExecutions, RowsInOrder, ExecutionsInOrder, StaleAttempts;
    hide StaleExecutions;
    ReconcileEffect(db, sessionId, ownerId, now);
  }

  /** The two queries list the stale rows, each once. */
  lemma StaleListings(db: Db, sessionId: string)
    ensures var attempts := RowsInOrder(db.attempts, StaleAttempts(db, sessionId));
      && Distinct(attempts) && |attempts| == |StaleAttempts(db, sessionId)|
      && (forall id :: id in attempts <==> id in StaleAttempts(db, sessionId))
      && (forall id <- attempts :: id in db.attempts && OpenClass(db.attempts[id].statusClass))
    ensures var executions := ExecutionsInOrder(db.executions, StaleExecutions(db, sessionId));
      && Distinct(executions) && |executions| == |StaleExecutions(db, sessionId)|
      && (forall id :: id in executions <==> id in StaleExecutions(db, sessionId))
      && (forall id <- executions :: id in db.executions && Unfinished(db.executions[id].status))
  {
    ListedOnce(RowsInOrder(db.attempts, StaleAttempts(db, sessionId)), StaleAttempts(db, sessionId));
    var stale := StaleExecutions(db, sessionId);
    var rank := map id | id in stale && id in db.executions :: db.executions[id].ordinal;
    assert rank.Keys == stale;
    ListedOnce(ExecutionsInOrder(db.executions, stale), stale);
  }

  lemma BothInterrupted(
    db: Db, d: Db, after: Db, attempts: seq<string>, executions: seq<string>, sessionId: string, now: Time)
    requires Good(after) && AttemptsInterrupted(db, d, attempts, sessionId, now)
    requires ExecutionsInterrupted(d, db.executions, after, executions, sessionId, now)
    requires forall id :: id in attempts <==> id in StaleAttempts(db, sessionId)
    requires forall id :: id in executions <==> id in StaleExecutions(db, sessionId)
    requires |after.log| == |db.log| + |StaleAttempts(db, sessionId)| + |StaleExecutions(db, sessionId)|
    ensures ReconciledBy(db, after, sessionId, now)
  {
    hide Inv, Settled, StaleAttempts, StaleExecutions;
  }

  /** Nothing stale is left for this session. */
  lemma NothingLeft(db: Db, after: Db, sessionId: string, now: Time)
    requires ReconciledBy(db, after, sessionId, now)
    ensures StaleExecutions(after, sessionId) == {} && StaleAttempts(after, sessionId) == {}
  {
    hide Good;
    forall id | id in after.executions ensures !StaleExecution(after.executions[id], sessionId) {
      assert id in db.executions;
    }
    assert StaleExecutions(after, sessionId) == {};
    forall id | id in after.attempts ensures !StaleAttempt(after, after.attempts[id], sessionId) {
      assert id in db.attempts;
    }
  }

  /** Main result: afterwards every unfinished execution belongs to the session; every open attempt
      belongs to it or to no session, in an execution that was not stale; and a second reconciliation
      at any later instant changes nothing and appends no event. */
  lemma ReconcileTakesOver(db: Db, sessionId: string, ownerId: string, now: Time, later: Time)
    requires Good(db) && Reconcile(db, sessionId, ownerId, now).Success?
    ensures var after := Reconcile(db, sessionId, ownerId, now).value.0;
      && Good(after)
      && (forall id | id in after.executions && Unfinished(after.executions[id].status) ::
            after.executions[id].backendSessionId == Some(sessionId))
      && (forall id | id in after.attempts && OpenClass(after.attempts[id].statusClass) ::
            && (after.attempts[id].backendSessionId.None? || after.attempts[id].backendSessionId == Some(sessionId))
            && after.attempts[id].executionId.Some?
            && after.attempts[id].executionId.value !in StaleExecutions(db, sessionId))
      && (Reconcile(after, sessionId, ownerId, later).Success? ==>
            Reconcile(after, sessionId, ownerId, later).value == (after, ([], [])))
  {
    ReconcileEffect(db, sessionId, ownerId, now);
    var after := Reconcile(db, sessionId, ownerId, now).value.0;
    TakenOver(db, after, sessionId, now);
    if HoldsLease(after, sessionId, ownerId, later) {
      QuietReconcile(after, sessionId, ownerId, later);
    }
  }

  lemma TakenOver(db: Db, after: Db, sessionId: string, now: Time)
    requires Good(db) && ReconciledBy(db, after, sessionId, now)
    ensures StaleExecutions(after, sessionId) == {} && StaleAttempts(after, sessionId) == {}
    ensures forall id | id in after.executions && Unfinished(after.executions[id].status) ::
      after.executions[id].backendSessionId == Some(sessionId)
    ensures forall id | id in after.attempts && OpenClass(after.attempts[id].statusClass) ::
      && (after.attempts[id].backendSessionId.None? || after.attempts[id].backendSessionId == Some(sessionId))
      && after.attempts[id].executionId.Some?
      && after.attempts[id].executionId.value !in StaleExecutions(db, sessionId)
  {
    hide Synced, Observed, Settled;
    NothingLeft(db, after, sessionId, now);
    forall id | id in after.executions && Unfinished(after.executions[id].status)
      ensures after.executions[id].backendSessionId == Some(sessionId)
    {
      assert id !in StaleExecutions(after, sessionId);
    }
    forall id | id in after.attempts && OpenClass(after.attempts[id].statusClass)
      ensures after.attempts[id].backendSessionId.None? || after.attempts[id].backendSessionId == Some(sessionId)
      ensures after.attempts[id].executionId.Some?
      ensures after.attempts[id].executionId.value !in StaleExecutions(db, sessionId)
    {
      assert id in db.attempts && id !in StaleAttempts(db, sessionId);
      assert Linked(db);
    }
  }

  lemma QuietReconcile(db: Db, sessionId: string, ownerId: string, now: Time)
    requires HoldsLease(db, sessionId, ownerId, now)
    requires StaleExecutions(db, sessionId) == {} && StaleAttempts(db, sessionId) == {}
    ensures Reconcile(db, sessionId, ownerId, now) == Success((db, ([], [])))
  {
    StaleListings(db, sessionId);
  }
}
