/** What reconciling does, on its arguments alone: who may, which work it lists, and the rows and events that
    interrupt it. */
module ReconciliationEffects {
  import opened RuntimeTypes
  import opened Sorting
  import opened RuntimeProjections
  import opened LedgerReplay
  import opened DurableTables
  import opened StoreProtocol
  import opened StoreEffects
  import ReconciliationProofs

  // ---------------------------------------------------------------- the events it appends

  function Lost(sessionId: string): ErrorInfo {
    ErrorInfo("BackendSessionLost", "The backend session that owned this work is no longer live", Dict(sessionId))
  }

  function LostAttempt(n: int, a: Attempt, sessionId: string, now: Time): Event {
    Nth(n, a.runtimeId, AttemptInterrupted, now).(
      executionId := a.executionId, processId := Some(a.processId), attemptId := Some(a.attemptId),
      status := Some(Interrupted), statusClass := Some(TerminalFailure), error := Some(Lost(sessionId)),
      payload := NO_PAYLOAD.(ordinal := Some(a.ordinal), backendSessionId := a.backendSessionId))
  }

  function LostExecution(n: int, r: ExecutionRecord, sessionId: string, now: Time): Event {
    Nth(n, r.runtimeId, ExecutionInterrupted, now).(
      executionId := Some(r.executionId), status := Some(Interrupted), statusClass := Some(TerminalFailure),
      error := Some(Lost(sessionId)))
  }

  /** The events of the interrupted attempts follow each other, one for each, in the order of the list. */
  ghost predicate AttemptsLogged(db: Db, d: Db, ids: seq<string>, sessionId: string, now: Time) {
    && db.log <= d.log && |d.log| == |db.log| + |ids|
    && forall i | 0 <= i < |ids| ::
         && ids[i] in db.attempts && ids[i] in d.attempts
         && d.log[|db.log| + i] == LostAttempt(|db.log| + i, db.attempts[ids[i]], sessionId, now)
         && d.attempts[ids[i]].lastEventSequence == Some(|db.log| + i)
  }

  lemma {:induction false} AttemptsLoggedFold(db: Db, ids: seq<string>, sessionId: string, now: Time)
    requires Good(db) && Distinct(ids)
    requires forall id <- ids :: id in db.attempts && OpenClass(db.attempts[id].statusClass)
    ensures var r := InterruptAttempts(db, db.attempts, ids, sessionId, now);
      r.Success? && AttemptsLogged(db, r.value, ids, sessionId, now)
  {
    hide Good, InterruptAttempt, LostAttempt;
    if ids != [] {
      hide AttemptsLogged;
      var init, id := ids[..|ids| - 1], ids[|ids| - 1];
      assert ids == init + [id] && id !in init;
      AttemptsLoggedFold(db, init, sessionId, now);
      ReconciliationProofs.AttemptsInterruptedFold(db, init, sessionId, now);
      var d := InterruptAttempts(db, db.attempts, init, sessionId, now).value;
      assert id in d.attempts && d.attempts[id] == db.attempts[id];
      AttemptLogged(d, id, sessionId, now);
      OneMoreAttemptLogged(db, d, InterruptAttempt(d, d.attempts[id], sessionId, now).value.0, init, id, sessionId,
                           now);
    } else {
      hide InterruptAttempts;
      assert AttemptsLogged(db, db, [], sessionId, now);
    }
  }

  lemma OneMoreAttemptLogged(
    db: Db, d: Db, after: Db, ids: seq<string>, id: string, sessionId: string, now: Time)
    requires AttemptsLogged(db, d, ids, sessionId, now) && id in db.attempts && id in d.attempts && id !in ids
    requires after.log == d.log + [LostAttempt(|d.log|, db.attempts[id], sessionId, now)]
    requires after.attempts.Keys == d.attempts.Keys && after.attempts[id].lastEventSequence == Some(|d.log|)
    requires forall other | other in d.attempts && other != id :: after.attempts[other] == d.attempts[other]
    ensures AttemptsLogged(db, after, ids + [id], sessionId, now)
  {
    hide LostAttempt;
  }

  lemma AttemptLogged(db: Db, id: string, sessionId: string, now: Time)
    requires Good(db) && id in db.attempts
    ensures var r := InterruptAttempt(db, db.attempts[id], sessionId, now);
      && r.Success? && r.value.0.log == db.log + [LostAttempt(|db.log|, db.attempts[id], sessionId, now)]
      && r.value.0.attempts.Keys == db.attempts.Keys
      && (forall other | other in db.attempts && other != id :: r.value.0.attempts[other] == db.attempts[other])
      && r.value.0.attempts[id].lastEventSequence == Some(|db.log|)
  {
    hide Good;
    GoodIsOrderly(db);
    LastOfLog(db);
    var a := db.attempts[id];
    assert a.attemptId == id && a.runtimeId == db.identity.runtimeId
      && a.executionId.Some? && a.executionId.value in db.executions;
    hide Orderly, AppendEvent;
    var e := AttemptInterruption(a, sessionId, now);
    KnownCommits(db, e);
    LoggedAttempt(db, e);
  }

  lemma KnownCommits(db: Db, e: Event)
    requires e.runtimeId == db.identity.runtimeId && TouchesAttempt(e) && e.attemptId.value in db.attempts
    ensures AppendEvent(db, e).Success?
  {
  }

  ghost predicate ExecutionsLogged(
    db: Db, rows: map<string, ExecutionRecord>, d: Db, ids: seq<string>, sessionId: string, now: Time)
  {
    && db.log <= d.log && |d.log| == |db.log| + |ids|
    && forall i | 0 <= i < |ids| ::
         && ids[i] in rows && ids[i] in d.executions
         && d.log[|db.log| + i] == LostExecution(|db.log| + i, rows[ids[i]], sessionId, now)
         && d.executions[ids[i]].lastEventSequence == Some(|db.log| + i)
  }

  lemma {:induction false} ExecutionsLoggedFold(
    db: Db, rows: map<string, ExecutionRecord>, ids: seq<string>, sessionId: string, now: Time)
    requires Good(db) && Distinct(ids) && ReconciliationProofs.SameButTouched(rows, db.executions)
    requires forall id <- ids :: id in rows && Unfinished(rows[id].status)
    ensures var r := InterruptExecutions(db, rows, ids, sessionId, now);
      r.Success? && ExecutionsLogged(db, rows, r.value, ids, sessionId, now)
  {
    hide Good, InterruptExecution, LostExecution;
    if ids != [] {
      hide ExecutionsLogged;
      var init, id := ids[..|ids| - 1], ids[|ids| - 1];
      assert ids == init + [id] && id !in init;
      ExecutionsLoggedFold(db, rows, init, sessionId, now);
      ReconciliationProofs.ExecutionsInterruptedFold(db, rows, init, sessionId, now);
      var d := InterruptExecutions(db, rows, init, sessionId, now).value;
      ReconciliationProofs.StillUntouched(db, rows, d, init, id, sessionId, now);
      hide ReconciliationProofs.ExecutionsInterrupted, ReconciliationProofs.SameButTouched;
      ExecutionLogged(d, rows[id], id, sessionId, now);
      OneMoreExecutionLogged(db, rows, d, InterruptExecution(d, rows[id], sessionId, now).value.0, init, id, sessionId,
                             now);
    } else {
      hide InterruptExecutions;
      assert ExecutionsLogged(db, rows, db, [], sessionId, now);
    }
  }

  lemma OneMoreExecutionLogged(
    db: Db, rows: map<string, ExecutionRecord>, d: Db, after: Db, ids: seq<string>, id: string, sessionId: string,
    now: Time)
    requires ExecutionsLogged(db, rows, d, ids, sessionId, now) && id in rows && id in d.executions && id !in ids
    requires after.log == d.log + [LostExecution(|d.log|, rows[id], sessionId, now)]
    requires after.executions.Keys == d.executions.Keys && after.executions[id].lastEventSequence == Some(|d.log|)
    requires forall other | other in d.executions && other != id :: after.executions[other] == d.executions[other]
    ensures ExecutionsLogged(db, rows, after, ids + [id], sessionId, now)
  {
    hide LostExecution;
  }

  lemma ExecutionLogged(db: Db, row: ExecutionRecord, id: string, sessionId: string, now: Time)
    requires Good(db) && id in db.executions
    requires row.executionId == db.executions[id].executionId && row.runtimeId == db.executions[id].runtimeId
    ensures var r := InterruptExecution(db, row, sessionId, now);
      && r.Success? && r.value.0.log == db.log + [LostExecution(|db.log|, row, sessionId, now)]
      && r.value.0.executions.Keys == db.executions.Keys
      && (forall other | other in db.executions && other != id :: r.value.0.executions[other] == db.executions[other])
      && r.value.0.executions[id].lastEventSequence == Some(|db.log|)
  {
    hide Good;
    GoodIsOrderly(db);
    LastOfLog(db);
    assert row.executionId == id && row.runtimeId == db.identity.runtimeId;
    hide Orderly, AppendEvent;
    LoggedFor(db, ExecutionInterruption(row, sessionId, now));
  }

  /** Which executions a reconciliation by a session interrupts: the unfinished ones of other sessions, or of
      none. */
  predicate Abandoned(r: ExecutionRecord, sessionId: string) {
    (r.status.Pending? || r.status.Running?) && r.backendSessionId != Some(sessionId)
  }

  /** The lists a reconciliation returns: the abandoned executions by ordinal, and by process and ordinal the
      open attempts that lie in one of them or belong to another session. */
  ghost predicate ListsAbandoned(db: Db, sessionId: string, executions: seq<string>, attempts: seq<string>) {
    && Distinct(executions) && Distinct(attempts)
    && (forall x :: x in executions <==> x in db.executions && Abandoned(db.executions[x], sessionId))
    && (forall a :: a in attempts <==>
          && a in db.attempts && (db.attempts[a].statusClass.NotStarted? || db.attempts[a].statusClass.Active?)
          && (|| (db.attempts[a].executionId.Some? && db.attempts[a].executionId.value in executions)
              || (db.attempts[a].backendSessionId.Some? && db.attempts[a].backendSessionId != Some(sessionId))))
    && (forall i, j | 0 <= i < j < |executions| ::
          db.executions[executions[i]].ordinal <= db.executions[executions[j]].ordinal)
    && (forall i, j | 0 <= i < j < |attempts| ::
          var a, b := db.attempts[attempts[i]], db.attempts[attempts[j]];
          if a.processId == b.processId then a.ordinal <= b.ordinal else TextLeq(a.processId, b.processId))
  }

  lemma AbandonedListed(db: Db, sessionId: string)
    ensures ListsAbandoned(db, sessionId, ExecutionsInOrder(db.executions, StaleExecutions(db, sessionId)),
                           RowsInOrder(db.attempts, StaleAttempts(db, sessionId)))
  {
    ReconciliationProofs.StaleListings(db, sessionId);
    StaleMeans(db, sessionId);
    hide RowsInOrder, ExecutionsInOrder, StaleExecutions, StaleAttempts, TextLeq, Abandoned, Distinct;
    ExecutionsSorted(db.executions, StaleExecutions(db, sessionId));
    RowsSorted(db.attempts, StaleAttempts(db, sessionId));
  }

  lemma StaleMeans(db: Db, sessionId: string)
    ensures forall x :: x in StaleExecutions(db, sessionId) <==>
      x in db.executions && Abandoned(db.executions[x], sessionId)
    ensures forall a :: a in StaleAttempts(db, sessionId) <==>
      && a in db.attempts && (db.attempts[a].statusClass.NotStarted? || db.attempts[a].statusClass.Active?)
      && (|| (db.attempts[a].executionId.Some? && db.attempts[a].executionId.value in StaleExecutions(db, sessionId))
          || (db.attempts[a].backendSessionId.Some? && db.attempts[a].backendSessionId != Some(sessionId)))
    ensures StaleExecutions(db, sessionId) <= db.executions.Keys && StaleAttempts(db, sessionId) <= db.attempts.Keys
  {
  }

  lemma ExecutionsSorted(executions: map<string, ExecutionRecord>, ids: set<string>)
    requires ids <= executions.Keys
    ensures var listed := ExecutionsInOrder(executions, ids);
      forall i, j | 0 <= i < j < |listed| ::
        && listed[i] in executions && listed[j] in executions
        && executions[listed[i]].ordinal <= executions[listed[j]].ordinal
  {
    var rank := map id | id in ids && id in executions :: executions[id].ordinal;
    var listed := OrderedBy(rank);
    RanksSorted(rank);
    ListedOnce(listed, rank.Keys);
    hide OrderedBy;
    forall i | 0 <= i < |listed|
      ensures listed[i] in executions && Rank(rank, listed[i]) == executions[listed[i]].ordinal
    {
      assert listed[i] in listed;
    }
  }

  lemma RanksSorted(rank: map<string, int>)
    ensures forall i, j | 0 <= i < j < |OrderedBy(rank)| ::
      Rank(rank, OrderedBy(rank)[i]) <= Rank(rank, OrderedBy(rank)[j])
  {
    var leq := (a: string, b: string) => Rank(rank, a) <= Rank(rank, b);
    SortSorted(leq, Listing(rank.Keys));
  }

  lemma RowsSorted(attempts: map<string, Attempt>, ids: set<string>)
    requires ids <= attempts.Keys
    ensures var rows := RowsInOrder(attempts, ids);
      forall i, j | 0 <= i < j < |rows| ::
        && rows[i] in attempts && rows[j] in attempts
        && var a, b := attempts[rows[i]], attempts[rows[j]];
           if a.processId == b.processId then a.ordinal <= b.ordinal else TextLeq(a.processId, b.processId)
  {
    var leq := (a: string, b: string) => RowLeq(attempts, a, b);
    ListedOnce(Listing(ids), ids);
    forall a, b, c | a in Listing(ids) && b in Listing(ids) && c in Listing(ids)
      ensures leq(a, b) || leq(b, a)
      ensures leq(a, b) && leq(b, c) ==> leq(a, c)
    {
      ProcessesOrdered(attempts[a].processId, attempts[b].processId, attempts[c].processId);
    }
    SortSorted(leq, Listing(ids));
  }

  lemma ProcessesOrdered(a: string, b: string, c: string)
    ensures TextLeq(a, b) || TextLeq(b, a)
    ensures TextLeq(a, b) && TextLeq(b, a) ==> a == b
    ensures TextLeq(a, b) && TextLeq(b, c) ==> TextLeq(a, c)
  {
    TextLeqTotal(a, b);
    if TextLeq(a, b) && TextLeq(b, a) { TextLeqAntisymmetric(a, b); }
    if TextLeq(a, b) && TextLeq(b, c) { TextLeqTransitive(a, b, c); }
  }

  function InterruptedAttempt(a: Attempt, n: int, sessionId: string, now: Time): Attempt {
    a.(status := Interrupted, statusClass := TerminalFailure, finishedAt := Some(now), error := Some(Lost(sessionId)),
       lastEventSequence := Some(n))
  }

  function InterruptedExecution(r: ExecutionRecord, n: int, sessionId: string, now: Time): ExecutionRecord {
    r.(status := Interrupted, finishedAt := Some(now), error := Some(Lost(sessionId)), lastEventSequence := Some(n))
  }

  /** What reconciling leaves of the rows: the listed ones interrupted now, in the order of their events; of
      the others at most the last sequence of an execution moves. */
  ghost predicate RowsReconciled(
    db: Db, after: Db, sessionId: string, now: Time, executions: seq<string>, attempts: seq<string>)
  {
    && after.attempts.Keys == db.attempts.Keys && after.executions.Keys == db.executions.Keys
    && (forall a | a in db.attempts && a !in attempts :: after.attempts[a] == db.attempts[a])
    && (forall i | 0 <= i < |attempts| && attempts[i] in db.attempts ::
          after.attempts[attempts[i]] == InterruptedAttempt(db.attempts[attempts[i]], |db.log| + i, sessionId, now))
    && (forall x | x in db.executions && x !in executions ::
          after.executions[x] == db.executions[x].(lastEventSequence := after.executions[x].lastEventSequence))
    && (forall j | 0 <= j < |executions| && executions[j] in db.executions ::
          after.executions[executions[j]] ==
            InterruptedExecution(db.executions[executions[j]], |db.log| + |attempts| + j, sessionId, now))
  }

  /** The events: one for each listed attempt, then one for each listed execution. */
  ghost predicate LogReconciled(
    db: Db, after: Db, sessionId: string, now: Time, executions: seq<string>, attempts: seq<string>)
  {
    && db.log <= after.log && |after.log| == |db.log| + |attempts| + |executions|
    && (forall i | 0 <= i < |attempts| && attempts[i] in db.attempts ::
          after.log[|db.log| + i] == LostAttempt(|db.log| + i, db.attempts[attempts[i]], sessionId, now))
    && (forall j | 0 <= j < |executions| && executions[j] in db.executions ::
          after.log[|db.log| + |attempts| + j] ==
            LostExecution(|db.log| + |attempts| + j, db.executions[executions[j]], sessionId, now))
  }

  /** Reconciling: by the owner of the live lease only; it lists exactly the abandoned work, interrupts it and
      touches nothing else. */
  lemma ReconcileExact(db: Db, sessionId: string, ownerId: string, now: Time)
    requires Good(db)
    ensures Reconcile(db, sessionId, ownerId, now).Success? <==> Holds(db.sessions, sessionId, ownerId, now)
    ensures Reconcile(db, sessionId, ownerId, now).Success? ==>
      var (after, lists) := Reconcile(db, sessionId, ownerId, now).value;
      && ListsAbandoned(db, sessionId, lists.0, lists.1)
      && after == db.(attempts := after.attempts, executions := after.executions, log := after.log)
      && RowsReconciled(db, after, sessionId, now, lists.0, lists.1)
      && LogReconciled(db, after, sessionId, now, lists.0, lists.1)
  {
    hide Good, InterruptAttempts, InterruptExecutions, RowsInOrder, ExecutionsInOrder, StaleAttempts, StaleExecutions;
    hide HoldsLease, Holds, ListsAbandoned, RowsReconciled, LogReconciled;
    GoodIsOrderly(db);
    HoldsExactly(db, sessionId, ownerId, now);
    AbandonedListed(db, sessionId);
    ReconciledExactly(db, sessionId, now, ExecutionsInOrder(db.executions, StaleExecutions(db, sessionId)),
                      RowsInOrder(db.attempts, StaleAttempts(db, sessionId)));
  }

  lemma ReconciledExactly(db: Db, sessionId: string, now: Time, executions: seq<string>, attempts: seq<string>)
    requires Good(db) && ListsAbandoned(db, sessionId, executions, attempts)
    ensures InterruptAttempts(db, db.attempts, attempts, sessionId, now).Success?
    ensures var d := InterruptAttempts(db, db.attempts, attempts, sessionId, now).value;
      var r := InterruptExecutions(d, db.executions, executions, sessionId, now);
      && r.Success?
      && r.value == db.(attempts := r.value.attempts, executions := r.value.executions, log := r.value.log)
      && RowsReconciled(db, r.value, sessionId, now, executions, attempts)
      && LogReconciled(db, r.value, sessionId, now, executions, attempts)
  {
    hide Good, InterruptAttempts, InterruptExecutions, RowsReconciled, LogReconciled;
    AttemptsLoggedFold(db, attempts, sessionId, now);
    ReconciliationProofs.AttemptsInterruptedFold(db, attempts, sessionId, now);
    var d := InterruptAttempts(db, db.attempts, attempts, sessionId, now).value;
    ExecutionsLoggedFold(d, db.executions, executions, sessionId, now);
    ReconciliationProofs.ExecutionsInterruptedFold(d, db.executions, executions, sessionId, now);
    var after := InterruptExecutions(d, db.executions, executions, sessionId, now).value;
    hide ListsAbandoned;
    RowsTogether(db, d, after, sessionId, now, executions, attempts);
    LogTogether(db, d, after, sessionId, now, executions, attempts);
  }

  lemma RowsTogether(
    db: Db, d: Db, after: Db, sessionId: string, now: Time, executions: seq<string>, attempts: seq<string>)
    requires ReconciliationProofs.AttemptsInterrupted(db, d, attempts, sessionId, now)
    requires ReconciliationProofs.ExecutionsInterrupted(d, db.executions, after, executions, sessionId, now)
    requires AttemptsLogged(db, d, attempts, sessionId, now)
    requires ExecutionsLogged(d, db.executions, after, executions, sessionId, now)
    ensures RowsReconciled(db, after, sessionId, now, executions, attempts)
  {
    hide ReconciliationProofs.AttemptsInterrupted, ReconciliationProofs.ExecutionsInterrupted, AttemptsLogged;
    hide ExecutionsLogged, InterruptedAttempt, InterruptedExecution;
    KeysTogether(db, d, after, sessionId, now, executions, attempts);
    forall i | 0 <= i < |attempts| && attempts[i] in db.attempts
      ensures after.attempts[attempts[i]] == InterruptedAttempt(db.attempts[attempts[i]], |db.log| + i, sessionId, now)
    {
      AttemptTogether(db, d, sessionId, now, attempts, i);
    }
    forall j | 0 <= j < |executions| && executions[j] in db.executions
      ensures after.executions[executions[j]] ==
        InterruptedExecution(db.executions[executions[j]], |db.log| + |attempts| + j, sessionId, now)
    {
      ExecutionTogether(db.executions, d, after, sessionId, now, executions, j);
    }
  }

  /** What stays, and how far the log has come in between. */
  lemma KeysTogether(
    db: Db, d: Db, after: Db, sessionId: string, now: Time, executions: seq<string>, attempts: seq<string>)
    requires ReconciliationProofs.AttemptsInterrupted(db, d, attempts, sessionId, now)
    requires ReconciliationProofs.ExecutionsInterrupted(d, db.executions, after, executions, sessionId, now)
    requires AttemptsLogged(db, d, attempts, sessionId, now)
    ensures after.attempts == d.attempts && after.attempts.Keys == db.attempts.Keys
    ensures after.executions.Keys == db.executions.Keys && |d.log| == |db.log| + |attempts|
    ensures forall a | a in db.attempts && a !in attempts :: after.attempts[a] == db.attempts[a]
    ensures forall x | x in db.executions && x !in executions ::
      after.executions[x] == db.executions[x].(lastEventSequence := after.executions[x].lastEventSequence)
  {
    hide LostAttempt, ReconciliationProofs.InterruptedRow, ReconciliationProofs.InterruptedRecord;
    hide ReconciliationProofs.SameButTouched, ReconciliationProofs.SameElsewhere;
  }

  lemma AttemptTogether(db: Db, d: Db, sessionId: string, now: Time, attempts: seq<string>, i: nat)
    requires ReconciliationProofs.AttemptsInterrupted(db, d, attempts, sessionId, now)
    requires AttemptsLogged(db, d, attempts, sessionId, now) && i < |attempts| && attempts[i] in db.attempts
    ensures attempts[i] in d.attempts
    ensures d.attempts[attempts[i]] == InterruptedAttempt(db.attempts[attempts[i]], |db.log| + i, sessionId, now)
  {
    hide LostAttempt, ReconciliationProofs.SameButTouched, ReconciliationProofs.SameElsewhere;
    assert attempts[i] in attempts;
  }

  lemma ExecutionTogether(
    rows: map<string, ExecutionRecord>, d: Db, after: Db, sessionId: string, now: Time, executions: seq<string>, j: nat)
    requires ReconciliationProofs.ExecutionsInterrupted(d, rows, after, executions, sessionId, now)
    requires ExecutionsLogged(d, rows, after, executions, sessionId, now) && j < |executions| && executions[j] in rows
    ensures executions[j] in after.executions
    ensures after.executions[executions[j]] ==
      InterruptedExecution(rows[executions[j]], |d.log| + j, sessionId, now)
  {
    hide LostExecution, ReconciliationProofs.SameElsewhere;
    assert executions[j] in executions;
  }

  lemma LogTogether(
    db: Db, d: Db, after: Db, sessionId: string, now: Time, executions: seq<string>, attempts: seq<string>)
    requires AttemptsLogged(db, d, attempts, sessionId, now)
    requires ExecutionsLogged(d, db.executions, after, executions, sessionId, now)
    ensures LogReconciled(db, after, sessionId, now, executions, attempts)
  {
    hide LostAttempt, LostExecution;
  }
}
