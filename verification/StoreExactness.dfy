/** Where the store's promises stop, exactly: raw appends the ledger cannot replay, the empty checkpoint
    id, a refresh that is not one step, and sessions that try to act after they ended. */
module StoreExactness {
  import opened RuntimeTypes
  import opened RuntimeProjections
  import opened LedgerReplay
  import opened DurableTables
  import opened StoreInvariant
  import opened StoreProtocol
  import opened StoreSteps
  import opened StoreRuns
  import LedgerProofs
  import LogFacts
  import ReducerProofs

  ghost predicate LedgerAgrees(db: Db) {
    ReduceLedger(db.identity, db.log, ProjectionCursor(db)) == Success(LedgerOf(db))
  }

  ghost predicate CommandsAgree(db: Db) {
    ReduceCommands(db.identity, db.log) == Success(CommandListing(db))
  }

  // ---------------------------------------------------------------- what a raw append commits

  /** The store refuses a raw event only for a foreign runtime id, or for a new attempt whose record is
      invalid or whose ordinal does not go beyond those of its process. */
  predicate RawAccepted(db: Db, e: Event) {
    && e.runtimeId == db.identity.runtimeId
    && (TouchesAttempt(e) && e.attemptId.value !in db.attempts ==>
          && !RowMalformed(e.payload) && RowOrdinal(e) >= 1
          && forall id | id in db.attempts && db.attempts[id].processId == e.processId.value ::
               db.attempts[id].ordinal < RowOrdinal(e))
  }

  lemma RawAppendCommits(db: Db, e: Event)
    requires Good(db)
    ensures AppendEvent(db, e).Success? <==> RawAccepted(db, e)
  {
    hide Observed, Linked, Settled, ExecutionsSynced, CommandsSynced, RowMalformed;
    if TouchesAttempt(e) && RowOrdinal(e) >= 1 {
      OrdinalsFill(db, e.processId.value, RowOrdinal(e));
    }
  }

  /** The ordinals of a process are 1..n, so a free one is a new largest one. */
  lemma OrdinalsFill(db: Db, process: string, ordinal: int)
    requires Synced(db) && ordinal >= 1
    ensures !RowTaken(db.attempts, process, ordinal) <==>
      forall id | id in db.attempts && db.attempts[id].processId == process :: db.attempts[id].ordinal < ordinal
  {
    var x, rid := ReplayAttempts(db.log).value, db.identity.runtimeId;
    forall id | id in db.attempts && db.attempts[id].processId == process && db.attempts[id].ordinal >= ordinal
      ensures RowTaken(db.attempts, process, ordinal)
    {
      assert AttemptRowRight(x, rid, id);
      var other := x.idsByProcess[process][ordinal - 1];
      assert other in x.byId && x.byId[other].ordinal == ordinal;
    }
  }

  lemma RawAppended(db: Db, e: Event)
    requires Good(db) && AppendEvent(db, e).Success?
    ensures var (after, stored) := AppendEvent(db, e).value;
      && stored == StoredEvent(db, e) && Canonical(stored, |db.log|, db.identity.runtimeId)
      && WriteAttempt(db.attempts, stored).Success?
      && after == db.(log := db.log + [stored], attempts := WriteAttempt(db.attempts, stored).value,
                      executions := TouchExecution(db.executions, stored))
      && Dense(after.log, db.identity.runtimeId)
  {
    hide WriteAttempt;
    DenseMax(db.log, db.identity.runtimeId);
    DenseStep(db.log, db.identity.runtimeId, StoredEvent(db, e));
  }

  // ---------------------------------------------------------------- raw appends and the executions

  /** The event names no execution, or a declared one without declaring it again, and any status it
      carries over is the one the record already has. */
  predicate ExecutionSafe(db: Db, e: Event) {
    e.executionId.Some? ==>
      && e.executionId.value in db.executions && !e.eventType.ExecutionCreated?
      && var r := db.executions[e.executionId.value];
         var t := TransitionOf(e.eventType);
         t.Some? ==>
           && r.status == t.value && r.error == e.error
           && (if e.eventType.ExecutionStarted? then r.startedAt else r.finishedAt) == Some(e.timestamp)
  }

  ghost predicate ExecutionsReplayed(log: seq<Event>, runtimeId: string, executions: map<string, ExecutionRecord>) {
    var r := ReplayExecutions(log, runtimeId);
    r.Success? && r.value.byId == executions
  }

  lemma ExecutionsExact(db: Db, e: Event)
    requires Good(db) && Canonical(e, |db.log|, db.identity.runtimeId)
    ensures var executions, rid := TouchExecution(db.executions, e), db.identity.runtimeId;
      && (ExecutionsReplayed(db.log + [e], rid, executions) <==> ExecutionSafe(db, e))
      && (ExecutionSafe(db, e) ==> ExecutionsSynced(db.log + [e], rid, executions))
  {
    hide Observed, Linked, Settled, CommandsSynced, AttemptsSynced, ExecutionIndexRight, DeclaredBy;
    var rid := db.identity.runtimeId;
    var x := ReplayExecutions(db.log, rid).value;
    ReplayOneMore(db.log, rid, e);
    if e.executionId.Some? {
      var id := e.executionId.value;
      if id in db.executions {
        ExecutionMoved(x, rid, e, id);
        var touched := db.executions[id].(lastEventSequence := e.sequence);
        assert TouchExecution(db.executions, e)[id] == touched;
        assert TransitionedBy(db.executions[id], e) == touched <==>
          ExecutionSafe(db, e) || e.eventType.ExecutionCreated?;
        hide TransitionedBy;
        var y := x.byId[id := TransitionedBy(x.byId[id], e)];
        assert y[id] == TransitionedBy(x.byId[id], e);
      } else if ReplayExecution(x, e, rid).Success? {
        assert id in ReplayExecution(x, e, rid).value.byId;
      }
    }
  }

  // ---------------------------------------------------------------- raw appends and the attempts

  /** Replay falls back to the status of the event type where the store keeps the row's. */
  predicate CarriesStatus(status: Status, c: StatusClass, e: Event)
    requires e.eventType.IsAttempt()
  {
    && (if e.status.Some? then e.status.value != Custom("") else status == DefaultStatus(e.eventType))
    && (e.statusClass.Some? || c == DefaultClass(e.eventType))
  }

  predicate Unattempted(attempts: map<string, Attempt>, process: string) {
    forall id | id in attempts :: attempts[id].processId != process
  }

  predicate OpenedAlike(db: Db, e: Event)
    requires TouchesAttempt(e)
  {
    && EmptyOrdinal !in e.payload.malformed
    && (if e.payload.ordinal.Some? then e.payload.ordinal.value != 0 else Unattempted(db.attempts, e.processId.value))
    && CarriesStatus(Pending, NotStarted, e) && e.checkpointId != Some("")
  }

  predicate UpdatedAlike(a: Attempt, e: Event)
    requires TouchesAttempt(e)
  {
    && CarriesStatus(a.status, a.statusClass, e)
    && (e.checkpointId.None? || e.checkpointId == Some("") || e.checkpointId == a.checkpointId)
    && (e.payload.resumedFromAttemptId.None? || e.payload.resumedFromAttemptId == a.resumedFromAttemptId)
    && (e.eventType.AttemptStarted? ==>
          a.startedAt.None? || a.startedAt == Some(0.0) || a.startedAt == Some(e.timestamp))
  }

  /** The store and the reducer write the same attempt row. */
  predicate AttemptSafe(db: Db, e: Event) {
    TouchesAttempt(e) ==>
      if e.attemptId.value in db.attempts then UpdatedAlike(db.attempts[e.attemptId.value], e) else OpenedAlike(db, e)
  }

  lemma UpdatedRows(a: Attempt, e: Event)
    requires TouchesAttempt(e)
    ensures AttemptAfter(a, e) == UpdatedRow(a, e) <==> UpdatedAlike(a, e)
  {
  }

  lemma OpenedRows(x: AttemptIndex, db: Db, e: Event)
    requires TouchesAttempt(e) && e.attemptId.value !in x.byId && db.attempts == x.byId
    requires !RowMalformed(e.payload) && RowOrdinal(e) >= 1
    requires e.processId.value in x.idsByProcess <==> !Unattempted(db.attempts, e.processId.value)
    requires forall p | p in x.idsByProcess :: x.idsByProcess[p] != []
    ensures !AttemptRejected(x, e) && AttemptAfter(AttemptBefore(x, e), e) == UpdatedRow(NewRow(e), e)
      <==> OpenedAlike(db, e)
  {
    assert e.payload.ordinal.None? ==>
      (NewOrdinal(x, e) == 1 <==> Unattempted(db.attempts, e.processId.value));
    hide Unattempted;
  }

  /** A later event of a known attempt leaves the lists right. */
  lemma RaisedLists(x: AttemptIndex, e: Event)
    requires LedgerProofs.ListsRight(x) && TouchesAttempt(e) && e.attemptId.value in x.byId
    ensures !AttemptRejected(x, e) && LedgerProofs.ListsRight(WithAttempt(x, e))
    ensures WithAttempt(x, e) ==
      AttemptIndex(x.byId[e.attemptId.value := AttemptAfter(x.byId[e.attemptId.value], e)], x.idsByProcess)
  {
    var id := e.attemptId.value;
    var row := AttemptAfter(x.byId[id], e);
    assert row.processId == x.byId[id].processId && row.ordinal == x.byId[id].ordinal;
    hide AttemptAfter;
    var y := WithAttempt(x, e);
    forall p | p in y.idsByProcess ensures LedgerProofs.Rising(y, y.idsByProcess[p]) {
      assert LedgerProofs.Rising(x, x.idsByProcess[p]);
    }
  }

  lemma AppendedList(x: AttemptIndex, id: string, row: Attempt)
    requires LedgerProofs.ListsRight(x) && id !in x.byId
    requires forall other | other in x.byId && x.byId[other].processId == row.processId ::
      x.byId[other].ordinal < row.ordinal
    ensures LedgerProofs.ListsRight(WithNewRow(x, id, row))
  {
    var y := WithNewRow(x, id, row);
    forall p | p in y.idsByProcess ensures LedgerProofs.Rising(y, y.idsByProcess[p]) {
      if p in x.idsByProcess {
        RisesOn(x, y, p, id, row);
      }
    }
    forall p, other | p in y.idsByProcess && other in y.idsByProcess[p]
      ensures other in y.byId && y.byId[other].processId == p
    {
      if other != id { assert p in x.idsByProcess && other in x.idsByProcess[p]; }
    }
  }

  lemma RisesOn(x: AttemptIndex, y: AttemptIndex, p: string, id: string, row: Attempt)
    requires p in x.idsByProcess && LedgerProofs.Rising(x, x.idsByProcess[p]) && y.byId == x.byId[id := row]
    requires p in y.idsByProcess && id !in x.byId
    requires forall other <- x.idsByProcess[p] :: other in x.byId && x.byId[other].processId == p
    requires forall other | other in x.byId && x.byId[other].processId == row.processId ::
      x.byId[other].ordinal < row.ordinal
    requires y.idsByProcess[p] == x.idsByProcess[p] ||
      (p == row.processId && y.idsByProcess[p] == x.idsByProcess[p] + [id])
    ensures LedgerProofs.Rising(y, y.idsByProcess[p])
  {
    var ids := x.idsByProcess[p];
    assert forall i | 0 <= i < |ids| :: ids[i] in ids;
  }

  lemma ListedProcess(x: AttemptIndex, p: string)
    requires LedgerProofs.ListsRight(x)
    ensures p in x.idsByProcess <==> !Unattempted(x.byId, p)
  {
    if p in x.idsByProcess {
      assert x.idsByProcess[p][0] in x.idsByProcess[p];
    }
  }

  lemma OpenedLists(db: Db, x: AttemptIndex, e: Event)
    requires Good(db) && ReplayAttempts(db.log).value == x && LedgerProofs.ListsRight(x) && TouchesAttempt(e)
    requires e.attemptId.value !in db.attempts && WriteAttempt(db.attempts, e).Success?
    ensures !AttemptRejected(x, e) && WithAttempt(x, e).byId == WriteAttempt(db.attempts, e).value
      <==> OpenedAlike(db, e)
    ensures OpenedAlike(db, e) ==> LedgerProofs.ListsRight(WithAttempt(x, e))
  {
    hide Observed, Linked, Settled, CommandsSynced, ExecutionsSynced, OpenedAlike, AttemptRejected, RowMalformed;
    var id, p := e.attemptId.value, e.processId.value;
    assert db.attempts == x.byId;
    OrdinalsFill(db, p, RowOrdinal(e));
    ListedProcess(x, p);
    OpenedRows(x, db, e);
    var row := UpdatedRow(NewRow(e), e);
    assert row.processId == p && row.ordinal == RowOrdinal(e);
    assert WriteAttempt(db.attempts, e).value == x.byId[id := row];
    AppendedList(x, id, row);
    hide UpdatedRow, NewRow, AttemptAfter, RowOrdinal, LedgerProofs.ListsRight;
    assert WithAttempt(x, e).byId == x.byId[id := AttemptAfter(AttemptBefore(x, e), e)];
    assert WithAttempt(x, e).byId[id] == AttemptAfter(AttemptBefore(x, e), e);
    assert x.byId[id := row][id] == row;
    if OpenedAlike(db, e) {
      assert WithAttempt(x, e) == WithNewRow(x, id, row);
    }
  }

  lemma AttemptsExact(db: Db, e: Event)
    requires Good(db) && Canonical(e, |db.log|, db.identity.runtimeId) && WriteAttempt(db.attempts, e).Success?
    ensures var attempts := WriteAttempt(db.attempts, e).value;
      && (AttemptSafe(db, e) ==> LedgerProofs.AttemptsReplayed(db.log + [e], attempts))
      && (ReplayAttempts(db.log + [e]).Success? && ReplayAttempts(db.log + [e]).value.byId == attempts ==>
            AttemptSafe(db, e))
  {
    hide Observed, Linked, Settled, CommandsSynced, ExecutionsSynced, AttemptIndexRight, LedgerProofs.ListsRight;
    var x := ReplayAttempts(db.log).value;
    assert !TouchesAttempt(e) ==> !AttemptRejected(x, e);
    hide UpdatedRow, NewRow, UpdatedAlike, OpenedAlike, AttemptAfter, AttemptRejected, RowMalformed;
    assert (db.log + [e])[..|db.log + [e]| - 1] == db.log;
    LedgerProofs.RightLists(x, db.identity.runtimeId);
    if TouchesAttempt(e) {
      var id := e.attemptId.value;
      if id in db.attempts {
        UpdatedRows(db.attempts[id], e);
        RaisedLists(x, e);
        assert WithAttempt(x, e).byId[id] == AttemptAfter(db.attempts[id], e);
      } else {
        OpenedLists(db, x, e);
      }
    }
  }

  // ---------------------------------------------------------------- raw appends and the ledger

  /** A raw event that the ledger replays as the store does. */
  ghost predicate RawSafe(db: Db, e: Event) {
    ExecutionSafe(db, e) && AttemptSafe(db, e) && !UsageRejected(e) && !UnitRejected(UnitsAfter(db.log), e)
  }

  /** What agreement takes: a log the reducer reads and both tables equal to their replay. */
  lemma AgreementParts(db: Db)
    requires Dense(db.log, db.identity.runtimeId) && LedgerAgrees(db)
    ensures ExecutionsReplayed(db.log, db.identity.runtimeId, db.executions) && Readable(db.log)
    ensures ReplayAttempts(db.log).Success? && ReplayAttempts(db.log).value.byId == db.attempts
  {
    LedgerProofs.DenseSorts(db.log, db.identity.runtimeId);
    LedgerProofs.ReduceCarriesAttempts(db.log, db.identity.runtimeId, Policy(true, true));
  }

  lemma SafeRefersToInput(db: Db, e: Event)
    ensures var stored := StoredEvent(db, e);
      && (ExecutionSafe(db, stored) <==> ExecutionSafe(db, e)) && (AttemptSafe(db, stored) <==> AttemptSafe(db, e))
      && (UsageRejected(stored) <==> UsageRejected(e))
      && (UnitRejected(UnitsAfter(db.log), stored) <==> UnitRejected(UnitsAfter(db.log), e))
  {
  }

  /** Main result for raw appends: after any that commits, the ledger still equals its replay exactly when
      the event was safe. */
  lemma RawAppendExact(db: Db, e: Event)
    requires Good(db) && AppendEvent(db, e).Success?
    ensures LedgerAgrees(AppendEvent(db, e).value.0) <==> RawSafe(db, e)
  {
    var (after, stored) := AppendEvent(db, e).value;
    hide Observed, Linked, Settled, AppendEvent, LedgerAgrees, ReplayAttempts;
    hide ExecutionsReplayed, ExecutionsSynced, LedgerProofs.AttemptsReplayed, AttemptsSynced, CommandsSynced;
    RawAppended(db, e);
    SafeRefersToInput(db, e);
    hide ExecutionSafe, AttemptSafe, UsageRejected, UnitRejected;
    ExecutionsExact(db, stored);
    AttemptsExact(db, stored);
    ReadableStep(db.log, stored);
    if RawSafe(db, e) {
      assert LedgerAgrees(after) by { Agreement(after); }
    }
    if LedgerAgrees(after) {
      AgreementParts(after);
    }
  }

  lemma Agreement(db: Db)
    requires Dense(db.log, db.identity.runtimeId) && Readable(db.log)
    requires ExecutionsSynced(db.log, db.identity.runtimeId, db.executions)
    requires LedgerProofs.AttemptsReplayed(db.log, db.attempts)
    ensures LedgerAgrees(db)
  {
    hide Readable, ExecutionsSynced, LedgerProofs.AttemptsReplayed, Dense;
    LedgerProofs.LedgerIsReplay(db);
  }

  // ---------------------------------------------------------------- raw appends and the receipts

  lemma {:induction false} ListedLength(byId: map<string, CommandRecord>, order: seq<string>)
    requires forall id <- order :: id in byId
    ensures |Listed(byId, order)| == |order|
    ensures forall i | 0 <= i < |order| :: Listed(byId, order)[i] == byId[order[i]]
  {
    if order != [] { ListedLength(byId, order[..|order| - 1]); }
  }

  /** A committed raw command event always parts the receipts from their replay; any other never does. */
  lemma RawCommandExact(db: Db, e: Event)
    requires Good(db) && AppendEvent(db, e).Success?
    ensures CommandsAgree(AppendEvent(db, e).value.0) <==> !e.eventType.IsCommand()
  {
    hide Observed, Linked, Settled, ExecutionsSynced, AttemptsSynced, CommandListing, WriteAttempt;
    RawAppended(db, e);
    var stored, rid := StoredEvent(db, e), db.identity.runtimeId;
    var after := AppendEvent(db, e).value.0;
    LedgerProofs.DenseSorts(after.log, rid);
    LedgerProofs.DenseSorts(db.log, rid);
    LedgerProofs.CommandsAreReplay(db);
    SameListing(db, after);
    assert (db.log + [stored])[..|db.log + [stored]| - 1] == db.log;
    var x := ReplayCommands(db.log, rid).value;
    if e.eventType.IsCommand() {
      var r := ReplayCommand(x, stored, rid);
      if r.Success? { MovedReceipts(x, stored, rid, |db.log|); }
    }
  }

  // ---------------------------------------------------------------- a command about an undeclared execution

  /** `reserve_command` does not look up the execution it names. The ledger equals its replay after a
      committed call exactly when the command was known already or the execution is declared. */
  lemma ReserveExact(
    db: Db, commandId: string, commandType: string, timestamp: Time, targetId: Option<string>,
    executionId: Option<string>, backendSessionId: Option<string>, request: Json, metadata: Json)
    requires Good(db)
    requires ReserveCommand(db, commandId, commandType, timestamp, targetId, executionId, backendSessionId, request,
                            metadata).Success?
    ensures LedgerAgrees(ReserveCommand(db, commandId, commandType, timestamp, targetId, executionId, backendSessionId,
                                        request, metadata).value.0)
      <==> commandId in db.commands || Refers(db.executions, executionId)
  {
    hide Good, AppendEvent, LedgerAgrees, AcceptanceEvent, Blank, RawSafe;
    var after := ReserveCommand(db, commandId, commandType, timestamp, targetId, executionId, backendSessionId, request,
                                metadata).value.0;
    if commandId in db.commands {
      GoodAgrees(db);
    } else {
      var e := AcceptanceEvent(db, commandId, commandType, timestamp, targetId, executionId, backendSessionId, request,
                               metadata);
      RawAppendExact(db, e);
      AcceptanceSafe(db, commandId, commandType, timestamp, targetId, executionId, backendSessionId, request, metadata);
      ReceiptsUnread(AppendEvent(db, e).value.0, after);
    }
  }

  lemma GoodAgrees(db: Db)
    requires Good(db)
    ensures LedgerAgrees(db)
  {
    hide Observed, Linked, Settled, CommandsSynced, ReduceLedger, LedgerOf;
    LedgerProofs.AttemptsAreReplayed(db);
    LedgerProofs.LedgerIsReplay(db);
  }

  lemma AcceptanceSafe(
    db: Db, commandId: string, commandType: string, timestamp: Time, targetId: Option<string>,
    executionId: Option<string>, backendSessionId: Option<string>, request: Json, metadata: Json)
    ensures RawSafe(db, AcceptanceEvent(db, commandId, commandType, timestamp, targetId, executionId, backendSessionId,
                                        request, metadata))
      <==> Refers(db.executions, executionId)
  {
  }

  /** The ledger does not read the receipts. */
  lemma ReceiptsUnread(db: Db, after: Db)
    requires after == db.(commands := after.commands)
    ensures LedgerAgrees(after) <==> LedgerAgrees(db)
  {
    hide ReduceLedger;
    assert AttemptedProcesses(after) == AttemptedProcesses(db);
    assert LedgerOf(after) == LedgerOf(db);
  }

  lemma SameListing(db: Db, after: Db)
    requires db.commands == after.commands
    ensures CommandListing(db) == CommandListing(after)
  {
  }

  lemma MovedReceipts(x: CommandIndex, e: Event, runtimeId: string, bound: int)
    requires CommandIndexRight(x, runtimeId, bound) && e.sequence == Some(bound) && e.eventType.IsCommand()
    requires ReplayCommand(x, e, runtimeId).Success?
    ensures Receipts(ReplayCommand(x, e, runtimeId).value) != Receipts(x)
  {
    var y := ReplayCommand(x, e, runtimeId).value;
    var id := e.subjectId.value;
    forall k <- x.order ensures k in x.byId {
      var i :| 0 <= i < |x.order| && x.order[i] == k;
    }
    ListedLength(x.byId, x.order);
    ListedLength(y.byId, y.order);
    if !e.eventType.CommandAccepted? {
      assert id in x.order;
      var i :| 0 <= i < |x.order| && x.order[i] == id;
      assert Receipts(y)[i].lastEventSequence == bound;
    }
  }

  // ---------------------------------------------------------------- the empty checkpoint id

  /** `begin_process_attempt` stores an empty checkpoint id that replay reads as absent, so the ledger
      equals its replay after a committed call exactly when the id was not the empty text. */
  lemma CheckpointIdExact(
    db: Db, process: string, executionId: string, timestamp: Time, operation: Operation,
    backendSessionId: Option<string>, resumedFrom: Option<string>, checkpointId: Option<string>, metadata: Json)
    requires Good(db)
    requires BeginAttempt(db, process, executionId, timestamp, operation, backendSessionId, resumedFrom,
                          checkpointId, metadata).Success?
    ensures LedgerAgrees(BeginAttempt(db, process, executionId, timestamp, operation, backendSessionId, resumedFrom,
                                      checkpointId, metadata).value.0)
      <==> checkpointId != Some("")
  {
    var after := BeginAttempt(db, process, executionId, timestamp, operation, backendSessionId, resumedFrom,
                              checkpointId, metadata).value.0;
    hide BeginAttempt, Observed, Linked, Settled, CommandsSynced, ReduceLedger, LedgerOf;
    if checkpointId != Some("") {
      BeginAttemptStep(db, process, executionId, timestamp, operation, backendSessionId, resumedFrom, checkpointId,
                       metadata);
      LedgerProofs.AttemptsAreReplayed(after);
      LedgerProofs.LedgerIsReplay(after);
    } else {
      EmptyCheckpointParts(db, process, executionId, timestamp, operation, backendSessionId, resumedFrom, metadata,
                           after);
    }
  }

  /** The two events of an attempt begun with an empty checkpoint id. */
  lemma EmptyCheckpointEvents(
    db: Db, process: string, executionId: string, timestamp: Time, operation: Operation,
    backendSessionId: Option<string>, resumedFrom: Option<string>, metadata: Json, after: Db)
    returns (e: Event, f: Event)
    requires Good(db)
    requires BeginAttempt(db, process, executionId, timestamp, operation, backendSessionId, resumedFrom,
                          Some(""), metadata).Success?
    requires after == BeginAttempt(db, process, executionId, timestamp, operation, backendSessionId, resumedFrom,
                                   Some(""), metadata).value.0
    ensures e.eventType == AttemptCreated && f == e.(
      eventType := AttemptStarted, status := Some(Running), statusClass := Some(Active), eventId := f.eventId,
      sequence := f.sequence)
    ensures TouchesAttempt(e) && e.attemptId.value !in db.attempts && e.checkpointId == Some("")
    ensures e.payload.ordinal.Some? && e.payload.ordinal.value >= 1 && !AttemptMalformed(e.payload)
    ensures Canonical(e, |db.log|, db.identity.runtimeId) && Canonical(f, |db.log| + 1, db.identity.runtimeId)
    ensures after.log == db.log + [e] + [f] && after.identity == db.identity
    ensures e.attemptId.value in after.attempts && after.attempts[e.attemptId.value].checkpointId == Some("")
  {
    hide Observed, Linked, Settled, ExecutionsSynced, CommandsSynced, MaxOrdinal, AttemptId, AttemptsSynced;
    hide AppendEvent, AttemptEvent, IsMaxOrdinal, Readable;
    NextAttempt(db, process);
    var rid, k, spec := db.identity.runtimeId, MaxOrdinal(db.attempts, process), db.specs[process];
    DenseMax(db.log, rid);
    AttemptEventFacts(db, spec, process, executionId, k + 1, timestamp, operation, backendSessionId, resumedFrom,
                      Some(""), metadata);
    var created := AttemptEvent(db, AttemptCreated, spec, process, executionId, k + 1, timestamp, operation,
                                backendSessionId, resumedFrom, Some(""), metadata);
    e := StoredEvent(db, created);
    AppendedRow(db, created);
    var d := AppendEvent(db, created).value.0;
    DenseStep(db.log, rid, e);
    DenseMax(d.log, rid);
    SameAttemptEvent(db, d, AttemptStarted, spec, process, executionId, k + 1, timestamp, operation, backendSessionId,
                     resumedFrom, Some(""), metadata);
    hide Dense;
    f := e.(eventType := AttemptStarted, status := Some(Running), statusClass := Some(Active),
            eventId := IntId(|db.log| + 1), sequence := Some(|db.log| + 1));
    AppendedRow(d, AttemptEvent(d, AttemptStarted, spec, process, executionId, k + 1, timestamp, operation,
                                backendSessionId, resumedFrom, Some(""), metadata));
  }

  /** What an appended attempt event leaves of the row's checkpoint id. */
  lemma AppendedRow(db: Db, e: Event)
    requires AppendEvent(db, e).Success? && TouchesAttempt(e)
    ensures var d := AppendEvent(db, e).value.0;
      var id := e.attemptId.value;
      && d.log == db.log + [StoredEvent(db, e)] && d.identity == db.identity && id in d.attempts
      && d.attempts[id].checkpointId == if id in db.attempts then db.attempts[id].checkpointId else e.checkpointId
  {
    hide TouchExecution;
  }

  lemma EmptyCheckpointParts(
    db: Db, process: string, executionId: string, timestamp: Time, operation: Operation,
    backendSessionId: Option<string>, resumedFrom: Option<string>, metadata: Json, after: Db)
    requires Good(db)
    requires BeginAttempt(db, process, executionId, timestamp, operation, backendSessionId, resumedFrom,
                          Some(""), metadata).Success?
    requires after == BeginAttempt(db, process, executionId, timestamp, operation, backendSessionId, resumedFrom,
                                   Some(""), metadata).value.0
    ensures !LedgerAgrees(after)
  {
    var e, f := EmptyCheckpointEvents(db, process, executionId, timestamp, operation, backendSessionId, resumedFrom,
                                      metadata, after);
    hide BeginAttempt, Good, LedgerAgrees, WithAttempt, AttemptRejected, Readable, ReplayExecutions;
    var rid := db.identity.runtimeId;
    assert Synced(db) by { SyncedOf(db); }
    DenseStep(db.log, rid, e);
    DenseStep(db.log + [e], rid, f);
    AbsentCheckpoint(ReplayAttempts(db.log).value, e, f);
    ReplayedTwo(db.log, e, f);
    hide ReplayAttempts, Dense, Synced;
    if LedgerAgrees(after) { AgreementParts(after); }
  }

  lemma SyncedOf(db: Db)
    requires Good(db)
    ensures Synced(db)
  {
  }

  lemma ReplayedTwo(log: seq<Event>, e: Event, f: Event)
    requires ReplayAttempts(log).Success?
    requires !AttemptRejected(ReplayAttempts(log).value, e)
    requires !AttemptRejected(WithAttempt(ReplayAttempts(log).value, e), f)
    ensures ReplayAttempts(log + [e] + [f]) == Success(WithAttempt(WithAttempt(ReplayAttempts(log).value, e), f))
  {
    hide WithAttempt, AttemptRejected;
    assert (log + [e])[..|log|] == log;
    assert (log + [e] + [f])[..|log| + 1] == log + [e];
  }

  /** Replay reads an empty checkpoint id as no checkpoint. */
  lemma AbsentCheckpoint(x: AttemptIndex, e: Event, f: Event)
    requires TouchesAttempt(e) && e.attemptId.value !in x.byId && e.checkpointId == Some("")
    requires f == e.(eventType := f.eventType, status := f.status, statusClass := f.statusClass,
                     eventId := f.eventId, sequence := f.sequence)
    requires !AttemptMalformed(e.payload) && e.payload.ordinal.Some? && e.payload.ordinal.value >= 1
    ensures !AttemptRejected(x, e) && !AttemptRejected(WithAttempt(x, e), f)
    ensures var y := WithAttempt(WithAttempt(x, e), f).byId;
      e.attemptId.value in y && y[e.attemptId.value].checkpointId.None?
  {
  }

  // ---------------------------------------------------------------- a refresh that is not one step

  lemma {:induction false} ReducedCount(log: seq<Event>, runtimeId: string, policy: Policy)
    requires Dense(log, runtimeId) && ReplayAttempts(log).Success? && Readable(log)
    ensures Reduce(log, policy).Success? && Reduce(log, policy).value.core.eventCount == |log|
  {
    LedgerProofs.DenseSorts(log, runtimeId);
    LedgerProofs.ReduceCarriesAttempts(log, runtimeId, policy);
    ReducerProofs.ReduceIsFold(log, runtimeId, policy);
    ReducerProofs.FoldCursor(EmptyProjection(if log != [] then runtimeId else "runtime"), log, runtimeId, false);
  }

  /** `refresh_projection` reads its events and, later, the last sequence it writes as the cursor. If the
      log grew in between, the pair is wrong; if it did not, the pair is right. */
  lemma SplitRefreshExact(db: Db, later: Db, policy: Policy)
    requires Good(db) && ProjectionRight(db, policy) && db.log != [] && ProjectionCursor(db) < |db.log| - 1
    requires Good(later) && later.identity == db.identity && db.log <= later.log
    ensures RefreshedProjection(db, policy).Success?
    ensures var p := RefreshedProjection(db, policy).value;
      var written := WriteProjection(later, p, MaxSequence(later.log));
      && written.Success?
      && (ProjectionRight(written.value.0, policy) <==> later.log == db.log)
  {
    hide Reduce, RefreshedProjection, ExecutionsSynced, CommandsSynced, Observed, Linked, Settled;
    RefreshedRight(db, policy);
    var rid := db.identity.runtimeId;
    DenseMax(later.log, rid);
    ReducedCount(db.log, rid, policy);
    ReducedCount(later.log, rid, policy);
    assert later.log[..|later.log|] == later.log;
  }

  // ---------------------------------------------------------------- ended sessions

  /** A session that is not active can neither renew nor release nor reconcile, nor be acquired again. */
  lemma EndedCannotAct(db: Db, id: string, ownerId: string, now: Time, ttl: Time, metadata: Json)
    requires Good(db) && id in db.sessions && !IsActive(db.sessions, id)
    ensures RenewSession(db, id, ownerId, now, ttl).Failure? && ReleaseSession(db, id, ownerId, now).Failure?
    ensures Reconcile(db, id, ownerId, now).Failure? && AcquireSession(db, id, ownerId, now, ttl, metadata).Failure?
  {
    hide Synced, Linked, Settled, Mirrors, Watch;
    ActiveLoaded(db);
    if AcquireSession(db, id, ownerId, now, ttl, metadata).Success? {
      DisplaceStep(db, now);
      assert id in DisplaceSession(db, LoadActive(db.sessions), now).value.sessions;
    }
  }

  /** Main result for leases: once a session ended it stays ended through every continuation of the run. */
  lemma EndedStaysEnded(identity: Identity, ops: seq<Op>, more: seq<Op>, policy: Policy, id: string)
    requires DisciplinedRun(EmptyDb(identity), ops + more, policy)
    requires id in Run(EmptyDb(identity), ops, policy).sessions
    requires !IsActive(Run(EmptyDb(identity), ops, policy).sessions, id)
    ensures var db := Run(EmptyDb(identity), ops + more, policy);
      Good(db) && id in db.sessions && !IsActive(db.sessions, id)
  {
    hide Run, Good, ProjectionRight, DisciplinedRun, IsActive;
    RunContinues(identity, ops, more, policy);
    RunGood(identity, ops, policy);
    RunGood(identity, ops + more, policy);
    EndedLater(Run(EmptyDb(identity), ops, policy), Run(EmptyDb(identity), ops + more, policy), id);
  }

  lemma EndedLater(before: Db, after: Db, id: string)
    requires Good(before) && Good(after) && before.log <= after.log
    requires id in before.sessions && !IsActive(before.sessions, id)
    ensures id in after.sessions && !IsActive(after.sessions, id)
  {
    hide Synced, Linked, Settled, ExecutionsMatch, AttemptsMatch, CommandsMatch;
    LogFacts.WatchPrefix(after.log, |before.log|);
    assert after.log[..|before.log|] == before.log;
  }
}
