/** Inputs that reach the failures which `StoreExactness` delimits. */
module StoreWitnesses {
  import opened RuntimeTypes
  import opened Sorting
  import opened RuntimeProjections
  import opened LedgerReplay
  import opened DurableTables
  import opened StoreInvariant
  import opened StoreProtocol
  import opened StoreSteps
  import opened StoreRuns
  import opened StoreExactness
  import opened StoreSplits
  import LedgerProofs
  import ReducerProofs

  // ---------------------------------------------------------------- an unreadable event

  /** An event that nothing rejects when it is appended, and that no reduction can read. */
  function BadSample(identity: Identity, process: string, timestamp: Time): Event {
    Draft(identity.runtimeId, ResourceSampled, timestamp).(
      processId := Some(process), payload := NO_PAYLOAD.(resourceUsage := Some(InvalidUsage)))
  }

  /** The append commits, and from then on the ledger cannot be reduced. */
  lemma BadSampleSpoils(db: Db, process: string, timestamp: Time)
    requires Good(db)
    ensures AppendEvent(db, BadSample(db.identity, process, timestamp)).Success?
    ensures !LedgerAgrees(AppendEvent(db, BadSample(db.identity, process, timestamp)).value.0)
    ensures !Readable(AppendEvent(db, BadSample(db.identity, process, timestamp)).value.0.log)
  {
    hide Good, LedgerAgrees, AppendEvent, RawAccepted;
    var e := BadSample(db.identity, process, timestamp);
    RawAppendCommits(db, e);
    assert RawAccepted(db, e) by { PlainAccepted(db, e); }
    RawAppended(db, e);
    ReadableStep(db.log, StoredEvent(db, e));
    RawAppendExact(db, e);
  }

  lemma PlainAccepted(db: Db, e: Event)
    requires e.runtimeId == db.identity.runtimeId && !TouchesAttempt(e)
    ensures RawAccepted(db, e)
  {
  }

  /** An unreadable log stays so however it grows. */
  lemma {:induction false} UnreadableStays(log: seq<Event>, k: nat)
    requires k <= |log| && !Readable(log[..k])
    ensures !Readable(log)
    decreases |log|
  {
    if k < |log| {
      assert log[..|log| - 1][..k] == log[..k];
      UnreadableStays(log[..|log| - 1], k);
    } else {
      assert log[..k] == log;
    }
  }

  /** Every refresh that has an unreadable event to catch up with raises. */
  lemma UnreadableRefreshFails(db: Db, policy: Policy)
    requires Dense(db.log, db.identity.runtimeId) && !Readable(db.log)
    requires ProjectionRight(db, policy) && ProjectionCursor(db) < |db.log| - 1
    ensures RefreshProjection(db, policy).Failure?
  {
    hide Reduce, Apply, ReplayAttempts, Readable, EventsAfter, Dense, ReducerProofs.Sequenced;
    var rid := db.identity.runtimeId;
    LedgerProofs.ReduceCarriesAttempts(db.log, rid, policy);
    if db.projection.Some? {
      var (p, cursor) := db.projection.value;
      EventsAfterIsSuffix(db.log, rid, cursor);
      UnreadableApplyFails(db.log, rid, p, cursor + 1, policy);
    }
  }

  lemma UnreadableApplyFails(log: seq<Event>, runtimeId: string, p: Projection, k: nat, policy: Policy)
    requires Dense(log, runtimeId) && k <= |log| && Reduce(log, policy).Failure?
    requires Reduce(log[..k], policy).Success? && ReducerProofs.SameButStatus(p, Reduce(log[..k], policy).value)
    ensures Apply(p, log[k..], policy).Failure?
  {
    hide Reduce, Apply, Dense, ReducerProofs.Sequenced, ReducerProofs.SameButStatus, Sort, AllSequenced;
    LedgerProofs.DenseSorts(log, runtimeId);
    assert log[..k] + log[k..] == log;
    ReducerProofs.IncrementalSucceeds(log[..k], log[k..], runtimeId, p, policy);
  }

  // ---------------------------------------------------------------- an attempt with an empty checkpoint id

  /** Beginning an attempt raises for an undeclared process or execution, a finished execution or one of
      another session, and for no other reason. */
  lemma BeginAttemptCommits(
    db: Db, process: string, executionId: string, timestamp: Time, operation: Operation,
    backendSessionId: Option<string>, resumedFrom: Option<string>, checkpointId: Option<string>, metadata: Json)
    requires Good(db)
    ensures BeginAttempt(db, process, executionId, timestamp, operation, backendSessionId, resumedFrom, checkpointId,
                         metadata).Success?
      <==>
      && process in db.specs && executionId in db.executions
      && (db.executions[executionId].status == Pending || db.executions[executionId].status == Running)
      && (db.executions[executionId].backendSessionId.None? ||
          db.executions[executionId].backendSessionId == backendSessionId)
  {
    hide OpenAttempt, Good, MaxOrdinal;
    if process in db.specs {
      OpenAttemptCommits(db, process, executionId, timestamp, operation, backendSessionId, resumedFrom, checkpointId,
                         metadata);
    }
  }

  lemma OpenAttemptCommits(
    db: Db, process: string, executionId: string, timestamp: Time, operation: Operation,
    backendSessionId: Option<string>, resumedFrom: Option<string>, checkpointId: Option<string>, metadata: Json)
    requires Good(db) && process in db.specs
    ensures OpenAttempt(db, process, executionId, MaxOrdinal(db.attempts, process) + 1, timestamp, operation,
                        backendSessionId, resumedFrom, checkpointId, metadata).Success?
  {
    hide Synced, Observed, Linked, Settled, MaxOrdinal, AttemptId, AppendEvent;
    NextAttempt(db, process);
    var k, spec := MaxOrdinal(db.attempts, process), db.specs[process];
    FreeOrdinal(db, process, k);
    hide IsMaxOrdinal, RowTaken;
    var e := AttemptEvent(db, AttemptCreated, spec, process, executionId, k + 1, timestamp, operation,
                          backendSessionId, resumedFrom, checkpointId, metadata);
    FirstRow(db, e, k);
    var d := AppendEvent(db, e).value.0;
    NextRow(d, AttemptEvent(d, AttemptStarted, spec, process, executionId, k + 1, timestamp, operation,
                            backendSessionId, resumedFrom, checkpointId, metadata));
  }

  lemma FreeOrdinal(db: Db, process: string, k: int)
    requires IsMaxOrdinal(db.attempts, process, k)
    ensures !RowTaken(db.attempts, process, k + 1)
  {
  }

  lemma FirstRow(db: Db, e: Event, k: int)
    requires TouchesAttempt(e) && e.runtimeId == db.identity.runtimeId && k >= 0
    requires e.payload.ordinal == Some(k + 1) && e.payload.malformed == {}
    requires e.attemptId.value !in db.attempts && !RowTaken(db.attempts, e.processId.value, k + 1)
    ensures AppendEvent(db, e).Success?
    ensures var d := AppendEvent(db, e).value.0; d.identity == db.identity && e.attemptId.value in d.attempts
  {
    hide RowTaken, UpdatedRow, NewRow, TouchExecution;
  }

  lemma NextRow(db: Db, e: Event)
    requires TouchesAttempt(e) && e.runtimeId == db.identity.runtimeId && e.attemptId.value in db.attempts
    ensures AppendEvent(db, e).Success? && e.attemptId.value in AppendEvent(db, e).value.0.attempts
  {
    hide RowTaken, UpdatedRow, NewRow, TouchExecution;
  }

  const SPEC := ProcessSpec(Some("p"), "p", None, {}, None, None, None, UnknownIdempotency, false, 1, true, true, true,
                            Null)

  /** One declared process and one execution wave. */
  const PREPARED: seq<Op> := [Declare(SPEC, 0.0), Begin("x", Initial, 0.0, None, None, Null)]

  lemma PreparedRun(identity: Identity, policy: Policy)
    ensures DisciplinedRun(EmptyDb(identity), PREPARED, policy)
    ensures var db := Run(EmptyDb(identity), PREPARED, policy);
      && "p" in db.specs && "x" in db.executions
      && db.executions["x"].status == Pending && db.executions["x"].backendSessionId.None?
  {
    var first, start := Declare(SPEC, 0.0), EmptyDb(identity);
    var one := Perform(start, first, policy);
    assert PREPARED[..|PREPARED| - 1] == [first] && [first][..|[first]| - 1] == [];
    assert Run(start, [], policy) == start && DisciplinedRun(start, [], policy);
    assert Run(start, [first], policy) == one && DisciplinedRun(start, [first], policy);
    assert SPEC.ResolvedId() == "p";
    assert "p" in one.specs && one.executions == map[] && one.identity == identity;
    assert Run(start, PREPARED, policy) == Perform(one, PREPARED[1], policy);
    hide Run, DisciplinedRun;
    PreparedExecution(one, policy);
  }

  lemma PreparedExecution(db: Db, policy: Policy)
    requires db.executions == map[] && "p" in db.specs
    ensures var after := Perform(db, PREPARED[1], policy);
      && "p" in after.specs && "x" in after.executions
      && after.executions["x"].status == Pending && after.executions["x"].backendSessionId.None?
  {
    assert "x"[0] == 'x' && !Space('x') && !Blank("x");
    hide Blank, Space;
  }

  /** An empty checkpoint id is reachable, and parts the ledger from its replay. */
  lemma EmptyCheckpointSpoils(identity: Identity, policy: Policy, db: Db)
    requires db == Run(EmptyDb(identity), PREPARED, policy)
    ensures DisciplinedRun(EmptyDb(identity), PREPARED, policy)
    ensures BeginAttempt(db, "p", "x", 0.0, Start, None, None, Some(""), Null).Success?
    ensures !LedgerAgrees(BeginAttempt(db, "p", "x", 0.0, Start, None, None, Some(""), Null).value.0)
  {
    PreparedRun(identity, policy);
    RunGood(identity, PREPARED, policy);
    hide Good, BeginAttempt, Run, DisciplinedRun, LedgerAgrees, ProjectionRight;
    BeginAttemptCommits(db, "p", "x", 0.0, Start, None, None, Some(""), Null);
    CheckpointIdExact(db, "p", "x", 0.0, Start, None, None, Some(""), Null);
  }

  // ---------------------------------------------------------------- a refresh overtaken by an append

  function Note(identity: Identity): Op {
    Append(Draft(identity.runtimeId, OtherType("note"), 0.0))
  }

  lemma Noted(db: Db, policy: Policy)
    requires Good(db)
    ensures var after := Perform(db, Note(db.identity), policy);
      Good(after) && Extends(db, after) && |after.log| == |db.log| + 1
  {
    hide Good, AppendEvent, RawAccepted, PlainEvent;
    var e := Note(db.identity).e;
    NotePlain(db);
    RawAppendCommits(db, e);
    assert RawAccepted(db, e) by { PlainAccepted(db, e); }
    AppendStep(db, e);
    hide WriteAttempt;
    RawAppended(db, e);
  }

  lemma NotePlain(db: Db)
    ensures PlainEvent(db, Note(db.identity).e) && !TouchesAttempt(Note(db.identity).e)
  {
  }

  /** A refresh reads one event; a second one is appended before it writes; the stored pair is wrong. */
  lemma SplitRefreshSpoils(identity: Identity, policy: Policy, db: Db, later: Db)
    requires db == Perform(EmptyDb(identity), Note(identity), policy) && later == Perform(db, Note(identity), policy)
    ensures RefreshedProjection(db, policy).Success?
    ensures var written := WriteProjection(later, RefreshedProjection(db, policy).value, MaxSequence(later.log));
      written.Success? && !ProjectionRight(written.value.0, policy)
  {
    hide Good, Perform, RefreshedProjection;
    EmptyGood(identity);
    Noted(EmptyDb(identity), policy);
    Noted(db, policy);
    SplitRefreshExact(db, later, policy);
  }

  // ---------------------------------------------------------------- a command about an undeclared execution

  /** A first reservation commits, whether the execution it names exists or not. */
  lemma FirstReservation(identity: Identity, executionId: Option<string>)
    ensures var r := ReserveCommand(EmptyDb(identity), "c", "t", 0.0, None, executionId, None, Null, Null);
      r.Success? && "c" in r.value.0.commands
  {
    hide Good, AppendEvent, RawAccepted;
    var db := EmptyDb(identity);
    EmptyGood(identity);
    var e := AcceptanceEvent(db, "c", "t", 0.0, None, executionId, None, Null, Null);
    assert RawAccepted(db, e) by { PlainAccepted(db, e); }
    RawAppendCommits(db, e);
    RawAppended(db, e);
    assert "c"[0] == 'c' && !Space('c') && !Blank("c");
    assert "t"[0] == 't' && !Space('t') && !Blank("t");
  }

  /** A reservation for an execution that nobody declared parts the ledger from its replay. */
  lemma UndeclaredSpoils(identity: Identity)
    ensures var r := ReserveCommand(EmptyDb(identity), "c", "t", 0.0, None, Some("x"), None, Null, Null);
      r.Success? && !LedgerAgrees(r.value.0)
  {
    hide Good, LedgerAgrees, ReserveCommand;
    EmptyGood(identity);
    FirstReservation(identity, Some("x"));
    ReserveExact(EmptyDb(identity), "c", "t", 0.0, None, Some("x"), None, Null, Null);
  }

  // ---------------------------------------------------------------- rebuilds overtaken by an append

  /** An execution is begun between the reading and the write of a rebuild, and its row is lost. */
  lemma SplitRebuildSpoils(identity: Identity, policy: Policy, later: Db)
    requires later == Run(EmptyDb(identity), PREPARED, policy)
    ensures DisciplinedRun(EmptyDb(identity), PREPARED, policy)
    ensures RebuildLedger(EmptyDb(identity)).Success?
    ensures var written := WithLedgerRows(later, RebuildLedger(EmptyDb(identity)).value.1);
      "x" in later.executions && written.executions == map[] && !LedgerAgrees(written)
  {
    hide Good, Run, DisciplinedRun, LedgerAgrees, ProjectionRight, RebuildLedger;
    EmptyGood(identity);
    PreparedRun(identity, policy);
    RunGood(identity, PREPARED, policy);
    RowsLost(EmptyDb(identity), later, "x");
  }

  /** An execution declared while a rebuild runs is gone after it. */
  lemma RowsLost(db: Db, later: Db, id: string)
    requires Good(db) && Good(later) && later.identity == db.identity && db.log <= later.log
    requires id in later.executions && id !in db.executions
    ensures RebuildLedger(db).Success?
    ensures var written := WithLedgerRows(later, RebuildLedger(db).value.1);
      written.executions == db.executions && !LedgerAgrees(written)
  {
    hide Good, LedgerAgrees, RebuildLedger, TouchesAttempt;
    GoodRebuilds(db);
    SplitRebuildExact(db, later);
    TablesMoved(db, later);
  }

  /** A command is reserved between the reading and the write of a rebuild, and its receipt is lost. */
  lemma SplitReceiptsSpoils(identity: Identity, later: Db)
    requires ReserveCommand(EmptyDb(identity), "c", "t", 0.0, None, None, None, Null, Null).Success?
    requires later == ReserveCommand(EmptyDb(identity), "c", "t", 0.0, None, None, None, Null, Null).value.0
    ensures RebuildCommands(EmptyDb(identity)).Success?
    ensures "c" in later.commands
      && !CommandsAgree(WithReceipts(later, RebuildCommands(EmptyDb(identity)).value.1))
  {
    hide Good, CommandsAgree, RebuildCommands, ReserveCommand;
    EmptyGood(identity);
    FirstReservation(identity, None);
    ReserveStep(EmptyDb(identity), "c", "t", 0.0, None, None, None, Null, Null);
    SplitReceiptsExact(EmptyDb(identity), later);
    TablesMoved(EmptyDb(identity), later);
  }

  lemma GoodRebuilds(db: Db)
    requires Good(db)
    ensures RebuildLedger(db) == Success((db, LedgerOf(db)))
  {
    hide Observed, Linked, Settled, CommandsSynced, RebuildLedger, LedgerOf;
    LedgerProofs.AttemptsAreReplayed(db);
    LedgerProofs.LedgerIsReplay(db);
  }

  // ---------------------------------------------------------------- a resumed attempt that is no text

  /** The end of a known attempt, saying under "resumed_from_attempt_id" the number whose text is `said`. */
  function NumberedEnd(a: Attempt, said: string, timestamp: Time): Event {
    Draft(a.runtimeId, AttemptCompleted, timestamp).(
      processId := Some(a.processId), attemptId := Some(a.attemptId), executionId := a.executionId,
      status := Some(Succeeded), statusClass := Some(TerminalSuccess),
      payload := NO_PAYLOAD.(resumedFromAttemptId := Some(said), malformed := {ResumedFrom}))
  }

  /** The store keeps what the row says, replay writes the text, and the two agree only when it was there. */
  lemma NumberedEndSpoils(db: Db, id: string, said: string, timestamp: Time)
    requires Good(db) && id in db.attempts
    ensures var r := AppendEvent(db, NumberedEnd(db.attempts[id], said, timestamp));
      && r.Success? && id in r.value.0.attempts
      && r.value.0.attempts[id].resumedFromAttemptId == db.attempts[id].resumedFromAttemptId
      && (LedgerAgrees(r.value.0) <==> db.attempts[id].resumedFromAttemptId == Some(said))
  {
    hide Good, LedgerAgrees, AppendEvent, RawAccepted, ExecutionSafe;
    var e := NumberedEnd(db.attempts[id], said, timestamp);
    KnownRow(db, id);
    RawAppendCommits(db, e);
    assert RawAccepted(db, e) by { KnownAccepted(db, e); }
    RawAppended(db, e);
    RawAppendExact(db, e);
    assert ExecutionSafe(db, e) by { EndSafe(db, e); }
  }

  lemma KnownRow(db: Db, id: string)
    requires Good(db) && id in db.attempts
    ensures var a := db.attempts[id];
      && a.attemptId == id && a.runtimeId == db.identity.runtimeId
      && a.executionId.Some? && a.executionId.value in db.executions
  {
    hide Observed, Settled, CommandsSynced, ExecutionsSynced, Readable;
    assert AttemptRowRight(ReplayAttempts(db.log).value, db.identity.runtimeId, id);
  }

  lemma KnownAccepted(db: Db, e: Event)
    requires e.runtimeId == db.identity.runtimeId && TouchesAttempt(e) && e.attemptId.value in db.attempts
    ensures RawAccepted(db, e)
  {
  }

  lemma EndSafe(db: Db, e: Event)
    requires e.eventType.AttemptCompleted? && e.executionId.Some? && e.executionId.value in db.executions
    ensures ExecutionSafe(db, e)
  {
  }

  lemma AppendedResume(db: Db, e: Event)
    requires AppendEvent(db, e).Success? && TouchesAttempt(e)
    ensures var d, id := AppendEvent(db, e).value.0, e.attemptId.value;
      && id in d.attempts
      && d.attempts[id].resumedFromAttemptId ==
           if id in db.attempts then db.attempts[id].resumedFromAttemptId else e.payload.resumedFromAttemptId
  {
    hide TouchExecution, RowTaken;
  }

  /** A begun attempt says what it resumes. */
  lemma BegunRow(
    db: Db, process: string, executionId: string, timestamp: Time, operation: Operation,
    backendSessionId: Option<string>, resumedFrom: Option<string>, checkpointId: Option<string>, metadata: Json)
    requires Good(db)
    requires BeginAttempt(db, process, executionId, timestamp, operation, backendSessionId, resumedFrom, checkpointId,
                          metadata).Success?
    ensures var after := BeginAttempt(db, process, executionId, timestamp, operation, backendSessionId, resumedFrom,
                                      checkpointId, metadata).value.0;
      exists id :: id in after.attempts && after.attempts[id].resumedFromAttemptId == resumedFrom
  {
    hide Good, AppendEvent, MaxOrdinal, AttemptId, IsMaxOrdinal;
    NextInGood(db, process);
    var k, spec := MaxOrdinal(db.attempts, process), db.specs[process];
    var created := AttemptEvent(db, AttemptCreated, spec, process, executionId, k + 1, timestamp, operation,
                                backendSessionId, resumedFrom, checkpointId, metadata);
    AppendedResume(db, created);
    var d := AppendEvent(db, created).value.0;
    AppendedResume(d, AttemptEvent(d, AttemptStarted, spec, process, executionId, k + 1, timestamp, operation,
                                   backendSessionId, resumedFrom, checkpointId, metadata));
  }

  const OPENING := BeginProcess("p", "x", 0.0, Start, None, None, None, Null)

  lemma OpenedHere(db: Db, policy: Policy, after: Db)
    requires after == Perform(db, OPENING, policy)
    requires Good(db) && "p" in db.specs && "x" in db.executions
    requires db.executions["x"].status == Pending && db.executions["x"].backendSessionId.None?
    ensures exists id :: id in after.attempts && after.attempts[id].resumedFromAttemptId == None
  {
    hide Good, BeginAttempt;
    BeginAttemptCommits(db, "p", "x", 0.0, Start, None, None, None, Null);
    assert after == BeginAttempt(db, "p", "x", 0.0, Start, None, None, None, Null).value.0;
    BegunRow(db, "p", "x", 0.0, Start, None, None, None, Null);
  }

  lemma PreparedAndOpened(identity: Identity, policy: Policy)
    ensures DisciplinedRun(EmptyDb(identity), PREPARED + [OPENING], policy)
    ensures Run(EmptyDb(identity), PREPARED + [OPENING], policy) ==
      Perform(Run(EmptyDb(identity), PREPARED, policy), OPENING, policy)
  {
    hide Perform;
    PreparedRun(identity, policy);
    var ops := PREPARED + [OPENING];
    assert ops[..|ops| - 1] == PREPARED && ops[|ops| - 1] == OPENING;
  }

  ghost predicate NumberedEndParts(db: Db, id: string)
    requires id in db.attempts
  {
    var r := AppendEvent(db, NumberedEnd(db.attempts[id], "5", 1.0));
    r.Success? && !LedgerAgrees(r.value.0)
  }

  /** A run whose attempt a raw append then ends, with a number where the attempt it resumes is named. */
  lemma NumberedEndReached(identity: Identity, policy: Policy, db: Db)
    requires db == Run(EmptyDb(identity), PREPARED + [OPENING], policy)
    ensures DisciplinedRun(EmptyDb(identity), PREPARED + [OPENING], policy)
    ensures exists id :: id in db.attempts && NumberedEndParts(db, id)
  {
    hide Good, Run, DisciplinedRun, Perform, LedgerAgrees, ProjectionRight, AppendEvent, NumberedEnd;
    PreparedRun(identity, policy);
    PreparedAndOpened(identity, policy);
    RunGood(identity, PREPARED, policy);
    RunGood(identity, PREPARED + [OPENING], policy);
    OpenedHere(Run(EmptyDb(identity), PREPARED, policy), policy, db);
    var id :| id in db.attempts && db.attempts[id].resumedFromAttemptId == None;
    NumberedEndSpoils(db, id, "5", 1.0);
    assert NumberedEndParts(db, id);
  }
}
