/** Runs: any interleaving of whole store operations. What holds after every one of them. */
module StoreRuns {
  import opened RuntimeTypes
  import opened RuntimeProjections
  import opened LedgerReplay
  import opened DurableTables
  import opened StoreInvariant
  import opened StoreProtocol
  import opened StoreSteps
  import ReducerProofs
  import LedgerProofs
  import ReconciliationProofs

  datatype Op =
    | Append(e: Event)
    | Acquire(sessionId: string, ownerId: string, now: Time, ttl: Time, metadata: Json)
    | Renew(sessionId: string, ownerId: string, now: Time, ttl: Time)
    | Release(sessionId: string, ownerId: string, now: Time)
    | ReconcileWork(sessionId: string, ownerId: string, now: Time)
    | Declare(spec: ProcessSpec, timestamp: Time)
    | WriteProcessSpecs(specs: seq<ProcessSpec>)
    | Begin(executionId: string, kind: ExecutionKind, timestamp: Time, backendSessionId: Option<string>,
            recoveryPlanId: Option<string>, metadata: Json)
    | Transition(executionId: string, status: Status, timestamp: Time, error: Option<ErrorInfo>)
    | BeginProcess(process: string, executionId: string, timestamp: Time, operation: Operation,
                   backendSessionId: Option<string>, resumedFrom: Option<string>, checkpointId: Option<string>,
                   metadata: Json)
    | FinishProcess(attemptId: string, terminal: EventType, timestamp: Time, error: Option<ErrorInfo>,
                    result: Option<Json>, metadata: Json)
    | Reserve(commandId: string, commandType: string, timestamp: Time, targetId: Option<string>,
              about: Option<string>, backendSessionId: Option<string>, request: Json, metadata: Json)
    | Finish(commandId: string, outcome: CommandStatus, timestamp: Time, outcomeResult: Json, error: Option<ErrorInfo>)
    | Refresh
    | RebuildTheLedger
    | RebuildTheCommands

  function Committed<T>(tx: Tx<T>): Option<Db> {
    match tx
    case Success((after, _)) => Some(after)
    case Failure(_) => None
  }

  /** The database an operation commits, or nothing when it raises. */
  ghost function Commit(db: Db, op: Op, policy: Policy): Option<Db> {
    match op
    case Append(e) => Committed(AppendEvent(db, e))
    case Acquire(s, o, now, ttl, metadata) => Committed(AcquireSession(db, s, o, now, ttl, metadata))
    case Renew(s, o, now, ttl) => Committed(RenewSession(db, s, o, now, ttl))
    case Release(s, o, now) => Committed(ReleaseSession(db, s, o, now))
    case ReconcileWork(s, o, now) => Committed(Reconcile(db, s, o, now))
    case Declare(spec, t) => Committed(DeclareProcess(db, spec, t))
    case WriteProcessSpecs(specs) => Some(WriteSpecs(db, specs))
    case Begin(x, kind, t, b, r, metadata) => Committed(BeginExecution(db, x, kind, t, b, r, metadata))
    case Transition(x, status, t, error) => Committed(TransitionExecution(db, x, status, t, error))
    case BeginProcess(p, x, t, o, b, r, c, metadata) => Committed(BeginAttempt(db, p, x, t, o, b, r, c, metadata))
    case FinishProcess(a, t, at, error, result, metadata) =>
      Committed(FinishAttempt(db, a, t, at, error, result, metadata))
    case Reserve(c, ct, t, target, x, b, request, metadata) =>
      Committed(ReserveCommand(db, c, ct, t, target, x, b, request, metadata))
    case Finish(c, status, t, result, error) => Committed(FinishCommand(db, c, status, t, result, error))
    case Refresh => Committed(RefreshProjection(db, policy))
    case RebuildTheLedger => Committed(RebuildLedger(db))
    case RebuildTheCommands => Committed(RebuildCommands(db))
  }

  /** A failed operation rolled back. */
  ghost function Perform(db: Db, op: Op, policy: Policy): Db {
    var c := Commit(db, op, policy);
    if c.Some? then c.value else db
  }

  ghost function Run(db: Db, ops: seq<Op>, policy: Policy): Db
    decreases |ops|
  {
    if ops == [] then db else Perform(Run(db, ops[..|ops| - 1], policy), ops[|ops| - 1], policy)
  }

  /** What the ledger needs of callers: raw appends carry no lifecycle type and nothing unreadable and,
      like reservations, name only declared executions; a checkpoint id is not the empty text. */
  predicate Disciplined(db: Db, op: Op) {
    match op
    case Append(e) => PlainEvent(db, e)
    case Reserve(_, _, _, _, executionId, _, _, _) => Refers(db.executions, executionId)
    case BeginProcess(_, _, _, _, _, _, checkpointId, _) => checkpointId != Some("")
    case _ => true
  }

  ghost predicate DisciplinedRun(db: Db, ops: seq<Op>, policy: Policy)
    decreases |ops|
  {
    ops == [] ||
    (DisciplinedRun(db, ops[..|ops| - 1], policy) &&
     Disciplined(Run(db, ops[..|ops| - 1], policy), ops[|ops| - 1]))
  }

  // ---------------------------------------------------------------- the stored projection

  /** The stored pair is the reduction of the events up to its cursor, outside the status pair. */
  ghost predicate ProjectionRight(db: Db, policy: Policy) {
    db.projection.Some? ==>
      var (p, cursor) := db.projection.value;
      && -1 <= cursor < |db.log|
      && Reduce(db.log[..cursor + 1], policy).Success?
      && ReducerProofs.SameButStatus(p, Reduce(db.log[..cursor + 1], policy).value)
  }

  lemma ProjectionKept(db: Db, after: Db, policy: Policy)
    requires ProjectionRight(db, policy) && Extends(db, after)
    ensures ProjectionRight(after, policy)
  {
    hide Reduce;
    if db.projection.Some? {
      var cursor := db.projection.value.1;
      assert after.log[..cursor + 1] == db.log[..cursor + 1];
    }
  }

  /** Applying the events after the cursor gives the reduction of the whole log. */
  lemma CatchUp(log: seq<Event>, runtimeId: string, p: Projection, k: nat, policy: Policy)
    requires Dense(log, runtimeId) && ReplayAttempts(log).Success? && Readable(log) && k < |log|
    requires Reduce(log[..k], policy).Success?
    requires ReducerProofs.SameButStatus(p, Reduce(log[..k], policy).value)
    ensures Reduce(log, policy).Success? && Apply(p, log[k..], policy).Success?
    ensures ReducerProofs.SameButStatus(Apply(p, log[k..], policy).value, Reduce(log, policy).value)
  {
    hide Reduce, Apply, Dense, ReplayAttempts, Readable, ReducerProofs.Sequenced, ReducerProofs.SameButStatus;
    DenseReduces(log, runtimeId, policy);
    var xs, ys := log[..k], log[k..];
    assert xs + ys == log;
    CatchUpSplit(log, xs, ys, runtimeId, p, policy);
  }

  lemma DenseReduces(log: seq<Event>, runtimeId: string, policy: Policy)
    requires Dense(log, runtimeId) && ReplayAttempts(log).Success? && Readable(log)
    ensures ReducerProofs.Sequenced(log, runtimeId) && Reduce(log, policy).Success?
  {
    hide Reduce, Dense, ReplayAttempts, Readable, ReducerProofs.Sequenced;
    LedgerProofs.DenseSorts(log, runtimeId);
    LedgerProofs.ReduceCarriesAttempts(log, runtimeId, policy);
  }

  lemma CatchUpSplit(log: seq<Event>, xs: seq<Event>, ys: seq<Event>, runtimeId: string, p: Projection, policy: Policy)
    requires log == xs + ys && ReducerProofs.Sequenced(log, runtimeId) && Reduce(log, policy).Success?
    requires Reduce(xs, policy).Success?
    requires ReducerProofs.SameButStatus(p, Reduce(xs, policy).value)
    ensures Apply(p, ys, policy).Success?
    ensures ReducerProofs.SameButStatus(Apply(p, ys, policy).value, Reduce(log, policy).value)
  {
    hide Reduce, Apply, ReducerProofs.Sequenced, ReducerProofs.SameButStatus;
    ReducerProofs.IncrementalSameButStatus(xs, ys, runtimeId, policy);
    ReducerProofs.SplitSequenced(xs, ys, runtimeId);
    ReducerProofs.ReduceDerives(xs, runtimeId, policy);
    var q := Reduce(xs, policy).value;
    ReducerProofs.ApplySameButStatus(p, q, ys, runtimeId, policy);
    SameAsSame(Apply(p, ys, policy).value, Apply(q, ys, policy).value, Reduce(xs + ys, policy).value);
  }

  lemma SameAsSame(a: Projection, b: Projection, c: Projection)
    requires ReducerProofs.SameButStatus(a, b) && ReducerProofs.SameButStatus(b, c)
    ensures ReducerProofs.SameButStatus(a, c)
  {
  }

  /** `events_after_projection` lists exactly the events after the cursor. */
  lemma PendingEvents(db: Db, policy: Policy)
    requires Good(db) && ProjectionRight(db, policy)
    ensures EventsAfterProjection(db) == db.log[ProjectionCursor(db) + 1..]
  {
    if db.projection.Some? {
      EventsAfterIsSuffix(db.log, db.identity.runtimeId, db.projection.value.1);
    }
  }

  lemma ProjectionIrrelevant(db: Db, p: Option<(Projection, int)>)
    requires Good(db)
    ensures Good(db.(projection := p))
  {
  }

  /** What a refresh computes when it has something to do. */
  lemma RefreshedRight(db: Db, policy: Policy)
    requires Good(db) && ProjectionRight(db, policy) && db.log != [] && ProjectionCursor(db) < |db.log| - 1
    ensures var r := RefreshedProjection(db, policy);
      && r.Success? && Reduce(db.log, policy).Success? && r.value.core.runtimeId == db.identity.runtimeId
      && ReducerProofs.SameButStatus(r.value, Reduce(db.log, policy).value)
  {
    hide Reduce, Apply, ExecutionsSynced, CommandsSynced, Observed, Linked, Settled, Dense, ReplayAttempts, Readable;
    hide ReducerProofs.Sequenced;
    var rid := db.identity.runtimeId;
    DenseReduces(db.log, rid, policy);
    ReducerProofs.ReduceDerives(db.log, rid, policy);
    if db.projection.Some? {
      PendingEvents(db, policy);
      CatchUp(db.log, rid, db.projection.value.0, db.projection.value.1 + 1, policy);
    }
  }

  /** A refresh with nothing pending commits nothing new. */
  lemma RefreshIdle(db: Db, policy: Policy)
    requires Good(db) && ProjectionRight(db, policy) && ProjectionCursor(db) == |db.log| - 1 && db.projection.Some?
    ensures RefreshProjection(db, policy) == Success((db, db.projection.value.0))
  {
    hide RefreshedProjection;
    PendingEvents(db, policy);
  }

  /** The write half of a refresh. */
  lemma RefreshWrites(db: Db, policy: Policy, p: Projection)
    requires Dense(db.log, db.identity.runtimeId)
    requires db.projection.Some? ==> EventsAfter(db.log, db.projection.value.1) != []
    requires RefreshedProjection(db, policy) == Success(p)
    ensures RefreshProjection(db, policy) ==
      if p.core.runtimeId != db.identity.runtimeId then Failure(IdentityMismatch)
      else Success((db.(projection := Some((p, |db.log| - 1))), p))
  {
    hide RefreshedProjection;
    DenseMax(db.log, db.identity.runtimeId);
  }

  /** A refresh fails exactly when it is the first one, of an empty log, under an id that is not the
      placeholder; otherwise it changes only the projection and brings it to the end of the log. */
  lemma RefreshStep(db: Db, policy: Policy)
    requires Good(db) && ProjectionRight(db, policy)
    ensures RefreshProjection(db, policy).Success? <==>
      db.log != [] || db.projection.Some? || db.identity.runtimeId == "runtime"
    ensures RefreshProjection(db, policy).Failure? ==> RefreshProjection(db, policy) == Failure(IdentityMismatch)
    ensures RefreshProjection(db, policy).Success? ==>
      var after := RefreshProjection(db, policy).value.0;
      && Good(after) && after == db.(projection := after.projection) && ProjectionRight(after, policy)
      && ProjectionCursor(after) == |db.log| - 1
  {
    hide RefreshedProjection, RefreshProjection, Reduce, EventsAfter, Synced, Observed, Linked, Settled;
    assert Dense(db.log, db.identity.runtimeId) by { DenseOf(db); }
    assert db.log[..|db.log|] == db.log;
    PendingEvents(db, policy);
    if db.projection.Some? && ProjectionCursor(db) == |db.log| - 1 {
      RefreshIdle(db, policy);
    } else if db.log == [] {
      RefreshedEmpty(db, policy);
    } else {
      RefreshedRight(db, policy);
      RefreshWrites(db, policy, RefreshedProjection(db, policy).value);
      ProjectionIrrelevant(db, Some((RefreshedProjection(db, policy).value, |db.log| - 1)));
    }
  }

  lemma DenseOf(db: Db)
    requires Good(db)
    ensures Dense(db.log, db.identity.runtimeId)
  {
  }

  /** The first refresh of an empty runtime commits only for the placeholder runtime id. */
  lemma RefreshedEmpty(db: Db, policy: Policy)
    requires Good(db) && db.log == [] && db.projection.None?
    ensures RefreshProjection(db, policy).Success? <==> db.identity.runtimeId == "runtime"
    ensures RefreshProjection(db, policy).Failure? ==> RefreshProjection(db, policy) == Failure(IdentityMismatch)
    ensures RefreshProjection(db, policy).Success? ==>
      var after := RefreshProjection(db, policy).value.0;
      && Good(after) && after == db.(projection := after.projection) && ProjectionRight(after, policy)
      && ProjectionCursor(after) == -1
  {
    hide Reduce, Synced, Observed, Linked, Settled;
    DenseOf(db);
    ReducerProofs.EmptyReduced(policy);
    var p := RefreshedProjection(db, policy).value;
    RefreshWrites(db, policy, p);
    ProjectionIrrelevant(db, Some((p, -1)));
    assert db.log[..0] == db.log;
  }

  /** The failing input: a fresh runtime under any other id. */
  lemma FreshRefreshFails(identity: Identity, policy: Policy)
    requires identity.runtimeId != "runtime"
    ensures RefreshProjection(EmptyDb(identity), policy) == Failure(IdentityMismatch)
  {
    hide Good, RefreshProjection;
    EmptyGood(identity);
    RefreshedEmpty(EmptyDb(identity), policy);
  }

  // ---------------------------------------------------------------- every operation, every run

  lemma SessionOps(db: Db, op: Op, policy: Policy)
    requires Good(db) && (op.Acquire? || op.Renew? || op.Release? || op.ReconcileWork?)
    requires Commit(db, op, policy).Some?
    ensures Good(Commit(db, op, policy).value) && Extends(db, Commit(db, op, policy).value)
  {
    hide Good, Extends, AcquireSession, RenewSession, ReleaseSession, Reconcile;
    match op
    case Acquire(s, o, now, ttl, metadata) => AcquireStep(db, s, o, now, ttl, metadata);
    case Renew(s, o, now, ttl) => RenewStep(db, s, o, now, ttl);
    case Release(s, o, now) => ReleaseStep(db, s, o, now);
    case ReconcileWork(s, o, now) => ReconciliationProofs.ReconcileStep(db, s, o, now);
  }

  lemma WorkOps(db: Db, op: Op, policy: Policy)
    requires Good(db) && (op.Declare? || op.WriteProcessSpecs? || op.Begin? || op.Transition?)
    requires Commit(db, op, policy).Some?
    ensures Good(Commit(db, op, policy).value) && Extends(db, Commit(db, op, policy).value)
  {
    hide Good, Extends, DeclareProcess, WriteSpecs, BeginExecution, TransitionExecution;
    match op
    case Declare(spec, t) => DeclareStep(db, spec, t);
    case WriteProcessSpecs(specs) => WriteSpecsStep(db, specs);
    case Begin(x, kind, t, b, r, metadata) => BeginExecutionStep(db, x, kind, t, b, r, metadata);
    case Transition(x, status, t, error) => TransitionStep(db, x, status, t, error);
  }

  lemma AttemptAndCommandOps(db: Db, op: Op, policy: Policy)
    requires Good(db) && (op.Append? || op.BeginProcess? || op.FinishProcess? || op.Reserve? || op.Finish?)
    requires Disciplined(db, op) && Commit(db, op, policy).Some?
    ensures Good(Commit(db, op, policy).value) && Extends(db, Commit(db, op, policy).value)
  {
    hide Good, Extends, AppendEvent, BeginAttempt, FinishAttempt, ReserveCommand, FinishCommand;
    match op
    case Append(e) => AppendStep(db, e);
    case BeginProcess(p, x, t, o, b, r, c, metadata) => BeginAttemptStep(db, p, x, t, o, b, r, c, metadata);
    case FinishProcess(a, t, at, error, result, metadata) => FinishAttemptStep(db, a, t, at, error, result, metadata);
    case Reserve(c, ct, t, target, x, b, request, metadata) =>
      ReserveStep(db, c, ct, t, target, x, b, request, metadata);
    case Finish(c, status, t, result, error) => FinishCommandStep(db, c, status, t, result, error);
  }

  lemma StepKept(db: Db, op: Op, policy: Policy)
    requires Good(db) && ProjectionRight(db, policy) && Disciplined(db, op)
    requires !op.Refresh? && !op.RebuildTheLedger? && !op.RebuildTheCommands? && Commit(db, op, policy).Some?
    ensures var after := Commit(db, op, policy).value;
      Good(after) && ProjectionRight(after, policy) && Extends(db, after)
  {
    hide Good, Extends, Commit, ProjectionRight;
    if op.Acquire? || op.Renew? || op.Release? || op.ReconcileWork? {
      SessionOps(db, op, policy);
    } else if op.Declare? || op.WriteProcessSpecs? || op.Begin? || op.Transition? {
      WorkOps(db, op, policy);
    } else {
      AttemptAndCommandOps(db, op, policy);
    }
    ProjectionKept(db, Commit(db, op, policy).value, policy);
  }

  /** Rebuilding a right table changes nothing. */
  lemma RebuildKept(db: Db, op: Op, policy: Policy)
    requires Good(db) && (op.RebuildTheLedger? || op.RebuildTheCommands?)
    ensures Perform(db, op, policy) == db
  {
    hide Good, RebuildLedger, RebuildCommands, LedgerOf, CommandListing;
    if op.RebuildTheLedger? {
      LedgerKept(db);
    } else {
      CommandsKept(db);
    }
  }

  lemma LedgerKept(db: Db)
    requires Good(db)
    ensures RebuildLedger(db) == Success((db, LedgerOf(db)))
  {
    hide Dense, ExecutionsSynced, AttemptsSynced, CommandsSynced, Observed, Settled, Linked;
    hide RebuildLedger, LedgerOf, Readable, LedgerProofs.AttemptsReplayed;
    LedgerProofs.AttemptsAreReplayed(db);
    LedgerProofs.LedgerIsReplay(db);
  }

  lemma CommandsKept(db: Db)
    requires Good(db)
    ensures RebuildCommands(db) == Success((db, CommandListing(db)))
  {
    hide Synced, Observed, Settled, Linked, RebuildCommands, CommandListing;
    LedgerProofs.CommandsAreReplay(db);
  }

  lemma OpStep(db: Db, op: Op, policy: Policy)
    requires Good(db) && ProjectionRight(db, policy) && Disciplined(db, op)
    ensures var after := Perform(db, op, policy);
      && Good(after) && ProjectionRight(after, policy) && after.identity == db.identity && db.log <= after.log
  {
    hide Good, ProjectionRight, RefreshProjection, Disciplined;
    if op.RebuildTheLedger? || op.RebuildTheCommands? {
      RebuildKept(db, op, policy);
    } else if op.Refresh? {
      RefreshStep(db, policy);
    } else {
      hide Commit;
      if Commit(db, op, policy).Some? {
        StepKept(db, op, policy);
      }
    }
  }

  lemma {:induction false} RunGood(identity: Identity, ops: seq<Op>, policy: Policy)
    requires DisciplinedRun(EmptyDb(identity), ops, policy)
    ensures var db := Run(EmptyDb(identity), ops, policy);
      Good(db) && ProjectionRight(db, policy) && db.identity == identity
  {
    hide Good, ProjectionRight;
    if ops == [] {
      EmptyGood(identity);
      assert ProjectionRight(EmptyDb(identity), policy) by { EmptyProjectionRight(identity, policy); }
    } else {
      RunGood(identity, ops[..|ops| - 1], policy);
      OpStep(Run(EmptyDb(identity), ops[..|ops| - 1], policy), ops[|ops| - 1], policy);
    }
  }

  /** The start of a disciplined run is one, and its log is a prefix. */
  lemma {:induction false} RunContinues(identity: Identity, ops: seq<Op>, more: seq<Op>, policy: Policy)
    requires DisciplinedRun(EmptyDb(identity), ops + more, policy)
    ensures DisciplinedRun(EmptyDb(identity), ops, policy)
    ensures Run(EmptyDb(identity), ops, policy).log <= Run(EmptyDb(identity), ops + more, policy).log
    decreases |more|
  {
    if more == [] {
      assert ops + more == ops;
    } else {
      var init := more[..|more| - 1];
      assert (ops + more)[..|ops + more| - 1] == ops + init;
      RunContinues(identity, ops, init, policy);
      RunGood(identity, ops + init, policy);
      hide Good, ProjectionRight, Perform, Disciplined;
      OpStep(Run(EmptyDb(identity), ops + init, policy), more[|more| - 1], policy);
    }
  }

  lemma EmptyProjectionRight(identity: Identity, policy: Policy)
    ensures ProjectionRight(EmptyDb(identity), policy)
  {
  }

  // ---------------------------------------------------------------- main results

  /** After every disciplined run the stored ledger and receipts equal the replay of the log, and the
      rebuilds change nothing. */
  lemma LedgerEqualsReplay(identity: Identity, ops: seq<Op>, policy: Policy)
    requires DisciplinedRun(EmptyDb(identity), ops, policy)
    ensures var db := Run(EmptyDb(identity), ops, policy);
      && ReduceLedger(identity, db.log, ProjectionCursor(db)) == Success(LedgerOf(db))
      && RebuildLedger(db) == Success((db, LedgerOf(db)))
      && ReduceCommands(identity, db.log) == Success(CommandListing(db))
      && RebuildCommands(db) == Success((db, CommandListing(db)))
  {
    RunGood(identity, ops, policy);
    var db := Run(EmptyDb(identity), ops, policy);
    hide Run, Synced, ProjectionRight;
    LedgerProofs.AttemptsAreReplayed(db);
    LedgerProofs.LedgerIsReplay(db);
    LedgerProofs.CommandsAreReplay(db);
  }

  /** After every disciplined run the sequences are 0..n-1, the monitor accepts the whole log, at most
      one session is active, and the stored projection is the reduction of the events up to its cursor. */
  lemma LogFollowsProtocol(identity: Identity, ops: seq<Op>, policy: Policy)
    requires DisciplinedRun(EmptyDb(identity), ops, policy)
    ensures var db := Run(EmptyDb(identity), ops, policy);
      && Dense(db.log, identity.runtimeId) && Watch(db.log).Some? && Mirrors(db, Watch(db.log).value)
      && SessionsRight(db.sessions, identity.runtimeId)
      && ProjectionRight(db, policy) && EventsAfterProjection(db) == db.log[ProjectionCursor(db) + 1..]
  {
    RunGood(identity, ops, policy);
    var db := Run(EmptyDb(identity), ops, policy);
    hide Run;
    PendingEvents(db, policy);
  }
}
