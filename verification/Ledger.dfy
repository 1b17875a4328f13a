/** Rebuilding the execution ledger and the command receipts from the event log alone. */
module LedgerReplay {
  import opened RuntimeTypes
  import opened Sorting
  import opened RuntimeProjections

  datatype ExecutionRecord = ExecutionRecord(
    executionId: string, runtimeId: string, kind: ExecutionKind, ordinal: int, status: Status,
    backendSessionId: Option<string>, recoveryPlanId: Option<string>, createdAt: Time,
    startedAt: Option<Time>, finishedAt: Option<Time>, firstEventSequence: Option<int>,
    lastEventSequence: Option<int>, error: Option<ErrorInfo>, metadata: Json)

  datatype Ledger = Ledger(
    identity: Identity, executions: map<string, ExecutionRecord>, executionOrder: seq<string>,
    attempts: map<string, Attempt>, processAttemptIds: map<string, seq<string>>,
    lastEventSequence: int, projectionSequence: int)

  datatype ReplayError =
    | MissingSequence | ForeignRuntime | DuplicateDeclaration | PrecedesDeclaration | InvalidRecord
    | NoSubject | ReducerFailed(error: ReduceError)

  predicate SequenceLeq(a: Event, b: Event) {
    (if a.sequence.Some? then a.sequence.value else 0) <= (if b.sequence.Some? then b.sequence.value else 0)
  }

  predicate AllSequenced(events: seq<Event>) {
    forall e <- events :: e.sequence.Some?
  }

  // ---------------------------------------------------------------- executions

  datatype ExecutionIndex = ExecutionIndex(byId: map<string, ExecutionRecord>, order: seq<string>)

  /** The status an execution event moves its execution to. */
  function TransitionOf(t: EventType): Option<Status> {
    match t
    case ExecutionStarted => Some(Running)
    case ExecutionCompleted => Some(Succeeded)
    case ExecutionFailed => Some(Failed)
    case ExecutionCancelled => Some(Cancelled)
    case ExecutionInterrupted => Some(Interrupted)
    case _ => None
  }

  /** Keys a new execution record refuses. */
  predicate ExecutionMalformed(p: Payload) {
    Kind in p.malformed || BackendSession in p.malformed || RecoveryPlan in p.malformed
  }

  function DeclaredBy(e: Event): ExecutionRecord
    requires e.executionId.Some? && e.payload.ordinal.Some?
  {
    ExecutionRecord(e.executionId.value, e.runtimeId, e.payload.kind, e.payload.ordinal.value, Pending,
                    e.payload.backendSessionId, e.payload.recoveryPlanId, e.timestamp, None, None,
                    e.sequence, e.sequence, None, e.metadata)
  }

  function TransitionedBy(r: ExecutionRecord, e: Event): ExecutionRecord {
    var t := TransitionOf(e.eventType);
    if t.None? then r.(lastEventSequence := e.sequence)
    else r.(lastEventSequence := e.sequence, status := t.value, error := e.error,
            startedAt := if e.eventType.ExecutionStarted? then Some(e.timestamp) else r.startedAt,
            finishedAt := if e.eventType.ExecutionStarted? then r.finishedAt else Some(e.timestamp))
  }

  function ReplayExecution(x: ExecutionIndex, e: Event, runtimeId: string): Result<ExecutionIndex, ReplayError> {
    if e.runtimeId != runtimeId then Failure(ForeignRuntime)
    else if e.executionId.None? then Success(x)
    else
      var id := e.executionId.value;
      if e.eventType.ExecutionCreated? then
        if id in x.byId then Failure(DuplicateDeclaration)
        else if e.payload.ordinal.None? || e.payload.ordinal.value < 1 || Blank(id) || ExecutionMalformed(e.payload)
        then Failure(InvalidRecord)
        else Success(ExecutionIndex(x.byId[id := DeclaredBy(e)], x.order + [id]))
      else if id !in x.byId then Failure(PrecedesDeclaration)
      else Success(x.(byId := x.byId[id := TransitionedBy(x.byId[id], e)]))
  }

  function ReplayExecutions(events: seq<Event>, runtimeId: string): Result<ExecutionIndex, ReplayError> {
    if events == [] then Success(ExecutionIndex(map[], []))
    else
      match ReplayExecutions(events[..|events| - 1], runtimeId)
      case Success(x) => ReplayExecution(x, events[|events| - 1], runtimeId)
      case Failure(error) => Failure(error)
  }

  /** The whole reduction: executions from their own events, attempts from the framework reducer. */
  ghost function ReduceLedger(identity: Identity, events: seq<Event>, projectionSequence: int):
    Result<Ledger, ReplayError>
  {
    if !AllSequenced(events) then Failure(MissingSequence)
    else
      var ordered := Sort(SequenceLeq, events);
      match ReplayExecutions(ordered, identity.runtimeId)
      case Failure(error) => Failure(error)
      case Success(x) =>
        match Reduce(ordered, Policy(true, true))
        case Failure(error) => Failure(ReducerFailed(error))
        case Success(p) =>
          Success(Ledger(identity, x.byId, x.order, p.core.attempts.byId, p.core.attempts.idsByProcess,
                         LastSequence(ordered), projectionSequence))
  }

  function LastSequence(ordered: seq<Event>): int {
    if ordered == [] || ordered[|ordered| - 1].sequence.None? then -1 else ordered[|ordered| - 1].sequence.value
  }

  // ---------------------------------------------------------------- commands

  datatype CommandStatus = Accepted | CommandDone | CommandRejected

  datatype CommandRecord = CommandRecord(
    commandId: string, runtimeId: string, commandType: string, fingerprint: Fingerprint,
    targetId: Option<string>, executionId: Option<string>, backendSessionId: Option<string>,
    status: CommandStatus, acceptedAt: Time, finishedAt: Option<Time>,
    firstEventSequence: int, lastEventSequence: int, payload: Json, result: Json,
    error: Option<ErrorInfo>, metadata: Json)

  datatype CommandIndex = CommandIndex(byId: map<string, CommandRecord>, order: seq<string>)

  /** Keys a new receipt refuses. */
  predicate CommandMalformed(p: Payload) {
    CommandRequest in p.malformed || BackendSession in p.malformed
  }

  function AcceptedBy(e: Event): CommandRecord
    requires e.subjectId.Some? && e.sequence.Some?
  {
    CommandRecord(e.subjectId.value, e.runtimeId, e.payload.commandType, e.payload.fingerprint,
                  e.payload.targetId, e.executionId, e.payload.backendSessionId, Accepted, e.timestamp, None,
                  e.sequence.value, e.sequence.value, e.payload.request, Null, None, e.metadata)
  }

  function FinishedBy(r: CommandRecord, e: Event): CommandRecord
    requires e.sequence.Some?
  {
    r.(status := if e.eventType.CommandSucceeded? then CommandDone else CommandRejected,
       finishedAt := Some(e.timestamp), lastEventSequence := e.sequence.value,
       result := if e.payload.result.Some? then e.payload.result.value else Null, error := e.error)
  }

  function ReplayCommand(x: CommandIndex, e: Event, runtimeId: string): Result<CommandIndex, ReplayError>
    requires e.sequence.Some?
  {
    if !e.eventType.IsCommand() then Success(x)
    else if e.runtimeId != runtimeId then Failure(ForeignRuntime)
    else if e.subjectType != Some("command") || e.subjectId.None? then Failure(NoSubject)
    else
      var id := e.subjectId.value;
      if e.eventType.CommandAccepted? then
        if id in x.byId then Failure(DuplicateDeclaration)
        else if Blank(id) || Blank(e.payload.commandType) || CommandMalformed(e.payload) then Failure(InvalidRecord)
        else Success(CommandIndex(x.byId[id := AcceptedBy(e)], x.order + [id]))
      else if id !in x.byId then Failure(PrecedesDeclaration)
      else Success(x.(byId := x.byId[id := FinishedBy(x.byId[id], e)]))
  }

  function ReplayCommands(events: seq<Event>, runtimeId: string): Result<CommandIndex, ReplayError>
    requires AllSequenced(events)
  {
    if events == [] then Success(CommandIndex(map[], []))
    else
      match ReplayCommands(events[..|events| - 1], runtimeId)
      case Success(x) => ReplayCommand(x, events[|events| - 1], runtimeId)
      case Failure(error) => Failure(error)
  }

  function Receipts(x: CommandIndex): seq<CommandRecord> {
    Listed(x.byId, x.order)
  }

  function Listed(byId: map<string, CommandRecord>, order: seq<string>): seq<CommandRecord> {
    if order == [] then []
    else
      var last := order[|order| - 1];
      Listed(byId, order[..|order| - 1]) + (if last in byId then [byId[last]] else [])
  }

  function ReduceCommands(identity: Identity, events: seq<Event>): Result<seq<CommandRecord>, ReplayError> {
    if !AllSequenced(events) then Failure(MissingSequence)
    else
      SortKeepsSequenced(events);
      match ReplayCommands(Sort(SequenceLeq, events), identity.runtimeId)
      case Success(x) => Success(Receipts(x))
      case Failure(error) => Failure(error)
  }

  lemma SortKeepsSequenced(events: seq<Event>)
    requires AllSequenced(events)
    ensures AllSequenced(Sort(SequenceLeq, events))
  {
    var sorted := Sort(SequenceLeq, events);
    SameMembers(sorted, events);
  }

  // ---------------------------------------------------------------- the reducers as they run

  lemma {:induction false} ExecutionsStuck(events: seq<Event>, k: nat, runtimeId: string)
    requires k <= |events| && ReplayExecutions(events[..k], runtimeId).Failure?
    ensures ReplayExecutions(events, runtimeId) == ReplayExecutions(events[..k], runtimeId)
  {
    if k < |events| {
      assert events[..|events| - 1][..k] == events[..k];
      ExecutionsStuck(events[..|events| - 1], k, runtimeId);
    } else {
      assert events[..k] == events;
    }
  }

  /** The single loop over sorted events that fills the execution dict and its order. */
  method ReplayExecutionLoop(ordered: seq<Event>, runtimeId: string) returns (r: Result<ExecutionIndex, ReplayError>)
    ensures r == ReplayExecutions(ordered, runtimeId)
  {
    var executions: map<string, ExecutionRecord> := map[];
    var order: seq<string> := [];
    for i := 0 to |ordered|
      invariant ReplayExecutions(ordered[..i], runtimeId) == Success(ExecutionIndex(executions, order))
    {
      var e := ordered[i];
      assert ordered[..i + 1][..i] == ordered[..i];
      if e.runtimeId != runtimeId {
        ExecutionsStuck(ordered, i + 1, runtimeId);
        return Failure(ForeignRuntime);
      }
      if e.executionId.Some? {
        var id := e.executionId.value;
        if e.eventType.ExecutionCreated? {
          if id in executions {
            ExecutionsStuck(ordered, i + 1, runtimeId);
            return Failure(DuplicateDeclaration);
          }
          if e.payload.ordinal.None? || e.payload.ordinal.value < 1 || Blank(id) || ExecutionMalformed(e.payload) {
            ExecutionsStuck(ordered, i + 1, runtimeId);
            return Failure(InvalidRecord);
          }
          executions := executions[id := DeclaredBy(e)];
          order := order + [id];
        } else {
          if id !in executions {
            ExecutionsStuck(ordered, i + 1, runtimeId);
            return Failure(PrecedesDeclaration);
          }
          var record := executions[id].(lastEventSequence := e.sequence);
          var transition := TransitionOf(e.eventType);
          if transition.Some? {
            record := record.(status := transition.value, error := e.error);
            if e.eventType.ExecutionStarted? {
              record := record.(startedAt := Some(e.timestamp));
            } else {
              record := record.(finishedAt := Some(e.timestamp));
            }
          }
          executions := executions[id := record];
        }
      }
    }
    assert ordered[..|ordered|] == ordered;
    r := Success(ExecutionIndex(executions, order));
  }

  lemma {:induction false} CommandsStuck(events: seq<Event>, k: nat, runtimeId: string)
    requires AllSequenced(events) && k <= |events| && ReplayCommands(events[..k], runtimeId).Failure?
    ensures ReplayCommands(events, runtimeId) == ReplayCommands(events[..k], runtimeId)
  {
    if k < |events| {
      assert events[..|events| - 1][..k] == events[..k];
      CommandsStuck(events[..|events| - 1], k, runtimeId);
    } else {
      assert events[..k] == events;
    }
  }

  /** The command reducer: one loop over sorted events filling the record dict and its order. */
  method ReduceCommandEvents(identity: Identity,
      events: seq<Event>) returns (r: Result<seq<CommandRecord>, ReplayError>)
    ensures r == ReduceCommands(identity, events)
  {
    if !AllSequenced(events) {
      return Failure(MissingSequence);
    }
    SortKeepsSequenced(events);
    var ordered := Sort(SequenceLeq, events);
    var records: map<string, CommandRecord> := map[];
    var order: seq<string> := [];
    for i := 0 to |ordered|
      invariant ReplayCommands(ordered[..i], identity.runtimeId) == Success(CommandIndex(records, order))
    {
      var e := ordered[i];
      assert ordered[..i + 1][..i] == ordered[..i];
      if e.eventType.IsCommand() {
        var failed: Option<ReplayError> := None;
        if e.runtimeId != identity.runtimeId {
          failed := Some(ForeignRuntime);
        } else if e.subjectType != Some("command") || e.subjectId.None? {
          failed := Some(NoSubject);
        } else {
          var id := e.subjectId.value;
          if e.eventType.CommandAccepted? {
            if id in records {
              failed := Some(DuplicateDeclaration);
            } else if Blank(id) || Blank(e.payload.commandType) || CommandMalformed(e.payload) {
              failed := Some(InvalidRecord);
            } else {
              records := records[id := AcceptedBy(e)];
              order := order + [id];
            }
          } else if id !in records {
            failed := Some(PrecedesDeclaration);
          } else {
            records := records[id := FinishedBy(records[id], e)];
          }
        }
        if failed.Some? {
          CommandsStuck(ordered, i + 1, identity.runtimeId);
          return Failure(failed.value);
        }
      }
    }
    assert ordered[..|ordered|] == ordered;
    r := Success(Receipts(CommandIndex(records, order)));
  }
}
