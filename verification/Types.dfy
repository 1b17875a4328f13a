/** Values shared by the runtime modules: the event envelope, the status vocabularies and the
    small optional-value helpers that mirror Python's `a or b`. */
module RuntimeTypes {

  datatype Option<+T> = None | Some(value: T)

  datatype Result<+T, +E> = Success(value: T) | Failure(error: E)

  /** Timestamps are read by the code only through comparison and truthiness. */
  type Time = real

  /** A JSON value, kept opaque except for the two distinctions the code makes. */
  datatype Json = Null | Dict(text: string) | Scalar(text: string)

  datatype ErrorInfo = ErrorInfo(errorType: string, message: string, context: Json)

  datatype StatusClass =
    NotStarted | Active | TerminalSuccess | TerminalFailure | TerminalCancelled | BlockedClass | UnknownClass

  /** `RuntimeEventStatus | str`: the recommended vocabulary, or any other text. */
  datatype Status =
    Pending | Running | Succeeded | Failed | Cancelled | Interrupted | Skipped | Custom(text: string)

  datatype Operation =
    Start | Cancel | Pause | Resume | Retry | Cleanup | Checkpoint | StatusQuery | Resources

  /** The text found under an "operation" or "recovery_action" payload key. */
  datatype OperationText = StartText | ResumeText | RetryText | RestartText | OtherText

  datatype ExecutionKind = Initial | Continue

  datatype EventType =
    | ExecutionCreated | ExecutionStarted | ExecutionCompleted | ExecutionFailed
    | ExecutionCancelled | ExecutionInterrupted
    | SessionAcquired | SessionRenewed | SessionReleased | SessionExpired
    | CommandAccepted | CommandSucceeded | CommandFailed
    | AttemptCreated | AttemptStarted | AttemptCompleted | AttemptFailed
    | AttemptCancelled | AttemptInterrupted
    | ProcessCreated | CheckpointCommitted | CheckpointInvalidated
    | ArtifactProduced | ArtifactUpdated | ArtifactRemoved | ResourceSampled
    | OtherType(name: string)
  {
    predicate IsExecution() {
      ExecutionCreated? || ExecutionStarted? || ExecutionCompleted? || ExecutionFailed?
      || ExecutionCancelled? || ExecutionInterrupted?
    }
    predicate IsSession() {
      SessionAcquired? || SessionRenewed? || SessionReleased? || SessionExpired?
    }
    predicate IsCommand() {
      CommandAccepted? || CommandSucceeded? || CommandFailed?
    }
    predicate IsTerminalAttempt() {
      AttemptCompleted? || AttemptFailed? || AttemptCancelled? || AttemptInterrupted?
    }
    predicate IsAttempt() {
      AttemptCreated? || AttemptStarted? || IsTerminalAttempt()
    }
    predicate IsArtifact() {
      ArtifactProduced? || ArtifactUpdated? || ArtifactRemoved?
    }
  }

  /** An event id is a number or a text; `numeric` is what parsing the text as an integer gives. */
  datatype EventId = IntId(number: int) | TextId(text: string, numeric: Option<int>)

  datatype CheckpointRef = CheckpointRef(
    checkpointId: string, processId: string, attemptId: string, createdAt: Time,
    inputFingerprint: Option<string>, implementationVersion: Option<string>, body: Json)

  /** The digest of a command request, taken to be injective in what it digests. */
  datatype Fingerprint = Fingerprint(
    commandType: string, targetId: Option<string>, executionId: Option<string>, request: Json)

  /** A value under a key where text is expected; no code checks it before it is used. */
  datatype TextValue = Text(text: string) | NotText(value: Json, truthy: bool)
  {
    predicate Truthy() {
      match this
      case Text(text) => text != ""
      case NotText(_, truthy) => truthy
    }
  }

  /** A dict under "resource_usage": what it validates to, or one that does not validate. */
  datatype UsageValue = Usage(usage: Json) | InvalidUsage

  /** Payload keys that hold something a record refuses. `EmptyOrdinal` is null or another empty value that
      is no number, which only one of its two readers refuses; `Ordinal` is any other value that is no
      number, or that is not empty and gives zero. `AttemptText` stands for the execution key, the input
      fingerprint and the implementation version. `ResumedFrom` is a value that is not text. */
  datatype Malformed =
    | Ordinal | EmptyOrdinal | AttemptText | ResumedFrom | BackendSession | Kind | RecoveryPlan | CommandRequest

  /** The payload keys that some reducer reads. A key named in `malformed` is absent from its own field,
      except for `resumedFromAttemptId`: it is the text that `str` gives for any value other than null,
      since replay turns whatever it finds into text. `checkpoint` holds the reference a payload
      validates to, and `result` is present when the key is, with `Null` for a null value. */
  datatype Payload = Payload(
    ordinal: Option<int>, operation: Option<OperationText>, recoveryAction: Option<OperationText>,
    executionKey: Option<string>, inputFingerprint: Option<string>, implementationVersion: Option<string>,
    backendSessionId: Option<string>, resumedFromAttemptId: Option<string>,
    kind: ExecutionKind, recoveryPlanId: Option<string>,
    commandType: string, targetId: Option<string>, fingerprint: Fingerprint, request: Json, result: Option<Json>,
    ownerId: string, expiresAt: Time,
    checkpoint: Option<CheckpointRef>, processType: Option<string>, resourceUsage: Option<UsageValue>,
    unitId: Option<TextValue>, unitType: Option<TextValue>, malformed: set<Malformed>, extra: Json)

  const NO_PAYLOAD := Payload(None, None, None, None, None, None, None, None, Continue, None,
                              "", None, Fingerprint("", None, None, Null), Null, None, "", 0.0,
                              None, None, None, None, None, {}, Null)

  datatype Event = Event(
    eventId: EventId, runtimeId: string, eventType: EventType, timestamp: Time,
    processId: Option<string>, parentProcessId: Option<string>, executionId: Option<string>,
    attemptId: Option<string>, checkpointId: Option<string>, sequence: Option<int>,
    subjectType: Option<string>, subjectId: Option<string>, parentSubjectId: Option<string>,
    status: Option<Status>, statusClass: Option<StatusClass>,
    progress: Option<Json>, error: Option<ErrorInfo>, payload: Payload, metadata: Json)

  /** A provisional event: the store replaces its id and sequence. */
  function Draft(runtimeId: string, eventType: EventType, timestamp: Time): Event {
    Event(IntId(-1), runtimeId, eventType, timestamp, None, None, None, None, None, None,
          None, None, None, None, None, None, None, NO_PAYLOAD, Null)
  }

  datatype Identity = Identity(
    runtimeId: string, generation: int, logicalTaskId: Option<string>, rerunOf: Option<string>)

  datatype Idempotency = UnknownIdempotency | Idempotent | RequiresCleanup | NonIdempotent

  /** A process declaration: `depends_on` entries are unique by the field's own validation. */
  datatype ProcessSpec = ProcessSpec(
    processId: Option<string>, processType: string, parentProcessId: Option<string>, dependsOn: set<string>,
    executionKey: Option<string>, inputFingerprint: Option<string>, implementationVersion: Option<string>,
    idempotency: Idempotency, recoverableCheckpoints: bool, maxAttempts: int,
    canStart: bool, canResume: bool, canRetry: bool, metadata: Json)
  {
    function ResolvedId(): string {
      if processId.Some? && processId.value != "" then processId.value else processType
    }
  }

  /** One attempt of a logical process. Its metadata is empty everywhere and is left out. */
  datatype Attempt = Attempt(
    attemptId: string, processId: string, runtimeId: string, executionId: Option<string>,
    ordinal: int, operation: Option<Operation>, executionKey: Option<string>,
    inputFingerprint: Option<string>, implementationVersion: Option<string>,
    status: Status, statusClass: StatusClass, startedAt: Option<Time>, finishedAt: Option<Time>,
    resumedFromAttemptId: Option<string>, checkpointId: Option<string>,
    backendSessionId: Option<string>, firstEventSequence: Option<int>, lastEventSequence: Option<int>,
    error: Option<ErrorInfo>)

  function AttemptOperation(p: Payload): Option<Operation> {
    match (if p.operation.Some? then p.operation else p.recoveryAction)
    case Some(StartText) => Some(Start)
    case Some(ResumeText) => Some(Resume)
    case Some(RetryText) => Some(Retry)
    case Some(RestartText) => Some(Start)
    case _ => None
  }

  function OperationValue(operation: Operation): OperationText {
    match operation
    case Start => StartText
    case Resume => ResumeText
    case Retry => RetryText
    case _ => OtherText
  }

  // Python's `a or b` on optional values: absent, zero and empty all fall through to `b`.

  function OrText(a: Option<string>, b: Option<string>): Option<string> {
    if a.Some? && a.value != "" then a else b
  }

  function OrValue(a: Option<TextValue>, b: Option<TextValue>): Option<TextValue> {
    if a.Some? && a.value.Truthy() then a else b
  }

  function OrTime(a: Option<Time>, b: Time): Option<Time> {
    if a.Some? && a.value != 0.0 then a else Some(b)
  }

  function OrStatus(a: Option<Status>, b: Status): Status {
    if a.Some? && a.value != Custom("") then a.value else b
  }

  function OrClass(a: Option<StatusClass>, b: StatusClass): StatusClass {
    if a.Some? then a.value else b
  }

  function OrError(a: Option<ErrorInfo>, b: Option<ErrorInfo>): Option<ErrorInfo> {
    if a.Some? then a else b
  }

  /** `not text.strip()` */
  predicate Blank(text: string) {
    forall c <- text :: Space(c)
  }

  /** `str.isspace`, on one character. */
  predicate Space(c: char) {
    || '\U{9}' <= c <= '\U{D}' || '\U{1C}' <= c <= '\U{20}' || c == '\U{85}' || c == '\U{A0}' || c == '\U{1680}'
    || '\U{2000}' <= c <= '\U{200A}' || c == '\U{2028}' || c == '\U{2029}' || c == '\U{202F}' || c == '\U{205F}'
    || c == '\U{3000}'
  }

  // Decimal rendering, as Python's `str(int)` and f-strings produce it.

  function Digits(n: nat): (text: string)
    ensures text != []
    ensures forall c <- text :: '0' <= c <= '9'
  {
    var digit := ('0' as int + n % 10) as char;
    if n < 10 then [digit] else Digits(n / 10) + [digit]
  }

  function Decimal(n: int): string {
    if n < 0 then "-" + Digits(-n) else Digits(n)
  }

  lemma {:induction false} DigitsInjective(m: nat, n: nat)
    requires Digits(m) == Digits(n)
    ensures m == n
  {
    var last := Digits(m)[|Digits(m)| - 1];
    assert last == ('0' as int + m % 10) as char == ('0' as int + n % 10) as char;
    assert m % 10 == n % 10;
    if m >= 10 && n >= 10 {
      assert Digits(m)[..|Digits(m)| - 1] == Digits(m / 10);
      assert Digits(n)[..|Digits(n)| - 1] == Digits(n / 10);
      DigitsInjective(m / 10, n / 10);
    }
  }
}
