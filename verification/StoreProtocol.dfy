/** The protocol a log must follow, as a monitor that reads nothing but events, and the invariant that
    ties it to the tables. */
module StoreProtocol {
  import opened RuntimeTypes
  import opened RuntimeProjections
  import opened LedgerReplay
  import opened DurableTables
  import opened StoreInvariant

  datatype Phase = Opened | Begun | Ended

  /** What the monitor remembers: execution states, attempt phases, the next ordinals, the lease owner
      with its expiry and everyone whose lease ended, and which commands were answered. */
  datatype Monitor = Monitor(
    executions: map<string, Status>, attempts: map<string, Phase>, ordinals: map<string, nat>,
    owner: Option<string>, lease: Time, ended: set<string>, answered: map<string, bool>)

  const START := Monitor(map[], map[], map[], None, 0.0, {}, map[])

  function ObserveExecution(m: Monitor, e: Event): Option<Monitor>
    requires e.eventType.IsExecution()
  {
    if e.executionId.None? then None
    else
      var id := e.executionId.value;
      if e.eventType.ExecutionCreated? then
        if id !in m.executions && e.payload.kind == (if m.executions == map[] then Initial else Continue)
           && e.payload.ordinal == Some(|m.executions| + 1)
        then Some(m.(executions := m.executions[id := Pending])) else None
      else if id in m.executions && AllowedTransition(m.executions[id], TransitionOf(e.eventType).value)
      then Some(m.(executions := m.executions[id := TransitionOf(e.eventType).value])) else None
  }

  function ObserveAttempt(m: Monitor, e: Event): Option<Monitor>
    requires e.eventType.IsAttempt()
  {
    if !TouchesAttempt(e) || e.executionId.None? || e.executionId.value !in m.executions then None
    else
      var id, p := e.attemptId.value, e.processId.value;
      var used := if p in m.ordinals then m.ordinals[p] else 0;
      match e.eventType
      case AttemptCreated =>
        if id !in m.attempts && e.payload.ordinal == Some(used + 1) && id == AttemptId(p, used + 1)
           && Unfinished(m.executions[e.executionId.value])
        then Some(m.(attempts := m.attempts[id := Opened], ordinals := m.ordinals[p := used + 1])) else None
      case AttemptStarted =>
        if id in m.attempts && m.attempts[id].Opened? then Some(m.(attempts := m.attempts[id := Begun])) else None
      case _ =>
        if id in m.attempts && m.attempts[id].Begun? then Some(m.(attempts := m.attempts[id := Ended])) else None
  }

  function ObserveSession(m: Monitor, e: Event): Option<Monitor>
    requires e.eventType.IsSession()
  {
    if e.subjectId.None? then None
    else
      var id := e.subjectId.value;
      match e.eventType
      case SessionAcquired =>
        if m.owner.None? && id !in m.ended then Some(m.(owner := Some(id), lease := e.payload.expiresAt)) else None
      case SessionRenewed =>
        if m.owner == Some(id) && e.timestamp < m.lease then Some(m.(lease := e.payload.expiresAt)) else None
      case SessionReleased =>
        if m.owner == Some(id) && e.timestamp < m.lease then Some(m.(owner := None, ended := m.ended + {id})) else None
      case _ =>
        if m.owner == Some(id) && m.lease <= e.timestamp then Some(m.(owner := None, ended := m.ended + {id})) else None
  }

  function ObserveCommand(m: Monitor, e: Event): Option<Monitor>
    requires e.eventType.IsCommand()
  {
    if e.subjectId.None? then None
    else
      var id := e.subjectId.value;
      if e.eventType.CommandAccepted? then
        if id !in m.answered then Some(m.(answered := m.answered[id := false])) else None
      else if id in m.answered && !m.answered[id] then Some(m.(answered := m.answered[id := true])) else None
  }

  function Observe(m: Monitor, e: Event): Option<Monitor> {
    if e.eventType.IsExecution() then ObserveExecution(m, e)
    else if e.eventType.IsAttempt() then ObserveAttempt(m, e)
    else if e.eventType.IsSession() then ObserveSession(m, e)
    else if e.eventType.IsCommand() then ObserveCommand(m, e)
    else Some(m)
  }

  function Watch(log: seq<Event>): Option<Monitor> {
    if log == [] then Some(START)
    else
      match Watch(log[..|log| - 1])
      case None => None
      case Some(m) => Observe(m, log[|log| - 1])
  }

  // ---------------------------------------------------------------- the tables mirror the monitor

  function PhaseOf(c: StatusClass): Phase {
    match c
    case NotStarted => Opened
    case Active => Begun
    case _ => Ended
  }

  ghost predicate SessionsRight(sessions: map<string, Session>, runtimeId: string) {
    && (forall id | id in sessions :: sessions[id].sessionId == id && sessions[id].runtimeId == runtimeId)
    && (forall a, b | IsActive(sessions, a) && IsActive(sessions, b) :: a == b)
  }

  ghost predicate ExecutionsMatch(m: Monitor, executions: map<string, ExecutionRecord>) {
    m.executions == map id | id in executions :: executions[id].status
  }

  ghost predicate AttemptsMatch(m: Monitor, attempts: map<string, Attempt>) {
    && m.attempts == (map id | id in attempts :: PhaseOf(attempts[id].statusClass))
    && (forall p | p in m.ordinals :: IsMaxOrdinal(attempts, p, m.ordinals[p]) && m.ordinals[p] > 0)
    && (forall p | p !in m.ordinals :: IsMaxOrdinal(attempts, p, 0))
  }

  ghost predicate SessionsMatch(m: Monitor, sessions: map<string, Session>) {
    && (forall id :: IsActive(sessions, id) <==> m.owner == Some(id))
    && (forall id :: id in m.ended <==> id in sessions && !IsActive(sessions, id))
    && (m.owner.Some? ==> m.lease == sessions[m.owner.value].expiresAt)
  }

  ghost predicate CommandsMatch(m: Monitor, commands: map<string, CommandRecord>) {
    m.answered == map id | id in commands :: !commands[id].status.Accepted?
  }

  ghost predicate Mirrors(db: Db, m: Monitor) {
    && ExecutionsMatch(m, db.executions) && AttemptsMatch(m, db.attempts)
    && SessionsMatch(m, db.sessions) && CommandsMatch(m, db.commands)
  }

  /** The tables equal the replay of the log, and the framework reducer can read the log. */
  ghost predicate Synced(db: Db) {
    && Dense(db.log, db.identity.runtimeId)
    && ExecutionsSynced(db.log, db.identity.runtimeId, db.executions)
    && AttemptsSynced(db.log, db.identity.runtimeId, db.attempts)
    && CommandsSynced(db.log, db.identity.runtimeId, db.commands)
    && Readable(db.log)
  }

  /** The monitor accepts the log and the tables mirror its state. */
  ghost predicate Observed(db: Db) {
    && SessionsRight(db.sessions, db.identity.runtimeId)
    && Watch(db.log).Some? && Mirrors(db, Watch(db.log).value)
  }

  predicate Refers(executions: map<string, ExecutionRecord>, executionId: Option<string>) {
    executionId.None? || executionId.value in executions
  }

  /** Attempts lie in declared executions, and receipts refer to none but those. */
  ghost predicate Linked(db: Db) {
    && (forall id | id in db.attempts ::
          db.attempts[id].executionId.Some? && db.attempts[id].executionId.value in db.executions)
    && (forall id | id in db.commands :: Refers(db.executions, db.commands[id].executionId))
  }

  ghost predicate Inv(db: Db) {
    Synced(db) && Observed(db) && Linked(db)
  }

  /** Between transactions no attempt is merely created. */
  ghost predicate Settled(db: Db) {
    forall id | id in db.attempts :: !db.attempts[id].statusClass.NotStarted?
  }

  ghost predicate Good(db: Db) {
    Inv(db) && Settled(db)
  }

  /** The lineage is the same, the log only grew, and the stored projection was left alone. */
  ghost predicate Extends(db: Db, after: Db) {
    after.identity == db.identity && db.log <= after.log && after.projection == db.projection
  }

  lemma EmptyGood(identity: Identity)
    ensures Good(EmptyDb(identity))
  {
    forall p ensures IsMaxOrdinal(map[], p, 0) {}
  }

  // ---------------------------------------------------------------- one emitted event

  predicate OpensInLive(executions: map<string, ExecutionRecord>, e: Event) {
    e.eventType.IsAttempt() ==>
      && e.executionId.Some? && e.executionId.value in executions
      && (e.eventType.AttemptCreated? ==> Unfinished(executions[e.executionId.value].status))
  }

  /** The session rows before and after an event, for each kind of session event. */
  ghost predicate SessionStep(before: map<string, Session>, e: Event, after: map<string, Session>, runtimeId: string) {
    if !e.eventType.IsSession() then after == before
    else
      && e.subjectId.Some? && e.subjectId.value in after
      && var id := e.subjectId.value;
         var row := after[id];
         && after == before[id := row] && row.sessionId == id && row.runtimeId == runtimeId
         && (match e.eventType
             case SessionAcquired =>
               id !in before && (forall other :: !IsActive(before, other)) && row.status.ActiveSession?
               && row.expiresAt == e.payload.expiresAt
             case SessionRenewed =>
               IsActive(before, id) && e.timestamp < before[id].expiresAt && row.status.ActiveSession?
               && row.expiresAt == e.payload.expiresAt
             case SessionReleased =>
               IsActive(before, id) && e.timestamp < before[id].expiresAt && !row.status.ActiveSession?
             case _ =>
               IsActive(before, id) && before[id].expiresAt <= e.timestamp && !row.status.ActiveSession?)
  }

  lemma SessionsObserved(m: Monitor, before: map<string, Session>, e: Event, after: map<string, Session>,
      runtimeId: string)
    requires SessionsRight(before, runtimeId) && SessionsMatch(m, before)
    requires e.eventType.IsSession() && SessionStep(before, e, after, runtimeId)
    ensures ObserveSession(m, e).Some? && SessionsRight(after, runtimeId)
    ensures SessionsMatch(ObserveSession(m, e).value, after)
  {
    var id := e.subjectId.value;
    assert e.eventType.SessionAcquired? ==> m.owner.None? by {
      if m.owner.Some? { assert IsActive(before, m.owner.value); }
    }
    forall other | other != id ensures IsActive(after, other) == IsActive(before, other) {}
  }

  lemma ExecutionsObserved(m: Monitor, executions: map<string, ExecutionRecord>, e: Event)
    requires ExecutionsMatch(m, executions) && ExecutionAdmits(executions, e)
    ensures e.eventType.IsExecution() ==>
      ObserveExecution(m, e).Some? && ExecutionsMatch(ObserveExecution(m, e).value, ExecutionEffect(executions, e))
    ensures !e.eventType.IsExecution() ==> ExecutionsMatch(m, ExecutionEffect(executions, e))
  {
    assert m.executions.Keys == executions.Keys;
    if e.eventType.IsExecution() {
      assert |m.executions| == |m.executions.Keys| == |executions|;
      assert m.executions == map[] <==> executions == map[];
    }
  }

  lemma CommandsObserved(m: Monitor, commands: map<string, CommandRecord>, e: Event)
    requires CommandsMatch(m, commands) && CommandAdmits(commands, e) && e.sequence.Some?
    ensures e.eventType.IsCommand() ==>
      ObserveCommand(m, e).Some? && CommandsMatch(ObserveCommand(m, e).value, CommandEffect(commands, e))
    ensures !e.eventType.IsCommand() ==> CommandEffect(commands, e) == commands
  {
  }

  lemma SameOrdinals(before: map<string, Attempt>, after: map<string, Attempt>, p: string, k: int)
    requires after.Keys == before.Keys
    requires forall id | id in before ::
      after[id].processId == before[id].processId && after[id].ordinal == before[id].ordinal
    requires IsMaxOrdinal(before, p, k)
    ensures IsMaxOrdinal(after, p, k)
  {
  }

  lemma MaxOrdinalUnique(attempts: map<string, Attempt>, p: string, j: int, k: int)
    requires IsMaxOrdinal(attempts, p, j) && IsMaxOrdinal(attempts, p, k) && j >= 0 && k >= 0
    ensures j == k
  {
  }

  lemma AttemptsObserved(m: Monitor, db: Db, e: Event)
    requires AttemptsMatch(m, db.attempts) && ExecutionsMatch(m, db.executions)
    requires AttemptAdmits(db.attempts, e) && OpensInLive(db.executions, e) && e.eventType.IsAttempt()
    ensures ObserveAttempt(m, e).Some? && AttemptsMatch(ObserveAttempt(m, e).value, AttemptEffect(db.attempts, e))
  {
    hide IsMaxOrdinal;
    if e.attemptId.value in db.attempts {
      var after := AttemptEffect(db.attempts, e);
      forall q, k | IsMaxOrdinal(db.attempts, q, k) ensures IsMaxOrdinal(after, q, k) {
        SameOrdinals(db.attempts, after, q, k);
      }
    } else {
      OpeningObserved(m, db, e);
    }
  }

  lemma OpeningObserved(m: Monitor, db: Db, e: Event)
    requires AttemptsMatch(m, db.attempts) && ExecutionsMatch(m, db.executions)
    requires AttemptAdmits(db.attempts, e) && OpensInLive(db.executions, e) && e.eventType.IsAttempt()
    requires TouchesAttempt(e) && e.attemptId.value !in db.attempts
    ensures ObserveAttempt(m, e).Some? && AttemptsMatch(ObserveAttempt(m, e).value, AttemptEffect(db.attempts, e))
  {
    hide IsMaxOrdinal, UpdatedRow, NewRow, AttemptId, AttemptAdmits, Opening, Continuing;
    var id, p := e.attemptId.value, e.processId.value;
    var k := OpeningOrdinal(db.attempts, e);
    var used: nat := if p in m.ordinals then m.ordinals[p] else 0;
    MaxOrdinalUnique(db.attempts, p, k, used);
    OpenedRow(e, k);
    var row := UpdatedRow(NewRow(e), e);
    NewMaxOrdinals(db.attempts, id, row, k);
  }

  /** The ordinal an admitted new attempt goes beyond. */
  lemma OpeningOrdinal(attempts: map<string, Attempt>, e: Event) returns (k: int)
    requires AttemptAdmits(attempts, e) && e.eventType.IsAttempt() && TouchesAttempt(e)
    requires e.attemptId.value !in attempts
    ensures IsMaxOrdinal(attempts, e.processId.value, k) && Opening(e, k) && e.statusClass == Some(NotStarted)
    ensures k >= 0 && e.eventType.AttemptCreated? && e.payload.ordinal == Some(k + 1)
    ensures e.attemptId.value == AttemptId(e.processId.value, k + 1)
  {
    hide IsMaxOrdinal, AttemptId;
    k :| IsMaxOrdinal(attempts, e.processId.value, k) && Opening(e, k);
  }

  lemma OpenedRow(e: Event, k: int)
    requires TouchesAttempt(e) && Opening(e, k) && e.statusClass == Some(NotStarted)
    ensures var row := UpdatedRow(NewRow(e), e);
      row.processId == e.processId.value && row.ordinal == k + 1 && row.statusClass == NotStarted
  {
  }

  lemma NewMaxOrdinals(before: map<string, Attempt>, id: string, row: Attempt, k: int)
    requires id !in before && IsMaxOrdinal(before, row.processId, k) && k >= 0 && row.ordinal == k + 1
    ensures IsMaxOrdinal(before[id := row], row.processId, k + 1)
    ensures forall q, j | q != row.processId && IsMaxOrdinal(before, q, j) :: IsMaxOrdinal(before[id := row], q, j)
  {
    var after := before[id := row];
    assert after[id] == row;
    forall q, j | q != row.processId && IsMaxOrdinal(before, q, j) ensures IsMaxOrdinal(after, q, j) {
      if j != 0 {
        var other :| other in before && before[other].processId == q && before[other].ordinal == j;
        assert after[other] == before[other];
      }
    }
  }

  /** The database after one event took effect on every table. */
  function Emitted(db: Db, e: Event, sessions: map<string, Session>): Db {
    db.(log := db.log + [e], executions := ExecutionEffect(db.executions, e),
        attempts := AttemptEffect(db.attempts, e), commands := CommandEffect(db.commands, e), sessions := sessions)
  }

  ghost predicate Admits(db: Db, e: Event, sessions: map<string, Session>) {
    && Canonical(e, |db.log|, db.identity.runtimeId) && Legible(e)
    && ExecutionAdmits(db.executions, e) && AttemptAdmits(db.attempts, e) && OpensInLive(db.executions, e)
    && CommandAdmits(db.commands, e) && SessionStep(db.sessions, e, sessions, db.identity.runtimeId)
  }

  lemma WatchOne(log: seq<Event>, e: Event)
    requires Watch(log).Some?
    ensures Watch(log + [e]) == Observe(Watch(log).value, e)
  {
    assert (log + [e])[..|log + [e]| - 1] == log;
  }

  /** Rows other than those of its own kind are untouched by an event. */
  lemma OtherTables(db: Db, e: Event)
    ensures !e.eventType.IsAttempt() ==> AttemptEffect(db.attempts, e) == db.attempts
    ensures !e.eventType.IsCommand() ==> CommandEffect(db.commands, e) == db.commands
  {
  }

  /** Each kind of event moves its own part of the monitor. */
  lemma MonitorFrames(m: Monitor, e: Event)
    ensures e.eventType.IsExecution() && ObserveExecution(m, e).Some? ==>
      var n := ObserveExecution(m, e).value; n == m.(executions := n.executions)
    ensures e.eventType.IsAttempt() && ObserveAttempt(m, e).Some? ==>
      var n := ObserveAttempt(m, e).value; n == m.(attempts := n.attempts, ordinals := n.ordinals)
    ensures e.eventType.IsSession() && ObserveSession(m, e).Some? ==>
      var n := ObserveSession(m, e).value; n == m.(owner := n.owner, lease := n.lease, ended := n.ended)
    ensures e.eventType.IsCommand() && ObserveCommand(m, e).Some? ==>
      var n := ObserveCommand(m, e).value; n == m.(answered := n.answered)
  {
  }

  lemma ExecutionEventMirrors(m: Monitor, db: Db, e: Event)
    requires Mirrors(db, m) && ExecutionAdmits(db.executions, e) && e.eventType.IsExecution()
    ensures Observe(m, e).Some? && Mirrors(Emitted(db, e, db.sessions), Observe(m, e).value)
  {
    hide ExecutionEffect, AttemptEffect, CommandEffect, ObserveExecution, ObserveAttempt, ObserveSession;
    hide ObserveCommand;
    hide AttemptAdmits, IsMaxOrdinal, ExecutionAdmits;
    ExecutionsObserved(m, db.executions, e);
    OtherTables(db, e);
    MonitorFrames(m, e);
  }

  lemma CommandEventMirrors(m: Monitor, db: Db, e: Event)
    requires Mirrors(db, m) && ExecutionAdmits(db.executions, e) && CommandAdmits(db.commands, e)
    requires e.eventType.IsCommand() && e.sequence.Some?
    ensures Observe(m, e).Some? && Mirrors(Emitted(db, e, db.sessions), Observe(m, e).value)
  {
    hide ExecutionEffect, AttemptEffect, CommandEffect, ObserveExecution, ObserveAttempt, ObserveSession;
    hide ObserveCommand;
    hide AttemptAdmits, IsMaxOrdinal, ExecutionAdmits;
    ExecutionsObserved(m, db.executions, e);
    CommandsObserved(m, db.commands, e);
    OtherTables(db, e);
    MonitorFrames(m, e);
  }

  lemma AttemptEventMirrors(m: Monitor, db: Db, e: Event)
    requires Mirrors(db, m) && ExecutionAdmits(db.executions, e)
    requires AttemptAdmits(db.attempts, e) && OpensInLive(db.executions, e) && e.eventType.IsAttempt()
    ensures Observe(m, e).Some? && Mirrors(Emitted(db, e, db.sessions), Observe(m, e).value)
  {
    hide ExecutionEffect, AttemptEffect, CommandEffect, ObserveExecution, ObserveAttempt, ObserveSession;
    hide ObserveCommand;
    hide AttemptAdmits, IsMaxOrdinal, ExecutionAdmits;
    ExecutionsObserved(m, db.executions, e);
    AttemptsObserved(m, db, e);
    OtherTables(db, e);
    MonitorFrames(m, e);
  }

  lemma SessionEventMirrors(m: Monitor, db: Db, e: Event, sessions: map<string, Session>)
    requires Mirrors(db, m) && SessionsRight(db.sessions, db.identity.runtimeId)
    requires ExecutionAdmits(db.executions, e) && e.eventType.IsSession()
    requires SessionStep(db.sessions, e, sessions, db.identity.runtimeId)
    ensures Observe(m, e).Some? && Mirrors(Emitted(db, e, sessions), Observe(m, e).value)
    ensures SessionsRight(sessions, db.identity.runtimeId)
  {
    hide ExecutionEffect, AttemptEffect, CommandEffect, ObserveExecution, ObserveAttempt, ObserveSession;
    hide ObserveCommand;
    hide AttemptAdmits, IsMaxOrdinal, ExecutionAdmits;
    ExecutionsObserved(m, db.executions, e);
    SessionsObserved(m, db.sessions, e, sessions, db.identity.runtimeId);
    OtherTables(db, e);
    MonitorFrames(m, e);
  }

  lemma ObserveMirrors(m: Monitor, db: Db, e: Event, sessions: map<string, Session>)
    requires Mirrors(db, m) && SessionsRight(db.sessions, db.identity.runtimeId) && Admits(db, e, sessions)
    ensures Observe(m, e).Some? && Mirrors(Emitted(db, e, sessions), Observe(m, e).value)
    ensures SessionsRight(sessions, db.identity.runtimeId)
  {
    hide ExecutionEffect, AttemptEffect, CommandEffect, ObserveExecution, ObserveAttempt, ObserveSession;
    hide ObserveCommand;
    hide AttemptAdmits, IsMaxOrdinal, ExecutionAdmits;
    if e.eventType.IsExecution() {
      ExecutionEventMirrors(m, db, e);
    } else if e.eventType.IsAttempt() {
      AttemptEventMirrors(m, db, e);
    } else if e.eventType.IsSession() {
      SessionEventMirrors(m, db, e, sessions);
    } else if e.eventType.IsCommand() {
      CommandEventMirrors(m, db, e);
    } else {
      ExecutionsObserved(m, db.executions, e);
      OtherTables(db, e);
    }
  }

  lemma DenseStep(log: seq<Event>, runtimeId: string, e: Event)
    requires Dense(log, runtimeId) && Canonical(e, |log|, runtimeId)
    ensures Dense(log + [e], runtimeId)
  {
  }

  lemma EmitSynced(db: Db, e: Event, sessions: map<string, Session>)
    requires Synced(db) && Admits(db, e, sessions)
    ensures Synced(Emitted(db, e, sessions))
  {
    var rid := db.identity.runtimeId;
    DenseStep(db.log, rid, e);
    ExecutionsStep(db.log, rid, db.executions, e);
    AttemptsStep(db.log, rid, db.attempts, e);
    CommandsStep(db.log, rid, db.commands, e);
    ReadableStep(db.log, e);
  }

  lemma EmitLinked(db: Db, e: Event, sessions: map<string, Session>)
    requires Linked(db) && Admits(db, e, sessions)
    ensures Linked(Emitted(db, e, sessions))
  {
    hide Mirrors, IsMaxOrdinal;
    var after := Emitted(db, e, sessions);
    forall id | id in after.attempts
      ensures after.attempts[id].executionId.Some? && after.attempts[id].executionId.value in after.executions
    {
      if id in db.attempts {
        assert after.attempts[id].executionId == db.attempts[id].executionId;
      } else {
        assert after.attempts[id].executionId == e.executionId;
      }
    }
  }

  /** The one-event step of the whole invariant. */
  lemma EmitKeepsInv(db: Db, e: Event, sessions: map<string, Session>)
    requires Inv(db) && Admits(db, e, sessions)
    ensures Inv(Emitted(db, e, sessions))
  {
    EmitSynced(db, e, sessions);
    EmitLinked(db, e, sessions);
    ObserveMirrors(Watch(db.log).value, db, e, sessions);
    WatchOne(db.log, e);
  }
}
