/** What every reachable database satisfies: dense sequences, tables that equal the replay of the log,
    and a log accepted by a small protocol monitor whose state the tables mirror. Each transaction is
    a series of single-event steps, so the heart of the proof is one lemma about one emitted event. */
module StoreInvariant {
  import opened RuntimeTypes
  import opened RuntimeProjections
  import opened LedgerReplay
  import opened DurableTables

  // ---------------------------------------------------------------- the log

  ghost predicate Canonical(e: Event, n: int, runtimeId: string) {
    e.sequence == Some(n) && e.eventId == IntId(n) && e.runtimeId == runtimeId
  }

  ghost predicate Dense(log: seq<Event>, runtimeId: string) {
    forall i | 0 <= i < |log| :: Canonical(log[i], i, runtimeId)
  }

  lemma {:induction false} DenseMax(log: seq<Event>, runtimeId: string)
    requires Dense(log, runtimeId)
    ensures MaxSequence(log) == |log| - 1
  {
    if log != [] { DenseMax(log[..|log| - 1], runtimeId); }
  }

  lemma {:induction false} EventsAfterIsSuffix(log: seq<Event>, runtimeId: string, cursor: int)
    requires Dense(log, runtimeId) && -1 <= cursor < |log|
    ensures EventsAfter(log, cursor) == log[cursor + 1..]
    decreases |log|
  {
    if log != [] {
      var init := log[..|log| - 1];
      if cursor < |init| {
        EventsAfterIsSuffix(init, runtimeId, cursor);
        assert log[cursor + 1..] == init[cursor + 1..] + [log[|log| - 1]];
      } else {
        EventsAfterNone(init, runtimeId, cursor);
      }
    }
  }

  lemma {:induction false} EventsAfterNone(log: seq<Event>, runtimeId: string, cursor: int)
    requires Dense(log, runtimeId) && |log| <= cursor + 1
    ensures EventsAfter(log, cursor) == []
    decreases |log|
  {
    if log != [] { EventsAfterNone(log[..|log| - 1], runtimeId, cursor); }
  }

  // ---------------------------------------------------------------- executions against their replay

  ghost predicate ExecutionIndexRight(x: ExecutionIndex, runtimeId: string) {
    && |x.order| == |x.byId|
    && (forall i | 0 <= i < |x.order| :: x.order[i] in x.byId && x.byId[x.order[i]].ordinal == i + 1)
    && (forall id | id in x.byId ::
          && x.byId[id].executionId == id && x.byId[id].runtimeId == runtimeId
          && 1 <= x.byId[id].ordinal <= |x.order| && x.order[x.byId[id].ordinal - 1] == id)
  }

  ghost predicate ExecutionsSynced(log: seq<Event>, runtimeId: string, executions: map<string, ExecutionRecord>) {
    var r := ReplayExecutions(log, runtimeId);
    r.Success? && r.value.byId == executions && ExecutionIndexRight(r.value, runtimeId)
  }

  /** What replay makes of an execution row. */
  function ExecutionEffect(executions: map<string, ExecutionRecord>, e: Event): map<string, ExecutionRecord> {
    if e.executionId.None? then executions
    else
      var id := e.executionId.value;
      if e.eventType.ExecutionCreated? then
        if e.payload.ordinal.Some? then executions[id := DeclaredBy(e)] else executions
      else if id in executions then executions[id := TransitionedBy(executions[id], e)]
      else executions
  }

  /** The execution events and references the protocol allows next. */
  predicate ExecutionAdmits(executions: map<string, ExecutionRecord>, e: Event) {
    if e.executionId.None? then !e.eventType.IsExecution()
    else
      var id := e.executionId.value;
      if e.eventType.ExecutionCreated? then
        && id !in executions && !Blank(id) && e.payload.ordinal == Some(|executions| + 1) && e.payload.malformed == {}
        && e.payload.kind == (if executions == map[] then Initial else Continue)
      else
        id in executions &&
        (e.eventType.IsExecution() ==>
           AllowedTransition(executions[id].status, TransitionOf(e.eventType).value))
  }

  lemma ExecutionDeclared(x: ExecutionIndex, runtimeId: string, e: Event)
    requires ExecutionIndexRight(x, runtimeId) && e.runtimeId == runtimeId && e.executionId.Some?
    requires e.executionId.value !in x.byId && e.payload.ordinal == Some(|x.byId| + 1)
    ensures ExecutionIndexRight(
      ExecutionIndex(x.byId[e.executionId.value := DeclaredBy(e)], x.order + [e.executionId.value]), runtimeId)
  {
    var row := DeclaredBy(e);
    assert row.executionId == e.executionId.value && row.runtimeId == runtimeId && row.ordinal == |x.byId| + 1;
    hide DeclaredBy, ExecutionIndexRight;
    var id := e.executionId.value;
    OneMoreKey(x.byId, id, row);
    RowDeclared(x, ExecutionIndex(x.byId[id := row], x.order + [id]), runtimeId, id, row);
  }

  lemma OneMoreKey<V>(m: map<string, V>, id: string, value: V)
    requires id !in m
    ensures |m[id := value]| == |m| + 1
  {
    assert m[id := value].Keys == m.Keys + {id};
  }

  lemma RowDeclared(x: ExecutionIndex, y: ExecutionIndex, runtimeId: string, id: string, row: ExecutionRecord)
    requires ExecutionIndexRight(x, runtimeId) && id !in x.byId
    requires row.executionId == id && row.runtimeId == runtimeId && row.ordinal == |x.byId| + 1
    requires y.byId == x.byId[id := row] && y.order == x.order + [id] && |y.byId| == |x.byId| + 1
    ensures ExecutionIndexRight(y, runtimeId)
  {
    forall i | 0 <= i < |y.order| ensures y.order[i] in y.byId && y.byId[y.order[i]].ordinal == i + 1 {
      if i < |x.order| { assert y.order[i] == x.order[i] && x.order[i] in x.byId; }
    }
    forall other | other in y.byId
      ensures y.byId[other].executionId == other && y.byId[other].runtimeId == runtimeId
      ensures 1 <= y.byId[other].ordinal <= |y.order| && y.order[y.byId[other].ordinal - 1] == other
    {
      if other != id { assert other in x.byId && y.byId[other] == x.byId[other]; }
    }
  }

  lemma ExecutionMoved(x: ExecutionIndex, runtimeId: string, e: Event, id: string)
    requires ExecutionIndexRight(x, runtimeId) && id in x.byId
    ensures ExecutionIndexRight(x.(byId := x.byId[id := TransitionedBy(x.byId[id], e)]), runtimeId)
  {
    var row := TransitionedBy(x.byId[id], e);
    assert row.executionId == id && row.runtimeId == runtimeId && row.ordinal == x.byId[id].ordinal;
    hide TransitionedBy, ExecutionIndexRight;
    assert x.byId[id := row].Keys == x.byId.Keys;
    assert |x.byId[id := row]| == |x.byId|;
    RowMoved(x, x.(byId := x.byId[id := row]), runtimeId, id, row);
  }

  lemma RowMoved(x: ExecutionIndex, y: ExecutionIndex, runtimeId: string, id: string, row: ExecutionRecord)
    requires ExecutionIndexRight(x, runtimeId) && id in x.byId
    requires row.executionId == id && row.runtimeId == runtimeId && row.ordinal == x.byId[id].ordinal
    requires y.byId == x.byId[id := row] && y.order == x.order && |y.byId| == |x.byId|
    ensures ExecutionIndexRight(y, runtimeId)
  {
    forall i | 0 <= i < |y.order| ensures y.order[i] in y.byId && y.byId[y.order[i]].ordinal == i + 1 {
      assert x.order[i] in x.byId;
    }
  }

  lemma ExecutionsStep(log: seq<Event>, runtimeId: string, executions: map<string, ExecutionRecord>, e: Event)
    requires ExecutionsSynced(log, runtimeId, executions)
    requires e.runtimeId == runtimeId && ExecutionAdmits(executions, e)
    ensures ExecutionsSynced(log + [e], runtimeId, ExecutionEffect(executions, e))
  {
    hide ExecutionIndexRight, TransitionedBy, DeclaredBy;
    ReplayOneMore(log, runtimeId, e);
    var x := ReplayExecutions(log, runtimeId).value;
    if e.executionId.Some? {
      if e.eventType.ExecutionCreated? {
        ExecutionDeclared(x, runtimeId, e);
      } else {
        ExecutionMoved(x, runtimeId, e, e.executionId.value);
      }
    }
  }

  lemma ReplayOneMore(log: seq<Event>, runtimeId: string, e: Event)
    requires ReplayExecutions(log, runtimeId).Success?
    ensures ReplayExecutions(log + [e], runtimeId) ==
      ReplayExecution(ReplayExecutions(log, runtimeId).value, e, runtimeId)
  {
    assert (log + [e])[..|log + [e]| - 1] == log;
  }

  // ---------------------------------------------------------------- attempts against their replay

  function ReplayAttempts(events: seq<Event>): Result<AttemptIndex, ReduceError> {
    if events == [] then Success(AttemptIndex(map[], map[]))
    else
      match ReplayAttempts(events[..|events| - 1])
      case Failure(error) => Failure(error)
      case Success(x) =>
        if AttemptRejected(x, events[|events| - 1]) then Failure(InvalidAttempt)
        else Success(WithAttempt(x, events[|events| - 1]))
  }

  ghost predicate AttemptIndexRight(x: AttemptIndex, runtimeId: string) {
    && (forall p | p in x.idsByProcess :: AttemptListRight(x, p))
    && (forall id | id in x.byId :: AttemptRowRight(x, runtimeId, id))
  }

  /** The ids of a process are its rows in ordinal order, counted from one. */
  ghost predicate AttemptListRight(x: AttemptIndex, p: string)
    requires p in x.idsByProcess
  {
    var ids := x.idsByProcess[p];
    && ids != []
    && forall i | 0 <= i < |ids| ::
         ids[i] in x.byId && x.byId[ids[i]].processId == p && x.byId[ids[i]].ordinal == i + 1
  }

  ghost predicate AttemptRowRight(x: AttemptIndex, runtimeId: string, id: string)
    requires id in x.byId
  {
    var a := x.byId[id];
    && a.attemptId == id && a.runtimeId == runtimeId && id == AttemptId(a.processId, a.ordinal)
    && a.processId in x.idsByProcess && 1 <= a.ordinal <= |x.idsByProcess[a.processId]|
    && x.idsByProcess[a.processId][a.ordinal - 1] == id
  }

  ghost predicate AttemptsSynced(log: seq<Event>, runtimeId: string, attempts: map<string, Attempt>) {
    var r := ReplayAttempts(log);
    r.Success? && r.value.byId == attempts && AttemptIndexRight(r.value, runtimeId)
  }

  function AttemptEffect(attempts: map<string, Attempt>, e: Event): map<string, Attempt> {
    if !TouchesAttempt(e) then attempts
    else
      var id := e.attemptId.value;
      attempts[id := UpdatedRow(if id in attempts then attempts[id] else NewRow(e), e)]
  }

  predicate Opening(e: Event, k: int)
    requires TouchesAttempt(e)
  {
    && e.eventType.AttemptCreated? && k >= 0 && e.payload.ordinal == Some(k + 1) && e.payload.malformed == {}
    && e.attemptId.value == AttemptId(e.processId.value, k + 1) && e.checkpointId != Some("")
  }

  predicate Continuing(a: Attempt, e: Event)
    requires TouchesAttempt(e)
  {
    && e.processId.value == a.processId
    && (e.checkpointId.None? || e.checkpointId == a.checkpointId)
    && (e.payload.resumedFromAttemptId.None? || e.payload.resumedFromAttemptId == a.resumedFromAttemptId)
    && if e.eventType.AttemptStarted? then a.statusClass.NotStarted? && a.startedAt.None?
       else e.eventType.IsTerminalAttempt() && a.statusClass.Active?
  }

  /** The attempt events the protocol allows next. */
  ghost predicate AttemptAdmits(attempts: map<string, Attempt>, e: Event) {
    e.eventType.IsAttempt() ==>
      && TouchesAttempt(e)
      && e.status == Some(DefaultStatus(e.eventType)) && e.statusClass == Some(DefaultClass(e.eventType))
      && if e.attemptId.value in attempts then Continuing(attempts[e.attemptId.value], e)
         else exists k :: IsMaxOrdinal(attempts, e.processId.value, k) && Opening(e, k)
  }

  lemma SplitAtColon(prefix: string, digits: string, whole: string)
    requires whole == prefix + ":attempt:" + digits
    ensures |whole| == |prefix| + 9 + |digits| && whole[..|prefix|] == prefix
    ensures whole[|prefix| + 9..] == digits && whole[|prefix| + 8] == ':'
  {
  }

  /** Attempt ids do not collide: everything after the last colon is the ordinal. */
  lemma AttemptIdInjective(p: string, m: nat, q: string, n: nat)
    requires AttemptId(p, m) == AttemptId(q, n)
    ensures p == q && m == n
  {
    var whole, dm, dn := AttemptId(p, m), Digits(m), Digits(n);
    SplitAtColon(p, dm, whole);
    SplitAtColon(q, dn, whole);
    SameSplit(whole, |p| + 9, |q| + 9, dm, dn);
    DigitsInjective(m, n);
  }

  lemma SameSplit(whole: string, i: nat, j: nat, dm: string, dn: string)
    requires 0 < i <= |whole| && 0 < j <= |whole| && whole[i..] == dm && whole[j..] == dn
    requires whole[i - 1] == ':' && whole[j - 1] == ':'
    requires ':' !in dm && ':' !in dn
    ensures i == j
  {
    assert forall k | i <= k < |whole| :: whole[k] == dm[k - i];
    assert forall k | j <= k < |whole| :: whole[k] == dn[k - j];
  }

  /** With a right index, the largest ordinal of a process is the length of its id list. */
  lemma MaxOrdinalIsLength(x: AttemptIndex, runtimeId: string, p: string, k: int)
    requires AttemptIndexRight(x, runtimeId) && k >= 0
    ensures IsMaxOrdinal(x.byId, p, k) <==> k == if p in x.idsByProcess then |x.idsByProcess[p]| else 0
  {
    if p in x.idsByProcess {
      var ids := x.idsByProcess[p];
      var top := ids[|ids| - 1];
      assert top in x.byId && x.byId[top].processId == p && x.byId[top].ordinal == |ids|;
      forall id | id in x.byId && x.byId[id].processId == p ensures x.byId[id].ordinal <= |ids| {
        assert AttemptRowRight(x, runtimeId, id);
      }
    } else {
      forall id | id in x.byId ensures x.byId[id].processId != p { assert AttemptRowRight(x, runtimeId, id); }
    }
  }

  lemma AttemptsStep(log: seq<Event>, runtimeId: string, attempts: map<string, Attempt>, e: Event)
    requires AttemptsSynced(log, runtimeId, attempts)
    requires e.runtimeId == runtimeId && AttemptAdmits(attempts, e)
    ensures AttemptsSynced(log + [e], runtimeId, AttemptEffect(attempts, e))
  {
    assert (log + [e])[..|log + [e]| - 1] == log;
    var x := ReplayAttempts(log).value;
    if e.eventType.IsAttempt() {
      var id := e.attemptId.value;
      hide AttemptIndexRight, WithAttempt, AttemptEffect, AttemptRejected, Continuing;
      if id in attempts {
        ContinuingStep(x, runtimeId, e);
      } else {
        OpeningStep(x, runtimeId, e);
      }
    }
  }

  lemma ContinuingStep(x: AttemptIndex, runtimeId: string, e: Event)
    requires AttemptIndexRight(x, runtimeId) && AttemptAdmits(x.byId, e) && e.eventType.IsAttempt()
    requires e.attemptId.value in x.byId
    ensures !AttemptRejected(x, e) && AttemptIndexRight(WithAttempt(x, e), runtimeId)
    ensures WithAttempt(x, e).byId == AttemptEffect(x.byId, e)
  {
    var id := e.attemptId.value;
    hide AttemptIndexRight, AttemptAfter, UpdatedRow, Continuing, DefaultStatus, DefaultClass;
    ContinuingRow(x.byId[id], e);
    SameIdentity(x.byId[id], e);
    SameListsRight(x, runtimeId, id, AttemptAfter(x.byId[id], e));
    assert AttemptBefore(x, e) == x.byId[id];
  }

  /** A new row that keeps the identity of the old one leaves the index right. */
  lemma SameListsRight(x: AttemptIndex, runtimeId: string, id: string, row: Attempt)
    requires AttemptIndexRight(x, runtimeId) && id in x.byId
    requires row.attemptId == x.byId[id].attemptId && row.processId == x.byId[id].processId
    requires row.runtimeId == x.byId[id].runtimeId && row.ordinal == x.byId[id].ordinal
    ensures AttemptIndexRight(AttemptIndex(x.byId[id := row], x.idsByProcess), runtimeId)
  {
    hide AttemptRowRight;
    var y := AttemptIndex(x.byId[id := row], x.idsByProcess);
    forall p | p in y.idsByProcess ensures AttemptListRight(y, p) { assert AttemptListRight(x, p); }
    forall other | other in y.byId ensures AttemptRowRight(y, runtimeId, other) {
      SameRowRight(x, y, runtimeId, other);
    }
  }

  lemma SameRowRight(x: AttemptIndex, y: AttemptIndex, runtimeId: string, id: string)
    requires id in x.byId && id in y.byId && AttemptRowRight(x, runtimeId, id) && y.idsByProcess == x.idsByProcess
    requires y.byId[id].attemptId == x.byId[id].attemptId && y.byId[id].processId == x.byId[id].processId
    requires y.byId[id].runtimeId == x.byId[id].runtimeId && y.byId[id].ordinal == x.byId[id].ordinal
    ensures AttemptRowRight(y, runtimeId, id)
  {
    hide AttemptId;
  }

  lemma SameIdentity(a: Attempt, e: Event)
    requires e.eventType.IsAttempt()
    ensures var b := AttemptAfter(a, e);
      && b.attemptId == a.attemptId && b.processId == a.processId && b.runtimeId == a.runtimeId
      && b.ordinal == a.ordinal
  {
  }

  /** Both writers make the same row of an allowed later event. */
  lemma ContinuingRow(a: Attempt, e: Event)
    requires TouchesAttempt(e) && Continuing(a, e)
    requires e.status == Some(DefaultStatus(e.eventType)) && e.statusClass == Some(DefaultClass(e.eventType))
    ensures AttemptAfter(a, e) == UpdatedRow(a, e)
  {
  }

  /** Both writers make the same first row. */
  lemma OpeningRow(x: AttemptIndex, e: Event, k: int)
    requires TouchesAttempt(e) && Opening(e, k) && e.attemptId.value !in x.byId
    requires e.status == Some(DefaultStatus(e.eventType)) && e.statusClass == Some(DefaultClass(e.eventType))
    ensures !AttemptRejected(x, e)
    ensures AttemptAfter(AttemptBefore(x, e), e) == UpdatedRow(NewRow(e), e)
  {
  }

  lemma OpeningStep(x: AttemptIndex, runtimeId: string, e: Event)
    requires AttemptIndexRight(x, runtimeId) && e.runtimeId == runtimeId
    requires e.eventType.IsAttempt() && AttemptAdmits(x.byId, e) && e.attemptId.value !in x.byId
    ensures !AttemptRejected(x, e) && AttemptIndexRight(WithAttempt(x, e), runtimeId)
    ensures WithAttempt(x, e).byId == AttemptEffect(x.byId, e)
  {
    hide AttemptIndexRight;
    var p, id := e.processId.value, e.attemptId.value;
    var k :| IsMaxOrdinal(x.byId, p, k) && Opening(e, k);
    OpeningRow(x, e, k);
    MaxOrdinalIsLength(x, runtimeId, p, k);
    var row := UpdatedRow(NewRow(e), e);
    NewListRight(x, runtimeId, id, row, k);
    assert WithAttempt(x, e) == WithNewRow(x, id, row);
  }

  function WithNewRow(x: AttemptIndex, id: string, row: Attempt): AttemptIndex {
    var known := if row.processId in x.idsByProcess then x.idsByProcess[row.processId] else [];
    AttemptIndex(x.byId[id := row], x.idsByProcess[row.processId := known + [id]])
  }

  lemma NewListRight(x: AttemptIndex, runtimeId: string, id: string, row: Attempt, k: int)
    requires AttemptIndexRight(x, runtimeId) && id !in x.byId
    requires k == if row.processId in x.idsByProcess then |x.idsByProcess[row.processId]| else 0
    requires row.attemptId == id == AttemptId(row.processId, k + 1) && row.ordinal == k + 1
    requires row.runtimeId == runtimeId
    ensures AttemptIndexRight(WithNewRow(x, id, row), runtimeId)
  {
    hide AttemptId, AttemptRowRight;
    var y := WithNewRow(x, id, row);
    forall q | q in y.idsByProcess ensures AttemptListRight(y, q) {
      if q in x.idsByProcess { assert AttemptListRight(x, q); }
    }
    forall other | other in y.byId ensures AttemptRowRight(y, runtimeId, other) {
      NewRowRight(x, y, runtimeId, id, row, other);
    }
  }

  lemma NewRowRight(x: AttemptIndex, y: AttemptIndex, runtimeId: string, id: string, row: Attempt, other: string)
    requires id !in x.byId && y == WithNewRow(x, id, row) && other in y.byId
    requires other in x.byId ==> AttemptRowRight(x, runtimeId, other)
    requires var k := if row.processId in x.idsByProcess then |x.idsByProcess[row.processId]| else 0;
      row.ordinal == k + 1 && row.attemptId == id == AttemptId(row.processId, k + 1)
    requires row.runtimeId == runtimeId
    ensures AttemptRowRight(y, runtimeId, other)
  {
    hide AttemptId;
  }

  // ---------------------------------------------------------------- what the framework reducer can read

  function UnitsAfter(events: seq<Event>): UnitIndex {
    if events == [] then UnitIndex(map[], map[])
    else WithUnit(UnitsAfter(events[..|events| - 1]), events[|events| - 1])
  }

  /** No resource usage and no new unit's type in the log fails its validation. */
  predicate Readable(events: seq<Event>) {
    events == [] ||
    var init, last := events[..|events| - 1], events[|events| - 1];
    Readable(init) && !UsageRejected(last) && !UnitRejected(UnitsAfter(init), last)
  }

  /** An event that passes those validations after any log. */
  predicate Legible(e: Event) {
    !UsageRejected(e) && (ReportsUnit(e) && e.payload.unitType.Some? ==> e.payload.unitType.value.Text?)
  }

  lemma ReadableStep(log: seq<Event>, e: Event)
    ensures Readable(log + [e]) <==> Readable(log) && !UsageRejected(e) && !UnitRejected(UnitsAfter(log), e)
    ensures Readable(log) && Legible(e) ==> Readable(log + [e])
  {
    assert (log + [e])[..|log + [e]| - 1] == log;
  }

  // ---------------------------------------------------------------- commands against their replay

  ghost predicate CommandIndexRight(x: CommandIndex, runtimeId: string, bound: int) {
    && (forall i | 0 <= i < |x.order| :: x.order[i] in x.byId)
    && (forall i, j | 0 <= i < j < |x.order| ::
          x.byId[x.order[i]].firstEventSequence < x.byId[x.order[j]].firstEventSequence)
    && (forall id | id in x.byId ::
          && id in x.order && x.byId[id].commandId == id && x.byId[id].runtimeId == runtimeId
          && 0 <= x.byId[id].firstEventSequence < bound && x.byId[id].lastEventSequence < bound)
  }

  ghost predicate CommandsSynced(log: seq<Event>, runtimeId: string, commands: map<string, CommandRecord>) {
    && AllSequenced(log)
    && var r := ReplayCommands(log, runtimeId);
       r.Success? && r.value.byId == commands && CommandIndexRight(r.value, runtimeId, |log|)
  }

  function CommandEffect(commands: map<string, CommandRecord>, e: Event): map<string, CommandRecord> {
    if !e.eventType.IsCommand() || e.subjectId.None? || e.sequence.None? then commands
    else
      var id := e.subjectId.value;
      if e.eventType.CommandAccepted? then commands[id := AcceptedBy(e)]
      else if id in commands then commands[id := FinishedBy(commands[id], e)]
      else commands
  }

  predicate CommandAdmits(commands: map<string, CommandRecord>, e: Event) {
    e.eventType.IsCommand() ==>
      && e.subjectType == Some("command") && e.subjectId.Some?
      && if e.eventType.CommandAccepted?
         then e.subjectId.value !in commands && !Blank(e.subjectId.value) && !Blank(e.payload.commandType)
              && e.payload.malformed == {}
         else e.subjectId.value in commands && commands[e.subjectId.value].status.Accepted?
  }

  lemma CommandsStep(log: seq<Event>, runtimeId: string, commands: map<string, CommandRecord>, e: Event)
    requires CommandsSynced(log, runtimeId, commands) && Canonical(e, |log|, runtimeId)
    requires CommandAdmits(commands, e)
    ensures CommandsSynced(log + [e], runtimeId, CommandEffect(commands, e))
  {
    hide CommandIndexRight, AcceptedBy, FinishedBy, Blank;
    assert (log + [e])[..|log + [e]| - 1] == log;
    var x := ReplayCommands(log, runtimeId).value;
    if !e.eventType.IsCommand() {
      LaterBound(x, runtimeId, |log|);
    } else if e.eventType.CommandAccepted? {
      ReceiptOpened(x, runtimeId, e);
    } else {
      ReceiptFinished(x, runtimeId, e);
    }
  }

  lemma LaterBound(x: CommandIndex, runtimeId: string, bound: int)
    requires CommandIndexRight(x, runtimeId, bound)
    ensures CommandIndexRight(x, runtimeId, bound + 1)
  {
  }

  lemma ReceiptOpened(x: CommandIndex, runtimeId: string, e: Event)
    requires e.subjectId.Some? && e.sequence.Some? && e.sequence.value >= 0 && e.runtimeId == runtimeId
    requires CommandIndexRight(x, runtimeId, e.sequence.value) && e.subjectId.value !in x.byId
    ensures CommandIndexRight(CommandIndex(x.byId[e.subjectId.value := AcceptedBy(e)], x.order + [e.subjectId.value]),
                              runtimeId, e.sequence.value + 1)
  {
    var id := e.subjectId.value;
    var y := CommandIndex(x.byId[id := AcceptedBy(e)], x.order + [id]);
    forall i | 0 <= i < |x.order| ensures x.order[i] != id && y.byId[y.order[i]] == x.byId[x.order[i]] {
      assert x.order[i] in x.byId;
    }
    forall other | other in y.byId ensures other in y.order {
      if other != id { assert other in x.order; } else { assert y.order[|x.order|] == id; }
    }
  }

  lemma ReceiptFinished(x: CommandIndex, runtimeId: string, e: Event)
    requires e.subjectId.Some? && e.sequence.Some? && e.subjectId.value in x.byId
    requires CommandIndexRight(x, runtimeId, e.sequence.value)
    ensures CommandIndexRight(
      x.(byId := x.byId[e.subjectId.value := FinishedBy(x.byId[e.subjectId.value], e)]), runtimeId,
      e.sequence.value + 1)
  {
  }
}
