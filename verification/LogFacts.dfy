/** What acceptance by the monitor says about the positions of events in a log. */
module LogFacts {
  import opened RuntimeTypes
  import opened RuntimeProjections
  import opened LedgerReplay
  import opened DurableTables
  import opened StoreProtocol

  predicate Finished(s: Status) {
    s.Succeeded? || s.Failed? || s.Cancelled? || s.Interrupted?
  }

  function Progress(p: Phase): int {
    match p
    case Opened => 0
    case Begun => 1
    case Ended => 2
  }

  /** What can only grow as the log grows. */
  ghost predicate Later(m: Monitor, n: Monitor) {
    && (forall x | x in m.executions ::
          x in n.executions && (Finished(m.executions[x]) ==> n.executions[x] == m.executions[x]))
    && (forall a | a in m.attempts :: a in n.attempts && Progress(m.attempts[a]) <= Progress(n.attempts[a]))
    && (forall p | p in m.ordinals :: p in n.ordinals && m.ordinals[p] <= n.ordinals[p])
    && m.ended <= n.ended
    && (forall c | c in m.answered :: c in n.answered && (m.answered[c] ==> n.answered[c]))
  }

  lemma ObserveLater(m: Monitor, e: Event)
    requires Observe(m, e).Some?
    ensures Later(m, Observe(m, e).value)
  {
    hide AttemptId;
    if e.eventType.IsExecution() {
      hide ObserveAttempt, ObserveSession, ObserveCommand;
      assert Later(m, ObserveExecution(m, e).value);
    } else if e.eventType.IsAttempt() {
      hide ObserveExecution, ObserveSession, ObserveCommand;
      assert Later(m, ObserveAttempt(m, e).value);
    } else if e.eventType.IsSession() {
      hide ObserveExecution, ObserveAttempt, ObserveCommand;
      assert Later(m, ObserveSession(m, e).value);
    } else if e.eventType.IsCommand() {
      hide ObserveExecution, ObserveAttempt, ObserveSession;
      assert Later(m, ObserveCommand(m, e).value);
    }
  }

  lemma {:induction false} WatchPrefix(log: seq<Event>, k: nat)
    requires k <= |log| && Watch(log).Some?
    ensures Watch(log[..k]).Some? && Later(Watch(log[..k]).value, Watch(log).value)
    decreases |log|
  {
    if k < |log| {
      var init := log[..|log| - 1];
      assert init[..k] == log[..k];
      WatchPrefix(init, k);
      ObserveLater(Watch(init).value, log[|log| - 1]);
    } else {
      assert log[..k] == log;
    }
  }

  /** The monitor just before and just after position `i`. */
  lemma WatchAt(log: seq<Event>, i: nat)
    requires i < |log| && Watch(log).Some?
    ensures Watch(log[..i]).Some? && Observe(Watch(log[..i]).value, log[i]) == Watch(log[..i + 1])
    ensures Watch(log[..i + 1]).Some?
  {
    WatchPrefix(log, i);
    WatchPrefix(log, i + 1);
    assert log[..i + 1][..i] == log[..i];
  }

  lemma WatchBetween(log: seq<Event>, i: nat, j: nat)
    requires i < j < |log| && Watch(log).Some?
    ensures Watch(log[..i + 1]).Some? && Watch(log[..j]).Some?
    ensures Later(Watch(log[..i + 1]).value, Watch(log[..j]).value)
  {
    WatchPrefix(log, j);
    assert log[..j][..i + 1] == log[..i + 1];
    WatchPrefix(log[..j], i + 1);
  }

  // ---------------------------------------------------------------- executions

  /** Nothing of an execution follows its terminal event, and no execution is created twice. */
  lemma ExecutionHistory(log: seq<Event>, i: nat, j: nat)
    requires Watch(log).Some? && i < j < |log|
    requires log[i].eventType.IsExecution() && log[j].eventType.IsExecution()
    requires log[i].executionId == log[j].executionId
    ensures !log[j].eventType.ExecutionCreated?
    ensures log[i].eventType.ExecutionCreated? || log[i].eventType.ExecutionStarted?
    ensures AllowedTransition(if log[i].eventType.ExecutionCreated? then Pending else Running,
                              TransitionOf(log[j].eventType).value)
      || exists k | i < k < j :: log[k].eventType.IsExecution() && log[k].executionId == log[i].executionId
  {
    WatchAt(log, i);
    WatchAt(log, j);
    WatchBetween(log, i, j);
    var id := log[i].executionId.value;
    assert Finished(Watch(log[..i + 1]).value.executions[id]) ==>
      Watch(log[..j]).value.executions[id] == Watch(log[..i + 1]).value.executions[id];
    if forall k | i < k < j :: !(log[k].eventType.IsExecution() && log[k].executionId == log[i].executionId) {
      StatusStands(log, i + 1, j, id);
    }
  }

  /** Every execution the log speaks of was created in it. */
  lemma {:induction false} ExecutionsAreCreated(log: seq<Event>, id: string)
    requires Watch(log).Some? && id in Watch(log).value.executions
    ensures exists i | 0 <= i < |log| :: log[i].eventType.ExecutionCreated? && log[i].executionId == Some(id)
  {
    var init, e := log[..|log| - 1], log[|log| - 1];
    if id in Watch(init).value.executions {
      ExecutionsAreCreated(init, id);
      var i :| 0 <= i < |init| && init[i].eventType.ExecutionCreated? && init[i].executionId == Some(id);
      assert log[i] == init[i];
    } else {
      assert e.eventType.ExecutionCreated? && e.executionId == Some(id);
    }
  }

  /** The first lifecycle event of an execution is its creation. */
  lemma ExecutionBegins(log: seq<Event>, i: nat)
    requires Watch(log).Some? && i < |log| && log[i].eventType.IsExecution()
    ensures exists k | 0 <= k <= i :: log[k].eventType.ExecutionCreated? && log[k].executionId == log[i].executionId
  {
    WatchAt(log, i);
    if !log[i].eventType.ExecutionCreated? {
      ExecutionsAreCreated(log[..i], log[i].executionId.value);
      var k :| 0 <= k < i && log[..i][k].eventType.ExecutionCreated? && log[..i][k].executionId == log[i].executionId;
      assert log[k] == log[..i][k];
    }
  }

  lemma {:induction false} StatusStands(log: seq<Event>, i: nat, j: nat, id: string)
    requires Watch(log).Some? && i <= j <= |log| && Watch(log[..i]).Some? && id in Watch(log[..i]).value.executions
    requires forall k | i <= k < j :: !(log[k].eventType.IsExecution() && log[k].executionId == Some(id))
    ensures Watch(log[..j]).Some? && id in Watch(log[..j]).value.executions
    ensures Watch(log[..j]).value.executions[id] == Watch(log[..i]).value.executions[id]
    decreases j
  {
    hide Watch, Observe, Later;
    if i < j {
      StatusStands(log, i, j - 1, id);
      WatchAt(log, j - 1);
      StatusStep(Watch(log[..j - 1]).value, log[j - 1], id);
    }
  }

  lemma StatusStep(m: Monitor, e: Event, id: string)
    requires Observe(m, e).Some? && id in m.executions
    requires !(e.eventType.IsExecution() && e.executionId == Some(id))
    ensures id in Observe(m, e).value.executions && Observe(m, e).value.executions[id] == m.executions[id]
  {
  }

  /** The first execution of a lineage is initial and every later one continues it. */
  lemma ExecutionKinds(log: seq<Event>, i: nat)
    requires Watch(log).Some? && i < |log| && log[i].eventType.ExecutionCreated?
    ensures log[i].payload.kind.Initial? <==> forall k | 0 <= k < i :: !log[k].eventType.ExecutionCreated?
  {
    hide Watch, ObserveAttempt, ObserveSession, ObserveCommand;
    WatchAt(log, i);
    CreatedKeys(log[..i]);
  }

  lemma {:induction false} CreatedKeys(log: seq<Event>)
    requires Watch(log).Some?
    ensures Watch(log).value.executions == map[] <==> forall k | 0 <= k < |log| :: !log[k].eventType.ExecutionCreated?
  {
    if log != [] {
      var init, e := log[..|log| - 1], log[|log| - 1];
      CreatedKeys(init);
      assert forall k | 0 <= k < |init| :: init[k] == log[k];
      hide Observe;
      KeysStep(Watch(init).value, e);
    }
  }

  lemma KeysStep(m: Monitor, e: Event)
    requires Observe(m, e).Some?
    ensures Observe(m, e).value.executions == map[] <==> m.executions == map[] && !e.eventType.ExecutionCreated?
  {
    hide ObserveAttempt, ObserveSession, ObserveCommand;
    MonitorFrames(m, e);
    if e.eventType.IsExecution() {
      var n := ObserveExecution(m, e).value;
      assert e.executionId.value in n.executions;
    }
  }

  // ---------------------------------------------------------------- attempts

  /** Two events of one attempt come in the order created, started, terminal, each at most once. */
  lemma AttemptHistory(log: seq<Event>, i: nat, j: nat)
    requires Watch(log).Some? && i < j < |log|
    requires log[i].eventType.IsAttempt() && log[j].eventType.IsAttempt() && log[i].attemptId == log[j].attemptId
    ensures !log[j].eventType.AttemptCreated? && !log[i].eventType.IsTerminalAttempt()
    ensures log[i].eventType.AttemptStarted? ==> log[j].eventType.IsTerminalAttempt()
  {
    hide Watch, AttemptId, ObserveExecution, ObserveSession, ObserveCommand, DefaultStatus, DefaultClass;
    WatchAt(log, i);
    WatchAt(log, j);
    WatchBetween(log, i, j);
  }

  /** Ordinals of a process count 1, 2, 3, ... in log order, and the id is made from them. */
  lemma AttemptOrdinals(log: seq<Event>, i: nat)
    requires Watch(log).Some? && i < |log| && log[i].eventType.AttemptCreated?
    ensures TouchesAttempt(log[i])
    ensures log[i].payload.ordinal == Some(Opens(log[..i], log[i].processId.value) + 1)
    ensures log[i].attemptId == Some(AttemptId(log[i].processId.value, Opens(log[..i], log[i].processId.value) + 1))
  {
    hide Watch, Opens, AttemptId, ObserveExecution, ObserveSession, ObserveCommand;
    WatchAt(log, i);
    OpensCounted(log[..i], log[i].processId.value);
  }

  function Opens(log: seq<Event>, process: string): nat {
    if log == [] then 0
    else
      Opens(log[..|log| - 1], process) +
      (if log[|log| - 1].eventType.AttemptCreated? && log[|log| - 1].processId == Some(process) then 1 else 0)
  }

  lemma OrdinalsStep(m: Monitor, e: Event, process: string)
    requires Observe(m, e).Some?
    ensures var before: nat := if process in m.ordinals then m.ordinals[process] else 0;
      var n := Observe(m, e).value.ordinals;
      var later: nat := if process in n then n[process] else 0;
      later == before + if e.eventType.AttemptCreated? && e.processId == Some(process) then 1 else 0
  {
    hide ObserveExecution, ObserveSession, ObserveCommand, AttemptId;
    MonitorFrames(m, e);
  }

  lemma {:induction false} OpensCounted(log: seq<Event>, process: string)
    requires Watch(log).Some?
    ensures Opens(log, process) ==
      if process in Watch(log).value.ordinals then Watch(log).value.ordinals[process] else 0
  {
    if log != [] {
      var init, e := log[..|log| - 1], log[|log| - 1];
      OpensCounted(init, process);
      hide Observe;
      OrdinalsStep(Watch(init).value, e, process);
    }
  }

  /** Position `i` creates the attempt, in an execution that is unfinished then. */
  predicate OpensAt(log: seq<Event>, i: nat, id: string)
    requires i < |log|
  {
    && log[i].eventType.AttemptCreated? && log[i].attemptId == Some(id) && log[i].executionId.Some?
    && var m := Watch(log[..i]);
       m.Some? && log[i].executionId.value in m.value.executions
       && Unfinished(m.value.executions[log[i].executionId.value])
  }

  predicate BeginsAt(log: seq<Event>, i: nat, id: string)
    requires i < |log|
  {
    log[i].eventType.AttemptStarted? && log[i].attemptId == Some(id)
  }

  lemma AttemptPhaseStep(m: Monitor, e: Event, id: string)
    requires Observe(m, e).Some? && id in Observe(m, e).value.attempts
    ensures id !in m.attempts ==>
      && e.eventType.AttemptCreated? && e.attemptId == Some(id) && Observe(m, e).value.attempts[id].Opened?
      && e.executionId.Some? && e.executionId.value in m.executions && Unfinished(m.executions[e.executionId.value])
    ensures id in m.attempts && m.attempts[id].Opened? && !Observe(m, e).value.attempts[id].Opened? ==>
      e.eventType.AttemptStarted? && e.attemptId == Some(id)
  {
    hide ObserveExecution, ObserveSession, ObserveCommand, AttemptId;
    MonitorFrames(m, e);
  }

  /** A started or ended attempt was created, in an execution that was unfinished then, and was started
      unless it is merely created. */
  lemma {:induction false} AttemptsAreOpened(log: seq<Event>, id: string)
    requires Watch(log).Some? && id in Watch(log).value.attempts
    ensures exists i | 0 <= i < |log| :: OpensAt(log, i, id)
    ensures !Watch(log).value.attempts[id].Opened? ==> exists i | 0 <= i < |log| :: BeginsAt(log, i, id)
  {
    hide Observe;
    AttemptPhaseStep(Watch(log[..|log| - 1]).value, log[|log| - 1], id);
    var init, e := log[..|log| - 1], log[|log| - 1];
    if id in Watch(init).value.attempts {
      AttemptsAreOpened(init, id);
      var i :| 0 <= i < |init| && OpensAt(init, i, id);
      assert log[..i] == init[..i];
      assert OpensAt(log, i, id);
      if !Watch(init).value.attempts[id].Opened? {
        var j :| 0 <= j < |init| && BeginsAt(init, j, id);
        assert BeginsAt(log, j, id);
      } else if !Watch(log).value.attempts[id].Opened? {
        assert BeginsAt(log, |init|, id);
      }
    } else {
      assert OpensAt(log, |init|, id);
    }
  }

  /** The first event of an attempt creates it, and one that ended was started before. */
  lemma AttemptBegins(log: seq<Event>, i: nat)
    requires Watch(log).Some? && i < |log| && log[i].eventType.IsAttempt()
    ensures log[i].attemptId.Some?
    ensures exists k | 0 <= k <= i :: OpensAt(log, k, log[i].attemptId.value)
    ensures log[i].eventType.IsTerminalAttempt() ==> exists k | 0 <= k < i :: BeginsAt(log, k, log[i].attemptId.value)
  {
    hide Watch, AttemptId, DefaultStatus, DefaultClass;
    WatchAt(log, i);
    var id := log[i].attemptId.value;
    if log[i].eventType.AttemptCreated? {
      assert OpensAt(log, i, id);
    } else {
      AttemptsAreOpened(log[..i], id);
      var k :| 0 <= k < i && OpensAt(log[..i], k, id);
      assert log[..i][..k] == log[..k];
      assert OpensAt(log, k, id);
      if log[i].eventType.IsTerminalAttempt() {
        var j :| 0 <= j < i && BeginsAt(log[..i], j, id);
        assert BeginsAt(log, j, id);
      }
    }
  }

  // ---------------------------------------------------------------- commands

  /** Exactly once: one acceptance, then at most one answer, and never an answer first. */
  lemma CommandHistory(log: seq<Event>, i: nat, j: nat)
    requires Watch(log).Some? && i < j < |log|
    requires log[i].eventType.IsCommand() && log[j].eventType.IsCommand() && log[i].subjectId == log[j].subjectId
    ensures log[i].eventType.CommandAccepted? && !log[j].eventType.CommandAccepted?
  {
    hide Watch, ObserveExecution, ObserveSession, ObserveAttempt;
    WatchAt(log, i);
    WatchAt(log, j);
    WatchBetween(log, i, j);
  }

  lemma {:induction false} AnswersAreAccepted(log: seq<Event>, id: string)
    requires Watch(log).Some? && id in Watch(log).value.answered
    ensures exists i | 0 <= i < |log| :: log[i].eventType.CommandAccepted? && log[i].subjectId == Some(id)
  {
    var init, e := log[..|log| - 1], log[|log| - 1];
    if id in Watch(init).value.answered {
      AnswersAreAccepted(init, id);
      var i :| 0 <= i < |init| && init[i].eventType.CommandAccepted? && init[i].subjectId == Some(id);
      assert log[i] == init[i];
    } else {
      assert e.eventType.CommandAccepted? && e.subjectId == Some(id);
    }
  }

  /** The first event of a command is its acceptance. */
  lemma CommandBegins(log: seq<Event>, i: nat)
    requires Watch(log).Some? && i < |log| && log[i].eventType.IsCommand()
    ensures exists k | 0 <= k <= i :: log[k].eventType.CommandAccepted? && log[k].subjectId == log[i].subjectId
  {
    WatchAt(log, i);
    if !log[i].eventType.CommandAccepted? {
      AnswersAreAccepted(log[..i], log[i].subjectId.value);
      var k :| 0 <= k < i && log[..i][k].eventType.CommandAccepted? && log[..i][k].subjectId == log[i].subjectId;
      assert log[k] == log[..i][k];
    }
  }

  // ---------------------------------------------------------------- sessions

  predicate EndsSession(e: Event, id: string) {
    (e.eventType.SessionReleased? || e.eventType.SessionExpired?) && e.subjectId == Some(id)
  }

  lemma {:induction false} OwnerStands(log: seq<Event>, i: nat, j: nat, id: string)
    requires Watch(log).Some? && i <= j <= |log| && Watch(log[..i]).Some? && Watch(log[..i]).value.owner == Some(id)
    requires forall k | i <= k < j :: !EndsSession(log[k], id)
    ensures Watch(log[..j]).Some? && Watch(log[..j]).value.owner == Some(id)
    decreases j
  {
    hide Watch, Observe, Later;
    if i < j {
      OwnerStands(log, i, j - 1, id);
      WatchAt(log, j - 1);
      OwnerStep(Watch(log[..j - 1]).value, log[j - 1], id);
    }
  }

  lemma OwnerStep(m: Monitor, e: Event, id: string)
    requires Observe(m, e).Some? && m.owner == Some(id) && !EndsSession(e, id)
    ensures Observe(m, e).value.owner == Some(id)
  {
    hide ObserveExecution, ObserveAttempt, ObserveCommand;
    MonitorFrames(m, e);
  }

  /** Leases never overlap: between two acquisitions the first session ends. */
  lemma LeasesDoNotOverlap(log: seq<Event>, i: nat, j: nat)
    requires Watch(log).Some? && i < j < |log|
    requires log[i].eventType.SessionAcquired? && log[j].eventType.SessionAcquired?
    ensures log[i].subjectId.Some?
    ensures exists k | i < k < j :: EndsSession(log[k], log[i].subjectId.value)
  {
    WatchAt(log, i);
    WatchAt(log, j);
    var id := log[i].subjectId.value;
    if forall k | i < k < j :: !EndsSession(log[k], id) {
      OwnerStands(log, i + 1, j, id);
    }
  }

  /** A session that ended never appears in the log again. */
  lemma EndedForGood(log: seq<Event>, i: nat, j: nat, id: string)
    requires Watch(log).Some? && i < j < |log| && EndsSession(log[i], id)
    ensures !(log[j].eventType.IsSession() && log[j].subjectId == Some(id))
  {
    hide Watch, ObserveExecution, ObserveCommand, ObserveAttempt;
    WatchAt(log, i);
    WatchAt(log, j);
    WatchBetween(log, i, j);
    OwnerNotEnded(log[..j]);
  }

  lemma {:induction false} OwnerNotEnded(log: seq<Event>)
    requires Watch(log).Some?
    ensures var m := Watch(log).value; m.owner.Some? ==> m.owner.value !in m.ended
  {
    if log != [] {
      OwnerNotEnded(log[..|log| - 1]);
      hide ObserveExecution, ObserveAttempt, ObserveCommand;
      MonitorFrames(Watch(log[..|log| - 1]).value, log[|log| - 1]);
    }
  }

  /** A session is displaced no earlier than the expiry of its last acquisition or renewal. */
  lemma DisplacedAfterExpiry(log: seq<Event>, i: nat, j: nat)
    requires Watch(log).Some? && i < j < |log|
    requires log[i].eventType.SessionAcquired? || log[i].eventType.SessionRenewed?
    requires log[j].eventType.SessionExpired? && log[i].subjectId == log[j].subjectId
    requires forall k | i < k < j :: !log[k].eventType.SessionRenewed?
    ensures log[i].payload.expiresAt <= log[j].timestamp
  {
    hide Watch, ObserveExecution, ObserveCommand, ObserveAttempt;
    WatchAt(log, i);
    WatchAt(log, j);
    var id := log[i].subjectId.value;
    LeaseStands(log, i + 1, j, id);
  }

  lemma LeaseStep(m: Monitor, e: Event, id: string)
    requires Observe(m, e).Some? && !e.eventType.SessionRenewed? && (m.owner == Some(id) || id in m.ended)
    requires m.owner.Some? ==> m.owner.value !in m.ended
    ensures var n := Observe(m, e).value;
      && (m.owner == Some(id) && n.owner == Some(id) ==> n.lease == m.lease)
      && (m.owner == Some(id) && n.owner != Some(id) ==> id in n.ended)
      && (m.owner != Some(id) ==> n.owner != Some(id) && id in n.ended)
  {
  }

  lemma {:induction false} LeaseStands(log: seq<Event>, i: nat, j: nat, id: string)
    requires Watch(log).Some? && i <= j <= |log| && Watch(log[..i]).Some? && Watch(log[..i]).value.owner == Some(id)
    requires forall k | i <= k < j :: !log[k].eventType.SessionRenewed?
    ensures Watch(log[..j]).Some?
    ensures Watch(log[..j]).value.owner == Some(id) ==> Watch(log[..j]).value.lease == Watch(log[..i]).value.lease
    ensures Watch(log[..j]).value.owner != Some(id) ==> id in Watch(log[..j]).value.ended
    decreases j
  {
    hide Watch, Observe;
    if i < j {
      LeaseStands(log, i, j - 1, id);
      WatchAt(log, j - 1);
      OwnerNotEnded(log[..j - 1]);
      LeaseStep(Watch(log[..j - 1]).value, log[j - 1], id);
    }
  }

  /** The lease owner has acquired. */
  lemma {:induction false} OwnerAcquired(log: seq<Event>)
    requires Watch(log).Some? && Watch(log).value.owner.Some?
    ensures exists i | 0 <= i < |log| :: log[i].eventType.SessionAcquired? && log[i].subjectId == Watch(log).value.owner
  {
    var init, e := log[..|log| - 1], log[|log| - 1];
    var owner := Watch(log).value.owner;
    hide ObserveExecution, ObserveAttempt, ObserveCommand;
    MonitorFrames(Watch(init).value, e);
    if e.eventType.SessionAcquired? {
      assert log[|init|].subjectId == owner;
    } else {
      OwnerAcquired(init);
      var i :| 0 <= i < |init| && init[i].eventType.SessionAcquired? && init[i].subjectId == owner;
      assert log[i] == init[i];
    }
  }

  /** The first event of a session is its acquisition. */
  lemma SessionBegins(log: seq<Event>, i: nat)
    requires Watch(log).Some? && i < |log| && log[i].eventType.IsSession()
    ensures exists k | 0 <= k <= i :: log[k].eventType.SessionAcquired? && log[k].subjectId == log[i].subjectId
  {
    WatchAt(log, i);
    if !log[i].eventType.SessionAcquired? {
      OwnerAcquired(log[..i]);
      var k :| 0 <= k < i && log[..i][k].eventType.SessionAcquired? && log[..i][k].subjectId == log[i].subjectId;
      assert log[k] == log[..i][k];
    }
  }
}
