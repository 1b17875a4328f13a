/** Commands over whole runs: a receipt, once stored, answers every later repeat. */
module CommandRuns {
  import opened RuntimeTypes
  import opened RuntimeProjections
  import opened LedgerReplay
  import opened DurableTables
  import opened StoreProtocol
  import opened StoreRuns

  /** A receipt either stands as it was, or has since been answered once. */
  predicate ReceiptLater(r: CommandRecord, s: CommandRecord) {
    s == r ||
    (r.status.Accepted? && !s.status.Accepted? &&
     s == r.(status := s.status, finishedAt := s.finishedAt, lastEventSequence := s.lastEventSequence,
             result := s.result, error := s.error))
  }

  ghost predicate ReceiptsLater(before: map<string, CommandRecord>, after: map<string, CommandRecord>) {
    forall c | c in before :: c in after && ReceiptLater(before[c], after[c])
  }

  /** The monitor's answers are the statuses of the replayed receipts. */
  lemma {:induction false} ReceiptsMirror(log: seq<Event>, runtimeId: string)
    requires AllSequenced(log) && Watch(log).Some? && ReplayCommands(log, runtimeId).Success?
    ensures CommandsMatch(Watch(log).value, ReplayCommands(log, runtimeId).value.byId)
  {
    hide Observe, ReplayCommand;
    if log != [] {
      hide CommandsMatch;
      var init, e := log[..|log| - 1], log[|log| - 1];
      ReceiptsMirror(init, runtimeId);
      ReceiptMirrors(Watch(init).value, ReplayCommands(init, runtimeId).value, e, runtimeId);
    }
  }

  lemma ReceiptMirrors(m: Monitor, x: CommandIndex, e: Event, runtimeId: string)
    requires CommandsMatch(m, x.byId) && e.sequence.Some?
    requires Observe(m, e).Some? && ReplayCommand(x, e, runtimeId).Success?
    ensures CommandsMatch(Observe(m, e).value, ReplayCommand(x, e, runtimeId).value.byId)
  {
    hide ObserveExecution, ObserveAttempt, ObserveSession, CommandMalformed, Blank;
    MonitorFrames(m, e);
  }

  lemma {:induction false} ReceiptsGrow(log: seq<Event>, k: nat, runtimeId: string)
    requires AllSequenced(log) && Watch(log).Some? && ReplayCommands(log, runtimeId).Success? && k <= |log|
    ensures ReplayCommands(log[..k], runtimeId).Success?
    ensures ReceiptsLater(ReplayCommands(log[..k], runtimeId).value.byId, ReplayCommands(log, runtimeId).value.byId)
    decreases |log|
  {
    hide ObserveExecution, ObserveAttempt, ObserveSession;
    if k < |log| {
      var init, e := log[..|log| - 1], log[|log| - 1];
      assert init[..k] == log[..k];
      ReceiptsGrow(init, k, runtimeId);
      ReceiptsMirror(init, runtimeId);
    } else {
      assert log[..k] == log;
    }
  }

  lemma GoodReceipts(db: Db)
    requires Good(db)
    ensures AllSequenced(db.log) && Watch(db.log).Some? && ReplayCommands(db.log, db.identity.runtimeId).Success?
    ensures ReplayCommands(db.log, db.identity.runtimeId).value.byId == db.commands
  {
  }

  /** Whatever runs in between, a stored receipt is never lost, and never changes once answered. */
  lemma ReceiptsStand(identity: Identity, ops: seq<Op>, k: nat, policy: Policy)
    requires DisciplinedRun(EmptyDb(identity), ops, policy) && k <= |ops|
    ensures ReceiptsLater(Run(EmptyDb(identity), ops[..k], policy).commands,
                          Run(EmptyDb(identity), ops, policy).commands)
  {
    hide Good, Run, DisciplinedRun, ProjectionRight;
    var start := EmptyDb(identity);
    assert ops[..k] + ops[k..] == ops;
    RunContinues(identity, ops[..k], ops[k..], policy);
    RunGood(identity, ops, policy);
    RunGood(identity, ops[..k], policy);
    var db, later := Run(start, ops[..k], policy), Run(start, ops, policy);
    GoodReceipts(db);
    GoodReceipts(later);
    ReceiptsGrow(later.log, |db.log|, identity.runtimeId);
    assert later.log[..|db.log|] == db.log;
  }

  /** Exactly once over any interleaving: after a committed reservation, a repeat of the same request
      commits nothing new and returns the stored receipt, and any other request under the id is refused. */
  lemma ReservedOnce(
    identity: Identity, ops: seq<Op>, k: nat, policy: Policy, commandType: string, timestamp: Time,
    targetId: Option<string>, about: Option<string>, backendSessionId: Option<string>, request: Json, metadata: Json)
    requires DisciplinedRun(EmptyDb(identity), ops, policy) && k < |ops| && ops[k].Reserve?
    requires Commit(Run(EmptyDb(identity), ops[..k], policy), ops[k], policy).Some?
    ensures var db := Run(EmptyDb(identity), ops, policy);
      && var c := ops[k].commandId;
      && c in db.commands
      && ReserveCommand(db, c, commandType, timestamp, targetId, about, backendSessionId, request, metadata) ==
         if commandType == ops[k].commandType && targetId == ops[k].targetId && about == ops[k].about
            && request == ops[k].request
         then Success((db, Reservation(db.commands[c], false))) else Failure(CommandConflict)
  {
    hide Commit, DisciplinedRun;
    var start := EmptyDb(identity);
    var db := Run(start, ops[..k], policy);
    var op := ops[k];
    assert ops[..k + 1][..k] == ops[..k] && ops[..k + 1][k] == op;
    assert Run(start, ops[..k + 1], policy) == Perform(db, op, policy);
    hide Run;
    ReservedReceipt(db, op, policy);
    ReceiptsStand(identity, ops, k + 1, policy);
  }

  /** A stored receipt carries the fingerprint of the request that made it. */
  lemma ReservedReceipt(db: Db, op: Op, policy: Policy)
    requires op.Reserve? && Commit(db, op, policy).Some?
    ensures var after := Commit(db, op, policy).value;
      && op.commandId in after.commands
      && after.commands[op.commandId].fingerprint == Fingerprint(op.commandType, op.targetId, op.about, op.request)
  {
    hide AppendEvent;
  }

  /** An answer is final: the same answer repeats, any other is refused, whatever ran in between. */
  lemma FinishedOnce(
    identity: Identity, ops: seq<Op>, k: nat, policy: Policy, outcome: CommandStatus, timestamp: Time,
    result: Json, error: Option<ErrorInfo>)
    requires DisciplinedRun(EmptyDb(identity), ops, policy) && k < |ops| && ops[k].Finish?
    requires Commit(Run(EmptyDb(identity), ops[..k], policy), ops[k], policy).Some?
    ensures var db := Run(EmptyDb(identity), ops, policy);
      && var c := ops[k].commandId;
      && c in db.commands
      && FinishCommand(db, c, outcome, timestamp, result, error) ==
         if outcome.Accepted? then Failure(NotTerminalStatus)
         else if (outcome, result, error) == (ops[k].outcome, ops[k].outcomeResult, ops[k].error)
         then Success((db, db.commands[c])) else Failure(CommandConflict)
  {
    var start := EmptyDb(identity);
    var db := Run(start, ops[..k], policy);
    var op := ops[k];
    assert ops[..k + 1][..k] == ops[..k] && ops[..k + 1][k] == op;
    assert Run(start, ops[..k + 1], policy) == Perform(db, op, policy);
    FinishedReceipt(db, op, policy);
    ReceiptsStand(identity, ops, k + 1, policy);
  }

  lemma FinishedReceipt(db: Db, op: Op, policy: Policy)
    requires op.Finish? && Commit(db, op, policy).Some?
    ensures var after := Commit(db, op, policy).value;
      && op.commandId in after.commands
      && var r := after.commands[op.commandId];
         !r.status.Accepted? && r.status == op.outcome && r.result == op.outcomeResult && r.error == op.error
  {
    hide AppendEvent;
  }
}
