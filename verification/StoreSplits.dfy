/** Rebuilds that read the log in one transaction and replace the rows in another: what a commit in
    between loses, exactly. */
module StoreSplits {
  import opened RuntimeTypes
  import opened RuntimeProjections
  import opened LedgerReplay
  import opened DurableTables
  import opened StoreInvariant
  import opened StoreProtocol
  import opened StoreExactness
  import LedgerProofs

  // ---------------------------------------------------------------- the last events of rows

  type Stamps = map<string, Option<int>>

  function ExecutionStamps(rows: map<string, ExecutionRecord>): Stamps {
    map id | id in rows :: rows[id].lastEventSequence
  }

  function AttemptStamps(rows: map<string, Attempt>): Stamps {
    map id | id in rows :: rows[id].lastEventSequence
  }

  function ReceiptStamps(rows: map<string, CommandRecord>): Stamps {
    map id | id in rows :: Some(rows[id].lastEventSequence)
  }

  /** Some row saw an event from `k` on. */
  predicate Late(stamps: Stamps, k: int) {
    exists id | id in stamps :: stamps[id].Some? && stamps[id].value >= k
  }

  lemma StampedLate(stamps: Stamps, id: string, n: int, k: int)
    ensures n >= k ==> Late(stamps[id := Some(n)], k)
    ensures Late(stamps, k) && n >= k ==> Late(stamps[id := Some(n)], k)
    ensures !Late(stamps, k) && n < k ==> !Late(stamps[id := Some(n)], k)
  {
    if n >= k { assert stamps[id := Some(n)][id] == Some(n); }
  }

  // ---------------------------------------------------------------- executions along a log

  /** No event from `k` on names an execution. */
  predicate NoExecution(log: seq<Event>, k: nat) {
    forall i | k <= i < |log| :: log[i].executionId.None?
  }

  lemma ExecutionStamped(x: ExecutionIndex, e: Event, runtimeId: string)
    requires ReplayExecution(x, e, runtimeId).Success?
    ensures var y := ReplayExecution(x, e, runtimeId).value;
      && (e.executionId.None? ==> y == x)
      && (e.executionId.Some? ==>
            ExecutionStamps(y.byId) == ExecutionStamps(x.byId)[e.executionId.value := e.sequence])
  {
  }

  /** Every event that names an execution leaves its sequence in the row. */
  lemma {:induction false} ExecutionsMarked(log: seq<Event>, k: nat, runtimeId: string)
    requires Dense(log, runtimeId) && k <= |log| && ReplayExecutions(log, runtimeId).Success?
    ensures ReplayExecutions(log[..k], runtimeId).Success?
    ensures NoExecution(log, k) ==>
      ReplayExecutions(log, runtimeId).value.byId == ReplayExecutions(log[..k], runtimeId).value.byId
    ensures Late(ExecutionStamps(ReplayExecutions(log, runtimeId).value.byId), k) <==> !NoExecution(log, k)
    decreases |log|
  {
    if log != [] {
      var init, last := log[..|log| - 1], log[|log| - 1];
      ExecutionsMarked(init, if k < |log| then k else |init|, runtimeId);
      var x := ReplayExecutions(init, runtimeId).value;
      hide ExecutionStamps, Late, ReplayExecution;
      ExecutionStamped(x, last, runtimeId);
      if last.executionId.Some? {
        StampedLate(ExecutionStamps(x.byId), last.executionId.value, |log| - 1, k);
      }
      if k < |log| {
        assert init[..k] == log[..k];
        assert NoExecution(log, k) <==> NoExecution(init, k) && last.executionId.None?;
      } else {
        assert log[..k] == log;
      }
    }
  }

  // ---------------------------------------------------------------- attempts along a log

  predicate NoAttempt(log: seq<Event>, k: nat) {
    forall i | k <= i < |log| :: !TouchesAttempt(log[i])
  }

  lemma AttemptStamped(x: AttemptIndex, e: Event)
    ensures TouchesAttempt(e) ==>
      AttemptStamps(WithAttempt(x, e).byId) == AttemptStamps(x.byId)[e.attemptId.value := e.sequence]
  {
  }

  lemma {:induction false} AttemptsMarked(log: seq<Event>, k: nat, runtimeId: string)
    requires Dense(log, runtimeId) && k <= |log| && ReplayAttempts(log).Success?
    ensures ReplayAttempts(log[..k]).Success?
    ensures NoAttempt(log, k) ==> ReplayAttempts(log).value.byId == ReplayAttempts(log[..k]).value.byId
    ensures Late(AttemptStamps(ReplayAttempts(log).value.byId), k) <==> !NoAttempt(log, k)
    decreases |log|
  {
    if log != [] {
      var init, last := log[..|log| - 1], log[|log| - 1];
      AttemptsMarked(init, if k < |log| then k else |init|, runtimeId);
      var x := ReplayAttempts(init).value;
      assert !TouchesAttempt(last) ==> WithAttempt(x, last) == x;
      hide AttemptStamps, Late, WithAttempt, AttemptRejected, TouchesAttempt;
      AttemptStamped(x, last);
      if TouchesAttempt(last) {
        StampedLate(AttemptStamps(x.byId), last.attemptId.value, |log| - 1, k);
      }
      if k < |log| {
        assert init[..k] == log[..k];
        assert NoAttempt(log, k) <==> NoAttempt(init, k) && !TouchesAttempt(last);
      } else {
        assert log[..k] == log;
      }
    }
  }

  // ---------------------------------------------------------------- receipts along a log

  predicate NoCommand(log: seq<Event>, k: nat) {
    forall i | k <= i < |log| :: !log[i].eventType.IsCommand()
  }

  lemma ReceiptStamped(x: CommandIndex, e: Event, runtimeId: string)
    requires e.sequence.Some? && ReplayCommand(x, e, runtimeId).Success?
    ensures var y := ReplayCommand(x, e, runtimeId).value;
      && (!e.eventType.IsCommand() ==> y == x)
      && (e.eventType.IsCommand() ==>
            e.subjectId.Some? && ReceiptStamps(y.byId) == ReceiptStamps(x.byId)[e.subjectId.value := e.sequence])
  {
    hide Blank;
  }

  lemma {:induction false} ReceiptsMarked(log: seq<Event>, k: nat, runtimeId: string)
    requires Dense(log, runtimeId) && AllSequenced(log) && k <= |log| && ReplayCommands(log, runtimeId).Success?
    ensures AllSequenced(log[..k]) && ReplayCommands(log[..k], runtimeId).Success?
    ensures NoCommand(log, k) ==>
      ReplayCommands(log, runtimeId).value.byId == ReplayCommands(log[..k], runtimeId).value.byId
    ensures Late(ReceiptStamps(ReplayCommands(log, runtimeId).value.byId), k) <==> !NoCommand(log, k)
    decreases |log|
  {
    if log != [] {
      var init, last := log[..|log| - 1], log[|log| - 1];
      ReceiptsMarked(init, if k < |log| then k else |init|, runtimeId);
      var x := ReplayCommands(init, runtimeId).value;
      hide ReceiptStamps, Late, ReplayCommand;
      ReceiptStamped(x, last, runtimeId);
      if last.eventType.IsCommand() {
        StampedLate(ReceiptStamps(x.byId), last.subjectId.value, |log| - 1, k);
      }
      if k < |log| {
        assert init[..k] == log[..k];
        assert NoCommand(log, k) <==> NoCommand(init, k) && !last.eventType.IsCommand();
      } else {
        assert log[..k] == log;
      }
    }
  }

  // ---------------------------------------------------------------- two databases of one run

  /** What lies between two databases of a run shows in their tables. */
  lemma TablesMoved(db: Db, later: Db)
    requires Good(db) && Good(later) && later.identity == db.identity && db.log <= later.log
    ensures later.executions == db.executions <==> NoExecution(later.log, |db.log|)
    ensures later.attempts == db.attempts <==> NoAttempt(later.log, |db.log|)
    ensures later.commands == db.commands <==> NoCommand(later.log, |db.log|)
  {
    hide Observed, Linked, Settled, Readable, ExecutionIndexRight, AttemptIndexRight, CommandIndexRight;
    hide ReplayExecutions, ReplayAttempts, ReplayCommands, NoExecution, NoAttempt, NoCommand, Late, Dense;
    hide AllSequenced, ExecutionStamps, AttemptStamps, ReceiptStamps;
    var rid, n := db.identity.runtimeId, |db.log|;
    assert later.log[..n] == db.log && db.log[..n] == db.log;
    ExecutionsMarked(later.log, n, rid);
    ExecutionsMarked(db.log, n, rid);
    AttemptsMarked(later.log, n, rid);
    AttemptsMarked(db.log, n, rid);
    ReceiptsMarked(later.log, n, rid);
    ReceiptsMarked(db.log, n, rid);
    assert NoExecution(db.log, n) && NoAttempt(db.log, n) && NoCommand(db.log, n) by { NothingPast(db.log); }
  }

  lemma NothingPast(log: seq<Event>)
    ensures NoExecution(log, |log|) && NoAttempt(log, |log|) && NoCommand(log, |log|)
  {
  }

  // ---------------------------------------------------------------- rebuilds that are not one step

  /** Main result for rebuilds: rows rebuilt from an earlier reading of the log equal their replay exactly
      when nothing appended since names an execution or an attempt. */
  lemma SplitRebuildExact(db: Db, later: Db)
    requires Good(db) && Good(later) && later.identity == db.identity && db.log <= later.log
    ensures RebuildLedger(db).Success?
    ensures LedgerAgrees(WithLedgerRows(later, RebuildLedger(db).value.1)) <==>
      forall i | |db.log| <= i < |later.log| :: later.log[i].executionId.None? && !TouchesAttempt(later.log[i])
  {
    hide Observed, Linked, Settled, RebuildLedger, LedgerAgrees, TouchesAttempt, CommandsSynced;
    hide ReplayExecutions, ReplayAttempts, Readable, AttemptIndexRight, ExecutionIndexRight, LedgerProofs.ListsRight;
    TablesMoved(db, later);
    LedgerProofs.AttemptsAreReplayed(db);
    LedgerProofs.LedgerIsReplay(db);
    var written := WithLedgerRows(later, RebuildLedger(db).value.1);
    assert written == later.(executions := db.executions, attempts := db.attempts);
    if LedgerAgrees(written) {
      AgreementParts(written);
    }
    if written == later {
      LedgerProofs.AttemptsAreReplayed(later);
      assert LedgerAgrees(later) by { Agreement(later); }
    }
  }

  /** Receipts rebuilt from an earlier reading equal their replay exactly when no command event was
      appended since. */
  lemma SplitReceiptsExact(db: Db, later: Db)
    requires Good(db) && Good(later) && later.identity == db.identity && db.log <= later.log
    ensures RebuildCommands(db).Success?
    ensures CommandsAgree(WithReceipts(later, RebuildCommands(db).value.1)) <==>
      forall i | |db.log| <= i < |later.log| :: !later.log[i].eventType.IsCommand()
  {
    hide Observed, Linked, Settled, ReduceCommands, CommandListing, Indexed, Synced;
    TablesMoved(db, later);
    LedgerProofs.CommandsAreReplay(db);
    LedgerProofs.CommandsAreReplay(later);
    var written := WithReceipts(later, RebuildCommands(db).value.1);
    assert written.commands == db.commands;
    SameListing(db, written);
  }
}
