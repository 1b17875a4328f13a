/** In every good database the materialised ledger and receipts equal what the log replays to, so the
    rebuilds change nothing. */
module LedgerProofs {
  import opened RuntimeTypes
  import opened Sorting
  import opened RuntimeProjections
  import opened LedgerReplay
  import opened DurableTables
  import opened StoreInvariant
  import opened StoreProtocol
  import ReducerProofs

  lemma DenseSorts(log: seq<Event>, runtimeId: string)
    requires Dense(log, runtimeId)
    ensures AllSequenced(log) && Sort(SequenceLeq, log) == log && ReducerProofs.Sequenced(log, runtimeId)
    ensures LastSequence(log) == |log| - 1
  {
    forall e | e in log ensures e.sequence.Some? && e.runtimeId == runtimeId {
      var i :| 0 <= i < |log| && log[i] == e;
      assert Canonical(log[i], i, runtimeId);
    }
    var key := (e: Event) => if e.sequence.Some? then e.sequence.value else 0;
    forall i, j | 0 <= i < j < |log| ensures key(log[i]) < key(log[j]) {
      assert Canonical(log[i], i, runtimeId) && Canonical(log[j], j, runtimeId);
    }
    ClimbingSorts(SequenceLeq, key, log);
  }

  /** The fold over a dense log stops only at an attempt, a usage or a unit it cannot validate. */
  lemma {:induction false} FoldCarriesAttempts(log: seq<Event>, runtimeId: string, start: string)
    requires Dense(log, runtimeId)
    ensures var r := Fold(EmptyProjection(start), log, false);
      && (r.Success? <==> ReplayAttempts(log).Success? && Readable(log))
      && (r.Success? ==>
            && r.value.core.attempts == ReplayAttempts(log).value && r.value.core.units == UnitsAfter(log)
            && r.value.core.lastSequence == |log| - 1)
  {
    if log != [] {
      var init, last := log[..|log| - 1], log[|log| - 1];
      FoldCarriesAttempts(init, runtimeId, start);
      assert Canonical(last, |init|, runtimeId);
      hide WithAttempt, WithCheckpoint, WithProcess, WithUnit, AttemptRejected, UsageRejected, UnitRejected;
    }
  }

  /** Main result for the framework reducer on a dense log: it succeeds exactly when the attempt events
      replay and every resource usage and every new unit's type validates. */
  lemma ReduceCarriesAttempts(log: seq<Event>, runtimeId: string, policy: Policy)
    requires Dense(log, runtimeId)
    ensures Reduce(log, policy).Success? <==> ReplayAttempts(log).Success? && Readable(log)
    ensures Reduce(log, policy).Success? ==> Reduce(log, policy).value.core.attempts == ReplayAttempts(log).value
  {
    DenseSorts(log, runtimeId);
    ReducerProofs.ReduceIsFold(log, runtimeId, policy);
    FoldCarriesAttempts(log, runtimeId, if log != [] then runtimeId else "runtime");
  }

  lemma ExecutionOrderReplayed(x: ExecutionIndex, runtimeId: string)
    requires ExecutionIndexRight(x, runtimeId)
    ensures OrderedBy(map id | id in x.byId :: x.byId[id].ordinal) == x.order
  {
    var rank := map id | id in x.byId :: x.byId[id].ordinal;
    forall id ensures id in rank <==> id in x.order {
      if id in x.byId { assert x.order[x.byId[id].ordinal - 1] == id; }
    }
    OrderedByIs(rank, x.order);
  }

  /** Each process lists its attempts by rising ordinal, and every attempt is listed. */
  ghost predicate ListsRight(x: AttemptIndex) {
    && (forall p | p in x.idsByProcess :: x.idsByProcess[p] != [])
    && (forall p, id | p in x.idsByProcess && id in x.idsByProcess[p] :: id in x.byId && x.byId[id].processId == p)
    && (forall p | p in x.idsByProcess :: Rising(x, x.idsByProcess[p]))
    && (forall id | id in x.byId ::
          x.byId[id].processId in x.idsByProcess && id in x.idsByProcess[x.byId[id].processId])
  }

  ghost predicate Rising(x: AttemptIndex, ids: seq<string>) {
    forall i, j | 0 <= i < j < |ids| ::
      ids[i] in x.byId && ids[j] in x.byId && x.byId[ids[i]].ordinal < x.byId[ids[j]].ordinal
  }

  lemma RightLists(x: AttemptIndex, runtimeId: string)
    requires AttemptIndexRight(x, runtimeId)
    ensures ListsRight(x)
  {
    forall p, id | p in x.idsByProcess && id in x.idsByProcess[p] ensures id in x.byId && x.byId[id].processId == p {
      var i :| 0 <= i < |x.idsByProcess[p]| && x.idsByProcess[p][i] == id;
    }
    forall id | id in x.byId
      ensures x.byId[id].processId in x.idsByProcess && id in x.idsByProcess[x.byId[id].processId]
    {
      assert AttemptRowRight(x, runtimeId, id);
    }
  }

  lemma AttemptOrderReplayed(x: AttemptIndex, p: string)
    requires ListsRight(x) && p in x.idsByProcess
    ensures AttemptIdsOf(x.byId, p) == x.idsByProcess[p]
  {
    var rank := map id | id in x.byId && x.byId[id].processId == p :: x.byId[id].ordinal;
    var ids := x.idsByProcess[p];
    forall i, j | 0 <= i < j < |ids| ensures Rank(rank, ids[i]) < Rank(rank, ids[j]) {
      assert ids[i] in ids && ids[j] in ids && Rising(x, ids);
    }
    OrderedByIs(rank, ids);
  }

  /** The attempt table with its replay, and the lists that replay builds. */
  ghost predicate AttemptsReplayed(log: seq<Event>, attempts: map<string, Attempt>) {
    var r := ReplayAttempts(log);
    r.Success? && r.value.byId == attempts && ListsRight(r.value)
  }

  lemma ProcessListed(db: Db, p: string)
    requires AttemptsReplayed(db.log, db.attempts)
    ensures p in AttemptedProcesses(db) <==> p in ReplayAttempts(db.log).value.idsByProcess
  {
    var x := ReplayAttempts(db.log).value;
    if p in x.idsByProcess {
      assert x.idsByProcess[p][0] in x.idsByProcess[p];
    }
  }

  lemma AttemptListsReplayed(db: Db)
    requires AttemptsReplayed(db.log, db.attempts)
    ensures (map p | p in AttemptedProcesses(db) :: AttemptIdsOf(db.attempts, p)) ==
      ReplayAttempts(db.log).value.idsByProcess
  {
    hide AttemptIdsOf, AttemptedProcesses, ReplayAttempts, ListsRight;
    var x := ReplayAttempts(db.log).value;
    var lists := map p | p in AttemptedProcesses(db) :: AttemptIdsOf(db.attempts, p);
    forall p ensures p in lists <==> p in x.idsByProcess {
      ProcessListed(db, p);
    }
    forall p | p in x.idsByProcess ensures lists[p] == x.idsByProcess[p] {
      AttemptOrderReplayed(x, p);
    }
    assert lists == x.idsByProcess;
  }

  /** The stored ledger is the replayed ledger: every execution field, every attempt field, the
      execution order and the attempt order of each process. */
  lemma LedgerIsReplay(db: Db)
    requires Dense(db.log, db.identity.runtimeId)
    requires ExecutionsSynced(db.log, db.identity.runtimeId, db.executions)
    requires AttemptsReplayed(db.log, db.attempts) && Readable(db.log)
    ensures ReduceLedger(db.identity, db.log, ProjectionCursor(db)) == Success(LedgerOf(db))
    ensures RebuildLedger(db) == Success((db, LedgerOf(db)))
  {
    var rid := db.identity.runtimeId;
    DenseSorts(db.log, rid);
    DenseMax(db.log, rid);
    ReduceCarriesAttempts(db.log, rid, Policy(true, true));
    hide ListsRight, ExecutionIndexRight;
    ExecutionOrderReplayed(ReplayExecutions(db.log, rid).value, rid);
    AttemptListsReplayed(db);
  }

  lemma AttemptsAreReplayed(db: Db)
    requires AttemptsSynced(db.log, db.identity.runtimeId, db.attempts)
    ensures AttemptsReplayed(db.log, db.attempts)
  {
    RightLists(ReplayAttempts(db.log).value, db.identity.runtimeId);
  }

  lemma CommandOrderReplayed(x: CommandIndex, runtimeId: string, bound: int)
    requires CommandIndexRight(x, runtimeId, bound)
    ensures OrderedBy(map id | id in x.byId :: x.byId[id].firstEventSequence) == x.order
  {
    var rank := map id | id in x.byId :: x.byId[id].firstEventSequence;
    forall id ensures id in rank <==> id in x.order {
      if id in x.order {
        var i :| 0 <= i < |x.order| && x.order[i] == id;
      }
    }
    forall i, j | 0 <= i < j < |x.order| ensures Rank(rank, x.order[i]) < Rank(rank, x.order[j]) {
      assert x.order[i] in x.byId && x.order[j] in x.byId;
    }
    OrderedByIs(rank, x.order);
  }

  lemma {:induction false} IndexedListing(byId: map<string, CommandRecord>, order: seq<string>)
    requires forall id <- order :: id in byId && byId[id].commandId == id
    ensures Indexed(Listed(byId, order)) == map id | id in order :: byId[id]
  {
    if order != [] {
      var init, last := order[..|order| - 1], order[|order| - 1];
      IndexedListing(byId, init);
      assert Listed(byId, order) == Listed(byId, init) + [byId[last]];
      assert Listed(byId, order)[..|Listed(byId, order)| - 1] == Listed(byId, init);
      forall id ensures id in order <==> id in init || id == last { assert order == init + [last]; }
    }
  }

  /** The stored receipts are the replayed receipts, in acceptance order. */
  lemma CommandsAreReplay(db: Db)
    requires Synced(db)
    ensures ReduceCommands(db.identity, db.log) == Success(CommandListing(db))
    ensures RebuildCommands(db) == Success((db, CommandListing(db)))
  {
    hide Dense, ExecutionsSynced, AttemptsSynced, OrderedBy, Indexed, Listed;
    var rid := db.identity.runtimeId;
    DenseSorts(db.log, rid);
    var x := ReplayCommands(db.log, rid).value;
    CommandOrderReplayed(x, rid, |db.log|);
    forall id <- x.order ensures id in x.byId && x.byId[id].commandId == id {
      var i :| 0 <= i < |x.order| && x.order[i] == id;
    }
    IndexedListing(x.byId, x.order);
    assert (map id | id in x.order :: x.byId[id]) == x.byId;
  }
}
