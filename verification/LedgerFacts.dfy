/** What `ledger()` lists, and which of its two ways a refresh takes. */
module LedgerFacts {
  import opened RuntimeTypes
  import opened Sorting
  import opened RuntimeProjections
  import opened LedgerReplay
  import opened DurableTables
  import opened StoreInvariant
  import opened StoreEffects
  import ReconciliationEffects

  // ---------------------------------------------------------------- the listing

  /** Each id once, the lower rank first. */
  ghost predicate RankedListing(list: seq<string>, rank: map<string, int>) {
    && Distinct(list) && (forall id :: id in list <==> id in rank)
    && forall i, j | 0 <= i < j < |list| && list[i] in rank && list[j] in rank :: rank[list[i]] <= rank[list[j]]
  }

  function Ordinals(attempts: map<string, Attempt>, process: string): map<string, int> {
    map id | id in attempts && attempts[id].processId == process :: attempts[id].ordinal
  }

  ghost predicate ListsAttempts(lists: map<string, seq<string>>, attempts: map<string, Attempt>) {
    && (forall p :: p in lists <==> exists id :: id in attempts && attempts[id].processId == p)
    && (forall p | p in lists :: RankedListing(lists[p], Ordinals(attempts, p)))
  }

  /** The two tables, the executions by ordinal, the attempts of each process by ordinal, and both cursors. */
  ghost predicate Lists(l: Ledger, db: Db) {
    && l.identity == db.identity && l.executions == db.executions && l.attempts == db.attempts
    && RankedListing(l.executionOrder, map id | id in db.executions :: db.executions[id].ordinal)
    && ListsAttempts(l.processAttemptIds, db.attempts)
    && l.lastEventSequence == |db.log| - 1
    && l.projectionSequence == if db.projection.Some? then db.projection.value.1 else -1
  }

  lemma OrderedListing(rank: map<string, int>)
    ensures RankedListing(OrderedBy(rank), rank)
  {
    var list := OrderedBy(rank);
    ReconciliationEffects.RanksSorted(rank);
    ListedOnce(list, rank.Keys);
    hide OrderedBy;
  }

  lemma IdsListed(attempts: map<string, Attempt>, process: string)
    ensures RankedListing(AttemptIdsOf(attempts, process), Ordinals(attempts, process))
  {
    OrderedListing(Ordinals(attempts, process));
    hide RankedListing;
    assert AttemptIdsOf(attempts, process) == OrderedBy(Ordinals(attempts, process));
  }

  lemma AttemptsListed(db: Db)
    ensures ListsAttempts(LedgerOf(db).processAttemptIds, db.attempts)
  {
    hide OrderedBy, RankedListing, AttemptIdsOf, Ordinals, MaxSequence;
    forall p | p in AttemptedProcesses(db)
      ensures RankedListing(AttemptIdsOf(db.attempts, p), Ordinals(db.attempts, p))
    {
      IdsListed(db.attempts, p);
    }
  }

  lemma LedgerLists(db: Db)
    requires Orderly(db)
    ensures Lists(LedgerOf(db), db)
  {
    hide Orderly, OrderedBy, RankedListing, AttemptIdsOf, ListsAttempts;
    LastOfLog(db);
    AttemptsListed(db);
    OrderedListing(map id | id in db.executions :: db.executions[id].ordinal);
  }

  // ---------------------------------------------------------------- the refresh

  /** A stored projection that counts events and shows processes but kept no states to continue from. */
  predicate OldFormat(p: Projection) {
    p.core.eventCount != 0 && p.derived.processes != map[] && p.core.processes.states == map[]
  }

  lemma {:induction false} FoldNeverOld(p: Projection, events: seq<Event>, enforce: bool)
    ensures Fold(p, events, enforce).Failure? ==> !Fold(p, events, enforce).error.PredatesIncrementalState?
  {
    if events != [] {
      FoldNeverOld(p, events[..|events| - 1], enforce);
      hide ApplyEvent, AttemptRejected, UsageRejected, UnitRejected;
    }
  }

  lemma AppliesUnlessOld(p: Projection, events: seq<Event>, policy: Policy)
    ensures Apply(p, events, policy) == Failure(PredatesIncrementalState) <==> OldFormat(p)
  {
    FoldNeverOld(p, Sort(EventLeq, events), true);
    hide Fold, Finalize;
  }

  /** A refresh reduces the whole log when nothing usable is stored, and otherwise applies what came after the
      cursor. */
  lemma RefreshReads(db: Db, policy: Policy)
    requires Orderly(db) && (db.projection.Some? ==> -1 <= db.projection.value.1 < |db.log|)
    ensures RefreshedProjection(db, policy) ==
      if db.projection.None? || OldFormat(db.projection.value.0) then Reduce(db.log, policy)
      else Apply(db.projection.value.0, db.log[db.projection.value.1 + 1..], policy)
  {
    hide Reduce, Apply, OldFormat;
    if db.projection.Some? {
      var (p, cursor) := db.projection.value;
      EventsAfterIsSuffix(db.log, db.identity.runtimeId, cursor);
      AppliesUnlessOld(p, db.log[cursor + 1..], policy);
    }
  }
}
