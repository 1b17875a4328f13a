/** Exactly which logs can be replayed, and what replay makes of them, read off the events alone. */
module ReplayFacts {
  import opened RuntimeTypes
  import opened RuntimeProjections
  import opened LedgerReplay
  import opened StoreInvariant
  import ProjectionFacts
  import RecordFacts
  import LedgerProofs

  // ---------------------------------------------------------------- executions

  predicate Declares(e: Event, id: string) {
    e.eventType.ExecutionCreated? && e.executionId == Some(id)
  }

  /** The declaration makes a valid record. */
  predicate ValidDeclaration(e: Event, id: string) {
    && e.payload.ordinal.Some? && e.payload.ordinal.value >= 1 && !Blank(id)
    && Kind !in e.payload.malformed && BackendSession !in e.payload.malformed && RecoveryPlan !in e.payload.malformed
  }

  ghost predicate DeclaredBefore(log: seq<Event>, n: nat, id: string)
    requires n <= |log|
  {
    exists j :: 0 <= j < n && Declares(log[j], id)
  }

  /** Every event is of this runtime, and an execution is declared once, validly, before anything names it. */
  ghost predicate ExecutionsReplay(log: seq<Event>, runtimeId: string) {
    forall k | 0 <= k < |log| :: ExecutionEventOk(log, runtimeId, k)
  }

  ghost predicate ExecutionEventOk(log: seq<Event>, runtimeId: string, k: nat)
    requires k < |log|
  {
    && log[k].runtimeId == runtimeId
    && (log[k].executionId.Some? ==>
          var id := log[k].executionId.value;
          if log[k].eventType.ExecutionCreated? then !DeclaredBefore(log, k, id) && ValidDeclaration(log[k], id)
          else DeclaredBefore(log, k, id))
  }

  lemma DeclaredInPrefix(log: seq<Event>, n: nat, k: nat, id: string)
    requires k <= n <= |log|
    ensures DeclaredBefore(log[..n], k, id) <==> DeclaredBefore(log, k, id)
  {
  }

  lemma EventInPrefix(log: seq<Event>, runtimeId: string, k: nat)
    requires log != [] && k < |log| - 1
    ensures ExecutionEventOk(log[..|log| - 1], runtimeId, k) <==> ExecutionEventOk(log, runtimeId, k)
  {
    if log[k].executionId.Some? { DeclaredInPrefix(log, |log| - 1, k, log[k].executionId.value); }
    hide DeclaredBefore, ValidDeclaration;
  }

  /** Main result for executions: a log replays exactly under that condition, and its rows are the declared ones. */
  lemma {:induction false} ExecutionsReplayExactly(log: seq<Event>, runtimeId: string)
    ensures ReplayExecutions(log, runtimeId).Success? <==> ExecutionsReplay(log, runtimeId)
    ensures ReplayExecutions(log, runtimeId).Success? ==>
      forall id :: id in ReplayExecutions(log, runtimeId).value.byId <==> DeclaredBefore(log, |log|, id)
  {
    if log != [] {
      var init, last := log[..|log| - 1], log[|log| - 1];
      ExecutionsReplayExactly(init, runtimeId);
      forall k: nat | k < |init|
        ensures ExecutionEventOk(init, runtimeId, k) <==> ExecutionEventOk(log, runtimeId, k)
      {
        EventInPrefix(log, runtimeId, k);
      }
      forall id ensures DeclaredBefore(log, |init|, id) <==> DeclaredBefore(init, |init|, id) {
        DeclaredInPrefix(log, |init|, |init|, id);
      }
      forall id ensures DeclaredBefore(log, |log|, id) <==> DeclaredBefore(log, |init|, id) || Declares(last, id) {
        if Declares(last, id) { assert log[|init|] == last; }
      }
      hide DeclaredBefore, Blank;
      assert ExecutionsReplay(log, runtimeId) <==>
        ExecutionsReplay(init, runtimeId) && ExecutionEventOk(log, runtimeId, |init|);
    }
  }

  // ---------------------------------------------------------------- commands

  predicate Accepts(e: Event, id: string) {
    e.eventType.CommandAccepted? && e.subjectId == Some(id)
  }

  predicate ValidAcceptance(e: Event, id: string) {
    && !Blank(id) && !Blank(e.payload.commandType)
    && CommandRequest !in e.payload.malformed && BackendSession !in e.payload.malformed
  }

  ghost predicate AcceptedBefore(log: seq<Event>, n: nat, id: string)
    requires n <= |log|
  {
    exists j :: 0 <= j < n && Accepts(log[j], id)
  }

  ghost predicate CommandEventOk(log: seq<Event>, runtimeId: string, k: nat)
    requires k < |log|
  {
    log[k].eventType.IsCommand() ==>
      && log[k].runtimeId == runtimeId && log[k].subjectType == Some("command") && log[k].subjectId.Some?
      && var id := log[k].subjectId.value;
         if log[k].eventType.CommandAccepted? then !AcceptedBefore(log, k, id) && ValidAcceptance(log[k], id)
         else AcceptedBefore(log, k, id)
  }

  /** Command events are of this runtime and name a command, which is accepted once, validly, before it is
      answered. */
  ghost predicate CommandsReplay(log: seq<Event>, runtimeId: string) {
    forall k | 0 <= k < |log| :: CommandEventOk(log, runtimeId, k)
  }

  lemma AcceptedInPrefix(log: seq<Event>, n: nat, k: nat, id: string)
    requires k <= n <= |log|
    ensures AcceptedBefore(log[..n], k, id) <==> AcceptedBefore(log, k, id)
  {
  }

  lemma CommandInPrefix(log: seq<Event>, runtimeId: string, k: nat)
    requires log != [] && k < |log| - 1
    ensures CommandEventOk(log[..|log| - 1], runtimeId, k) <==> CommandEventOk(log, runtimeId, k)
  {
    if log[k].subjectId.Some? { AcceptedInPrefix(log, |log| - 1, k, log[k].subjectId.value); }
    hide AcceptedBefore, ValidAcceptance;
  }

  lemma {:induction false} CommandsReplayExactly(log: seq<Event>, runtimeId: string)
    requires AllSequenced(log)
    ensures ReplayCommands(log, runtimeId).Success? <==> CommandsReplay(log, runtimeId)
    ensures CommandsReplay(log, runtimeId) ==>
      forall id :: id in ReplayCommands(log, runtimeId).value.byId <==> AcceptedBefore(log, |log|, id)
  {
    if log != [] {
      var init, last := log[..|log| - 1], log[|log| - 1];
      CommandsReplayExactly(init, runtimeId);
      forall k: nat | k < |init| ensures CommandEventOk(init, runtimeId, k) <==> CommandEventOk(log, runtimeId, k) {
        CommandInPrefix(log, runtimeId, k);
      }
      forall id ensures AcceptedBefore(log, |init|, id) <==> AcceptedBefore(init, |init|, id) {
        AcceptedInPrefix(log, |init|, |init|, id);
      }
      forall id ensures AcceptedBefore(log, |log|, id) <==> AcceptedBefore(log, |init|, id) || Accepts(last, id) {
        if Accepts(last, id) { assert log[|init|] == last; }
      }
      hide AcceptedBefore, Blank;
      assert CommandsReplay(log, runtimeId) <==>
        CommandsReplay(init, runtimeId) && CommandEventOk(log, runtimeId, |init|);
    }
  }

  // ---------------------------------------------------------------- attempts, usages and units

  ghost predicate NamedBefore(log: seq<Event>, n: nat, about: Event -> bool)
    requires n <= |log|
  {
    exists j :: 0 <= j < n && about(log[j])
  }

  lemma NamedInPrefix(log: seq<Event>, n: nat, k: nat, about: Event -> bool)
    requires k <= n <= |log|
    ensures NamedBefore(log[..n], k, about) <==> NamedBefore(log, k, about)
  {
  }

  /** A new attempt makes a valid record: no key that a record refuses, and no ordinal below one. */
  ghost predicate AttemptEventOk(log: seq<Event>, k: nat)
    requires k < |log|
  {
    var e := log[k];
    e.eventType.IsAttempt() && e.processId.Some? && e.attemptId.Some?
    && !NamedBefore(log, k, RecordFacts.AboutAttempt(e.attemptId.value)) ==>
      && Ordinal !in e.payload.malformed && EmptyOrdinal !in e.payload.malformed
      && AttemptText !in e.payload.malformed && BackendSession !in e.payload.malformed
      && (e.payload.ordinal.Some? ==> e.payload.ordinal.value >= 1)
  }

  lemma AttemptInPrefix(log: seq<Event>, k: nat)
    requires log != [] && k < |log| - 1
    ensures AttemptEventOk(log[..|log| - 1], k) <==> AttemptEventOk(log, k)
  {
    if log[k].attemptId.Some? {
      NamedInPrefix(log, |log| - 1, k, RecordFacts.AboutAttempt(log[k].attemptId.value));
    }
    hide NamedBefore;
  }

  /** Which attempts a log makes, and when it can make them. */
  lemma {:induction false} AttemptsReplayExactly(log: seq<Event>)
    ensures ReplayAttempts(log).Success? <==> forall k | 0 <= k < |log| :: AttemptEventOk(log, k)
    ensures ReplayAttempts(log).Success? ==>
      forall id :: id in ReplayAttempts(log).value.byId <==> NamedBefore(log, |log|, RecordFacts.AboutAttempt(id))
  {
    if log != [] {
      var init, last := log[..|log| - 1], log[|log| - 1];
      AttemptsReplayExactly(init);
      forall k: nat | k < |init| ensures AttemptEventOk(init, k) <==> AttemptEventOk(log, k) {
        AttemptInPrefix(log, k);
      }
      forall id ensures NamedBefore(log, |init|, RecordFacts.AboutAttempt(id)) <==>
        NamedBefore(init, |init|, RecordFacts.AboutAttempt(id))
      {
        NamedInPrefix(log, |init|, |init|, RecordFacts.AboutAttempt(id));
      }
      forall id ensures NamedBefore(log, |log|, RecordFacts.AboutAttempt(id)) <==>
        NamedBefore(log, |init|, RecordFacts.AboutAttempt(id)) || RecordFacts.AboutAttempt(id)(last)
      {
        if RecordFacts.AboutAttempt(id)(last) { assert log[|init|] == last; }
      }
      hide NamedBefore, AttemptAfter, AttemptBefore;
      assert (forall k | 0 <= k < |log| :: AttemptEventOk(log, k)) <==>
        (forall k | 0 <= k < |init| :: AttemptEventOk(init, k)) && AttemptEventOk(log, |init|);
    }
  }

  /** A resource sample of a process validates, and so does the type of a unit's first report. */
  ghost predicate ReadableEvent(log: seq<Event>, k: nat)
    requires k < |log|
  {
    var e := log[k];
    && (e.eventType.ResourceSampled? && e.processId.Some? && ProjectionFacts.AboutProcess(e.processId.value)(e) ==>
          e.payload.resourceUsage != Some(InvalidUsage))
    && (e.payload.unitType.Some? && e.payload.unitType.value.NotText? ==>
          forall id | RecordFacts.AboutUnit(id)(e) :: NamedBefore(log, k, RecordFacts.AboutUnit(id)))
  }

  lemma UnitOneMore(x: UnitIndex, e: Event, id: string)
    ensures id in WithUnit(x, e).states <==> id in x.states || RecordFacts.AboutUnit(id)(e)
    ensures UnitRejected(x, e) <==>
      && e.payload.unitType.Some? && e.payload.unitType.value.NotText?
      && exists other :: RecordFacts.AboutUnit(other)(e) && other !in x.states
  {
    hide UnitAfter, Blank;
    RecordFacts.UnitNamed(e, id);
    if NamedUnit(e).Some? { RecordFacts.UnitNamed(e, NamedUnit(e).value); }
    forall other | RecordFacts.AboutUnit(other)(e) ensures NamedUnit(e) == Some(other) {
      RecordFacts.UnitNamed(e, other);
    }
  }

  lemma {:induction false} UnitsKnown(log: seq<Event>, id: string)
    ensures id in UnitsAfter(log).states <==> NamedBefore(log, |log|, RecordFacts.AboutUnit(id))
  {
    if log != [] {
      var init := log[..|log| - 1];
      UnitsKnown(init, id);
      UnitOneMore(UnitsAfter(init), log[|log| - 1], id);
      NamedInPrefix(log, |init|, |init|, RecordFacts.AboutUnit(id));
      hide WithUnit;
    }
  }

  lemma ReadableInPrefix(log: seq<Event>, k: nat)
    requires log != [] && k < |log| - 1
    ensures ReadableEvent(log[..|log| - 1], k) <==> ReadableEvent(log, k)
  {
    forall id ensures NamedBefore(log[..|log| - 1], k, RecordFacts.AboutUnit(id)) <==>
      NamedBefore(log, k, RecordFacts.AboutUnit(id))
    {
      NamedInPrefix(log, |log| - 1, k, RecordFacts.AboutUnit(id));
    }
    hide NamedBefore;
  }

  lemma LastReadable(log: seq<Event>)
    requires log != []
    ensures var init, last := log[..|log| - 1], log[|log| - 1];
      ReadableEvent(log, |log| - 1) <==> !UsageRejected(last) && !UnitRejected(UnitsAfter(init), last)
  {
    var init, last := log[..|log| - 1], log[|log| - 1];
    UnitOneMore(UnitsAfter(init), last, "");
    forall id ensures NamedBefore(log, |init|, RecordFacts.AboutUnit(id)) <==> id in UnitsAfter(init).states {
      UnitsKnown(init, id);
      NamedInPrefix(log, |init|, |init|, RecordFacts.AboutUnit(id));
    }
    hide NamedBefore, UnitRejected, UnitsAfter;
  }

  lemma {:induction false} ReadableExactly(log: seq<Event>)
    ensures Readable(log) <==> forall k | 0 <= k < |log| :: ReadableEvent(log, k)
  {
    hide ReadableEvent, UsageRejected, UnitRejected, UnitsAfter;
    if log != [] {
      var init := log[..|log| - 1];
      ReadableExactly(init);
      LastReadable(log);
      forall k: nat | k < |init| ensures ReadableEvent(init, k) <==> ReadableEvent(log, k) {
        ReadableInPrefix(log, k);
      }
    }
  }

  /** Main result: the framework reducer reads a dense log exactly when every new attempt makes a valid record
      and every usage and every new unit's type validates. */
  lemma ReducesExactly(log: seq<Event>, runtimeId: string, policy: Policy)
    requires Dense(log, runtimeId)
    ensures Reduce(log, policy).Success? <==>
      forall k | 0 <= k < |log| :: AttemptEventOk(log, k) && ReadableEvent(log, k)
  {
    hide Reduce, ReplayAttempts, Readable, Dense, AttemptEventOk, ReadableEvent;
    LedgerProofs.ReduceCarriesAttempts(log, runtimeId, policy);
    AttemptsReplayExactly(log);
    ReadableExactly(log);
  }

  /** Main result: the ledger of a dense log can be rebuilt exactly when its executions replay as well. */
  lemma LedgerReducesExactly(identity: Identity, log: seq<Event>, cursor: int)
    requires Dense(log, identity.runtimeId)
    ensures ReduceLedger(identity, log, cursor).Success? <==>
      && ExecutionsReplay(log, identity.runtimeId)
      && forall k | 0 <= k < |log| :: AttemptEventOk(log, k) && ReadableEvent(log, k)
  {
    hide Reduce, ReplayExecutions, AttemptEventOk, ReadableEvent, ExecutionsReplay;
    LedgerProofs.DenseSorts(log, identity.runtimeId);
    ExecutionsReplayExactly(log, identity.runtimeId);
    ReducesExactly(log, identity.runtimeId, Policy(true, true));
  }

  /** Main result: and the receipts exactly when its commands replay. */
  lemma ReceiptsReduceExactly(identity: Identity, log: seq<Event>)
    requires Dense(log, identity.runtimeId)
    ensures ReduceCommands(identity, log).Success? <==> CommandsReplay(log, identity.runtimeId)
  {
    hide ReplayCommands, CommandsReplay;
    LedgerProofs.DenseSorts(log, identity.runtimeId);
    CommandsReplayExactly(log, identity.runtimeId);
  }

  // ---------------------------------------------------------------- the cursor advances

  /** The sequence goes beyond the cursor and all before it, and where it is enforced the runtime stays. */
  ghost predicate AdvancesAt(p: Projection, events: seq<Event>, enforce: bool, k: nat)
    requires k < |events|
  {
    && (events[k].sequence.Some? ==>
          && events[k].sequence.value > p.core.lastSequence
          && forall j | 0 <= j < k && events[j].sequence.Some? :: events[j].sequence.value < events[k].sequence.value)
    && (enforce && (k > 0 || p.core.eventCount != 0) ==>
          events[k].runtimeId == if k == 0 then p.core.runtimeId else events[k - 1].runtimeId)
  }

  ghost predicate Advances(p: Projection, events: seq<Event>, enforce: bool) {
    forall k | 0 <= k < |events| :: AdvancesAt(p, events, enforce, k)
  }

  /** Where a fold stands after these events. */
  ghost predicate CursorAt(p: Projection, events: seq<Event>, q: Projection) {
    && q.core.eventCount == p.core.eventCount + |events|
    && q.core.runtimeId == (if events == [] then p.core.runtimeId else events[|events| - 1].runtimeId)
    && q.core.lastSequence >= p.core.lastSequence
    && (forall j | 0 <= j < |events| && events[j].sequence.Some? :: events[j].sequence.value <= q.core.lastSequence)
    && (q.core.lastSequence == p.core.lastSequence ||
        exists j :: 0 <= j < |events| && events[j].sequence == Some(q.core.lastSequence))
  }

  predicate OfCursor(error: ReduceError) {
    error == RuntimeIdChanged || error == SequenceMustAdvance
  }

  lemma AdvanceInPrefix(p: Projection, events: seq<Event>, enforce: bool, k: nat)
    requires events != [] && k < |events| - 1
    ensures AdvancesAt(p, events[..|events| - 1], enforce, k) <==> AdvancesAt(p, events, enforce, k)
  {
  }

  lemma LastAdvances(p: Projection, events: seq<Event>, q: Projection, enforce: bool)
    requires events != [] && CursorAt(p, events[..|events| - 1], q)
    ensures var rejected := Rejects(q.core, events[|events| - 1], enforce);
      AdvancesAt(p, events, enforce, |events| - 1) <==> !(rejected.Some? && OfCursor(rejected.value))
  {
    hide AttemptRejected, UsageRejected, UnitRejected;
    var init, last := events[..|events| - 1], events[|events| - 1];
    forall j | 0 <= j < |init| ensures init[j] == events[j] {}
  }

  lemma CursorMoves(p: Projection, events: seq<Event>, q: Projection, enforce: bool)
    requires events != [] && CursorAt(p, events[..|events| - 1], q)
    requires Rejects(q.core, events[|events| - 1], enforce).None?
    ensures CursorAt(p, events, ApplyEvent(q, events[|events| - 1]))
  {
    hide Unreadable, WithAttempt, WithCheckpoint, WithProcess, WithUnit;
    var init, last := events[..|events| - 1], events[|events| - 1];
    forall j | 0 <= j < |init| ensures init[j] == events[j] {}
    if last.sequence.Some? {
      assert events[|init|].sequence == Some(last.sequence.value);
    } else if j :| 0 <= j < |init| && init[j].sequence == Some(q.core.lastSequence) {
      assert events[j].sequence == Some(q.core.lastSequence);
    }
  }

  /** Main result for the cursor: a fold that succeeds went up in sequence and kept its runtime, and one that
      fails for either reason met an event that did not. */
  lemma {:induction false} FoldAdvances(p: Projection, events: seq<Event>, enforce: bool)
    ensures var r := Fold(p, events, enforce);
      if r.Success? then Advances(p, events, enforce) && CursorAt(p, events, r.value)
      else OfCursor(r.error) ==> !Advances(p, events, enforce)
  {
    hide CursorAt, AdvancesAt, Rejects, ApplyEvent, OfCursor;
    if events == [] {
      assert CursorAt(p, [], p) by { CursorStarts(p); }
    } else {
      var init, last := events[..|events| - 1], events[|events| - 1];
      FoldAdvances(p, init, enforce);
      forall k: nat | k < |init| ensures AdvancesAt(p, init, enforce, k) <==> AdvancesAt(p, events, enforce, k) {
        AdvanceInPrefix(p, events, enforce, k);
      }
      if Fold(p, init, enforce).Success? {
        var q := Fold(p, init, enforce).value;
        LastAdvances(p, events, q, enforce);
        if Rejects(q.core, last, enforce).None? { CursorMoves(p, events, q, enforce); }
      }
    }
  }

  lemma CursorStarts(p: Projection)
    ensures CursorAt(p, [], p)
  {
  }
}
