/** What a reduced projection says of units, attempts and checkpoints, read off the events alone. */
module RecordFacts {
  import opened RuntimeTypes
  import opened Sorting
  import opened RuntimeProjections
  import opened EventHistory
  import opened ProjectionFacts

  // ---------------------------------------------------------------- units

  /** The event reports on this unit: its payload names it, or names none and its subject does. */
  function AboutUnit(id: string): Event -> bool {
    (e: Event) =>
      && (e.subjectType == Some("unit") || e.subjectType == Some("fsm.transition")) && !Blank(id)
      && match e.payload.unitId
         case Some(Text(text)) => if text != "" then text == id else e.subjectId == Some(id)
         case Some(NotText(_, truthy)) => !truthy && e.subjectId == Some(id)
         case None => e.subjectId == Some(id)
  }

  /** The first event fills in what it says; later ones count only with a value that is not empty. */
  function ValueKept(about: Event -> bool, carries: Event -> Option<TextValue>): Rule<Option<TextValue>> {
    Rule((e: Event) => about(e) && carries(e).Some? && carries(e) != Some(Text(""))
                       && (carries(e).value.NotText? ==> carries(e).value.truthy), carries, carries)
  }

  /** What the first event about it says, whatever the others do. */
  function FixedBy<T>(carries: Event -> T): Rule<T> {
    Rule((e: Event) => false, carries, carries)
  }

  function UnitTypeOf(): Event -> Option<TextValue> { (e: Event) => e.payload.unitType }
  function ProcessOf(): Event -> Option<string> { (e: Event) => e.processId }
  function ParentSubjectOf(): Event -> Option<string> { (e: Event) => e.parentSubjectId }
  function SubjectTypeOf(): Event -> Option<string> { (e: Event) => e.subjectType }
  function SubjectOf(): Event -> Option<string> { (e: Event) => e.subjectId }

  /** A status of its own, unless it is the empty text. */
  function PlainStatusOf(): Event -> Option<Status> {
    (e: Event) => if e.status == Some(Custom("")) then None else e.status
  }

  function PlainClassOf(): Event -> Option<StatusClass> { (e: Event) => e.statusClass }

  function EndOf(): Event -> Option<Time> {
    (e: Event) => match e.statusClass
                  case Some(TerminalSuccess) => Some(e.timestamp)
                  case Some(TerminalFailure) => Some(e.timestamp)
                  case Some(TerminalCancelled) => Some(e.timestamp)
                  case _ => None
  }

  /** Only a dict counts as the result of a unit. */
  function DictOf(): Event -> Option<Json> {
    (e: Event) => match e.payload.result
                  case Some(Dict(_)) => e.payload.result
                  case _ => None
  }

  function Activates(about: Event -> bool): Event -> bool {
    (e: Event) => about(e) && e.statusClass == Some(Active)
  }

  function HowMany(events: seq<Event>, about: Event -> bool): nat {
    if events == [] then 0
    else HowMany(events[..|events| - 1], about) + if about(events[|events| - 1]) then 1 else 0
  }

  ghost predicate UnitSays(events: seq<Event>, id: string, s: UnitState) {
    var about := AboutUnit(id);
    && s.unitId == id && s.eventCount == HowMany(events, about)
    && Follows(events, about, ValueKept(about, UnitTypeOf()), s.unitType)
    && Follows(events, about, TextKept(about, ProcessOf()), s.processId)
    && Follows(events, about, TextKept(about, ParentOf()), s.parentProcessId)
    && Follows(events, about, TextKept(about, ParentSubjectOf()), s.parentUnitId)
    && Follows(events, about, TextKept(about, SubjectTypeOf()), s.subjectType)
    && Follows(events, about, TextKept(about, SubjectOf()), s.subjectId)
    && Follows(events, about, Carried(about, PlainStatusOf(), Pending), s.status)
    && Follows(events, about, Carried(about, PlainClassOf(), NotStarted), s.statusClass)
    && Follows(events, about, Kept(about, TimeOf()), s.updatedAt)
    && Follows(events, about, Kept(about, EndOf()), s.finishedAt)
    && Follows(events, about, Kept(about, ProgressOf()), s.progress)
    && Follows(events, about, Kept(about, DictOf()), s.result)
    && Follows(events, about, Kept(about, ErrorOf()), s.error)
    && FirstStart(events, Activates(about), s.startedAt)
  }

  function UnitStep(id: string): (Option<UnitState>, Event) -> UnitState {
    (s: Option<UnitState>, e: Event) => UnitAfter(s, id, e)
  }

  lemma UnitNamed(e: Event, id: string)
    ensures NamedUnit(e) == Some(id) <==> AboutUnit(id)(e)
  {
    hide Blank;
  }

  lemma {:induction false} UnitAlong(p: Projection, events: seq<Event>, enforce: bool, id: string)
    requires Fold(p, events, enforce).Success? && id !in p.core.units.states
    ensures Lookup(Fold(p, events, enforce).value.core.units.states, id) == Along(events, AboutUnit(id), UnitStep(id))
  {
    if events != [] {
      UnitAlong(p, events[..|events| - 1], enforce, id);
      UnitNamed(events[|events| - 1], id);
      hide UnitAfter, WithAttempt, WithCheckpoint, WithProcess, Rejects, NamedUnit, AboutUnit;
    }
  }

  lemma {:induction false} UnitCounted(events: seq<Event>, id: string)
    ensures var s := Along(events, AboutUnit(id), UnitStep(id));
      && (s.None? <==> HowMany(events, AboutUnit(id)) == 0)
      && (s.Some? ==> s.value.unitId == id && s.value.eventCount == HowMany(events, AboutUnit(id)))
  {
    if events != [] {
      UnitCounted(events[..|events| - 1], id);
      hide AboutUnit;
    }
  }

  lemma TypeReported(s: Option<UnitState>, id: string, e: Event)
    ensures UnitAfter(s, id, e).unitType ==
      if e.payload.unitType.Some? && e.payload.unitType.value.Truthy() then e.payload.unitType
        else if s.Some? then s.value.unitType else e.payload.unitType
  {
  }

  lemma FinishReported(s: Option<UnitState>, id: string, e: Event)
    ensures UnitAfter(s, id, e).finishedAt ==
      if EndOf()(e).Some? then EndOf()(e) else if s.Some? then s.value.finishedAt else None
  {
  }

  lemma ResultReported(s: Option<UnitState>, id: string, e: Event)
    ensures UnitAfter(s, id, e).result ==
      if DictOf()(e).Some? then DictOf()(e) else if s.Some? then s.value.result else None
  {
  }

  lemma StatusReported(s: Option<UnitState>, id: string, e: Event)
    ensures UnitAfter(s, id, e).status ==
      if PlainStatusOf()(e).Some? then PlainStatusOf()(e).value
        else if s.Some? then s.value.status else Pending
  {
  }

  lemma UnitType(events: seq<Event>, about: Event -> bool, id: string)
    requires about == AboutUnit(id)
    ensures var s := Along(events, about, UnitStep(id));
      s.Some? ==> Follows(events, about, ValueKept(about, UnitTypeOf()), s.value.unitType)
  {
    hide Follows, UnitAfter;
    forall s: Option<UnitState>, e: Event
      ensures UnitAfter(s, id, e).unitType ==
        if e.payload.unitType.Some? && e.payload.unitType.value.Truthy() then e.payload.unitType
        else if s.Some? then s.value.unitType else e.payload.unitType
    {
      TypeReported(s, id, e);
    }
    FieldHistory(events, about, UnitStep(id), (s: UnitState) => s.unitType, ValueKept(about, UnitTypeOf()));
  }

  lemma UnitProcess(events: seq<Event>, about: Event -> bool, id: string)
    requires about == AboutUnit(id)
    ensures var s := Along(events, about, UnitStep(id));
      s.Some? ==> Follows(events, about, TextKept(about, ProcessOf()), s.value.processId)
  {
    hide Follows;
    FieldHistory(events, about, UnitStep(id), (s: UnitState) => s.processId, TextKept(about, ProcessOf()));
  }

  lemma UnitParent(events: seq<Event>, about: Event -> bool, id: string)
    requires about == AboutUnit(id)
    ensures var s := Along(events, about, UnitStep(id));
      s.Some? ==> Follows(events, about, TextKept(about, ParentOf()), s.value.parentProcessId)
  {
    hide Follows;
    FieldHistory(events, about, UnitStep(id), (s: UnitState) => s.parentProcessId, TextKept(about, ParentOf()));
  }

  lemma UnitParentUnit(events: seq<Event>, about: Event -> bool, id: string)
    requires about == AboutUnit(id)
    ensures var s := Along(events, about, UnitStep(id));
      s.Some? ==> Follows(events, about, TextKept(about, ParentSubjectOf()), s.value.parentUnitId)
  {
    hide Follows;
    FieldHistory(events, about, UnitStep(id), (s: UnitState) => s.parentUnitId, TextKept(about, ParentSubjectOf()));
  }

  lemma UnitSubjectType(events: seq<Event>, about: Event -> bool, id: string)
    requires about == AboutUnit(id)
    ensures var s := Along(events, about, UnitStep(id));
      s.Some? ==> Follows(events, about, TextKept(about, SubjectTypeOf()), s.value.subjectType)
  {
    hide Follows;
    FieldHistory(events, about, UnitStep(id), (s: UnitState) => s.subjectType, TextKept(about, SubjectTypeOf()));
  }

  lemma UnitSubject(events: seq<Event>, about: Event -> bool, id: string)
    requires about == AboutUnit(id)
    ensures var s := Along(events, about, UnitStep(id));
      s.Some? ==> Follows(events, about, TextKept(about, SubjectOf()), s.value.subjectId)
  {
    hide Follows;
    FieldHistory(events, about, UnitStep(id), (s: UnitState) => s.subjectId, TextKept(about, SubjectOf()));
  }

  lemma UnitStatus(events: seq<Event>, about: Event -> bool, id: string)
    requires about == AboutUnit(id)
    ensures var s := Along(events, about, UnitStep(id));
      s.Some? ==> Follows(events, about, Carried(about, PlainStatusOf(), Pending), s.value.status)
  {
    hide Follows, UnitAfter, PlainStatusOf;
    forall s: Option<UnitState>, e: Event
      ensures UnitAfter(s, id, e).status ==
        if PlainStatusOf()(e).Some? then PlainStatusOf()(e).value
        else if s.Some? then s.value.status else Pending
    {
      StatusReported(s, id, e);
    }
    FieldHistory(events, about, UnitStep(id), (s: UnitState) => s.status, Carried(about, PlainStatusOf(), Pending));
  }

  lemma UnitClass(events: seq<Event>, about: Event -> bool, id: string)
    requires about == AboutUnit(id)
    ensures var s := Along(events, about, UnitStep(id));
      s.Some? ==> Follows(events, about, Carried(about, PlainClassOf(), NotStarted), s.value.statusClass)
  {
    hide Follows;
    FieldHistory(events, about, UnitStep(id), (s: UnitState) => s.statusClass,
                 Carried(about, PlainClassOf(), NotStarted));
  }

  lemma UnitUpdate(events: seq<Event>, about: Event -> bool, id: string)
    requires about == AboutUnit(id)
    ensures var s := Along(events, about, UnitStep(id));
      s.Some? ==> Follows(events, about, Kept(about, TimeOf()), s.value.updatedAt)
  {
    hide Follows;
    FieldHistory(events, about, UnitStep(id), (s: UnitState) => s.updatedAt, Kept(about, TimeOf()));
  }

  lemma UnitFinish(events: seq<Event>, about: Event -> bool, id: string)
    requires about == AboutUnit(id)
    ensures var s := Along(events, about, UnitStep(id));
      s.Some? ==> Follows(events, about, Kept(about, EndOf()), s.value.finishedAt)
  {
    hide Follows, UnitAfter, EndOf;
    forall s: Option<UnitState>, e: Event
      ensures UnitAfter(s, id, e).finishedAt ==
        if EndOf()(e).Some? then EndOf()(e) else if s.Some? then s.value.finishedAt else None
    {
      FinishReported(s, id, e);
    }
    FieldHistory(events, about, UnitStep(id), (s: UnitState) => s.finishedAt, Kept(about, EndOf()));
  }

  lemma UnitProgress(events: seq<Event>, about: Event -> bool, id: string)
    requires about == AboutUnit(id)
    ensures var s := Along(events, about, UnitStep(id));
      s.Some? ==> Follows(events, about, Kept(about, ProgressOf()), s.value.progress)
  {
    hide Follows;
    FieldHistory(events, about, UnitStep(id), (s: UnitState) => s.progress, Kept(about, ProgressOf()));
  }

  lemma UnitResult(events: seq<Event>, about: Event -> bool, id: string)
    requires about == AboutUnit(id)
    ensures var s := Along(events, about, UnitStep(id));
      s.Some? ==> Follows(events, about, Kept(about, DictOf()), s.value.result)
  {
    hide Follows, UnitAfter, DictOf;
    forall s: Option<UnitState>, e: Event
      ensures UnitAfter(s, id, e).result ==
        if DictOf()(e).Some? then DictOf()(e) else if s.Some? then s.value.result else None
    {
      ResultReported(s, id, e);
    }
    FieldHistory(events, about, UnitStep(id), (s: UnitState) => s.result, Kept(about, DictOf()));
  }

  lemma UnitError(events: seq<Event>, about: Event -> bool, id: string)
    requires about == AboutUnit(id)
    ensures var s := Along(events, about, UnitStep(id));
      s.Some? ==> Follows(events, about, Kept(about, ErrorOf()), s.value.error)
  {
    hide Follows;
    FieldHistory(events, about, UnitStep(id), (s: UnitState) => s.error, Kept(about, ErrorOf()));
  }

  lemma UnitStart(events: seq<Event>, about: Event -> bool, id: string)
    requires about == AboutUnit(id)
    ensures var s := Along(events, about, UnitStep(id));
      FirstStart(events, Activates(about), if s.Some? then s.value.startedAt else None)
  {
    hide FirstStart;
    StartHistory(events, about, UnitStep(id), (s: UnitState) => s.startedAt, Activates(about));
  }

  lemma UnitHistory(events: seq<Event>, id: string)
    ensures var s := Along(events, AboutUnit(id), UnitStep(id)); s.Some? ==> UnitSays(events, id, s.value)
  {
    hide Along, Follows, FirstStart;
    var about := AboutUnit(id);
    UnitCounted(events, id);
    UnitStart(events, about, id);
    UnitType(events, about, id);
    UnitProcess(events, about, id);
    UnitParent(events, about, id);
    UnitParentUnit(events, about, id);
    UnitSubjectType(events, about, id);
    UnitSubject(events, about, id);
    UnitStatus(events, about, id);
    UnitClass(events, about, id);
    UnitUpdate(events, about, id);
    UnitFinish(events, about, id);
    UnitProgress(events, about, id);
    UnitResult(events, about, id);
    UnitError(events, about, id);
  }

  /** Main result for units: a reduction holds exactly the units that some event reports on. */
  lemma ReducedUnit(events: seq<Event>, policy: Policy, id: string)
    requires Reduce(events, policy).Success?
    ensures var states := Reduce(events, policy).value.core.units.states;
      && (id in states <==> exists e :: e in events && AboutUnit(id)(e))
      && (id in states ==> UnitSays(Sort(EventLeq, events), id, states[id]))
  {
    var ordered := Sort(EventLeq, events);
    UnitAlong(EmptyProjection(if ordered != [] then ordered[0].runtimeId else "runtime"), ordered, false, id);
    UnitHistory(ordered, id);
    AlongExists(ordered, AboutUnit(id), UnitStep(id));
    SameMembers(ordered, events);
    hide UnitSays, Along, Fold, AboutUnit;
  }

  // ---------------------------------------------------------------- attempts

  function AboutAttempt(id: string): Event -> bool {
    (e: Event) => e.eventType.IsAttempt() && e.processId.Some? && e.attemptId == Some(id)
  }

  function EverySays<T>(about: Event -> bool, carries: Event -> T): Rule<T> {
    Rule(about, carries, carries)
  }

  function ProcessNameOf(): Event -> string { (e: Event) => if e.processId.Some? then e.processId.value else "" }
  function RuntimeOf(): Event -> string { (e: Event) => e.runtimeId }
  function ExecutionOf(): Event -> Option<string> { (e: Event) => e.executionId }
  function KeyGiven(): Event -> Option<string> { (e: Event) => e.payload.executionKey }
  function InputOf(): Event -> Option<string> { (e: Event) => e.payload.inputFingerprint }
  function VersionOf(): Event -> Option<string> { (e: Event) => e.payload.implementationVersion }
  function BackendOf(): Event -> Option<string> { (e: Event) => e.payload.backendSessionId }
  function SequenceOf(): Event -> Option<int> { (e: Event) => e.sequence }
  function ResumedOf(): Event -> Option<string> { (e: Event) => e.payload.resumedFromAttemptId }

  /** A restart is a start again, and an operation with no attempt of its own counts as none. */
  function OperationOf(): Event -> Option<Operation> {
    (e: Event) => match (if e.payload.operation.Some? then e.payload.operation else e.payload.recoveryAction)
                  case Some(StartText) => Some(Start)
                  case Some(RestartText) => Some(Start)
                  case Some(ResumeText) => Some(Resume)
                  case Some(RetryText) => Some(Retry)
                  case _ => None
  }

  /** An empty text counts as no status of its own. */
  function AttemptStatusOf(): Event -> Option<Status> {
    (e: Event) => if e.status == Some(Custom("")) then StatusGiven(e.(status := None)) else StatusGiven(e)
  }

  function CheckpointOf(): Event -> Option<string> {
    (e: Event) => if e.checkpointId == Some("") then None else e.checkpointId
  }

  function TerminationOf(): Event -> Option<Time> {
    (e: Event) => match e.eventType
                  case AttemptCompleted => Some(e.timestamp)
                  case AttemptFailed => Some(e.timestamp)
                  case AttemptCancelled => Some(e.timestamp)
                  case AttemptInterrupted => Some(e.timestamp)
                  case _ => None
  }

  function Starts(about: Event -> bool): Event -> bool {
    (e: Event) => about(e) && e.eventType.AttemptStarted?
  }

  /** Identity and inputs stay what the first event said; the rest is the last word on each field. */
  ghost predicate AttemptSays(events: seq<Event>, id: string, a: Attempt) {
    var about := AboutAttempt(id);
    && a.attemptId == id
    && (forall k | First(events, about, k) && events[k].payload.ordinal.Some? ::
          a.ordinal == events[k].payload.ordinal.value)
    && Follows(events, about, FixedBy(ProcessNameOf()), a.processId)
    && Follows(events, about, FixedBy(RuntimeOf()), a.runtimeId)
    && Follows(events, about, FixedBy(ExecutionOf()), a.executionId)
    && Follows(events, about, FixedBy(OperationOf()), a.operation)
    && Follows(events, about, FixedBy(KeyGiven()), a.executionKey)
    && Follows(events, about, FixedBy(InputOf()), a.inputFingerprint)
    && Follows(events, about, FixedBy(VersionOf()), a.implementationVersion)
    && Follows(events, about, FixedBy(BackendOf()), a.backendSessionId)
    && Follows(events, about, FixedBy(SequenceOf()), a.firstEventSequence)
    && Follows(events, about, EverySays(about, SequenceOf()), a.lastEventSequence)
    && Follows(events, about, Carried(about, AttemptStatusOf(), Pending), a.status)
    && Follows(events, about, Carried(about, ClassOf(), NotStarted), a.statusClass)
    && Follows(events, about, Kept(about, CheckpointOf()), a.checkpointId)
    && Follows(events, about, Kept(about, ErrorOf()), a.error)
    && Follows(events, about, Kept(about, ResumedOf()), a.resumedFromAttemptId)
    && Follows(events, about, Kept(about, TerminationOf()), a.finishedAt)
    && FirstStart(events, Starts(about), a.startedAt)
  }

  /** A new attempt, numbered one when the event does not say. */
  function NewAttempt(e: Event): Attempt
    requires TouchesAttempt(e)
  {
    Attempt(e.attemptId.value, e.processId.value, e.runtimeId, e.executionId,
            if e.payload.ordinal.Some? then e.payload.ordinal.value else 1, AttemptOperation(e.payload),
            e.payload.executionKey, e.payload.inputFingerprint, e.payload.implementationVersion, Pending, NotStarted,
            None, None, None, None, e.payload.backendSessionId, e.sequence, None, None)
  }

  function NextAttempt(a: Option<Attempt>, e: Event): Attempt
    requires TouchesAttempt(e)
  {
    AttemptAfter(if a.Some? then a.value else NewAttempt(e), e)
  }

  function AttemptStep(): (Option<Attempt>, Event) --> Attempt {
    (a: Option<Attempt>, e: Event) requires e.eventType.IsAttempt() && e.processId.Some? && e.attemptId.Some? =>
      NextAttempt(a, e)
  }

  lemma StatusSaid(a: Attempt, e: Event)
    requires TouchesAttempt(e)
    ensures AttemptStatusOf()(e) == Some(AttemptAfter(a, e).status)
    ensures ClassOf()(e) == Some(AttemptAfter(a, e).statusClass)
  {
  }

  lemma EndSaid(a: Attempt, e: Event)
    requires TouchesAttempt(e)
    ensures AttemptAfter(a, e).finishedAt == if TerminationOf()(e).Some? then TerminationOf()(e) else a.finishedAt
  {
  }

  ghost predicate SameButOrdinal(events: seq<Event>, id: string, x: AttemptIndex) {
    var about, a := AboutAttempt(id), Along(events, AboutAttempt(id), AttemptStep());
    && (id in x.byId <==> a.Some?)
    && (id in x.byId ==>
          && x.byId[id] == a.value.(ordinal := x.byId[id].ordinal)
          && forall k | First(events, about, k) && events[k].payload.ordinal.Some? ::
               x.byId[id].ordinal == events[k].payload.ordinal.value)
  }

  lemma SameOneMore(init: seq<Event>, last: Event, id: string, x: AttemptIndex)
    requires SameButOrdinal(init, id, x)
    ensures SameButOrdinal(init + [last], id, WithAttempt(x, last))
  {
    var about, step := AboutAttempt(id), AttemptStep();
    assert (init + [last])[..|init|] == init;
    AlongExists(init, about, step);
    hide First;
    if TouchesAttempt(last) && last.attemptId.value != id {
      assert id in WithAttempt(x, last).byId <==> id in x.byId;
    }
    forall k | First(init + [last], about, k) ensures (init + [last])[k] == if id in x.byId then init[k] else last {
      FirstOf(init, last, about, k);
    }
    forall k | First(init + [last], about, k) ensures id in x.byId ==> First(init, about, k) {
      FirstOf(init, last, about, k);
    }
  }

  lemma {:induction false} AttemptAlong(p: Projection, events: seq<Event>, enforce: bool, id: string)
    requires Fold(p, events, enforce).Success? && id !in p.core.attempts.byId
    ensures SameButOrdinal(events, id, Fold(p, events, enforce).value.core.attempts)
  {
    hide SameButOrdinal;
    if events == [] {
      assert SameButOrdinal([], id, p.core.attempts) by { NoAttemptYet(id, p.core.attempts); }
    } else {
      var init, last := events[..|events| - 1], events[|events| - 1];
      assert events == init + [last];
      AttemptAlong(p, init, enforce, id);
      SameOneMore(init, last, id, Fold(p, init, enforce).value.core.attempts);
      hide WithAttempt, WithCheckpoint, WithProcess, WithUnit, Rejects;
    }
  }

  lemma NoAttemptYet(id: string, x: AttemptIndex)
    requires id !in x.byId
    ensures SameButOrdinal([], id, x)
  {
  }

  lemma RowProcess(events: seq<Event>, about: Event -> bool, id: string)
    requires about == AboutAttempt(id)
    ensures var a := Along(events, about, AttemptStep());
      a.Some? ==> Follows(events, about, FixedBy(ProcessNameOf()), a.value.processId)
  {
    hide Follows, DefaultStatus, DefaultClass;
    FieldHistory(events, about, AttemptStep(), (a: Attempt) => a.processId, FixedBy(ProcessNameOf()));
  }

  lemma RowRuntime(events: seq<Event>, about: Event -> bool, id: string)
    requires about == AboutAttempt(id)
    ensures var a := Along(events, about, AttemptStep());
      a.Some? ==> Follows(events, about, FixedBy(RuntimeOf()), a.value.runtimeId)
  {
    hide Follows, DefaultStatus, DefaultClass;
    FieldHistory(events, about, AttemptStep(), (a: Attempt) => a.runtimeId, FixedBy(RuntimeOf()));
  }

  lemma RowExecution(events: seq<Event>, about: Event -> bool, id: string)
    requires about == AboutAttempt(id)
    ensures var a := Along(events, about, AttemptStep());
      a.Some? ==> Follows(events, about, FixedBy(ExecutionOf()), a.value.executionId)
  {
    hide Follows, DefaultStatus, DefaultClass;
    FieldHistory(events, about, AttemptStep(), (a: Attempt) => a.executionId, FixedBy(ExecutionOf()));
  }

  lemma RowOperation(events: seq<Event>, about: Event -> bool, id: string)
    requires about == AboutAttempt(id)
    ensures var a := Along(events, about, AttemptStep());
      a.Some? ==> Follows(events, about, FixedBy(OperationOf()), a.value.operation)
  {
    hide Follows, DefaultStatus, DefaultClass;
    FieldHistory(events, about, AttemptStep(), (a: Attempt) => a.operation, FixedBy(OperationOf()));
  }

  lemma RowKey(events: seq<Event>, about: Event -> bool, id: string)
    requires about == AboutAttempt(id)
    ensures var a := Along(events, about, AttemptStep());
      a.Some? ==> Follows(events, about, FixedBy(KeyGiven()), a.value.executionKey)
  {
    hide Follows, DefaultStatus, DefaultClass;
    FieldHistory(events, about, AttemptStep(), (a: Attempt) => a.executionKey, FixedBy(KeyGiven()));
  }

  lemma RowInput(events: seq<Event>, about: Event -> bool, id: string)
    requires about == AboutAttempt(id)
    ensures var a := Along(events, about, AttemptStep());
      a.Some? ==> Follows(events, about, FixedBy(InputOf()), a.value.inputFingerprint)
  {
    hide Follows, DefaultStatus, DefaultClass;
    FieldHistory(events, about, AttemptStep(), (a: Attempt) => a.inputFingerprint, FixedBy(InputOf()));
  }

  lemma RowVersion(events: seq<Event>, about: Event -> bool, id: string)
    requires about == AboutAttempt(id)
    ensures var a := Along(events, about, AttemptStep());
      a.Some? ==> Follows(events, about, FixedBy(VersionOf()), a.value.implementationVersion)
  {
    hide Follows, DefaultStatus, DefaultClass;
    FieldHistory(events, about, AttemptStep(), (a: Attempt) => a.implementationVersion, FixedBy(VersionOf()));
  }

  lemma RowBackend(events: seq<Event>, about: Event -> bool, id: string)
    requires about == AboutAttempt(id)
    ensures var a := Along(events, about, AttemptStep());
      a.Some? ==> Follows(events, about, FixedBy(BackendOf()), a.value.backendSessionId)
  {
    hide Follows, DefaultStatus, DefaultClass;
    FieldHistory(events, about, AttemptStep(), (a: Attempt) => a.backendSessionId, FixedBy(BackendOf()));
  }

  lemma RowFirstSeen(events: seq<Event>, about: Event -> bool, id: string)
    requires about == AboutAttempt(id)
    ensures var a := Along(events, about, AttemptStep());
      a.Some? ==> Follows(events, about, FixedBy(SequenceOf()), a.value.firstEventSequence)
  {
    hide Follows, DefaultStatus, DefaultClass;
    FieldHistory(events, about, AttemptStep(), (a: Attempt) => a.firstEventSequence, FixedBy(SequenceOf()));
  }

  lemma RowLastSeen(events: seq<Event>, about: Event -> bool, id: string)
    requires about == AboutAttempt(id)
    ensures var a := Along(events, about, AttemptStep());
      a.Some? ==> Follows(events, about, EverySays(about, SequenceOf()), a.value.lastEventSequence)
  {
    hide Follows, DefaultStatus, DefaultClass;
    FieldHistory(events, about, AttemptStep(), (a: Attempt) => a.lastEventSequence, EverySays(about, SequenceOf()));
  }

  lemma RowStatus(events: seq<Event>, about: Event -> bool, id: string)
    requires about == AboutAttempt(id)
    ensures var a := Along(events, about, AttemptStep());
      a.Some? ==> Follows(events, about, Carried(about, AttemptStatusOf(), Pending), a.value.status)
  {
    hide Follows, AttemptAfter, StatusGiven, ClassGiven;
    forall a: Attempt, e: Event | TouchesAttempt(e)
      ensures AttemptStatusOf()(e) == Some(AttemptAfter(a, e).status)
      ensures ClassOf()(e) == Some(AttemptAfter(a, e).statusClass)
    {
      StatusSaid(a, e);
    }
    FieldHistory(events, about, AttemptStep(), (a: Attempt) => a.status, Carried(about, AttemptStatusOf(), Pending));
  }

  lemma RowClass(events: seq<Event>, about: Event -> bool, id: string)
    requires about == AboutAttempt(id)
    ensures var a := Along(events, about, AttemptStep());
      a.Some? ==> Follows(events, about, Carried(about, ClassOf(), NotStarted), a.value.statusClass)
  {
    hide Follows, AttemptAfter, StatusGiven, ClassGiven;
    forall a: Attempt, e: Event | TouchesAttempt(e)
      ensures AttemptStatusOf()(e) == Some(AttemptAfter(a, e).status)
      ensures ClassOf()(e) == Some(AttemptAfter(a, e).statusClass)
    {
      StatusSaid(a, e);
    }
    FieldHistory(events, about, AttemptStep(), (a: Attempt) => a.statusClass, Carried(about, ClassOf(), NotStarted));
  }

  lemma CheckpointSaid(a: Attempt, e: Event)
    requires TouchesAttempt(e)
    ensures AttemptAfter(a, e).checkpointId == if CheckpointOf()(e).Some? then CheckpointOf()(e) else a.checkpointId
  {
    hide DefaultStatus, DefaultClass;
  }

  lemma RowCheckpoint(events: seq<Event>, about: Event -> bool, id: string)
    requires about == AboutAttempt(id)
    ensures var a := Along(events, about, AttemptStep());
      a.Some? ==> Follows(events, about, Kept(about, CheckpointOf()), a.value.checkpointId)
  {
    hide Follows, AttemptAfter, CheckpointOf;
    forall a: Attempt, e: Event | TouchesAttempt(e)
      ensures AttemptAfter(a, e).checkpointId == if CheckpointOf()(e).Some? then CheckpointOf()(e) else a.checkpointId
    {
      CheckpointSaid(a, e);
    }
    FieldHistory(events, about, AttemptStep(), (a: Attempt) => a.checkpointId, Kept(about, CheckpointOf()));
  }

  lemma RowError(events: seq<Event>, about: Event -> bool, id: string)
    requires about == AboutAttempt(id)
    ensures var a := Along(events, about, AttemptStep());
      a.Some? ==> Follows(events, about, Kept(about, ErrorOf()), a.value.error)
  {
    hide Follows, DefaultStatus, DefaultClass;
    FieldHistory(events, about, AttemptStep(), (a: Attempt) => a.error, Kept(about, ErrorOf()));
  }

  lemma RowResumed(events: seq<Event>, about: Event -> bool, id: string)
    requires about == AboutAttempt(id)
    ensures var a := Along(events, about, AttemptStep());
      a.Some? ==> Follows(events, about, Kept(about, ResumedOf()), a.value.resumedFromAttemptId)
  {
    hide Follows, DefaultStatus, DefaultClass;
    FieldHistory(events, about, AttemptStep(), (a: Attempt) => a.resumedFromAttemptId, Kept(about, ResumedOf()));
  }

  lemma RowFinish(events: seq<Event>, about: Event -> bool, id: string)
    requires about == AboutAttempt(id)
    ensures var a := Along(events, about, AttemptStep());
      a.Some? ==> Follows(events, about, Kept(about, TerminationOf()), a.value.finishedAt)
  {
    hide Follows, AttemptAfter;
    forall a: Attempt, e: Event | TouchesAttempt(e)
      ensures AttemptAfter(a, e).finishedAt == if TerminationOf()(e).Some? then TerminationOf()(e) else a.finishedAt
    {
      EndSaid(a, e);
    }
    hide TerminationOf;
    assert forall e: Event | TouchesAttempt(e) :: NewAttempt(e).finishedAt == None;
    FieldHistory(events, about, AttemptStep(), (a: Attempt) => a.finishedAt, Kept(about, TerminationOf()));
  }

  lemma AttemptStart(events: seq<Event>, about: Event -> bool, id: string)
    requires about == AboutAttempt(id)
    ensures var a := Along(events, about, AttemptStep());
      FirstStart(events, Starts(about), if a.Some? then a.value.startedAt else None)
  {
    hide FirstStart;
    StartHistory(events, about, AttemptStep(), (a: Attempt) => a.startedAt, Starts(about));
  }

  lemma {:induction false} AttemptNamed(events: seq<Event>, id: string)
    ensures var a := Along(events, AboutAttempt(id), AttemptStep()); a.Some? ==> a.value.attemptId == id
  {
    if events != [] { AttemptNamed(events[..|events| - 1], id); }
  }

  lemma AttemptHistory(events: seq<Event>, id: string, x: AttemptIndex)
    requires SameButOrdinal(events, id, x) && id in x.byId
    ensures AttemptSays(events, id, x.byId[id])
  {
    hide Along, Follows, FirstStart, First;
    var about := AboutAttempt(id);
    AttemptNamed(events, id);
    AttemptStart(events, about, id);
    RowProcess(events, about, id);
    RowRuntime(events, about, id);
    RowExecution(events, about, id);
    RowOperation(events, about, id);
    RowKey(events, about, id);
    RowInput(events, about, id);
    RowVersion(events, about, id);
    RowBackend(events, about, id);
    RowFirstSeen(events, about, id);
    RowLastSeen(events, about, id);
    RowStatus(events, about, id);
    RowClass(events, about, id);
    RowCheckpoint(events, about, id);
    RowError(events, about, id);
    RowResumed(events, about, id);
    RowFinish(events, about, id);
  }

  /** Main result for attempts: a reduction holds exactly the attempts that some attempt event names. */
  lemma ReducedAttempt(events: seq<Event>, policy: Policy, id: string)
    requires Reduce(events, policy).Success?
    ensures var byId := Reduce(events, policy).value.core.attempts.byId;
      && (id in byId <==> exists e :: e in events && AboutAttempt(id)(e))
      && (id in byId ==> AttemptSays(Sort(EventLeq, events), id, byId[id]))
  {
    var ordered := Sort(EventLeq, events);
    AttemptAlong(EmptyProjection(if ordered != [] then ordered[0].runtimeId else "runtime"), ordered, false, id);
    AlongExists(ordered, AboutAttempt(id), AttemptStep());
    SameMembers(ordered, events);
    var x := Reduce(events, policy).value.core.attempts;
    hide Fold;
    assert id in x.byId <==> Along(ordered, AboutAttempt(id), AttemptStep()).Some?;
    hide AttemptSays, Along, AboutAttempt, SameButOrdinal;
    if id in x.byId { AttemptHistory(ordered, id, x); }
  }

  // ---------------------------------------------------------------- checkpoints

  /** A commit that names the checkpoint it carries sets it, an invalidation clears it. */
  function CheckpointRule(id: string): Rule<Option<CheckpointRef>> {
    Rule((e: Event) =>
           && e.checkpointId == Some(id)
           && (e.eventType.CheckpointInvalidated? ||
               (e.eventType.CheckpointCommitted? && e.payload.checkpoint.Some?
                && e.payload.checkpoint.value.checkpointId == id)),
         (e: Event) => if e.eventType.CheckpointInvalidated? then None else e.payload.checkpoint,
         (e: Event) => None)
  }

  lemma CheckpointOneMore(x: CheckpointIndex, e: Event, id: string)
    ensures Lookup(WithCheckpoint(x, e).live, id) ==
      if CheckpointRule(id).sets(e) then CheckpointRule(id).value(e) else Lookup(x.live, id)
  {
    hide MaxCheckpoint, HasCheckpoint, NotNewer;
  }

  lemma {:induction false} CheckpointHistory(p: Projection, events: seq<Event>, enforce: bool, id: string)
    requires Fold(p, events, enforce).Success? && id !in p.core.checkpoints.live
    ensures LastWins(events, CheckpointRule(id), None, Lookup(Fold(p, events, enforce).value.core.checkpoints.live, id))
  {
    hide LastWins;
    if events == [] {
      NothingSaid([], CheckpointRule(id), None);
    } else {
      var init, last := events[..|events| - 1], events[|events| - 1];
      assert events == init + [last];
      CheckpointHistory(p, init, enforce, id);
      var x := Fold(p, init, enforce).value.core.checkpoints;
      CheckpointOneMore(x, last, id);
      OneMoreSays(init, last, CheckpointRule(id), None, Lookup(x.live, id));
      hide WithAttempt, WithCheckpoint, WithProcess, WithUnit, Rejects;
    }
  }

  /** Main result for checkpoints: live is what the last commit or invalidation of the id left. */
  lemma ReducedCheckpoint(events: seq<Event>, policy: Policy, id: string)
    requires Reduce(events, policy).Success?
    ensures LastWins(Sort(EventLeq, events), CheckpointRule(id), None,
                     Lookup(Reduce(events, policy).value.core.checkpoints.live, id))
  {
    hide LastWins;
    var ordered := Sort(EventLeq, events);
    CheckpointHistory(EmptyProjection(if ordered != [] then ordered[0].runtimeId else "runtime"), ordered, false, id);
  }

  // ---------------------------------------------------------------- what is only collected

  function Errors(events: seq<Event>): seq<ErrorInfo> {
    if events == [] then []
    else
      var last := events[|events| - 1];
      Errors(events[..|events| - 1]) + if last.error.Some? then [last.error.value] else []
  }

  function Artifacts(events: seq<Event>): seq<ArtifactEntry> {
    if events == [] then []
    else
      var e := events[|events| - 1];
      Artifacts(events[..|events| - 1])
      + if e.eventType.ArtifactProduced? || e.eventType.ArtifactUpdated? || e.eventType.ArtifactRemoved?
        then [ArtifactEntry(e.payload, e.eventType, e.processId, e.timestamp)] else []
  }

  /** The ids of the events that report on a unit. */
  function Reports(events: seq<Event>, id: string): seq<string> {
    if events == [] then []
    else
      var last := events[|events| - 1];
      Reports(events[..|events| - 1], id) + if AboutUnit(id)(last) then [IdText(last.eventId)] else []
  }

  lemma {:induction false} CollectedAlong(p: Projection, events: seq<Event>, enforce: bool)
    requires Fold(p, events, enforce).Success?
    ensures var q := Fold(p, events, enforce).value;
      && q.core.errorSummary == p.core.errorSummary + Errors(events)
      && q.core.artifactIndex == p.core.artifactIndex + Artifacts(events)
  {
    if events != [] {
      CollectedAlong(p, events[..|events| - 1], enforce);
      hide WithAttempt, WithCheckpoint, WithProcess, WithUnit, Rejects;
    }
  }

  lemma {:induction false} ReportsAlong(p: Projection, events: seq<Event>, enforce: bool, id: string)
    requires Fold(p, events, enforce).Success? && id !in p.core.units.eventIds
    ensures var ids := Fold(p, events, enforce).value.core.units.eventIds;
      Reports(events, id) == if id in ids then ids[id] else []
  {
    if events != [] {
      ReportsAlong(p, events[..|events| - 1], enforce, id);
      UnitNamed(events[|events| - 1], id);
      hide WithAttempt, WithCheckpoint, WithProcess, UnitAfter, Rejects, NamedUnit, AboutUnit, IdText;
    }
  }

  /** Errors and artifacts are those of the events, in order, and so are the event ids of every unit. */
  lemma ReducedCollections(events: seq<Event>, policy: Policy, id: string)
    requires Reduce(events, policy).Success?
    ensures var p, ordered := Reduce(events, policy).value, Sort(EventLeq, events);
      && p.core.errorSummary == Errors(ordered) && p.core.artifactIndex == Artifacts(ordered)
      && Reports(ordered, id) == if id in p.core.units.eventIds then p.core.units.eventIds[id] else []
  {
    var ordered := Sort(EventLeq, events);
    var start := EmptyProjection(if ordered != [] then ordered[0].runtimeId else "runtime");
    CollectedAlong(start, ordered, false);
    ReportsAlong(start, ordered, false, id);
    hide Fold, Errors, Artifacts, Reports;
  }
}
