/** What a reduced projection says, read off the events alone: which processes, units, attempts and
    checkpoints it holds, every field as the last event that sets it, and the overall status. */
module ProjectionFacts {
  import opened RuntimeTypes
  import opened Sorting
  import opened RuntimeProjections
  import opened EventHistory
  import ReducerProofs

  // ---------------------------------------------------------------- reported process states

  function AboutProcess(id: string): Event -> bool {
    (e: Event) => e.processId == Some(id) && e.subjectType != Some("unit") && e.subjectType != Some("fsm.transition")
  }

  /** The class an event gives its process: its own, or the one that goes with an attempt event. */
  function ClassGiven(e: Event): Option<StatusClass> {
    if e.statusClass.Some? then e.statusClass
    else
      match e.eventType
      case AttemptCreated => Some(NotStarted)
      case AttemptStarted => Some(Active)
      case AttemptCompleted => Some(TerminalSuccess)
      case AttemptFailed => Some(TerminalFailure)
      case AttemptCancelled => Some(TerminalCancelled)
      case AttemptInterrupted => Some(TerminalFailure)
      case _ => None
  }

  function StatusGiven(e: Event): Option<Status> {
    if e.status.Some? then e.status
    else
      match e.eventType
      case AttemptCreated => Some(Pending)
      case AttemptStarted => Some(Running)
      case AttemptCompleted => Some(Succeeded)
      case AttemptFailed => Some(Failed)
      case AttemptCancelled => Some(Cancelled)
      case AttemptInterrupted => Some(Interrupted)
      case _ => None
  }

  /** A field that the events about it set when they carry a value, and that starts out as `initial`. */
  function Carried<T>(about: Event -> bool, carries: Event -> Option<T>, initial: T): Rule<T> {
    Rule((e: Event) => about(e) && carries(e).Some?,
         (e: Event) => if carries(e).Some? then carries(e).value else initial, (e: Event) => initial)
  }

  /** The same for a field that may be empty: it keeps the value as an option. */
  function Kept<T>(about: Event -> bool, carries: Event -> Option<T>): Rule<Option<T>> {
    Rule((e: Event) => about(e) && carries(e).Some?, carries, (e: Event) => None)
  }

  /** The first event fills in what it says, empty text included; later ones count only with other text. */
  function TextKept(about: Event -> bool, carries: Event -> Option<string>): Rule<Option<string>> {
    Rule((e: Event) => about(e) && carries(e).Some? && carries(e) != Some(""), carries, carries)
  }

  function ParentOf(): Event -> Option<string> { (e: Event) => e.parentProcessId }
  function AttemptOf(): Event -> Option<string> { (e: Event) => e.attemptId }
  function TypeOf(): Event -> Option<string> { (e: Event) => e.payload.processType }
  function StatusOf(): Event -> Option<Status> { (e: Event) => StatusGiven(e) }
  function ClassOf(): Event -> Option<StatusClass> { (e: Event) => ClassGiven(e) }
  function TimeOf(): Event -> Option<Time> { (e: Event) => Some(e.timestamp) }
  function ProgressOf(): Event -> Option<Json> { (e: Event) => e.progress }
  function ErrorOf(): Event -> Option<ErrorInfo> { (e: Event) => e.error }

  /** Only a resource sample reports a usage. */
  function UsageOf(): Event -> Option<Json> {
    (e: Event) => if e.eventType.ResourceSampled? && e.payload.resourceUsage.Some?
                     && e.payload.resourceUsage.value.Usage?
                  then Some(e.payload.resourceUsage.value.usage) else None
  }

  function FinishOf(): Event -> Option<Time> {
    (e: Event) => match ClassGiven(e)
                  case Some(TerminalSuccess) => Some(e.timestamp)
                  case Some(TerminalFailure) => Some(e.timestamp)
                  case Some(TerminalCancelled) => Some(e.timestamp)
                  case _ => None
  }

  /** A success reports a result; one that is no dict is wrapped in one. */
  function ResultOf(): Event -> Option<Json> {
    (e: Event) => if ClassGiven(e) == Some(TerminalSuccess) && e.payload.result.Some?
                  then Some(match e.payload.result.value
                            case Dict(text) => Dict(text)
                            case Scalar(text) => Dict("{value: " + text + "}")
                            case Null => Dict("{value: null}"))
                  else None
  }

  function Begins(about: Event -> bool): Event -> bool {
    (e: Event) => about(e) && ClassGiven(e) == Some(Active)
  }

  /** The state of a process is what the events about it say. */
  ghost predicate ProcessSays(events: seq<Event>, id: string, s: ProcessState) {
    var about := AboutProcess(id);
    && s.processId == id
    && Follows(events, about, TextKept(about, ParentOf()), s.parentProcessId)
    && Follows(events, about, Kept(about, AttemptOf()), s.currentAttemptId)
    && Follows(events, about, Kept(about, TypeOf()), s.processType)
    && Follows(events, about, Carried(about, StatusOf(), Pending), s.status)
    && Follows(events, about, Carried(about, ClassOf(), NotStarted), s.statusClass)
    && Follows(events, about, Kept(about, TimeOf()), s.updatedAt)
    && Follows(events, about, Kept(about, ProgressOf()), s.progress)
    && Follows(events, about, Kept(about, ErrorOf()), s.error)
    && Follows(events, about, Kept(about, UsageOf()), s.resourceUsage)
    && Follows(events, about, Kept(about, FinishOf()), s.finishedAt)
    && Follows(events, about, Kept(about, ResultOf()), s.result)
    && FirstStart(events, Begins(about), s.startedAt)
  }

  function ProcessStep(): (Option<ProcessState>, Event) --> ProcessState {
    (s: Option<ProcessState>, e: Event) requires e.processId.Some? => ProcessAfter(s, e)
  }

  lemma {:induction false} ProcessAlong(p: Projection, events: seq<Event>, enforce: bool, id: string)
    requires Fold(p, events, enforce).Success? && id !in p.core.processes.states
    ensures Lookup(Fold(p, events, enforce).value.core.processes.states, id) ==
      Along(events, AboutProcess(id), ProcessStep())
  {
    if events != [] {
      ProcessAlong(p, events[..|events| - 1], enforce, id);
      hide ProcessAfter, WithAttempt, WithCheckpoint, WithUnit, Rejects;
    }
  }

  // One event, field by field.

  lemma StatusStep(s: Option<ProcessState>, e: Event)
    requires e.processId.Some?
    ensures ProcessAfter(s, e).status ==
      if StatusGiven(e).Some? then StatusGiven(e).value else if s.Some? then s.value.status else Pending
  {
  }

  lemma ClassStep(s: Option<ProcessState>, e: Event)
    requires e.processId.Some?
    ensures EffectiveClass(e) == ClassGiven(e)
    ensures ProcessAfter(s, e).statusClass ==
      if ClassGiven(e).Some? then ClassGiven(e).value else if s.Some? then s.value.statusClass else NotStarted
  {
  }

  lemma ResultStep(s: Option<ProcessState>, e: Event)
    requires e.processId.Some?
    ensures ProcessAfter(s, e).result ==
      if ResultOf()(e).Some? then ResultOf()(e) else if s.Some? then s.value.result else None
  {
    ClassStep(s, e);
    hide ClassGiven, EffectiveClass;
    assert "{value: " + "null" + "}" == "{value: null}";
  }

  lemma ProgressStep(s: Option<ProcessState>, e: Event)
    requires e.processId.Some?
    ensures ProcessAfter(s, e).progress ==
      if e.progress.Some? then e.progress else if s.Some? then s.value.progress else None
  {
    hide EffectiveClass;
  }

  lemma UsageStep(s: Option<ProcessState>, e: Event)
    requires e.processId.Some?
    ensures ProcessAfter(s, e).resourceUsage ==
      if UsageOf()(e).Some? then UsageOf()(e) else if s.Some? then s.value.resourceUsage else None
  {
    hide EffectiveClass;
  }

  lemma FinishStep(s: Option<ProcessState>, e: Event)
    requires e.processId.Some?
    ensures ProcessAfter(s, e).finishedAt ==
      if FinishOf()(e).Some? then FinishOf()(e) else if s.Some? then s.value.finishedAt else None
  {
    ClassStep(s, e);
    hide ClassGiven, EffectiveClass;
  }

  lemma StartStep(s: Option<ProcessState>, e: Event)
    requires e.processId.Some?
    ensures ProcessAfter(s, e).startedAt ==
      var before := if s.Some? then s.value.startedAt else None;
      if ClassGiven(e) == Some(Active) then OrTime(before, e.timestamp) else before
  {
    ClassStep(s, e);
    hide ClassGiven, EffectiveClass;
  }

  // Each field over all the events.

  lemma ProcessParent(events: seq<Event>, about: Event -> bool, id: string)
    requires about == AboutProcess(id)
    ensures var s := Along(events, about, ProcessStep());
      s.Some? ==> Follows(events, about, TextKept(about, ParentOf()), s.value.parentProcessId)
  {
    hide Follows;
    FieldHistory(events, about, ProcessStep(), (s: ProcessState) => s.parentProcessId, TextKept(about, ParentOf()));
  }

  lemma ProcessAttempt(events: seq<Event>, about: Event -> bool, id: string)
    requires about == AboutProcess(id)
    ensures var s := Along(events, about, ProcessStep());
      s.Some? ==> Follows(events, about, Kept(about, AttemptOf()), s.value.currentAttemptId)
  {
    hide Follows;
    FieldHistory(events, about, ProcessStep(), (s: ProcessState) => s.currentAttemptId, Kept(about, AttemptOf()));
  }

  lemma ProcessType(events: seq<Event>, about: Event -> bool, id: string)
    requires about == AboutProcess(id)
    ensures var s := Along(events, about, ProcessStep());
      s.Some? ==> Follows(events, about, Kept(about, TypeOf()), s.value.processType)
  {
    hide Follows;
    FieldHistory(events, about, ProcessStep(), (s: ProcessState) => s.processType, Kept(about, TypeOf()));
  }

  lemma ProcessStatus(events: seq<Event>, about: Event -> bool, id: string)
    requires about == AboutProcess(id)
    ensures var s := Along(events, about, ProcessStep());
      s.Some? ==> Follows(events, about, Carried(about, StatusOf(), Pending), s.value.status)
  {
    hide Follows, ProcessAfter, StatusGiven, ClassGiven;
    forall s: Option<ProcessState>, e: Event | about(e)
      ensures ProcessAfter(s, e).status ==
        if StatusGiven(e).Some? then StatusGiven(e).value else if s.Some? then s.value.status else Pending
    { StatusStep(s, e); }
    FieldHistory(events, about, ProcessStep(), (s: ProcessState) => s.status, Carried(about, StatusOf(), Pending));
  }

  lemma ProcessClass(events: seq<Event>, about: Event -> bool, id: string)
    requires about == AboutProcess(id)
    ensures var s := Along(events, about, ProcessStep());
      s.Some? ==> Follows(events, about, Carried(about, ClassOf(), NotStarted), s.value.statusClass)
  {
    hide Follows, ProcessAfter, StatusGiven, ClassGiven;
    forall s: Option<ProcessState>, e: Event | about(e)
      ensures ProcessAfter(s, e).statusClass ==
        if ClassGiven(e).Some? then ClassGiven(e).value else if s.Some? then s.value.statusClass else NotStarted
    { ClassStep(s, e); }
    FieldHistory(events, about, ProcessStep(), (s: ProcessState) => s.statusClass,
                 Carried(about, ClassOf(), NotStarted));
  }

  lemma ProcessUpdate(events: seq<Event>, about: Event -> bool, id: string)
    requires about == AboutProcess(id)
    ensures var s := Along(events, about, ProcessStep());
      s.Some? ==> Follows(events, about, Kept(about, TimeOf()), s.value.updatedAt)
  {
    hide Follows;
    FieldHistory(events, about, ProcessStep(), (s: ProcessState) => s.updatedAt, Kept(about, TimeOf()));
  }

  lemma ProcessProgress(events: seq<Event>, about: Event -> bool, id: string)
    requires about == AboutProcess(id)
    ensures var s := Along(events, about, ProcessStep());
      s.Some? ==> Follows(events, about, Kept(about, ProgressOf()), s.value.progress)
  {
    hide Follows;
    FieldHistory(events, about, ProcessStep(), (s: ProcessState) => s.progress, Kept(about, ProgressOf()));
  }

  lemma ProcessError(events: seq<Event>, about: Event -> bool, id: string)
    requires about == AboutProcess(id)
    ensures var s := Along(events, about, ProcessStep());
      s.Some? ==> Follows(events, about, Kept(about, ErrorOf()), s.value.error)
  {
    hide Follows;
    FieldHistory(events, about, ProcessStep(), (s: ProcessState) => s.error, Kept(about, ErrorOf()));
  }

  lemma ProcessUsage(events: seq<Event>, about: Event -> bool, id: string)
    requires about == AboutProcess(id)
    ensures var s := Along(events, about, ProcessStep());
      s.Some? ==> Follows(events, about, Kept(about, UsageOf()), s.value.resourceUsage)
  {
    hide Follows, ProcessAfter, StatusGiven, ClassGiven;
    forall s: Option<ProcessState>, e: Event | about(e)
      ensures ProcessAfter(s, e).resourceUsage ==
        if UsageOf()(e).Some? then UsageOf()(e) else if s.Some? then s.value.resourceUsage else None
    { UsageStep(s, e); }
    FieldHistory(events, about, ProcessStep(), (s: ProcessState) => s.resourceUsage, Kept(about, UsageOf()));
  }

  lemma ProcessFinish(events: seq<Event>, about: Event -> bool, id: string)
    requires about == AboutProcess(id)
    ensures var s := Along(events, about, ProcessStep());
      s.Some? ==> Follows(events, about, Kept(about, FinishOf()), s.value.finishedAt)
  {
    hide Follows, ProcessAfter, StatusGiven, ClassGiven;
    forall s: Option<ProcessState>, e: Event | about(e)
      ensures ProcessAfter(s, e).finishedAt ==
        if FinishOf()(e).Some? then FinishOf()(e) else if s.Some? then s.value.finishedAt else None
    { FinishStep(s, e); }
    FieldHistory(events, about, ProcessStep(), (s: ProcessState) => s.finishedAt, Kept(about, FinishOf()));
  }

  lemma ProcessResult(events: seq<Event>, about: Event -> bool, id: string)
    requires about == AboutProcess(id)
    ensures var s := Along(events, about, ProcessStep());
      s.Some? ==> Follows(events, about, Kept(about, ResultOf()), s.value.result)
  {
    hide Follows, ProcessAfter, StatusGiven, ClassGiven;
    forall s: Option<ProcessState>, e: Event | about(e)
      ensures ProcessAfter(s, e).result ==
        if ResultOf()(e).Some? then ResultOf()(e) else if s.Some? then s.value.result else None
    { ResultStep(s, e); }
    FieldHistory(events, about, ProcessStep(), (s: ProcessState) => s.result, Kept(about, ResultOf()));
  }

  lemma ProcessStart(events: seq<Event>, about: Event -> bool, id: string)
    requires about == AboutProcess(id)
    ensures var s := Along(events, about, ProcessStep());
      FirstStart(events, Begins(about), if s.Some? then s.value.startedAt else None)
  {
    hide FirstStart, ProcessAfter, ClassGiven;
    forall s: Option<ProcessState>, e: Event | about(e)
      ensures ProcessAfter(s, e).startedAt ==
        var before := if s.Some? then s.value.startedAt else None;
        if ClassGiven(e) == Some(Active) then OrTime(before, e.timestamp) else before
    {
      StartStep(s, e);
    }
    StartHistory(events, about, ProcessStep(), (s: ProcessState) => s.startedAt, Begins(about));
  }

  lemma {:induction false} ProcessNamed(events: seq<Event>, id: string)
    ensures var s := Along(events, AboutProcess(id), ProcessStep()); s.Some? ==> s.value.processId == id
  {
    if events != [] { ProcessNamed(events[..|events| - 1], id); }
  }

  lemma ProcessHistory(events: seq<Event>, id: string)
    ensures var s := Along(events, AboutProcess(id), ProcessStep()); s.Some? ==> ProcessSays(events, id, s.value)
  {
    hide Along, Follows, FirstStart;
    var about := AboutProcess(id);
    ProcessNamed(events, id);
    ProcessParent(events, about, id);
    ProcessAttempt(events, about, id);
    ProcessType(events, about, id);
    ProcessStatus(events, about, id);
    ProcessClass(events, about, id);
    ProcessUpdate(events, about, id);
    ProcessProgress(events, about, id);
    ProcessError(events, about, id);
    ProcessUsage(events, about, id);
    ProcessFinish(events, about, id);
    ProcessResult(events, about, id);
    ProcessStart(events, about, id);
  }

  /** Main result for process states: a reduction reports exactly the processes that some event is about, and
      each as the events about it say. */
  lemma ReducedProcess(events: seq<Event>, policy: Policy, id: string)
    requires Reduce(events, policy).Success?
    ensures var states := Reduce(events, policy).value.core.processes.states;
      && (id in states <==> exists e :: e in events && AboutProcess(id)(e))
      && (id in states ==> ProcessSays(Sort(EventLeq, events), id, states[id]))
  {
    var ordered := Sort(EventLeq, events);
    ProcessAlong(EmptyProjection(if ordered != [] then ordered[0].runtimeId else "runtime"), ordered, false, id);
    ProcessHistory(ordered, id);
    AlongExists(ordered, AboutProcess(id), ProcessStep());
    SameMembers(ordered, events);
    hide ProcessSays, Along, Fold, AboutProcess;
  }

  /** The two summaries repeat the progress and the usage of the process states. */
  ghost predicate Summarised(x: ProcessIndex) {
    ProgressListed(x) && UsageListed(x)
  }

  ghost predicate ProgressListed(x: ProcessIndex) {
    && (forall id :: id in x.progress <==> id in x.states && x.states[id].progress.Some?)
    && (forall id | id in x.progress :: x.states[id].progress == Some(x.progress[id]))
  }

  ghost predicate UsageListed(x: ProcessIndex) {
    && (forall id :: id in x.resources <==> id in x.states && x.states[id].resourceUsage.Some?)
    && (forall id | id in x.resources :: x.states[id].resourceUsage == Some(x.resources[id]))
  }

  lemma {:induction false} SummariesAlong(p: Projection, events: seq<Event>, enforce: bool)
    requires Fold(p, events, enforce).Success? && Summarised(p.core.processes)
    ensures Summarised(Fold(p, events, enforce).value.core.processes)
  {
    if events != [] {
      SummariesAlong(p, events[..|events| - 1], enforce);
      SummarisedOneMore(Fold(p, events[..|events| - 1], enforce).value.core.processes, events[|events| - 1]);
      hide Summarised, WithProcess, WithAttempt, WithCheckpoint, WithUnit, Rejects;
    }
  }

  lemma SummarisedOneMore(x: ProcessIndex, e: Event)
    requires Summarised(x)
    ensures Summarised(WithProcess(x, e))
  {
    hide ProgressListed, UsageListed;
    ProgressOneMore(x, e);
    UsageOneMore(x, e);
  }

  lemma ProgressOneMore(x: ProcessIndex, e: Event)
    requires ProgressListed(x)
    ensures ProgressListed(WithProcess(x, e))
  {
    hide EffectiveClass, ReportsUnit, ProcessAfter, SamplesResources;
    if e.processId.Some? { ProgressStep(Lookup(x.states, e.processId.value), e); }
  }

  lemma UsageOneMore(x: ProcessIndex, e: Event)
    requires UsageListed(x)
    ensures UsageListed(WithProcess(x, e))
  {
    hide EffectiveClass, ReportsUnit, ProcessAfter;
    if e.processId.Some? { UsageStep(Lookup(x.states, e.processId.value), e); }
  }

  lemma ReducedSummaries(events: seq<Event>, policy: Policy)
    requires Reduce(events, policy).Success?
    ensures Summarised(Reduce(events, policy).value.core.processes)
  {
    var ordered := Sort(EventLeq, events);
    SummariesAlong(EmptyProjection(if ordered != [] then ordered[0].runtimeId else "runtime"), ordered, false);
    hide Summarised, Fold;
  }

  // ---------------------------------------------------------------- the order of events

  /** Events with a sequence come first, by sequence; the others by time. */
  ghost predicate InOrder(events: seq<Event>, ordered: seq<Event>) {
    && multiset(ordered) == multiset(events)
    && forall i, j | 0 <= i < j < |ordered| ::
         var a, b := ordered[i], ordered[j];
         && (b.sequence.Some? ==> a.sequence.Some? && a.sequence.value <= b.sequence.value)
         && (a.sequence.None? && b.sequence.None? ==> a.timestamp <= b.timestamp)
  }

  lemma ReductionOrder(events: seq<Event>)
    ensures InOrder(events, Sort(EventLeq, events))
  {
    hide NumericId, IdText, TextLeq, EventLeq;
    forall a, b, c | a in events && b in events && c in events
      ensures EventLeq(a, b) || EventLeq(b, a)
      ensures EventLeq(a, b) && EventLeq(b, c) ==> EventLeq(a, c)
    {
      EventsCompare(a, b, c);
    }
    SortSorted(EventLeq, events);
    var ordered := Sort(EventLeq, events);
    forall i, j | 0 <= i < j < |ordered|
      ensures var a, b := ordered[i], ordered[j];
        && (b.sequence.Some? ==> a.sequence.Some? && a.sequence.value <= b.sequence.value)
        && (a.sequence.None? && b.sequence.None? ==> a.timestamp <= b.timestamp)
    {
      assert EventLeq(ordered[i], ordered[j]);
      EventsCompare(ordered[i], ordered[j], ordered[j]);
    }
  }

  lemma EventsCompare(a: Event, b: Event, c: Event)
    ensures EventLeq(a, b) || EventLeq(b, a)
    ensures EventLeq(a, b) && EventLeq(b, c) ==> EventLeq(a, c)
    ensures EventLeq(a, b) ==> b.sequence.Some? ==> a.sequence.Some? && a.sequence.value <= b.sequence.value
    ensures EventLeq(a, b) && a.sequence.None? && b.sequence.None? ==> a.timestamp <= b.timestamp
  {
    ReducerProofs.KeyOrder(KeyOf(a), KeyOf(b), KeyOf(c));
    hide NumericId, IdText, TextLeq;
  }

  // ---------------------------------------------------------------- the overall status

  predicate AnyOf(ps: map<string, ProcessState>, c: StatusClass) {
    exists id | id in ps :: ps[id].statusClass == c
  }

  /** Failure counts most, then cancellation, then activity; all succeeded is success; otherwise the pair is
      what the runtime's own events left. */
  predicate Overall(ps: map<string, ProcessState>, status: Status, c: StatusClass, own: Status, ownClass: StatusClass) {
    if AnyOf(ps, TerminalFailure) then status == Failed && c == TerminalFailure
    else if AnyOf(ps, TerminalCancelled) then status == Cancelled && c == TerminalCancelled
    else if AnyOf(ps, Active) then status == Running && c == Active
    else if ps != map[] && forall id | id in ps :: ps[id].statusClass == TerminalSuccess
    then status == Succeeded && c == TerminalSuccess
    else status == own && c == ownClass
  }

  /** Every aggregate of the processes and units is counted from them. */
  predicate Counted(p: Projection) {
    var ps := p.derived.processes;
    && p.derived.successCount == |set id | id in ps && ps[id].statusClass == TerminalSuccess|
    && p.derived.failureCount == |set id | id in ps && ps[id].statusClass == TerminalFailure|
    && p.derived.cancelledCount == |set id | id in ps && ps[id].statusClass == TerminalCancelled|
    && p.derived.activeProcessIds == (set id | id in ps && ps[id].statusClass == Active)
    && p.derived.activeUnitIds == set id | id in p.core.units.states && p.core.units.states[id].statusClass == Active
  }

  lemma FinalOverall(q: Projection, policy: Policy)
    ensures var p := Finalize(q, policy);
      && p.core == q.core && Counted(p)
      && Overall(p.derived.processes, p.status, p.statusClass, q.status, q.statusClass)
  {
    hide Propagated, ActiveUnits;
    var ps := Propagated(q.core.processes, policy);
    NoneOf(ps, TerminalFailure);
    NoneOf(ps, TerminalCancelled);
    NoneOf(ps, Active);
    AllOf(ps, TerminalSuccess);
    ActiveListed(q.core.units.states);
    hide WithClass;
    SameCounts(ps);
  }

  lemma SameCounts(ps: map<string, ProcessState>)
    ensures forall c :: WithClass(ps, c) == set id | id in ps && ps[id].statusClass == c
  {
  }

  lemma ActiveListed(units: map<string, UnitState>)
    ensures ActiveUnits(units) == set id | id in units && units[id].statusClass == Active
  {
  }

  lemma NoneOf(ps: map<string, ProcessState>, c: StatusClass)
    ensures WithClass(ps, c) != {} <==> AnyOf(ps, c)
    ensures |WithClass(ps, c)| != 0 <==> AnyOf(ps, c)
  {
    if id :| id in ps && ps[id].statusClass == c { assert id in WithClass(ps, c); }
  }

  lemma AllOf(ps: map<string, ProcessState>, c: StatusClass)
    ensures |WithClass(ps, c)| == |ps| <==> forall id | id in ps :: ps[id].statusClass == c
  {
    var some := WithClass(ps, c);
    assert some <= ps.Keys && |ps.Keys| == |ps|;
    if |some| == |ps| {
      SameSize(some, ps.Keys);
      forall id | id in ps ensures ps[id].statusClass == c { assert id in some; }
    } else {
      assert some != ps.Keys;
    }
  }

  lemma SameSize(a: set<string>, b: set<string>)
    requires a <= b && |a| == |b|
    ensures a == b
  {
    assert |b - a| == |b| - |a|;
    assert b == a + (b - a);
  }

  /** The pair the runtime's own events leave, those without a process. */
  function OwnStatus(start: Status): Rule<Status> {
    Rule((e: Event) => e.processId.None? && e.status.Some?,
         (e: Event) => if e.status.Some? then e.status.value else start, (e: Event) => start)
  }

  function OwnClass(start: StatusClass): Rule<StatusClass> {
    Rule((e: Event) => e.processId.None? && e.statusClass.Some?,
         (e: Event) => if e.statusClass.Some? then e.statusClass.value else start, (e: Event) => start)
  }

  lemma {:induction false} OwnPair(p: Projection, events: seq<Event>, enforce: bool)
    requires Fold(p, events, enforce).Success?
    ensures var q := Fold(p, events, enforce).value;
      && LastWins(events, OwnStatus(p.status), p.status, q.status)
      && LastWins(events, OwnClass(p.statusClass), p.statusClass, q.statusClass)
  {
    hide LastWins;
    if events == [] {
      NothingSaid([], OwnStatus(p.status), p.status);
      NothingSaid([], OwnClass(p.statusClass), p.statusClass);
    } else {
      var init, last := events[..|events| - 1], events[|events| - 1];
      assert events == init + [last];
      OwnPair(p, init, enforce);
      var q := Fold(p, init, enforce).value;
      OneMoreSays(init, last, OwnStatus(p.status), p.status, q.status);
      OneMoreSays(init, last, OwnClass(p.statusClass), p.statusClass, q.statusClass);
      hide CoreAfter, Rejects;
    }
  }

  /** Main result for the overall status, full or incremental: it follows from the processes, and otherwise
      each half is that of the last own event that sets it, or what the reduction started from. */
  lemma AppliedStatus(start: Projection, events: seq<Event>, enforce: bool, policy: Policy)
    requires ApplyEvents(start, events, enforce, policy).Success?
    ensures var p, ordered := ApplyEvents(start, events, enforce, policy).value, Sort(EventLeq, events);
      && Counted(p)
      && exists own, ownClass ::
           && Overall(p.derived.processes, p.status, p.statusClass, own, ownClass)
           && LastWins(ordered, OwnStatus(start.status), start.status, own)
           && LastWins(ordered, OwnClass(start.statusClass), start.statusClass, ownClass)
  {
    var ordered := Sort(EventLeq, events);
    hide LastWins, Finalize, Overall, Counted;
    OwnPair(start, ordered, enforce);
    FinalOverall(Fold(start, ordered, enforce).value, policy);
  }

  lemma ReducedStatus(events: seq<Event>, policy: Policy)
    requires Reduce(events, policy).Success?
    ensures var p, ordered := Reduce(events, policy).value, Sort(EventLeq, events);
      && Counted(p)
      && exists own, ownClass ::
           && Overall(p.derived.processes, p.status, p.statusClass, own, ownClass)
           && LastWins(ordered, OwnStatus(Pending), Pending, own)
           && LastWins(ordered, OwnClass(NotStarted), NotStarted, ownClass)
  {
    var ordered := Sort(EventLeq, events);
    hide LastWins, Overall, Counted, ApplyEvents;
    AppliedStatus(EmptyProjection(if ordered != [] then ordered[0].runtimeId else "runtime"), events, false, policy);
  }

  /** The incremental form starts from the pair it is given. */
  lemma ReappliedStatus(before: Projection, events: seq<Event>, policy: Policy)
    requires Apply(before, events, policy).Success?
    ensures var p, ordered := Apply(before, events, policy).value, Sort(EventLeq, events);
      && Counted(p)
      && exists own, ownClass ::
           && Overall(p.derived.processes, p.status, p.statusClass, own, ownClass)
           && LastWins(ordered, OwnStatus(before.status), before.status, own)
           && LastWins(ordered, OwnClass(before.statusClass), before.statusClass, ownClass)
  {
    hide LastWins, Overall, Counted, ApplyEvents;
    AppliedStatus(before, events, true, policy);
  }
}
