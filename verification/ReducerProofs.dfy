/** The incremental reducer agrees with the full one. The status pair is the exception: the
    finalisation writes it where the fold reads it, so the exact condition for those two is given. */
module ReducerProofs {
  import opened RuntimeTypes
  import opened Sorting
  import opened RuntimeProjections

  predicate SameButStatus(p: Projection, q: Projection) {
    p.core == q.core && p.derived == q.derived
  }

  predicate SetsStatus(events: seq<Event>) {
    exists e <- events :: e.processId.None? && e.status.Some?
  }

  predicate SetsClass(events: seq<Event>) {
    exists e <- events :: e.processId.None? && e.statusClass.Some?
  }

  /** Folding from states that agree on the core: success agrees, the core agrees, and each half of
      the status pair agrees exactly when it did before or an event sets it. */
  lemma {:induction false} FoldAgrees(p: Projection, q: Projection, events: seq<Event>, enforce: bool)
    requires p.core == q.core
    ensures Fold(p, events, enforce).Success? == Fold(q, events, enforce).Success?
    ensures Fold(p, events, enforce).Success? ==>
      var a, b := Fold(p, events, enforce).value, Fold(q, events, enforce).value;
      && a.core == b.core
      && (a.status == b.status <==> p.status == q.status || SetsStatus(events))
      && (a.statusClass == b.statusClass <==> p.statusClass == q.statusClass || SetsClass(events))
  {
    if events != [] {
      var init, last := events[..|events| - 1], events[|events| - 1];
      assert events == init + [last];
      FoldAgrees(p, q, init, enforce);
      if Fold(p, init, enforce).Success? {
        var a, b := Fold(p, init, enforce).value, Fold(q, init, enforce).value;
        assert SetsStatus(events) <==> SetsStatus(init) || (last.processId.None? && last.status.Some?);
        assert SetsClass(events) <==> SetsClass(init) || (last.processId.None? && last.statusClass.Some?);
      }
    }
  }

  lemma {:induction false} FoldConcat(p: Projection, xs: seq<Event>, ys: seq<Event>, enforce: bool)
    requires Fold(p, xs, enforce).Success?
    ensures Fold(p, xs + ys, enforce) == Fold(Fold(p, xs, enforce).value, ys, enforce)
  {
    if ys == [] {
      assert xs + ys == xs;
    } else {
      var init, last := ys[..|ys| - 1], ys[|ys| - 1];
      assert (xs + ys)[..|xs + ys| - 1] == xs + init;
      FoldConcat(p, xs, init, enforce);
    }
  }

  // ---------------------------------------------------------------- sequenced histories

  /** Canonical events of one runtime, in strictly increasing sequence order. */
  ghost predicate Sequenced(events: seq<Event>, runtimeId: string) {
    && (forall e <- events :: e.sequence.Some? && e.runtimeId == runtimeId)
    && (forall i, j | 0 <= i < j < |events| :: events[i].sequence.value < events[j].sequence.value)
  }

  ghost predicate KeysDistinct(events: seq<Event>) {
    forall i, j | 0 <= i < j < |events| :: KeyOf(events[i]) != KeyOf(events[j])
  }

  lemma KeyOrder(a: SortKey, b: SortKey, c: SortKey)
    ensures KeyLeq(a, b) || KeyLeq(b, a)
    ensures KeyLeq(a, b) && KeyLeq(b, c) ==> KeyLeq(a, c)
    ensures KeyLeq(a, b) && KeyLeq(b, a) ==> a == b
  {
    TextLeqTotal(a.text, b.text);
    if TextLeq(a.text, b.text) && TextLeq(b.text, c.text) { TextLeqTransitive(a.text, b.text, c.text); }
    if TextLeq(a.text, b.text) && TextLeq(b.text, a.text) { TextLeqAntisymmetric(a.text, b.text); }
  }

  lemma EventOrder(events: seq<Event>)
    requires KeysDistinct(events)
    ensures Preorder(EventLeq, events) && Separates(EventLeq, events)
  {
    forall a, b, c: Event
      ensures EventLeq(a, b) || EventLeq(b, a)
      ensures EventLeq(a, b) && EventLeq(b, c) ==> EventLeq(a, c)
    {
      KeyOrder(KeyOf(a), KeyOf(b), KeyOf(c));
    }
    forall a, b | a in events && b in events && EventLeq(a, b) && EventLeq(b, a) ensures a == b {
      KeyOrder(KeyOf(a), KeyOf(b), KeyOf(b));
      var i :| 0 <= i < |events| && events[i] == a;
      var j :| 0 <= j < |events| && events[j] == b;
      assert i < j || j < i || i == j;
    }
  }

  lemma SequencedSorts(events: seq<Event>, runtimeId: string)
    requires Sequenced(events, runtimeId)
    ensures KeysDistinct(events) && Sort(EventLeq, events) == events
  {
    EventOrder(events);
    SortIdentity(EventLeq, events);
  }

  /** The full form depends only on which events there are, not on the order they are passed in. */
  lemma ReducePermutation(a: seq<Event>, b: seq<Event>, policy: Policy)
    requires multiset(a) == multiset(b) && KeysDistinct(a)
    ensures Reduce(a, policy) == Reduce(b, policy)
  {
    EventOrder(a);
    SortPermutation(EventLeq, a, b);
  }

  /** A successful fold over a sequenced history keeps the bookkeeping that the guards read. */
  lemma {:induction false} FoldCursor(p: Projection, events: seq<Event>, runtimeId: string, enforce: bool)
    requires Sequenced(events, runtimeId)
    requires Fold(p, events, enforce).Success?
    ensures var r := Fold(p, events, enforce).value;
      && r.core.eventCount == p.core.eventCount + |events| && r.derived == p.derived
      && (events != [] ==>
            r.core.runtimeId == runtimeId && r.core.lastSequence == events[|events| - 1].sequence.value)
      && (events == [] ==> r == p)
  {
    if events != [] {
      var init, last := events[..|events| - 1], events[|events| - 1];
      assert last in events && forall e | e in init :: e in events;
      FoldCursor(p, init, runtimeId, enforce);
    }
  }

  /** Enforcing the runtime id never matters within one runtime. */
  lemma {:induction false} EnforceIrrelevant(p: Projection, events: seq<Event>, runtimeId: string)
    requires Sequenced(events, runtimeId) && (p.core.eventCount != 0 ==> p.core.runtimeId == runtimeId)
    ensures Fold(p, events, true) == Fold(p, events, false)
  {
    if events != [] {
      var init, last := events[..|events| - 1], events[|events| - 1];
      assert last in events && forall e | e in init :: e in events;
      EnforceIrrelevant(p, init, runtimeId);
      hide ApplyEvent, Unreadable;
      if Fold(p, init, false).Success? {
        FoldCursor(p, init, runtimeId, false);
      }
    }
  }

  lemma PropagatedKeys(x: ProcessIndex, policy: Policy)
    ensures Propagated(x, policy).Keys == x.states.Keys
  {
    PropagateKeys(x.order, x.states, policy);
  }

  lemma {:induction false} PropagateKeys(order: seq<string>, ps: map<string, ProcessState>, policy: Policy)
    ensures Propagate(order, ps, policy).Keys == ps.Keys
    decreases Sound(ps)
  {
    var next := Pass(Values(order, ps), ps, policy);
    PassShrinks(Values(order, ps), ps, policy);
    if next != ps { PropagateKeys(order, next, policy); }
  }

  /** Applying later events to two persisted projections that agree outside the status pair. */
  lemma ApplyAgrees(p: Projection, q: Projection, ys: seq<Event>, runtimeId: string, policy: Policy)
    requires p.core == q.core && Sequenced(ys, runtimeId)
    requires q.core.eventCount != 0 ==> q.core.runtimeId == runtimeId
    requires p.core.processes.states == map[] ==> p.derived.processes == map[]
    ensures Apply(p, ys, policy).Success? == Fold(q, ys, false).Success?
    ensures Apply(p, ys, policy).Success? ==>
      var r, full := Apply(p, ys, policy).value, Finalize(Fold(q, ys, false).value, policy);
      && SameButStatus(r, full)
      && (r.status == full.status <==>
          p.status == q.status || SetsStatus(ys) || FinalStatus(full.derived.processes).Some?)
      && (r.statusClass == full.statusClass <==>
          p.statusClass == q.statusClass || SetsClass(ys) || FinalStatus(full.derived.processes).Some?)
  {
    SequencedSorts(ys, runtimeId);
    EnforceIrrelevant(p, ys, runtimeId);
    FoldAgrees(p, q, ys, false);
  }

  lemma ReduceIsFold(events: seq<Event>, runtimeId: string, policy: Policy)
    requires Sequenced(events, runtimeId)
    ensures var start := EmptyProjection(if events != [] then runtimeId else "runtime");
      Reduce(events, policy) ==
        match Fold(start, events, false)
        case Success(q) => Success(Finalize(q, policy))
        case Failure(error) => Failure(error)
  {
    SequencedSorts(events, runtimeId);
    if events != [] { assert events[0] in events; }
  }

  /** The runtime id an empty projection starts with is overwritten by the first event. */
  lemma {:induction false} StartIrrelevant(a: string, b: string, events: seq<Event>)
    requires events != []
    ensures Fold(EmptyProjection(a), events, false) == Fold(EmptyProjection(b), events, false)
  {
    var init, last := events[..|events| - 1], events[|events| - 1];
    if init == [] {
      assert ApplyEvent(EmptyProjection(a), last) == ApplyEvent(EmptyProjection(b), last);
    } else {
      StartIrrelevant(a, b, init);
    }
  }

  /** Main result. Incremental equals full on every field but the status pair, and on each half of
      that pair exactly when the first finalisation left it alone, a later runtime-level event sets
      it, or the last finalisation takes a branch. */
  lemma IncrementalEqualsFull(xs: seq<Event>, ys: seq<Event>, runtimeId: string, policy: Policy)
    requires Sequenced(xs + ys, runtimeId)
    requires Reduce(xs + ys, policy).Success?
    ensures Reduce(xs, policy).Success? && Fold(EmptyProjection(runtimeId), xs, false).Success?
    ensures Apply(Reduce(xs, policy).value, ys, policy).Success?
    ensures
      var persisted := Reduce(xs, policy).value;
      var r, full := Apply(persisted, ys, policy).value, Reduce(xs + ys, policy).value;
      var raw := Fold(EmptyProjection(runtimeId), xs, false).value;
      && SameButStatus(r, full)
      && (r.status == full.status <==>
          persisted.status == raw.status || SetsStatus(ys) || FinalStatus(full.derived.processes).Some?)
      && (r.statusClass == full.statusClass <==>
          persisted.statusClass == raw.statusClass || SetsClass(ys) || FinalStatus(full.derived.processes).Some?)
  {
    SplitSequenced(xs, ys, runtimeId);
    var start := EmptyProjection(runtimeId);
    ReduceIsFold(xs, runtimeId, policy);
    ReduceIsFold(xs + ys, runtimeId, policy);
    FoldPrefixSucceeds(start, xs, ys);
    FoldConcat(start, xs, ys, false);
    var raw := Fold(start, xs, false).value;
    FoldCursor(start, xs, runtimeId, false);
    var persisted := Reduce(xs, policy).value;
    if xs == [] {
      assert persisted == Finalize(EmptyProjection("runtime"), policy);
      EmptyFinalize("runtime", policy);
      ApplyAgrees(persisted, EmptyProjection("runtime"), ys, runtimeId, policy);
      if ys != [] { StartIrrelevant("runtime", runtimeId, ys); } else { assert xs + ys == []; }
    } else {
      assert persisted == Finalize(raw, policy);
      PropagatedKeys(raw.core.processes, policy);
      ApplyAgrees(persisted, raw, ys, runtimeId, policy);
    }
  }

  /** Applying succeeds exactly when the full reduction does. */
  lemma IncrementalSucceeds(xs: seq<Event>, ys: seq<Event>, runtimeId: string, p: Projection, policy: Policy)
    requires Sequenced(xs + ys, runtimeId) && Reduce(xs, policy).Success?
    requires SameButStatus(p, Reduce(xs, policy).value)
    ensures Apply(p, ys, policy).Success? <==> Reduce(xs + ys, policy).Success?
  {
    hide Apply, Reduce;
    SplitSequenced(xs, ys, runtimeId);
    ReduceIsFold(xs, runtimeId, policy);
    ReduceIsFold(xs + ys, runtimeId, policy);
    ReduceDerives(xs, runtimeId, policy);
    var start := EmptyProjection(if xs != [] then runtimeId else "runtime");
    FoldConcat(start, xs, ys, false);
    ApplyAgrees(p, Fold(start, xs, false).value, ys, runtimeId, policy);
    if xs == [] && ys != [] {
      StartIrrelevant("runtime", runtimeId, xs + ys);
    }
  }

  lemma IncrementalSameButStatus(xs: seq<Event>, ys: seq<Event>, runtimeId: string, policy: Policy)
    requires Sequenced(xs + ys, runtimeId) && Reduce(xs + ys, policy).Success?
    ensures Reduce(xs, policy).Success? && Apply(Reduce(xs, policy).value, ys, policy).Success?
    ensures SameButStatus(Apply(Reduce(xs, policy).value, ys, policy).value, Reduce(xs + ys, policy).value)
  {
    IncrementalEqualsFull(xs, ys, runtimeId, policy);
  }

  /** What a reduction of a sequenced history leaves behind for the next one. */
  lemma ReduceDerives(events: seq<Event>, runtimeId: string, policy: Policy)
    requires Sequenced(events, runtimeId) && Reduce(events, policy).Success?
    ensures var p := Reduce(events, policy).value;
      && p.derived == DerivedFrom(p.core, policy)
      && (p.core.processes.states == map[] ==> p.derived.processes == map[])
      && (p.core.eventCount != 0 ==> p.core.runtimeId == runtimeId)
      && (events != [] ==> p.core.runtimeId == runtimeId)
  {
    ReduceIsFold(events, runtimeId, policy);
    var start := EmptyProjection(if events != [] then runtimeId else "runtime");
    FoldCursor(start, events, runtimeId, false);
    PropagatedKeys(Reduce(events, policy).value.core.processes, policy);
  }

  /** Applying is blind to the status pair it starts from, outside that pair. */
  lemma ApplySameButStatus(p: Projection, q: Projection, ys: seq<Event>, runtimeId: string, policy: Policy)
    requires SameButStatus(p, q) && Sequenced(ys, runtimeId)
    requires q.core.eventCount != 0 ==> q.core.runtimeId == runtimeId
    requires q.core.processes.states == map[] ==> q.derived.processes == map[]
    ensures Apply(p, ys, policy).Success? == Apply(q, ys, policy).Success?
    ensures Apply(p, ys, policy).Success? ==> SameButStatus(Apply(p, ys, policy).value, Apply(q, ys, policy).value)
  {
    ApplyAgrees(p, q, ys, runtimeId, policy);
    ApplyAgrees(q, q, ys, runtimeId, policy);
  }

  lemma EmptyFinalize(runtimeId: string, policy: Policy)
    ensures Finalize(EmptyProjection(runtimeId), policy) == EmptyProjection(runtimeId)
  {
    var c := EmptyCore(runtimeId);
    PropagatedKeys(c.processes, policy);
    assert Propagated(c.processes, policy) == map[];
    assert ActiveUnits(c.units.states) == {};
    forall x ensures WithClass(map[], x) == {} {}
  }

  /** Reducing nothing gives the placeholder runtime id. */
  lemma EmptyReduced(policy: Policy)
    ensures Reduce([], policy) == Success(EmptyProjection("runtime"))
  {
    ReduceIsFold([], "runtime", policy);
    EmptyFinalize("runtime", policy);
  }

  lemma SplitSequenced(xs: seq<Event>, ys: seq<Event>, runtimeId: string)
    requires Sequenced(xs + ys, runtimeId)
    ensures Sequenced(xs, runtimeId) && Sequenced(ys, runtimeId)
  {
    forall e | e in xs || e in ys ensures e in xs + ys {}
    forall i, j | 0 <= i < j < |xs| ensures xs[i].sequence.value < xs[j].sequence.value {
      assert (xs + ys)[i] == xs[i] && (xs + ys)[j] == xs[j];
    }
    forall i, j | 0 <= i < j < |ys| ensures ys[i].sequence.value < ys[j].sequence.value {
      assert (xs + ys)[|xs| + i] == ys[i] && (xs + ys)[|xs| + j] == ys[j];
    }
  }

  lemma {:induction false} FoldPrefixSucceeds(p: Projection, xs: seq<Event>, ys: seq<Event>)
    requires Fold(p, xs + ys, false).Success?
    ensures Fold(p, xs, false).Success?
  {
    if ys == [] {
      assert xs + ys == xs;
    } else {
      var init := ys[..|ys| - 1];
      assert (xs + ys)[..|xs + ys| - 1] == xs + init;
      FoldPrefixSucceeds(p, xs, init);
    }
  }

  // ---------------------------------------------------------------- where the status pair does diverge

  function Report(sequence: int, status: Status, c: StatusClass): Event {
    Draft("r", OtherType("process.status.changed"), 0.0).(
      processId := Some("p"), status := Some(status), statusClass := Some(c),
      sequence := Some(sequence), eventId := IntId(sequence))
  }

  lemma OneProcess(order: seq<string>, ps: map<string, ProcessState>, c: StatusClass)
    requires ps.Keys == {"p"} && ps["p"].parentProcessId == None && ps["p"].statusClass == c
    ensures Propagate(["p"], ps, Policy(true, true)) == ps
    ensures forall d :: WithClass(ps, d) == if c == d then {"p"} else {}
  {
    assert Values(["p"][..0], ps) == [];
    assert Values(["p"], ps) == [ps["p"]];
    assert Pass([ps["p"]][..0], ps, Policy(true, true)) == ps;
    forall d ensures WithClass(ps, d) == if c == d then {"p"} else {} {}
  }

  lemma FoldSingle(p: Projection, e: Event, enforce: bool)
    ensures Fold(p, [e], enforce) == StepEvent(p, e, enforce)
  {
    assert [e][..0] == [];
    assert Fold(p, [e][..0], enforce) == Success(p);
  }

  /** The fold over the two reports, before any finalisation. */
  lemma ReportsFolded(e: Event, f: Event)
    requires e == Report(0, Running, Active) && f == Report(1, Custom("blocked"), BlockedClass)
    ensures var one := ApplyEvent(EmptyProjection("r"), e);
      var two := ApplyEvent(one, f);
      && Fold(EmptyProjection("r"), [e], false) == Success(one)
      && Fold(EmptyProjection("r"), [e] + [f], false) == Success(two)
      && one.status == two.status == Pending
      && FinalStatus(Propagated(one.core.processes, Policy(true, true))) == Some((Running, Active))
      && FinalStatus(Propagated(two.core.processes, Policy(true, true))) == None
  {
    hide ApplyEvent, EmptyProjection, FinalStatus, Propagated, StepEvent;
    var one := ApplyEvent(EmptyProjection("r"), e);
    ReportAccepted(EmptyProjection("r"), e, 0, Running, Active);
    ReportAccepted(one, f, 1, Custom("blocked"), BlockedClass);
    FoldSingle(EmptyProjection("r"), e, false);
    FoldConcat(EmptyProjection("r"), [e], [f], false);
    FoldSingle(one, f, false);
    ReportsFinal(e, f);
  }

  lemma ReportAccepted(p: Projection, e: Event, sequence: int, status: Status, c: StatusClass)
    requires e == Report(sequence, status, c) && (p == EmptyProjection("r") || p.core.lastSequence < sequence)
    requires sequence >= 0
    ensures StepEvent(p, e, false) == Success(ApplyEvent(p, e)) && ApplyEvent(p, e).core.lastSequence == sequence
  {
    hide WithAttempt, WithCheckpoint, WithProcess, WithUnit;
  }

  /** What the two finalisations make of the one reported process. */
  lemma ReportsFinal(e: Event, f: Event)
    requires e == Report(0, Running, Active) && f == Report(1, Custom("blocked"), BlockedClass)
    ensures var one := ApplyEvent(EmptyProjection("r"), e);
      var two := ApplyEvent(one, f);
      && one.status == two.status == Pending
      && FinalStatus(Propagated(one.core.processes, Policy(true, true))) == Some((Running, Active))
      && FinalStatus(Propagated(two.core.processes, Policy(true, true))) == None
  {
    var one := ApplyEvent(EmptyProjection("r"), e);
    var two := ApplyEvent(one, f);
    var start := EmptyProjection("r").core.processes;
    assert one.core.processes == WithProcess(start, e) && two.core.processes == WithProcess(WithProcess(start, e), f);
    assert start.order == [] && start.states == map[];
    hide ApplyEvent, WithProcess, FinalStatus, Propagated, EmptyProjection;
    ReportFiled(start, e, 0, Running, Active);
    OnlyProcess(one.core.processes, Active);
    ReportFiled(WithProcess(start, e), f, 1, Custom("blocked"), BlockedClass);
    OnlyProcess(two.core.processes, BlockedClass);
  }

  predicate Lonely(x: ProcessIndex, c: StatusClass) {
    && x.order == ["p"] && x.states.Keys == {"p"}
    && x.states["p"].parentProcessId == None && x.states["p"].statusClass == c
  }

  lemma ReportFiled(x: ProcessIndex, e: Event, sequence: int, status: Status, c: StatusClass)
    requires e == Report(sequence, status, c)
    requires (x.order == [] && x.states == map[]) || exists d :: Lonely(x, d)
    ensures Lonely(WithProcess(x, e), c)
  {
  }

  lemma OnlyProcess(x: ProcessIndex, c: StatusClass)
    requires Lonely(x, c) && (c.Active? || c.BlockedClass?)
    ensures FinalStatus(Propagated(x, Policy(true, true))) == if c.Active? then Some((Running, Active)) else None
  {
    OneProcess(x.order, x.states, c);
    hide Propagate, WithClass;
  }

  /** A process that goes active and then blocked: the incremental form still says running, because
      the first finalisation wrote that, while the full form never says so. */
  lemma StatusDiverges(xs: seq<Event>, ys: seq<Event>, policy: Policy)
    requires xs == [Report(0, Running, Active)] && ys == [Report(1, Custom("blocked"), BlockedClass)]
    requires policy == Policy(true, true)
    ensures Reduce(xs, policy).Success? && Reduce(xs + ys, policy).Success?
    ensures Apply(Reduce(xs, policy).value, ys, policy).Success?
    ensures Apply(Reduce(xs, policy).value, ys, policy).value.status != Reduce(xs + ys, policy).value.status
  {
    hide Reduce, Apply, Fold, ApplyEvent, Propagated, FinalStatus, Sequenced;
    var e, f := Report(0, Running, Active), Report(1, Custom("blocked"), BlockedClass);
    ReportsFolded(e, f);
    var one := ApplyEvent(EmptyProjection("r"), e);
    var two := ApplyEvent(one, f);
    assert Sequenced(xs + ys, "r") by { ReportsSequenced(e, f); }
    assert Sequenced(xs, "r") by { ReportsSequenced(e, f); }
    ReducedAs(xs, "r", policy, one);
    ReducedAs(xs + ys, "r", policy, two);
    IncrementalEqualsFull(xs, ys, "r", policy);
    assert !SetsStatus(ys) by { assert forall x | x in ys :: x == f; }
  }

  lemma ReportsSequenced(e: Event, f: Event)
    requires e == Report(0, Running, Active) && f == Report(1, Custom("blocked"), BlockedClass)
    ensures Sequenced([e] + [f], "r") && Sequenced([e], "r")
  {
  }

  lemma ReducedAs(events: seq<Event>, runtimeId: string, policy: Policy, folded: Projection)
    requires events != [] && Sequenced(events, runtimeId)
    requires Fold(EmptyProjection(runtimeId), events, false) == Success(folded)
    ensures Reduce(events, policy) == Success(Finalize(folded, policy))
  {
    ReduceIsFold(events, runtimeId, policy);
  }
}
