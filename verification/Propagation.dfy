/** What child-failure propagation computes: a process ends failed or cancelled exactly when it was
    so before, or when a failed or cancelled process reaches it through known parents. */
module PropagationProofs {
  import opened RuntimeTypes
  import opened Sorting
  import opened RuntimeProjections

  type Processes = map<string, ProcessState>

  predicate Spreads(policy: Policy, c: StatusClass) {
    (c.TerminalFailure? && policy.propagateFailure) || (c.TerminalCancelled? && policy.propagateCancelled)
  }

  predicate HasKnownParent(ps: Processes, id: string) {
    id in ps && ps[id].parentProcessId.Some? && ps[id].parentProcessId.value in ps
  }

  /** `to` is the `n`-th known ancestor of `from`. */
  ghost predicate Ancestor(ps: Processes, from: string, to: string, n: nat)
    decreases n
  {
    if n == 0 then from == to && from in ps
    else HasKnownParent(ps, from) && Ancestor(ps, ps[from].parentProcessId.value, to, n - 1)
  }

  /** As `Ancestor`, with no process strictly between the two ends bad to begin with. */
  ghost predicate ClearAncestor(ps: Processes, from: string, to: string, n: nat)
    decreases n
  {
    if n == 0 then from == to && from in ps
    else
      && HasKnownParent(ps, from)
      && var next := ps[from].parentProcessId.value;
         (n > 1 ==> !Bad(ps[next].statusClass)) && ClearAncestor(ps, next, to, n - 1)
  }

  /** A bad process whose state may travel up to `id` under the policy. */
  ghost predicate ReachedBy(ps: Processes, policy: Policy, source: string, id: string, n: nat) {
    && source in ps && Bad(ps[source].statusClass) && ClearAncestor(ps, source, id, n)
    && (n == 0 || Spreads(policy, ps[source].statusClass))
  }

  /** Every change so far is explained by an original source of the same class. */
  ghost predicate Explained(orig: Processes, cur: Processes, policy: Policy) {
    && cur.Keys == orig.Keys
    && (forall id | id in orig :: cur[id].parentProcessId == orig[id].parentProcessId)
    && (forall id | id in orig && cur[id] != orig[id] :: NewlyBad(orig, cur, policy, id))
  }

  ghost predicate NewlyBad(orig: Processes, cur: Processes, policy: Policy, id: string)
    requires id in orig && id in cur
  {
    && !Bad(orig[id].statusClass)
    && Bad(cur[id].statusClass)
    && exists source: string, n: nat ::
         ReachedBy(orig, policy, source, id, n) && n > 0 && orig[source].statusClass == cur[id].statusClass
  }

  lemma {:induction false} ExtendClear(ps: Processes, from: string, mid: string, n: nat)
    requires ClearAncestor(ps, from, mid, n) && HasKnownParent(ps, mid)
    requires n > 0 ==> !Bad(ps[mid].statusClass)
    ensures ClearAncestor(ps, from, ps[mid].parentProcessId.value, n + 1)
    decreases n
  {
    if n > 0 {
      ExtendClear(ps, ps[from].parentProcessId.value, mid, n - 1);
    } else {
      assert ClearAncestor(ps, ps[mid].parentProcessId.value, ps[mid].parentProcessId.value, 0);
    }
  }

  lemma RaiseExplained(orig: Processes, snap: Processes, cur: Processes, policy: Policy, id: string)
    requires Explained(orig, snap, policy) && Explained(orig, cur, policy) && id in orig
    ensures Explained(orig, Raise(cur, snap[id], policy), policy)
  {
    hide NewlyBad;
    var next := Raise(cur, snap[id], policy);
    if next != cur {
      RaisedSource(orig, snap, cur, policy, id);
      var up := snap[id].parentProcessId.value;
      forall other | other in orig && next[other] != orig[other] ensures NewlyBad(orig, next, policy, other) {
        if other != up { SameBad(orig, cur, next, policy, other); }
      }
    }
  }

  lemma SameBad(orig: Processes, cur: Processes, next: Processes, policy: Policy, id: string)
    requires id in orig && id in cur && id in next && next[id] == cur[id]
    ensures NewlyBad(orig, cur, policy, id) <==> NewlyBad(orig, next, policy, id)
  {
  }

  /** A raised parent is reached from where its child's state came from. */
  lemma RaisedSource(orig: Processes, snap: Processes, cur: Processes, policy: Policy, id: string)
    requires Explained(orig, snap, policy) && Explained(orig, cur, policy) && id in orig
    requires Raise(cur, snap[id], policy) != cur
    ensures snap[id].parentProcessId.Some? && snap[id].parentProcessId.value in orig
    ensures NewlyBad(orig, Raise(cur, snap[id], policy), policy, snap[id].parentProcessId.value)
  {
    var next, up := Raise(cur, snap[id], policy), snap[id].parentProcessId.value;
    assert !Bad(orig[up].statusClass);
    if snap[id] == orig[id] {
      assert ClearAncestor(orig, id, id, 0);
      ExtendClear(orig, id, id, 0);
      assert ReachedBy(orig, policy, id, up, 1);
    } else {
      var source: string, n: nat :|
        ReachedBy(orig, policy, source, id, n) && n > 0 && orig[source].statusClass == snap[id].statusClass;
      ExtendClear(orig, source, id, n);
      assert ReachedBy(orig, policy, source, up, n + 1);
    }
  }

  lemma {:induction false} PassExplained(orig: Processes, order: seq<string>, snap: Processes, policy: Policy)
    requires Explained(orig, snap, policy)
    ensures Explained(orig, Pass(Values(order, snap), snap, policy), policy)
  {
    if order != [] {
      var init, last := order[..|order| - 1], order[|order| - 1];
      PassExplained(orig, init, snap, policy);
      if last in snap {
        assert Values(order, snap)[..|Values(order, snap)| - 1] == Values(init, snap);
        RaiseExplained(orig, snap, Pass(Values(init, snap), snap, policy), policy, last);
      } else {
        assert Values(order, snap) == Values(init, snap);
      }
    }
  }

  /** A pass that changes nothing leaves every child with nothing to raise. */
  lemma {:induction false} QuietPass(children: seq<ProcessState>, ps: Processes, policy: Policy, k: nat)
    requires Pass(children, ps, policy) == ps && k < |children|
    ensures Raise(ps, children[k], policy) == ps
  {
    var init := children[..|children| - 1];
    PassShrinks(init, ps, policy);
    RaiseShrinks(Pass(init, ps, policy), children[|children| - 1], policy);
    assert Pass(init, ps, policy) == ps;
    if k < |init| { QuietPass(init, ps, policy, k); }
  }

  lemma {:induction false} ValuesCover(order: seq<string>, ps: Processes, id: string)
    requires id in order && id in ps
    ensures ps[id] in Values(order, ps)
  {
    if order[|order| - 1] != id { ValuesCover(order[..|order| - 1], ps, id); }
  }

  /** The loop ends explained by its input, with nothing left to raise. */
  lemma {:induction false} PropagateFixpoint(orig: Processes, order: seq<string>, ps: Processes, policy: Policy)
    requires Explained(orig, ps, policy)
    ensures Explained(orig, Propagate(order, ps, policy), policy)
    ensures var r := Propagate(order, ps, policy); forall id | id in order && id in r :: Raise(r, r[id], policy) == r
    decreases Sound(ps)
  {
    var children := Values(order, ps);
    var next := Pass(children, ps, policy);
    PassShrinks(children, ps, policy);
    if next == ps {
      forall id | id in order && id in ps ensures Raise(ps, ps[id], policy) == ps {
        ValuesCover(order, ps, id);
        var k :| 0 <= k < |children| && children[k] == ps[id];
        QuietPass(children, ps, policy, k);
      }
    } else {
      PassExplained(orig, order, ps, policy);
      PropagateFixpoint(orig, order, next, policy);
    }
  }

  /** In a quiet state the badness of a spreading source is found all the way up. */
  lemma {:induction false} BadAllTheWay(
    orig: Processes, r: Processes, policy: Policy, source: string, id: string, n: nat)
    requires Explained(orig, r, policy) && forall i | i in r :: Raise(r, r[i], policy) == r
    requires ClearAncestor(orig, source, id, n)
    requires Bad(r[source].statusClass) && (n == 0 || Spreads(policy, r[source].statusClass))
    ensures id in r && Bad(r[id].statusClass)
    decreases n
  {
    if n > 0 {
      var up := orig[source].parentProcessId.value;
      assert Raise(r, r[source], policy) == r;
      assert Bad(r[up].statusClass);
      if n > 1 {
        assert r[up] != orig[up];
        assert NewlyBad(orig, r, policy, up);
      } else {
        assert ClearAncestor(orig, up, id, 0);
      }
      BadAllTheWay(orig, r, policy, up, id, n - 1);
    }
  }

  ghost predicate Reached(ps: Processes, policy: Policy, id: string) {
    exists source: string, n: nat :: ReachedBy(ps, policy, source, id, n)
  }

  /** Bad afterwards are exactly the processes that some bad one reaches; a process that was bad before or
      is not bad afterwards keeps its state; a new class is the class of a process it comes from. */
  ghost predicate PropagationOf(ps: Processes, r: Processes, policy: Policy) {
    && r.Keys == ps.Keys
    && (forall id | id in ps :: Bad(r[id].statusClass) <==> Reached(ps, policy, id))
    && (forall id | id in ps && (Bad(ps[id].statusClass) || !Bad(r[id].statusClass)) :: r[id] == ps[id])
    && (forall id | id in ps && r[id] != ps[id] :: NewlyBad(ps, r, policy, id))
  }

  /** Main result, for every policy, every order and every (even cyclic) parent structure. */
  lemma PropagationCharacterised(order: seq<string>, ps: Processes, policy: Policy)
    requires forall id | id in ps :: id in order
    ensures PropagationOf(ps, Propagate(order, ps, policy), policy)
  {
    var r := Propagate(order, ps, policy);
    PropagateFixpoint(ps, order, ps, policy);
    forall id | id in ps ensures Bad(r[id].statusClass) <==> Reached(ps, policy, id)
    {
      if Bad(r[id].statusClass) {
        if r[id] == ps[id] {
          assert ReachedBy(ps, policy, id, id, 0);
        } else {
          assert NewlyBad(ps, r, policy, id);
        }
      }
      if source: string, n: nat :| ReachedBy(ps, policy, source, id, n) {
        assert r[source] == ps[source];
        BadAllTheWay(ps, r, policy, source, id, n);
      }
    }
  }

  /** With both switches on the clear-path condition disappears: any bad descendant is enough. */
  lemma {:induction false} NearestBad(ps: Processes, policy: Policy, source: string, id: string, n: nat)
    requires policy == Policy(true, true)
    requires source in ps && Bad(ps[source].statusClass) && Ancestor(ps, source, id, n)
    ensures Reached(ps, policy, id)
  {
    NearestBadFrom(ps, source, source, id, 0, n);
  }

  lemma {:induction false} NearestBadFrom(
    ps: Processes, nearest: string, at: string, id: string, walked: nat, left: nat)
    requires nearest in ps && Bad(ps[nearest].statusClass)
    requires ClearAncestor(ps, nearest, at, walked) && Ancestor(ps, at, id, left)
    ensures Reached(ps, Policy(true, true), id)
    decreases left
  {
    if left == 0 {
      assert ReachedBy(ps, Policy(true, true), nearest, id, walked);
    } else {
      var up := ps[at].parentProcessId.value;
      if walked > 0 && Bad(ps[at].statusClass) {
        assert ClearAncestor(ps, at, at, 0);
        ExtendClear(ps, at, at, 0);
        NearestBadFrom(ps, at, up, id, 1, left - 1);
      } else {
        ExtendClear(ps, nearest, at, walked);
        NearestBadFrom(ps, nearest, up, id, walked + 1, left - 1);
      }
    }
  }

  lemma {:induction false} ClearIsAncestor(ps: Processes, from: string, to: string, n: nat)
    requires ClearAncestor(ps, from, to, n)
    ensures Ancestor(ps, from, to, n)
    decreases n
  {
    if n > 0 { ClearIsAncestor(ps, ps[from].parentProcessId.value, to, n - 1); }
  }

  /** Some failed or cancelled process of class `c` has `id` among its known ancestors. */
  ghost predicate BadBelow(ps: Processes, id: string, c: StatusClass) {
    exists source: string, n: nat :: source in ps && Ancestor(ps, source, id, n) && ps[source].statusClass == c
  }

  /** Bad after propagation means a bad descendant (or itself) before; a changed process takes the class
      of such a descendant; the others keep their state. */
  ghost predicate BadAfterwards(ps: Processes, r: Processes, id: string)
    requires id in ps
  {
    && id in r
    && (Bad(r[id].statusClass) <==> BadBelow(ps, id, TerminalFailure) || BadBelow(ps, id, TerminalCancelled))
    && (!Bad(r[id].statusClass) || Bad(ps[id].statusClass) ==> r[id] == ps[id])
    && (r[id] != ps[id] ==> BadBelow(ps, id, r[id].statusClass))
  }

  lemma ReachedIsBelow(ps: Processes, policy: Policy, source: string, id: string, n: nat)
    requires ReachedBy(ps, policy, source, id, n)
    ensures source in ps
    ensures BadBelow(ps, id, ps[source].statusClass)
    ensures ps[source].statusClass.TerminalFailure? || ps[source].statusClass.TerminalCancelled?
  {
    ClearIsAncestor(ps, source, id, n);
  }

  lemma BelowIsReached(ps: Processes, id: string, c: StatusClass)
    requires Bad(c) && BadBelow(ps, id, c)
    ensures Reached(ps, Policy(true, true), id)
  {
    var source: string, n: nat :| source in ps && Ancestor(ps, source, id, n) && ps[source].statusClass == c;
    NearestBad(ps, Policy(true, true), source, id, n);
  }

  /** The default policy. */
  lemma BothSwitchesOn(order: seq<string>, ps: Processes, id: string)
    requires (forall i | i in ps :: i in order) && id in ps
    ensures BadAfterwards(ps, Propagate(order, ps, Policy(true, true)), id)
  {
    PropagationCharacterised(order, ps, Policy(true, true));
    hide Propagate;
    BelowAfterwards(ps, Propagate(order, ps, Policy(true, true)), id);
  }

  lemma BelowAfterwards(ps: Processes, r: Processes, id: string)
    requires PropagationOf(ps, r, Policy(true, true)) && id in ps
    ensures BadAfterwards(ps, r, id)
  {
    hide ClearAncestor, Spreads, BadBelow;
    var policy := Policy(true, true);
    if Reached(ps, policy, id) {
      var source: string, n: nat :| ReachedBy(ps, policy, source, id, n);
      ReachedIsBelow(ps, policy, source, id, n);
    }
    if BadBelow(ps, id, TerminalFailure) { BelowIsReached(ps, id, TerminalFailure); }
    if BadBelow(ps, id, TerminalCancelled) { BelowIsReached(ps, id, TerminalCancelled); }
    if r[id] != ps[id] {
      assert NewlyBad(ps, r, policy, id);
      var source: string, n: nat :|
        ReachedBy(ps, policy, source, id, n) && n > 0 && ps[source].statusClass == r[id].statusClass;
      ReachedIsBelow(ps, policy, source, id, n);
    }
  }

  // ---------------------------------------------------------------- over a whole reduction

  /** The visiting order lists every process the fold has seen. */
  lemma {:induction false} FoldCovers(p: Projection, events: seq<Event>, enforce: bool)
    requires Fold(p, events, enforce).Success?
    requires forall id | id in p.core.processes.states :: id in p.core.processes.order
    ensures var x := Fold(p, events, enforce).value.core.processes; forall id | id in x.states :: id in x.order
  {
    if events != [] {
      FoldCovers(p, events[..|events| - 1], enforce);
      hide WithAttempt, WithCheckpoint, WithUnit, ProcessAfter;
    }
  }

  /** With both switches off only a process itself reaches itself. */
  lemma NothingSpreads(ps: Processes, policy: Policy)
    requires !policy.propagateFailure && !policy.propagateCancelled
    ensures PropagationOf(ps, ps, policy)
  {
    forall id | id in ps ensures Bad(ps[id].statusClass) <==> Reached(ps, policy, id)
    {
      if Bad(ps[id].statusClass) { assert ReachedBy(ps, policy, id, id, 0); }
    }
  }

  lemma ReductionFolds(events: seq<Event>, policy: Policy)
    requires Reduce(events, policy).Success?
    ensures var p := Reduce(events, policy).value;
      && p.derived.processes == Propagated(p.core.processes, policy)
      && forall id | id in p.core.processes.states :: id in p.core.processes.order
  {
    var ordered := Sort(EventLeq, events);
    FoldCovers(EmptyProjection(if ordered != [] then ordered[0].runtimeId else "runtime"), ordered, false);
  }

  /** Main result for the reducer: for every history and every policy the derived process states are the
      propagation of the folded ones. */
  lemma ReducedPropagated(events: seq<Event>, policy: Policy)
    requires Reduce(events, policy).Success?
    ensures var p := Reduce(events, policy).value;
      PropagationOf(p.core.processes.states, p.derived.processes, policy)
  {
    ReductionFolds(events, policy);
    var x := Reduce(events, policy).value.core.processes;
    hide Reduce, Propagate;
    if policy.propagateFailure || policy.propagateCancelled {
      PropagationCharacterised(x.order, x.states, policy);
    } else {
      NothingSpreads(x.states, policy);
    }
  }

  /** The default policy over a whole reduction, one process at a time. */
  lemma ReducedByDefault(events: seq<Event>, id: string)
    requires Reduce(events, Policy(true, true)).Success?
    requires id in Reduce(events, Policy(true, true)).value.core.processes.states
    ensures var p := Reduce(events, Policy(true, true)).value;
      BadAfterwards(p.core.processes.states, p.derived.processes, id)
  {
    ReductionFolds(events, Policy(true, true));
    var x := Reduce(events, Policy(true, true)).value.core.processes;
    hide Reduce, Propagate;
    BothSwitchesOn(x.order, x.states, id);
  }

  // ---------------------------------------------------------------- what a raised process says

  /** Raised by a child: the status that goes with the child's class, and the child's error unless it had
      one of its own; nothing else changes. */
  ghost predicate RaisedBy(orig: Processes, cur: Processes, id: string, child: string)
    requires id in orig && id in cur
  {
    && child in cur && cur[child].parentProcessId == Some(id)
    && (cur[child].statusClass.TerminalFailure? || cur[child].statusClass.TerminalCancelled?)
    && cur[id] == orig[id].(
         status := if cur[child].statusClass.TerminalFailure? then Failed else Cancelled,
         statusClass := cur[child].statusClass,
         error := if orig[id].error.Some? then orig[id].error else cur[child].error)
  }

  ghost predicate Inherited(orig: Processes, cur: Processes) {
    && cur.Keys == orig.Keys
    && forall id | id in orig && cur[id] != orig[id] :: exists child :: RaisedBy(orig, cur, id, child)
  }

  /** Who was bad when the pass began still is, unchanged. */
  ghost predicate BadKept(snap: Processes, cur: Processes) {
    cur.Keys == snap.Keys && forall id | id in snap && Bad(snap[id].statusClass) :: cur[id] == snap[id]
  }

  lemma RaiseInherits(orig: Processes, snap: Processes, cur: Processes, policy: Policy, c: string)
    requires Inherited(orig, cur) && BadKept(snap, cur) && c in snap
    ensures Inherited(orig, Raise(cur, snap[c], policy)) && BadKept(snap, Raise(cur, snap[c], policy))
  {
    var next := Raise(cur, snap[c], policy);
    if next != cur {
      var up := snap[c].parentProcessId.value;
      assert cur[c] == snap[c] && next[c] == cur[c];
      assert !Bad(cur[up].statusClass) && cur[up] == orig[up];
      assert RaisedBy(orig, next, up, c);
      forall id | id in orig && next[id] != orig[id] ensures exists child :: RaisedBy(orig, next, id, child) {
        if id != up {
          var child :| RaisedBy(orig, cur, id, child);
          assert RaisedBy(orig, next, id, child);
        }
      }
    }
  }

  lemma {:induction false} PassInherits(orig: Processes, order: seq<string>, snap: Processes, policy: Policy)
    requires Inherited(orig, snap)
    ensures var cur := Pass(Values(order, snap), snap, policy); Inherited(orig, cur) && BadKept(snap, cur)
  {
    hide Inherited, BadKept, Raise;
    if order == [] {
      assert BadKept(snap, snap) by { BadStays(snap); }
    } else {
      var init, last := order[..|order| - 1], order[|order| - 1];
      PassInherits(orig, init, snap, policy);
      if last in snap {
        assert Values(order, snap)[..|Values(order, snap)| - 1] == Values(init, snap);
        RaiseInherits(orig, snap, Pass(Values(init, snap), snap, policy), policy, last);
      } else {
        assert Values(order, snap) == Values(init, snap);
      }
    }
  }

  lemma BadStays(ps: Processes)
    ensures BadKept(ps, ps)
  {
  }

  lemma {:induction false} PropagateInherits(orig: Processes, order: seq<string>, ps: Processes, policy: Policy)
    requires Inherited(orig, ps)
    ensures Inherited(orig, Propagate(order, ps, policy))
    decreases Sound(ps)
  {
    hide Inherited, BadKept, Pass;
    var next := Pass(Values(order, ps), ps, policy);
    PassShrinks(Values(order, ps), ps, policy);
    PassInherits(orig, order, ps, policy);
    if next != ps { PropagateInherits(orig, order, next, policy); }
  }

  /** Main result for the fields: in every reduction a process that propagation changed was raised by a child
      that is itself failed or cancelled in the end. */
  lemma ReducedInherits(events: seq<Event>, policy: Policy)
    requires Reduce(events, policy).Success?
    ensures var p := Reduce(events, policy).value; Inherited(p.core.processes.states, p.derived.processes)
  {
    ReductionFolds(events, policy);
    var x := Reduce(events, policy).value.core.processes;
    hide Reduce, Propagate;
    if policy.propagateFailure || policy.propagateCancelled {
      PropagateInherits(x.states, x.order, x.states, policy);
    }
  }
}
