/** `build_runtime_process_graph` and `RuntimeProcessGraph.downstream` as they run: loops over dictionaries,
    counters, a sorted ready list and a worklist. */
module GraphBuilder {
  import opened RuntimeTypes
  import opened Sorting
  import opened RecoveryGraph

  /** `sorted(...)` of a set of ids. */
  method SortedKeys(ids: set<string>) returns (keys: seq<string>)
    ensures keys == Ascending(ids)
  {
    keys := ListKeys(ids);
    OnceEach(keys, ids);
    SortAscends(keys, ids);
    keys := Sort(TextLeq, keys);
  }

  lemma {:induction false} RepeatSticks(specs: seq<ProcessSpec>, k: nat)
    requires k <= |specs| && FirstRepeat(specs[..k]).Some?
    ensures FirstRepeat(specs) == FirstRepeat(specs[..k])
    decreases |specs|
  {
    if k < |specs| {
      assert specs[..|specs| - 1][..k] == specs[..k];
      RepeatSticks(specs[..|specs| - 1], k);
    } else {
      assert specs[..k] == specs;
    }
  }

  method IndexSpecs(specs: seq<ProcessSpec>) returns (r: Result<map<string, ProcessSpec>, GraphError>)
    ensures r == if FirstRepeat(specs).Some? then Failure(DuplicateProcess(FirstRepeat(specs).value))
                 else Success(SpecsById(specs))
  {
    var byId: map<string, ProcessSpec> := map[];
    for i := 0 to |specs|
      invariant byId == SpecsById(specs[..i]) && FirstRepeat(specs[..i]).None?
    {
      assert specs[..i + 1][..i] == specs[..i];
      var id := specs[i].ResolvedId();
      if id in byId {
        RepeatSticks(specs, i + 1);
        return Failure(DuplicateProcess(id));
      }
      byId := byId[id := specs[i]];
    }
    assert specs[..|specs|] == specs;
    r := Success(byId);
  }

  lemma {:induction false} FaultSticks(byId: map<string, ProcessSpec>, ids: seq<string>, k: nat)
    requires k <= |ids| && (forall id <- ids :: id in byId) && FirstFault(byId, ids[..k]).Some?
    ensures FirstFault(byId, ids) == FirstFault(byId, ids[..k])
    decreases |ids|
  {
    if k < |ids| {
      assert ids[..|ids| - 1][..k] == ids[..k];
      FaultSticks(byId, ids[..|ids| - 1], k);
    } else {
      assert ids[..k] == ids;
    }
  }

  /** One process's dependencies, checked. */
  method CheckDependencies(byId: map<string, ProcessSpec>, id: string) returns (r: Result<seq<string>, GraphError>)
    requires id in byId
    ensures r == if EdgeFault(byId, id).Some? then Failure(EdgeFault(byId, id).value)
                 else Success(Ascending(byId[id].dependsOn))
  {
    hide Ascending;
    var declared := byId[id].dependsOn;
    if id in declared {
      return Failure(SelfDependency(id));
    }
    var missing := declared - byId.Keys;
    assert declared <= byId.Keys + missing;
    if missing != {} {
      var stranger :| stranger in missing;
      assert stranger in declared && stranger !in byId.Keys;
      var names := SortedKeys(missing);
      return Failure(UnknownDependencies(id, names));
    }
    var listed := SortedKeys(declared);
    r := Success(listed);
  }

  /** `dependents[d]` lists, without repeats, the processes of `seen` that depend on `d`. */
  ghost predicate DependentsSoFar(dependents: map<string, seq<string>>, deps: Edges, seen: seq<string>) {
    && dependents.Keys == deps.Keys
    && (forall d | d in deps :: Distinct(dependents[d]))
    && (forall d, q | d in deps :: q in dependents[d] <==> q in seen && q in deps && d in deps[q])
  }

  method AddDependent(deps: Edges, before: map<string, seq<string>>, seen: seq<string>, process: string,
      declared: seq<string>)
    returns (dependents: map<string, seq<string>>)
    requires DependentsSoFar(before, deps, seen) && process !in seen && process in deps
    requires Distinct(declared) && Members(declared) == deps[process] && deps[process] <= deps.Keys
    ensures DependentsSoFar(dependents, deps, seen + [process])
  {
    dependents := before;
    for j := 0 to |declared|
      invariant dependents.Keys == before.Keys
      invariant forall d | d in before ::
        dependents[d] == if d in declared[..j] then before[d] + [process] else before[d]
    {
      assert declared[j] in Members(declared);
      assert declared[..j + 1] == declared[..j] + [declared[j]] && declared[j] !in declared[..j];
      hide DependentsSoFar, Distinct, Members;
      dependents := dependents[declared[j] := dependents[declared[j]] + [process]];
    }
    assert declared[..|declared|] == declared;
    DependentAdded(deps, before, dependents, seen, process, declared);
  }

  lemma DependentAdded(deps: Edges, before: map<string, seq<string>>, after: map<string, seq<string>>,
      seen: seq<string>, process: string, declared: seq<string>)
    requires DependentsSoFar(before, deps, seen) && process !in seen && process in deps
    requires Members(declared) == deps[process] && after.Keys == before.Keys
    requires forall d | d in before :: after[d] == if d in declared then before[d] + [process] else before[d]
    ensures DependentsSoFar(after, deps, seen + [process])
  {
    forall d | d in deps ensures d in declared <==> d in deps[process] {
      assert d in declared <==> d in Members(declared);
    }
    hide Members;
  }

  lemma SortedDependents(dependents: map<string, seq<string>>, deps: Edges, seen: seq<string>)
    requires DependentsSoFar(dependents, deps, seen) && Members(seen) == deps.Keys
    ensures (map d | d in dependents :: Sort(TextLeq, dependents[d])) ==
      (map d | d in deps :: Ascending(DependentsOf(deps, d)))
  {
    forall d | d in deps ensures Sort(TextLeq, dependents[d]) == Ascending(DependentsOf(deps, d)) {
      forall q ensures q in dependents[d] <==> q in DependentsOf(deps, d) {
        assert q in seen <==> q in Members(seen);
      }
      assert Members(dependents[d]) == DependentsOf(deps, d);
      SortAscends(dependents[d], DependentsOf(deps, d));
    }
  }

  ghost function DependencyLists(byId: map<string, ProcessSpec>, ids: seq<string>): map<string, seq<string>> {
    map p | p in ids && p in byId :: Ascending(byId[p].dependsOn)
  }

  lemma NextList(byId: map<string, ProcessSpec>, seen: seq<string>, id: string)
    requires id in byId
    ensures DependencyLists(byId, seen + [id]) == DependencyLists(byId, seen)[id := Ascending(byId[id].dependsOn)]
  {
  }

  lemma AllLists(byId: map<string, ProcessSpec>, ids: seq<string>)
    requires Members(ids) == byId.Keys
    ensures var deps := EdgesOf(byId); DependencyLists(byId, ids) == map p | p in deps :: Ascending(deps[p])
  {
    forall p ensures p in ids <==> p in byId { assert p in ids <==> p in Members(ids); }
  }

  datatype EdgeLists = EdgeLists(dependencies: map<string, seq<string>>, dependents: map<string, seq<string>>)

  ghost function ListsOf(deps: Edges): EdgeLists {
    EdgeLists(map p | p in deps :: Ascending(deps[p]), map p | p in deps :: Ascending(DependentsOf(deps, p)))
  }

  function SortDependents(lists: EdgeLists): EdgeLists {
    lists.(dependents := map d | d in lists.dependents :: Sort(TextLeq, lists.dependents[d]))
  }

  function NoEdges(byId: map<string, ProcessSpec>): EdgeLists {
    EdgeLists(map[], map id | id in byId :: [])
  }

  /** The two dictionaries after the processes in `seen`. */
  ghost predicate Collected(lists: EdgeLists, byId: map<string, ProcessSpec>, seen: seq<string>) {
    && lists.dependencies == DependencyLists(byId, seen)
    && DependentsSoFar(lists.dependents, EdgesOf(byId), seen)
  }

  method CollectEdges(byId: map<string, ProcessSpec>, ids: seq<string>) returns (r: Result<EdgeLists, GraphError>)
    requires ids == Ascending(byId.Keys) && Distinct(ids) && Members(ids) == byId.Keys && forall id <- ids :: id in byId
    ensures r == if FirstFault(byId, ids).Some? then Failure(FirstFault(byId, ids).value)
                 else Success(ListsOf(EdgesOf(byId)))
  {
    hide Collected, FirstFault, EdgeFault, Distinct, Members, Ascending, ListsOf, EdgesOf, NoEdges, SortDependents;
    var lists := NoEdges(byId);
    NothingCollected(byId);
    assert ids[..0] == [];
    for i := 0 to |ids|
      invariant Collected(lists, byId, ids[..i]) && FirstFault(byId, ids[..i]).None?
    {
      NextFault(byId, ids, i);
      var declared := CheckDependencies(byId, ids[i]);
      if declared.Failure? {
        FaultSticks(byId, ids, i + 1);
        return Failure(declared.error);
      }
      lists := CollectOne(byId, lists, ids, i, declared.value);
    }
    assert ids[..|ids|] == ids;
    AllCollected(lists, byId, ids);
    r := Success(SortDependents(lists));
  }

  method CollectOne(byId: map<string, ProcessSpec>, lists: EdgeLists, ids: seq<string>, i: nat, declared: seq<string>)
    returns (r: EdgeLists)
    requires i < |ids| && Distinct(ids) && ids[i] in byId && EdgeFault(byId, ids[i]).None?
    requires declared == Ascending(byId[ids[i]].dependsOn) && Collected(lists, byId, ids[..i])
    ensures Collected(r, byId, ids[..i + 1])
  {
    hide DependentsSoFar, Distinct, EdgeFault, Members, Ascending, DependencyLists;
    NextProcess(byId, ids, i, declared);
    NextList(byId, ids[..i], ids[i]);
    var dependents := AddDependent(EdgesOf(byId), lists.dependents, ids[..i], ids[i], declared);
    assert ids[..i + 1] == ids[..i] + [ids[i]];
    r := EdgeLists(lists.dependencies[ids[i] := declared], dependents);
  }

  lemma NothingCollected(byId: map<string, ProcessSpec>)
    ensures Collected(NoEdges(byId), byId, []) && FirstFault(byId, []).None?
  {
    NoDependents(NoEdges(byId).dependents, EdgesOf(byId));
  }

  lemma AllCollected(lists: EdgeLists, byId: map<string, ProcessSpec>, ids: seq<string>)
    requires Collected(lists, byId, ids) && Members(ids) == byId.Keys
    ensures SortDependents(lists) == ListsOf(EdgesOf(byId))
  {
    hide DependentsSoFar, Ascending, DependentsOf, DependencyLists;
    SortedDependents(lists.dependents, EdgesOf(byId), ids);
    AllLists(byId, ids);
  }

  lemma NoDependents(dependents: map<string, seq<string>>, deps: Edges)
    requires dependents == map id | id in deps :: []
    ensures DependentsSoFar(dependents, deps, [])
  {
  }

  lemma NextFault(byId: map<string, ProcessSpec>, ids: seq<string>, i: nat)
    requires i < |ids| && (forall id <- ids :: id in byId) && FirstFault(byId, ids[..i]).None?
    ensures FirstFault(byId, ids[..i + 1]) == EdgeFault(byId, ids[i])
  {
    assert ids[..i + 1][..i] == ids[..i];
  }

  lemma NextProcess(byId: map<string, ProcessSpec>, ids: seq<string>, i: nat, declared: seq<string>)
    requires Distinct(ids) && i < |ids| && ids[i] in byId && EdgeFault(byId, ids[i]).None?
    requires declared == Ascending(byId[ids[i]].dependsOn)
    ensures ids[i] !in ids[..i] && Distinct(declared) && Members(declared) == EdgesOf(byId)[ids[i]] <= byId.Keys
  {
    AscendingFacts(byId[ids[i]].dependsOn);
  }

  // ---------------------------------------------------------------- the counting loop

  /** The counters hold how many dependencies are not done yet. */
  ghost predicate CountersRight(remaining: map<string, int>, deps: Edges, done: set<string>) {
    remaining.Keys == deps.Keys && forall p | p in deps :: remaining[p] == |deps[p] - done|
  }

  ghost predicate DownClosed(deps: Edges, done: set<string>) {
    done <= deps.Keys && forall p | p in done :: deps[p] <= done
  }

  lemma OneFewer(s: set<string>, done: set<string>, p: string)
    requires p !in done
    ensures p in s ==> (|s - done| == 1 <==> s <= done + {p}) && |s - (done + {p})| == |s - done| - 1
    ensures p !in s ==> s - (done + {p}) == s - done
  {
    if p in s {
      assert s - done == (s - (done + {p})) + {p};
      assert s <= done + {p} <==> s - (done + {p}) == {};
    }
  }

  /** Part of the dependents of `process` were counted down. */
  ghost predicate CountedDown(remaining: map<string, int>, deps: Edges, done: set<string>, seen: seq<string>) {
    && remaining.Keys == deps.Keys
    && forall q | q in deps :: remaining[q] == if q in seen then |deps[q] - done| - 1 else |deps[q] - done|
  }

  ghost function Freed(deps: Edges, done: set<string>, seen: seq<string>): set<string> {
    set q | q in seen && q in deps && deps[q] <= done
  }

  ghost predicate ReadyList(ready: seq<string>, s: set<string>) {
    Sorted(TextLeq, ready) && Distinct(ready) && Members(ready) == s
  }

  /** Finishing `process` counts down its dependents; those that reach zero join the sorted ready list. */
  method Release(
    process: string, dependents: seq<string>, counters: map<string, int>, rest: seq<string>,
    ghost deps: Edges, ghost done: set<string>)
    returns (remaining: map<string, int>, ready: seq<string>)
    requires DownClosed(deps, done) && process in Ready(deps, done) && CountersRight(counters, deps, done)
    requires Distinct(dependents) && Members(dependents) == DependentsOf(deps, process)
    requires ReadyList(rest, Ready(deps, done) - {process})
    ensures CountersRight(remaining, deps, done + {process})
    ensures ReadyList(ready, Ready(deps, done + {process}))
  {
    remaining, ready := counters, rest;
    ghost var others, next := Ready(deps, done) - {process}, done + {process};
    assert process !in done;
    hide ReadyList, Ready, CountersRight, CountedDown, DownClosed, Freed, Members, Distinct, DependentsOf;
    assert CountedDown(remaining, deps, done, []) by { NoneCounted(counters, deps, done); }
    assert others + Freed(deps, next, []) == others by { assert Freed(deps, next, []) == {}; }
    for j := 0 to |dependents|
      invariant CountedDown(remaining, deps, done, dependents[..j])
      invariant ReadyList(ready, others + Freed(deps, next, dependents[..j]))
    {
      remaining, ready := CountDown(process, dependents, j, remaining, ready, deps, done);
    }
    assert dependents[..|dependents|] == dependents;
    ReadyAfter(deps, done, process, dependents);
    CountersAfter(remaining, deps, done, process, dependents);
  }

  method CountDown(
    process: string, dependents: seq<string>, j: nat, counters: map<string, int>, before: seq<string>,
    ghost deps: Edges, ghost done: set<string>)
    returns (remaining: map<string, int>, ready: seq<string>)
    requires process in Ready(deps, done) && j < |dependents|
    requires Distinct(dependents) && Members(dependents) == DependentsOf(deps, process)
    requires CountedDown(counters, deps, done, dependents[..j])
    requires ReadyList(before, (Ready(deps, done) - {process}) + Freed(deps, done + {process}, dependents[..j]))
    ensures CountedDown(remaining, deps, done, dependents[..j + 1])
    ensures ReadyList(ready, (Ready(deps, done) - {process}) + Freed(deps, done + {process}, dependents[..j + 1]))
  {
    var d := dependents[j];
    ghost var others, next := Ready(deps, done) - {process}, done + {process};
    assert dependents[..j + 1] == dependents[..j] + [d];
    DependentPending(deps, done, process, dependents, j);
    hide ReadyList, Ready, Freed, Members, Distinct, DependentsOf;
    FreedStep(deps, next, dependents[..j], d);
    OneFewer(deps[d], done, process);
    remaining, ready := counters[d := counters[d] - 1], before;
    if remaining[d] == 0 {
      ready := SortIn(ready, d, others + Freed(deps, next, dependents[..j]));
      assert others + Freed(deps, next, dependents[..j]) + {d} == others + Freed(deps, next, dependents[..j + 1]);
    }
  }

  lemma NoneCounted(counters: map<string, int>, deps: Edges, done: set<string>)
    requires CountersRight(counters, deps, done)
    ensures CountedDown(counters, deps, done, [])
  {
  }

  /** A dependent not yet counted is neither ready nor freed, and its process is still missing. */
  lemma DependentPending(deps: Edges, done: set<string>, process: string, dependents: seq<string>, j: nat)
    requires process in Ready(deps, done) && j < |dependents|
    requires Distinct(dependents) && Members(dependents) == DependentsOf(deps, process)
    ensures var d := dependents[j];
      && d in deps && process in deps[d] && process !in done && d !in dependents[..j]
      && d !in (Ready(deps, done) - {process}) + Freed(deps, done + {process}, dependents[..j])
  {
    assert dependents[j] in Members(dependents);
  }

  lemma FreedStep(deps: Edges, next: set<string>, seen: seq<string>, d: string)
    requires d in deps
    ensures Freed(deps, next, seen + [d]) ==
      if deps[d] <= next then Freed(deps, next, seen) + {d} else Freed(deps, next, seen)
  {
  }

  method SortIn(ready: seq<string>, d: string, ghost s: set<string>) returns (r: seq<string>)
    requires ReadyList(ready, s) && d !in s
    ensures ReadyList(r, s + {d})
  {
    assert Members(ready + [d]) == s + {d};
    assert forall x <- ready :: x in Members(ready);
    SortAscends(ready + [d], s + {d});
    AscendingFacts(s + {d});
    r := Sort(TextLeq, ready + [d]);
  }

  lemma ReadyAfter(deps: Edges, done: set<string>, process: string, dependents: seq<string>)
    requires process in Ready(deps, done) && DownClosed(deps, done)
    requires Members(dependents) == DependentsOf(deps, process)
    ensures Ready(deps, done + {process}) == (Ready(deps, done) - {process}) + Freed(deps, done + {process}, dependents)
  {
    var next := done + {process};
    forall q ensures q in Ready(deps, next) <==> q in (Ready(deps, done) - {process}) + Freed(deps, next, dependents) {
      assert q in dependents <==> q in Members(dependents);
    }
  }

  lemma CountersAfter(remaining: map<string, int>, deps: Edges, done: set<string>, process: string,
      dependents: seq<string>)
    requires CountedDown(remaining, deps, done, dependents) && process !in done
    requires Members(dependents) == DependentsOf(deps, process)
    ensures CountersRight(remaining, deps, done + {process})
  {
    forall q | q in deps ensures remaining[q] == |deps[q] - (done + {process})| {
      OneFewer(deps[q], done, process);
      assert q in dependents <==> q in Members(dependents);
    }
  }

  /** The order and the ready list as the loop has them after some turns. */
  ghost predicate KahnState(
    deps: Edges, order: seq<string>, remaining: map<string, int>, ready: seq<string>)
  {
    && DownClosed(deps, Members(order)) && |order| == |Members(order)|
    && CountersRight(remaining, deps, Members(order)) && ReadyList(ready, Ready(deps, Members(order)))
    && Kahn(deps, {}) == order + Kahn(deps, Members(order))
  }

  function StartCounters(lists: EdgeLists): map<string, int> {
    map p | p in lists.dependencies :: |lists.dependencies[p]|
  }

  function AtZero(remaining: map<string, int>): set<string> {
    set p | p in remaining && remaining[p] == 0
  }

  method TopologicalSort(lists: EdgeLists, ghost deps: Edges) returns (order: seq<string>)
    requires lists == ListsOf(deps)
    ensures order == Kahn(deps, {}) && |order| == |Members(order)|
  {
    var remaining := StartCounters(lists);
    var ready := SortedKeys(AtZero(remaining));
    order := [];
    KahnStarts(deps, lists);
    hide KahnState, Kahn, ListsOf, StartCounters, AtZero, Ascending, ReadyList, CountersRight, DownClosed, Distinct;
    hide Ready;
    while ready != []
      invariant KahnState(deps, order, remaining, ready)
      decreases deps.Keys - Members(order)
    {
      var process := ready[0];
      NextTurn(deps, order, remaining, ready);
      ListedDependents(deps, process);
      ghost var done := Members(order);
      remaining, ready := Release(process, lists.dependents[process], remaining, ready[1..], deps, done);
      KahnTurn(deps, order, process, remaining, ready);
      order := order + [process];
    }
    KahnEnds(deps, order, remaining);
  }

  lemma NothingDone(s: set<string>)
    ensures |s - {}| == |Ascending(s)| == |s| && (|s| == 0 <==> s <= {})
  {
    AscendingFacts(s);
    assert s - {} == s;
  }

  lemma StartsRight(deps: Edges)
    ensures CountersRight(StartCounters(ListsOf(deps)), deps, {})
  {
    hide Ascending, DependentsOf;
    var c := StartCounters(ListsOf(deps));
    assert c.Keys == deps.Keys;
    forall p | p in deps ensures c[p] == |deps[p] - {}| {
      assert p in c.Keys && c[p] == |ListsOf(deps).dependencies[p]|;
      NothingDone(deps[p]);
    }
  }

  lemma ZerosReady(deps: Edges, remaining: map<string, int>)
    requires CountersRight(remaining, deps, {})
    ensures AtZero(remaining) == Ready(deps, {})
  {
    forall p | p in deps ensures remaining[p] == 0 <==> deps[p] <= {} {
      NothingDone(deps[p]);
    }
  }

  lemma KahnStarts(deps: Edges, lists: EdgeLists)
    requires lists == ListsOf(deps)
    ensures KahnState(deps, [], StartCounters(lists), Ascending(AtZero(StartCounters(lists))))
  {
    StartsRight(deps);
    hide ListsOf, StartCounters, CountersRight, Kahn, Ready, Ascending, AtZero;
    ZerosReady(deps, StartCounters(lists));
    assert Members([]) == {};
    AscendingFacts(AtZero(StartCounters(lists)));
    assert [] + Kahn(deps, {}) == Kahn(deps, {});
  }

  /** The head of a sorted listing is its least element, and the tail lists the rest. */
  lemma ReadyHead(ready: seq<string>, s: set<string>)
    requires ReadyList(ready, s) && ready != []
    ensures ready[0] in s && ready[0] == Least(s) && ReadyList(ready[1..], s - {ready[0]})
  {
    var x := ready[0];
    assert x in Members(ready);
    forall y | y in s ensures TextLeq(x, y) {
      assert y in Members(ready);
      var i :| 0 <= i < |ready| && ready[i] == y;
      if i == 0 { TextLeqTotal(y, y); }
    }
    LeastIs(s, x);
    assert ready == [x] + ready[1..];
    assert Members(ready[1..]) == s - {x};
  }

  /** What the loop takes next. */
  lemma NextTurn(deps: Edges, order: seq<string>, remaining: map<string, int>, ready: seq<string>)
    requires KahnState(deps, order, remaining, ready) && ready != []
    ensures var process, done := ready[0], Members(order);
      && process in Ready(deps, done) && process in deps && process == Least(Ready(deps, done))
      && DownClosed(deps, done)
      && CountersRight(remaining, deps, done) && ReadyList(ready[1..], Ready(deps, done) - {process})
      && |order| == |Members(order)| && Kahn(deps, {}) == order + Kahn(deps, done)
  {
    hide Kahn, CountersRight, DownClosed, ReadyList;
    ReadyHead(ready, Ready(deps, Members(order)));
  }

  lemma ListedDependents(deps: Edges, process: string)
    requires process in deps
    ensures process in ListsOf(deps).dependents
    ensures var listed := ListsOf(deps).dependents[process];
      Distinct(listed) && Members(listed) == DependentsOf(deps, process)
  {
    AscendingFacts(DependentsOf(deps, process));
  }

  lemma KahnTurn(deps: Edges, order: seq<string>, process: string, remaining: map<string, int>, ready: seq<string>)
    requires DownClosed(deps, Members(order)) && |order| == |Members(order)|
    requires Kahn(deps, {}) == order + Kahn(deps, Members(order))
    requires process in Ready(deps, Members(order)) && process == Least(Ready(deps, Members(order)))
    requires CountersRight(remaining, deps, Members(order) + {process})
    requires ReadyList(ready, Ready(deps, Members(order) + {process}))
    ensures KahnState(deps, order + [process], remaining, ready)
    ensures deps.Keys - Members(order + [process]) < deps.Keys - Members(order)
  {
    hide CountersRight, ReadyList, Kahn;
    assert Members(order + [process]) == Members(order) + {process};
    assert process in deps.Keys - Members(order);
    KahnNext(deps, Members(order), process);
    assert order + ([process] + Kahn(deps, Members(order) + {process}))
      == (order + [process]) + Kahn(deps, Members(order) + {process});
  }

  lemma KahnNext(deps: Edges, done: set<string>, process: string)
    requires process in Ready(deps, done) && process == Least(Ready(deps, done))
    ensures Kahn(deps, done) == [process] + Kahn(deps, done + {process})
  {
  }

  lemma KahnEnds(deps: Edges, order: seq<string>, remaining: map<string, int>)
    requires KahnState(deps, order, remaining, [])
    ensures order == Kahn(deps, {}) && |order| == |Members(order)|
  {
    hide CountersRight, DownClosed;
    assert Ready(deps, Members(order)) == Members([]) == {};
  }

  lemma SameSize(a: set<string>, b: set<string>)
    requires a <= b
    ensures |a| == |b| <==> b - a == {}
  {
    assert b == a + (b - a);
  }

  lemma OrderCounts(deps: Edges, order: seq<string>, ids: seq<string>)
    requires order == Kahn(deps, {}) && |order| == |Members(order)| && ids == Ascending(deps.Keys)
    ensures |order| == |ids| <==> Leftover(deps) == {}
    ensures Leftover(deps) == deps.Keys - Members(order)
  {
    KahnTopological(deps, {});
    AscendingFacts(deps.Keys);
    SameSize(Members(order), deps.Keys);
  }

  /** `build_runtime_process_graph` */
  method BuildRuntimeProcessGraph(specs: seq<ProcessSpec>) returns (r: Result<ProcessGraph, GraphError>)
    ensures r == GraphOf(specs)
  {
    hide Ascending, Kahn, SpecsById, FirstRepeat, FirstFault, Leftover, EdgeFault, Distinct, Sorted;
    var byId := IndexSpecs(specs);
    if byId.Failure? {
      return Failure(byId.error);
    }
    var ids := SortedKeys(byId.value.Keys);
    AscendingFacts(byId.value.Keys);
    assert forall id <- ids :: id in Members(ids);
    var lists := CollectEdges(byId.value, ids);
    if lists.Failure? {
      return Failure(lists.error);
    }
    var order := TopologicalSort(lists.value, EdgesOf(byId.value));
    assert EdgesOf(byId.value).Keys == byId.value.Keys;
    OrderCounts(EdgesOf(byId.value), order, ids);
    if |order| != |ids| {
      var involved := SortedKeys(byId.value.Keys - Members(order));
      return Failure(DependencyCycle(involved));
    }
    r := Success(ProcessGraph(ids, order, lists.value.dependencies, lists.value.dependents));
  }

  // ---------------------------------------------------------------- downstream

  /** Every process in `found` is reached from a seed, and all but the pending ones were followed. */
  ghost predicate Followed(deps: Edges, seeds: set<string>, found: set<string>, pending: seq<string>) {
    && found <= TransitiveDependents(deps, seeds)
    && (forall p <- pending :: p in seeds + found)
    && (forall p, q | p in seeds + found && q in DependentsOf(deps, p) :: p in pending || q in found)
  }

  /** `RuntimeProcessGraph.downstream`: the worklist collects exactly the transitive dependents. */
  method Downstream(graph: ProcessGraph, ids: seq<string>,
      ghost deps: Edges) returns (r: Result<seq<string>, seq<string>>)
    requires graph == GraphFrom(deps)
    ensures r == if Members(ids) <= deps.Keys
                 then Success(Keep(graph.topologicalOrder, TransitiveDependents(deps, Members(ids))))
                 else Failure(Ascending(Members(ids) - deps.Keys))
  {
    hide Followed, TransitiveDependents, Ascending, DependentsOf, Keep, Kahn;
    assert Members(graph.processIds) == deps.Keys by { AscendingFacts(deps.Keys); }
    hide GraphFrom, Members;
    var unknown := Members(ids) - Members(graph.processIds);
    if unknown != {} {
      var names := SortedKeys(unknown);
      return Failure(names);
    }
    var found, pending := {}, ids;
    StartFollowing(deps, ids);
    while pending != []
      invariant Followed(deps, Members(ids), found, pending) && Members(ids) <= deps.Keys
      decreases deps.Keys - found, |pending|
    {
      found, pending := Follow(graph, deps, Members(ids), found, pending);
    }
    AllFollowed(deps, Members(ids), found);
    r := Success(Keep(graph.topologicalOrder, found));
  }

  lemma StartFollowing(deps: Edges, ids: seq<string>)
    ensures Followed(deps, Members(ids), {}, ids)
  {
  }

  /** One turn: the last pending process gives way to those of its dependents not found before. */
  method Follow(graph: ProcessGraph, ghost deps: Edges, ghost seeds: set<string>, before: set<string>,
      waiting: seq<string>)
    returns (found: set<string>, pending: seq<string>)
    requires graph == GraphFrom(deps) && waiting != [] && seeds <= deps.Keys && Followed(deps, seeds, before, waiting)
    ensures Followed(deps, seeds, found, pending)
    ensures deps.Keys - found < deps.Keys - before || (found == before && |pending| < |waiting|)
  {
    var p := waiting[|waiting| - 1];
    PendingKnown(deps, seeds, before, waiting);
    DependentsGiven(graph, deps, p);
    hide GraphFrom, Followed, TransitiveDependents, Members, DependentsOf, NewlyPending;
    var dependents := graph.dependents[p];
    found, pending := AddNew(dependents, before, waiting[..|waiting| - 1]);
    FollowedOn(deps, seeds, before, waiting, found, pending, dependents);
    if found != before {
      FewerLeft(deps.Keys, before, found);
    }
  }

  lemma PendingKnown(deps: Edges, seeds: set<string>, before: set<string>, waiting: seq<string>)
    requires waiting != [] && seeds <= deps.Keys && Followed(deps, seeds, before, waiting)
    ensures waiting[|waiting| - 1] in deps
  {
    assert waiting[|waiting| - 1] in waiting;
  }

  lemma DependentsGiven(graph: ProcessGraph, deps: Edges, p: string)
    requires graph == GraphFrom(deps) && p in deps
    ensures p in graph.dependents && Members(graph.dependents[p]) == DependentsOf(deps, p)
  {
    AscendingFacts(DependentsOf(deps, p));
  }

  lemma FewerLeft(all: set<string>, before: set<string>, found: set<string>)
    requires before <= found <= all && found != before
    ensures all - found < all - before
  {
    assert exists x :: x in found && x !in before;
  }

  ghost predicate NewlyPending(pending: seq<string>, rest: seq<string>, dependents: seq<string>, before: set<string>) {
    forall q :: q in pending <==> q in rest || (q in dependents && q !in before)
  }

  method AddNew(dependents: seq<string>, before: set<string>, rest: seq<string>)
    returns (found: set<string>, pending: seq<string>)
    ensures found == before + Members(dependents)
    ensures NewlyPending(pending, rest, dependents, before)
    ensures found == before ==> pending == rest
  {
    found, pending := before, rest;
    for j := 0 to |dependents|
      invariant found == before + Members(dependents[..j])
      invariant forall q :: q in pending <==> q in rest || (q in dependents[..j] && q !in before)
      invariant found == before ==> pending == rest
    {
      assert dependents[..j + 1] == dependents[..j] + [dependents[j]];
      if dependents[j] !in found {
        found := found + {dependents[j]};
        pending := pending + [dependents[j]];
      }
    }
    assert dependents[..|dependents|] == dependents;
  }

  lemma FollowedOn(
    deps: Edges, seeds: set<string>, before: set<string>, waiting: seq<string>, found: set<string>,
    pending: seq<string>, dependents: seq<string>)
    requires waiting != [] && Followed(deps, seeds, before, waiting)
    requires var p := waiting[|waiting| - 1]; p in deps && Members(dependents) == DependentsOf(deps, p)
    requires found == before + Members(dependents)
    requires NewlyPending(pending, waiting[..|waiting| - 1], dependents, before)
    ensures Followed(deps, seeds, found, pending) && before <= found <= deps.Keys
  {
    var p := waiting[|waiting| - 1];
    assert p in seeds + before;
    assert waiting == waiting[..|waiting| - 1] + [p];
    forall q ensures q in dependents <==> q in DependentsOf(deps, p) {
      assert q in dependents <==> q in Members(dependents);
    }
    NewlyReached(deps, seeds, before, p);
    hide TransitiveDependents, DependentsOf, Members;
    forall x <- pending ensures x in seeds + found {
      if x in dependents {
        assert x in DependentsOf(deps, p);
      } else {
        assert x in waiting;
      }
    }
    forall x, q | x in seeds + found && q in DependentsOf(deps, x) ensures x in pending || q in found {
      if x in seeds + before && x != p {
        assert x in waiting || q in before;
      }
    }
  }

  lemma NewlyReached(deps: Edges, seeds: set<string>, before: set<string>, p: string)
    requires before <= TransitiveDependents(deps, seeds) && p in seeds + before
    ensures DependentsOf(deps, p) <= TransitiveDependents(deps, seeds)
  {
    hide DependsOn;
    forall q | q in DependentsOf(deps, p) ensures q in TransitiveDependents(deps, seeds) {
      DependsDirectly(deps, q, p);
      if p !in seeds {
        var s :| s in seeds && DependsOn(deps, p, s);
        DependsFurther(deps, q, p, s);
      }
    }
  }

  lemma {:induction false} ReachedFound(deps: Edges, seeds: set<string>, found: set<string>, q: string, p: string,
      n: nat)
    requires Followed(deps, seeds, found, []) && p in seeds && DependsThrough(deps, q, p, n)
    ensures q in found
    decreases n
  {
    if n == 0 {
      assert q in DependentsOf(deps, p);
    } else {
      var m :| m in deps[q] && DependsThrough(deps, m, p, n - 1);
      ReachedFound(deps, seeds, found, m, p, n - 1);
      assert q in DependentsOf(deps, m);
    }
  }

  lemma AllFollowed(deps: Edges, seeds: set<string>, found: set<string>)
    requires Followed(deps, seeds, found, [])
    ensures found == TransitiveDependents(deps, seeds)
  {
    forall q | q in TransitiveDependents(deps, seeds) ensures q in found {
      var p :| p in seeds && DependsOn(deps, q, p);
      var n: nat :| DependsThrough(deps, q, p, n);
      ReachedFound(deps, seeds, found, q, p, n);
    }
  }
}
