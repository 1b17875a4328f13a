/** The process dependency graph of a recovery: Kahn's algorithm with a sorted ready list, and what its
    two outcomes mean. */
module RecoveryGraph {
  import opened RuntimeTypes
  import opened Sorting

  datatype ProcessGraph = ProcessGraph(
    processIds: seq<string>, topologicalOrder: seq<string>,
    dependencies: map<string, seq<string>>, dependents: map<string, seq<string>>)

  datatype GraphError =
    | DuplicateProcess(id: string)
    | SelfDependency(id: string)
    | UnknownDependencies(id: string, missing: seq<string>)
    | DependencyCycle(involved: seq<string>)

  /** Each process with the processes it depends on. */
  type Edges = map<string, set<string>>

  ghost predicate Closed(deps: Edges) {
    forall p, q | p in deps && q in deps[p] :: q in deps
  }

  function Members(s: seq<string>): set<string> {
    set x | x in s
  }

  // ---------------------------------------------------------------- sorted listings

  ghost function Ascending(s: set<string>): (r: seq<string>)
    ensures multiset(r) == multiset(s)
  {
    Sort(TextLeq, Listing(s))
  }

  lemma AscendingFacts(s: set<string>)
    ensures Sorted(TextLeq, Ascending(s)) && Distinct(Ascending(s)) && Members(Ascending(s)) == s
    ensures |Ascending(s)| == |s|
  {
    TextOrder(Listing(s));
    SortSorted(TextLeq, Listing(s));
    OnceEach(Ascending(s), s);
  }

  lemma OnceEach(r: seq<string>, s: set<string>)
    requires multiset(r) == multiset(s)
    ensures Distinct(r) && Members(r) == s && |r| == |s|
  {
    ListedOnce(r, s);
  }

  /** Sorting any listing without repeats gives the ascending listing. */
  lemma SortAscends(r: seq<string>, s: set<string>)
    requires Distinct(r) && Members(r) == s
    ensures Sort(TextLeq, r) == Ascending(s)
  {
    DistinctListing(s, r);
    TextOrder(r);
    SortPermutation(TextLeq, r, Listing(s));
  }

  lemma LeastExists(s: set<string>)
    requires s != {}
    ensures exists x :: x in s && forall y | y in s :: TextLeq(x, y)
  {
    var a := Ascending(s);
    AscendingFacts(s);
    assert a != [];
    forall y | y in s ensures TextLeq(a[0], y) {
      assert y in Members(a);
      var i :| 0 <= i < |a| && a[i] == y;
      if i == 0 { TextLeqTotal(y, y); }
    }
    assert a[0] in Members(a);
  }

  ghost function Least(s: set<string>): (x: string)
    requires s != {}
    ensures x in s && forall y | y in s :: TextLeq(x, y)
  {
    LeastExists(s);
    var x :| x in s && forall y | y in s :: TextLeq(x, y);
    x
  }

  /** The least element is the only one at or below every other. */
  lemma LeastIs(s: set<string>, x: string)
    requires x in s && forall y | y in s :: TextLeq(x, y)
    ensures Least(s) == x
  {
    TextLeqAntisymmetric(Least(s), x);
  }

  // ---------------------------------------------------------------- Kahn's algorithm

  ghost function Ready(deps: Edges, done: set<string>): set<string> {
    set p | p in deps && p !in done && deps[p] <= done
  }

  /** The continuation of an order: always the least ready process next. */
  ghost function Kahn(deps: Edges, done: set<string>): (order: seq<string>)
    decreases deps.Keys - done
  {
    var ready := Ready(deps, done);
    if ready == {} then [] else
      var p := Least(ready);
      assert p in deps.Keys - done && p !in deps.Keys - (done + {p});
      [p] + Kahn(deps, done + {p})
  }

  /** A sequence that visits processes after all they depend on, each at most once. */
  ghost predicate Topological(deps: Edges, done: set<string>, order: seq<string>) {
    forall i | 0 <= i < |order| ::
      && order[i] in deps && order[i] !in done + Members(order[..i])
      && deps[order[i]] <= done + Members(order[..i])
  }

  ghost predicate TopologicalOrder(deps: Edges, order: seq<string>) {
    Topological(deps, {}, order) && Members(order) == deps.Keys
  }

  lemma TopologicalStep(deps: Edges, done: set<string>, p: string, rest: seq<string>)
    ensures Topological(deps, done, [p] + rest) <==> p in Ready(deps, done) && Topological(deps, done + {p}, rest)
  {
    var order := [p] + rest;
    assert Members(order[..0]) == {};
    forall i | 0 <= i < |rest| ensures done + {p} + Members(rest[..i]) == done + Members(order[..i + 1]) {
      assert order[..i + 1] == [p] + rest[..i];
    }
    if Topological(deps, done, order) {
      assert order[0] == p;
      forall i | 0 <= i < |rest|
        ensures rest[i] in deps && rest[i] !in (done + {p}) + Members(rest[..i])
        ensures deps[rest[i]] <= (done + {p}) + Members(rest[..i])
      {
        assert order[i + 1] == rest[i];
      }
    }
    if p in Ready(deps, done) && Topological(deps, done + {p}, rest) {
      forall i | 0 <= i < |order|
        ensures order[i] in deps && order[i] !in done + Members(order[..i])
        ensures deps[order[i]] <= done + Members(order[..i])
      {
        if i > 0 {
          assert order[i] == rest[i - 1];
        }
      }
    }
  }

  lemma {:induction false} KahnTopological(deps: Edges, done: set<string>)
    ensures Topological(deps, done, Kahn(deps, done))
    ensures Ready(deps, done + Members(Kahn(deps, done))) == {}
    decreases deps.Keys - done
  {
    var ready := Ready(deps, done);
    if ready == {} {
      assert done + Members([]) == done;
    } else {
      var p := Least(ready);
      assert p in deps.Keys - done && p !in deps.Keys - (done + {p});
      KahnTopological(deps, done + {p});
      var rest := Kahn(deps, done + {p});
      assert Members([p] + rest) == {p} + Members(rest);
      assert done + Members([p] + rest) == (done + {p}) + Members(rest);
      TopologicalStep(deps, done, p, rest);
    }
  }

  predicate LexLeq(a: seq<string>, b: seq<string>) {
    if a == [] then true
    else if b == [] then false
    else if a[0] != b[0] then TextLeq(a[0], b[0])
    else LexLeq(a[1..], b[1..])
  }

  /** Among all ways to finish from `done`, Kahn's is the lexicographically smallest. */
  lemma {:induction false} KahnSmallest(deps: Edges, done: set<string>, order: seq<string>)
    requires Topological(deps, done, order) && done + Members(order) >= deps.Keys
    ensures LexLeq(Kahn(deps, done), order)
    decreases |order|
  {
    if order == [] {
      assert Ready(deps, done) == {};
    } else {
      var p, rest := order[0], order[1..];
      assert order == [p] + rest;
      TopologicalStep(deps, done, p, rest);
      if p == Least(Ready(deps, done)) {
        assert done + Members(order) == (done + {p}) + Members(rest);
        KahnSmallest(deps, done + {p}, rest);
      }
    }
  }

  // ---------------------------------------------------------------- what the two outcomes mean

  /** A set in which every process depends on another member: no order can ever start on it. */
  ghost predicate Entangled(deps: Edges, stuck: set<string>) {
    stuck <= deps.Keys && forall p | p in stuck :: deps[p] * stuck != {}
  }

  ghost function Leftover(deps: Edges): set<string> {
    deps.Keys - Members(Kahn(deps, {}))
  }

  lemma LeftoverEntangled(deps: Edges)
    requires Closed(deps)
    ensures Entangled(deps, Leftover(deps))
  {
    KahnTopological(deps, {});
    var done := Members(Kahn(deps, {}));
    assert {} + done == done;
    forall p | p in Leftover(deps) ensures deps[p] * Leftover(deps) != {} {
      assert p !in Ready(deps, done);
      var q :| q in deps[p] && q !in done;
      assert q in deps && q in deps[p] * Leftover(deps);
    }
  }

  /** An order never reaches an entangled set. */
  lemma {:induction false} EntangledUnreached(deps: Edges, stuck: set<string>, order: seq<string>, i: nat)
    requires Entangled(deps, stuck) && Topological(deps, {}, order) && i < |order|
    ensures order[i] !in stuck
    decreases i
  {
    if order[i] in stuck {
      var q :| q in deps[order[i]] * stuck;
      assert q in {} + Members(order[..i]);
      var j :| 0 <= j < i && order[j] == q;
      EntangledUnreached(deps, stuck, order, j);
    }
  }

  lemma OrderAvoids(deps: Edges, stuck: set<string>, order: seq<string>)
    requires Entangled(deps, stuck) && Topological(deps, {}, order)
    ensures Members(order) !! stuck && Members(order) <= deps.Keys
  {
    hide Entangled;
    forall x | x in Members(order) ensures x !in stuck && x in deps {
      var i :| 0 <= i < |order| && order[i] == x;
      EntangledUnreached(deps, stuck, order, i);
    }
  }

  /** Kahn's order is complete exactly when some order is, it is then the lexicographically smallest, and
      otherwise what is left is the largest set in which every process depends on another member. */
  lemma KahnDecides(deps: Edges)
    requires Closed(deps)
    ensures TopologicalOrder(deps, Kahn(deps, {})) <==> exists order :: TopologicalOrder(deps, order)
    ensures TopologicalOrder(deps, Kahn(deps, {})) <==> Leftover(deps) == {}
    ensures forall order | TopologicalOrder(deps, order) :: LexLeq(Kahn(deps, {}), order)
    ensures Entangled(deps, Leftover(deps))
    ensures forall stuck | Entangled(deps, stuck) :: stuck <= Leftover(deps)
  {
    KahnTopological(deps, {});
    LeftoverEntangled(deps);
    hide Entangled, Topological, Kahn, LexLeq, Closed, Ready;
    var kahn := Kahn(deps, {});
    forall stuck | Entangled(deps, stuck) ensures stuck <= Leftover(deps) {
      OrderAvoids(deps, stuck, kahn);
      EntangledKeys(deps, stuck);
    }
    forall order | TopologicalOrder(deps, order) ensures Leftover(deps) == {} && LexLeq(kahn, order) {
      OrderAvoids(deps, Leftover(deps), order);
      assert {} + Members(order) == Members(order);
      KahnSmallest(deps, {}, order);
    }
    OrderAvoids(deps, Leftover(deps), kahn);
    assert Leftover(deps) == {} ==> Members(kahn) == deps.Keys;
  }

  lemma EntangledKeys(deps: Edges, stuck: set<string>)
    requires Entangled(deps, stuck)
    ensures stuck <= deps.Keys
  {
  }

  // ---------------------------------------------------------------- from declarations to a graph

  ghost predicate UniqueIds(specs: seq<ProcessSpec>) {
    forall i, j | 0 <= i < j < |specs| :: specs[i].ResolvedId() != specs[j].ResolvedId()
  }

  function SpecsById(specs: seq<ProcessSpec>): map<string, ProcessSpec> {
    if specs == [] then map[]
    else
      var last := specs[|specs| - 1];
      SpecsById(specs[..|specs| - 1])[last.ResolvedId() := last]
  }

  /** The first declaration whose id an earlier one took. */
  function FirstRepeat(specs: seq<ProcessSpec>): Option<string> {
    if specs == [] then None
    else
      var init, id := specs[..|specs| - 1], specs[|specs| - 1].ResolvedId();
      if FirstRepeat(init).Some? then FirstRepeat(init)
      else if id in SpecsById(init) then Some(id) else None
  }

  ghost function EdgeFault(byId: map<string, ProcessSpec>, id: string): Option<GraphError>
    requires id in byId
  {
    if id in byId[id].dependsOn then Some(SelfDependency(id))
    else if !(byId[id].dependsOn <= byId.Keys)
    then Some(UnknownDependencies(id, Ascending(byId[id].dependsOn - byId.Keys)))
    else None
  }

  ghost function FirstFault(byId: map<string, ProcessSpec>, ids: seq<string>): Option<GraphError>
    requires forall id <- ids :: id in byId
  {
    if ids == [] then None
    else if FirstFault(byId, ids[..|ids| - 1]).Some? then FirstFault(byId, ids[..|ids| - 1])
    else EdgeFault(byId, ids[|ids| - 1])
  }

  function EdgesOf(byId: map<string, ProcessSpec>): Edges {
    map id | id in byId :: byId[id].dependsOn
  }

  function DependentsOf(deps: Edges, p: string): set<string> {
    set q | q in deps && p in deps[q]
  }

  ghost function GraphFrom(deps: Edges): ProcessGraph {
    ProcessGraph(Ascending(deps.Keys), Kahn(deps, {}), map p | p in deps :: Ascending(deps[p]),
                 map p | p in deps :: Ascending(DependentsOf(deps, p)))
  }

  /** `build_runtime_process_graph` */
  ghost function GraphOf(specs: seq<ProcessSpec>): Result<ProcessGraph, GraphError> {
    if FirstRepeat(specs).Some? then Failure(DuplicateProcess(FirstRepeat(specs).value))
    else
      var byId := SpecsById(specs);
      AscendingFacts(byId.Keys);
      assert forall id <- Ascending(byId.Keys) :: id in Members(Ascending(byId.Keys));
      var fault := FirstFault(byId, Ascending(byId.Keys));
      if fault.Some? then Failure(fault.value)
      else if Leftover(EdgesOf(byId)) != {} then Failure(DependencyCycle(Ascending(Leftover(EdgesOf(byId)))))
      else Success(GraphFrom(EdgesOf(byId)))
  }

  lemma {:induction false} SpecsListed(specs: seq<ProcessSpec>)
    ensures FirstRepeat(specs).None? <==> UniqueIds(specs)
    ensures forall id :: id in SpecsById(specs) <==> exists s :: s in specs && s.ResolvedId() == id
    ensures forall id | id in SpecsById(specs) ::
      SpecsById(specs)[id] in specs && SpecsById(specs)[id].ResolvedId() == id
  {
    hide ProcessSpec.ResolvedId;
    if specs != [] {
      var init, last := specs[..|specs| - 1], specs[|specs| - 1];
      assert specs == init + [last];
      SpecsListed(init);
      if last.ResolvedId() in SpecsById(init) {
        var s :| s in init && s.ResolvedId() == last.ResolvedId();
        var i :| 0 <= i < |init| && init[i] == s;
        assert specs[i].ResolvedId() == specs[|specs| - 1].ResolvedId();
      }
    }
  }

  lemma {:induction false} FaultFree(byId: map<string, ProcessSpec>, ids: seq<string>)
    requires forall id <- ids :: id in byId
    ensures FirstFault(byId, ids).None? <==> forall id <- ids :: EdgeFault(byId, id).None?
    ensures FirstFault(byId, ids).Some? ==>
      FirstFault(byId, ids).value.SelfDependency? || FirstFault(byId, ids).value.UnknownDependencies?
  {
    if ids != [] {
      var init := ids[..|ids| - 1];
      assert ids == init + [ids[|ids| - 1]];
      FaultFree(byId, init);
    }
  }

  /** Declarations that name known processes other than themselves. */
  ghost predicate SoundEdges(deps: Edges) {
    Closed(deps) && forall p | p in deps :: p !in deps[p]
  }

  lemma FaultsExact(byId: map<string, ProcessSpec>)
    ensures (forall id <- Ascending(byId.Keys) :: id in byId)
      && (FirstFault(byId, Ascending(byId.Keys)).None? <==> SoundEdges(EdgesOf(byId)))
  {
    var ids := Ascending(byId.Keys);
    AscendingFacts(byId.Keys);
    hide Ascending, FirstFault, Sorted, Distinct;
    assert forall id :: id in ids <==> id in Members(ids);
    FaultFree(byId, ids);
    SoundOnes(byId);
  }

  lemma SoundOnes(byId: map<string, ProcessSpec>)
    ensures SoundEdges(EdgesOf(byId)) <==> forall id | id in byId :: EdgeFault(byId, id).None?
  {
    var deps := EdgesOf(byId);
    if forall id | id in byId :: EdgeFault(byId, id).None? {
      forall p, q | p in deps && q in deps[p] ensures q in deps && p != q {
        assert EdgeFault(byId, p).None?;
      }
    }
    if SoundEdges(deps) {
      forall p | p in byId ensures EdgeFault(byId, p).None? {
        assert p in deps && deps[p] == byId[p].dependsOn;
        forall q | q in deps[p] ensures q in byId.Keys { assert q in deps; }
        assert byId[p].dependsOn <= byId.Keys;
      }
    }
  }

  /** The declarations as edges, when ids are unique. */
  function Declared(specs: seq<ProcessSpec>): Edges {
    EdgesOf(SpecsById(specs))
  }

  /** The two outcomes on well-formed declarations: the lexicographically smallest topological order, with
      both edge lists exact, or the largest set in which every process depends on another member. */
  lemma GraphExact(specs: seq<ProcessSpec>)
    requires UniqueIds(specs) && SoundEdges(Declared(specs))
    ensures var deps := Declared(specs);
      match GraphOf(specs)
      case Success(g) =>
        && TopologicalOrder(deps, g.topologicalOrder)
        && (forall order | TopologicalOrder(deps, order) :: LexLeq(g.topologicalOrder, order))
        && Members(g.processIds) == g.dependencies.Keys == g.dependents.Keys == deps.Keys
        && (forall p | p in deps :: Members(g.dependencies[p]) == deps[p])
        && (forall p, q | p in deps && q in deps :: q in g.dependents[p] <==> p in g.dependencies[q])
      case Failure(error) =>
        && (forall order :: !TopologicalOrder(deps, order))
        && error.DependencyCycle? && error.involved != [] && Entangled(deps, Members(error.involved))
        && (forall stuck | Entangled(deps, stuck) :: stuck <= Members(error.involved))
  {
    var deps := Declared(specs);
    SpecsListed(specs);
    FaultsExact(SpecsById(specs));
    hide SpecsById, FirstFault, FirstRepeat, EdgesOf, Entangled, TopologicalOrder, Kahn, LexLeq, Ascending, GraphFrom;
    KahnDecides(deps);
    AscendingFacts(Leftover(deps));
    GraphEdges(deps);
    assert GraphOf(specs).Success? ==> GraphOf(specs) == Success(GraphFrom(deps));
  }

  lemma GraphEdges(deps: Edges)
    ensures var g := GraphFrom(deps);
      && g.topologicalOrder == Kahn(deps, {})
      && Members(g.processIds) == g.dependencies.Keys == g.dependents.Keys == deps.Keys
      && (forall p | p in deps :: Members(g.dependencies[p]) == deps[p])
      && (forall p, q | p in deps && q in deps :: q in g.dependents[p] <==> p in g.dependencies[q])
  {
    hide Kahn, Ascending, Sorted, Distinct, DependentsOf, Members;
    AscendingFacts(deps.Keys);
    forall p | p in deps ensures Members(Ascending(deps[p])) == deps[p] {
      AscendingFacts(deps[p]);
    }
    forall p, q | p in deps && q in deps ensures q in Ascending(DependentsOf(deps, p)) <==> p in Ascending(deps[q]) {
      DependentListed(deps, p, q);
    }
  }

  lemma DependentListed(deps: Edges, p: string, q: string)
    requires p in deps && q in deps
    ensures q in Ascending(DependentsOf(deps, p)) <==> p in Ascending(deps[q])
  {
    AscendingFacts(DependentsOf(deps, p));
    AscendingFacts(deps[q]);
    assert q in Ascending(DependentsOf(deps, p)) <==> q in Members(Ascending(DependentsOf(deps, p)));
    assert p in Ascending(deps[q]) <==> p in Members(Ascending(deps[q]));
  }

  /** The id is the first that an earlier declaration took. */
  ghost predicate RepeatsFirst(specs: seq<ProcessSpec>, id: string) {
    exists j | 0 <= j < |specs| ::
      && UniqueIds(specs[..j]) && specs[j].ResolvedId() == id
      && exists i | 0 <= i < j :: specs[i].ResolvedId() == id
  }

  predicate Faulty(deps: Edges, p: string)
    requires p in deps
  {
    p in deps[p] || !(deps[p] <= deps.Keys)
  }

  ghost function FaultOf(deps: Edges, p: string): GraphError
    requires p in deps
  {
    if p in deps[p] then SelfDependency(p) else UnknownDependencies(p, Ascending(deps[p] - deps.Keys))
  }

  /** The faulty process whose id comes first. */
  ghost predicate FaultsFirst(deps: Edges, p: string) {
    p in deps && Faulty(deps, p) && forall q | q in deps && Faulty(deps, q) :: TextLeq(p, q)
  }

  lemma {:induction false} RepeatFound(specs: seq<ProcessSpec>)
    requires FirstRepeat(specs).Some?
    ensures RepeatsFirst(specs, FirstRepeat(specs).value)
  {
    hide ProcessSpec.ResolvedId;
    var init, last := specs[..|specs| - 1], specs[|specs| - 1];
    SpecsListed(init);
    if FirstRepeat(init).Some? {
      RepeatFound(init);
      var j :| 0 <= j < |init| && UniqueIds(init[..j]) && init[j].ResolvedId() == FirstRepeat(init).value
        && exists i | 0 <= i < j :: init[i].ResolvedId() == FirstRepeat(init).value;
      var i :| 0 <= i < j && init[i].ResolvedId() == FirstRepeat(init).value;
      assert specs[..j] == init[..j] && specs[j] == init[j] && specs[i] == init[i];
    } else {
      var s :| s in init && s.ResolvedId() == last.ResolvedId();
      var i :| 0 <= i < |init| && init[i] == s;
      assert specs[..|init|] == init && specs[i] == init[i] && specs[|init|] == last;
    }
  }

  lemma {:induction false} FirstFaultFound(byId: map<string, ProcessSpec>, ids: seq<string>) returns (k: nat)
    requires (forall id <- ids :: id in byId) && FirstFault(byId, ids).Some?
    ensures k < |ids| && EdgeFault(byId, ids[k]) == FirstFault(byId, ids)
    ensures forall i | 0 <= i < k :: EdgeFault(byId, ids[i]).None?
  {
    var init := ids[..|ids| - 1];
    FaultFree(byId, init);
    if FirstFault(byId, init).Some? {
      k := FirstFaultFound(byId, init);
    } else {
      k := |init|;
      assert forall i | 0 <= i < k :: ids[i] in init;
    }
  }

  lemma FaultyOnes(byId: map<string, ProcessSpec>, p: string)
    requires p in byId
    ensures EdgesOf(byId).Keys == byId.Keys && EdgesOf(byId)[p] == byId[p].dependsOn
    ensures Faulty(EdgesOf(byId), p) <==> EdgeFault(byId, p).Some?
    ensures Faulty(EdgesOf(byId), p) ==> EdgeFault(byId, p) == Some(FaultOf(EdgesOf(byId), p))
  {
    assert EdgesOf(byId).Keys == byId.Keys;
    hide Ascending;
  }

  lemma FaultFound(byId: map<string, ProcessSpec>, ids: seq<string>)
    requires Sorted(TextLeq, ids) && Members(ids) == byId.Keys && forall id <- ids :: id in byId
    requires FirstFault(byId, ids).Some?
    ensures exists p :: FaultsFirst(EdgesOf(byId), p) && FirstFault(byId, ids) == Some(FaultOf(EdgesOf(byId), p))
  {
    hide FirstFault, TextLeq, Faulty, EdgeFault, FaultOf, EdgesOf;
    var k := FirstFaultFound(byId, ids);
    forall q | q in byId && EdgeFault(byId, q).Some? ensures TextLeq(ids[k], q) {
      assert q in Members(ids);
      var i :| 0 <= i < |ids| && ids[i] == q;
      TextLeqTotal(q, q);
      assert i == k || TextLeq(ids[k], ids[i]);
    }
    forall q | q in byId ensures q in EdgesOf(byId) && (Faulty(EdgesOf(byId), q) <==> EdgeFault(byId, q).Some?) {
      FaultyOnes(byId, q);
    }
    FaultyOnes(byId, ids[k]);
    assert FaultsFirst(EdgesOf(byId), ids[k]);
  }

  /** Whatever is not well formed is refused: for the first id declared twice, or else for the first process
      in id order that depends on itself or on unknown ids, a self-dependency before the unknown ids. */
  lemma GraphRefuses(specs: seq<ProcessSpec>)
    ensures GraphOf(specs).Success? ==> UniqueIds(specs) && SoundEdges(Declared(specs))
    ensures !UniqueIds(specs) ==>
      && GraphOf(specs).Failure? && GraphOf(specs).error.DuplicateProcess?
      && RepeatsFirst(specs, GraphOf(specs).error.id)
    ensures UniqueIds(specs) && !SoundEdges(Declared(specs)) ==>
      exists p :: FaultsFirst(Declared(specs), p) && GraphOf(specs) == Failure(FaultOf(Declared(specs), p))
    ensures GraphOf(specs).Failure? && UniqueIds(specs) ==>
      (GraphOf(specs).error.DependencyCycle? <==> SoundEdges(Declared(specs)))
  {
    SpecsListed(specs);
    var byId := SpecsById(specs);
    FaultsExact(byId);
    AscendingFacts(byId.Keys);
    assert forall id <- Ascending(byId.Keys) :: id in Members(Ascending(byId.Keys));
    FaultFree(byId, Ascending(byId.Keys));
    if FirstRepeat(specs).Some? { RepeatFound(specs); }
    hide SpecsById, FirstFault, FirstRepeat, Entangled, TopologicalOrder, Kahn, LexLeq, Ascending, SoundEdges, FaultOf;
    hide RepeatsFirst, FaultsFirst, EdgesOf, EdgeFault, Members, Sorted, Distinct;
    if UniqueIds(specs) && !SoundEdges(EdgesOf(byId)) {
      FaultFound(byId, Ascending(byId.Keys));
    }
  }

  lemma StillUnique(a: seq<ProcessSpec>, b: seq<ProcessSpec>)
    requires multiset(a) == multiset(b) && UniqueIds(a)
    ensures UniqueIds(b)
  {
    SameMembers(a, b);
    forall i, j | 0 <= i < j < |b| ensures b[i].ResolvedId() != b[j].ResolvedId() {
      if b[i].ResolvedId() == b[j].ResolvedId() {
        OneSpec(a, b[i], b[j]);
        OnceOnly(a, b[j]);
        TwiceIn(b, i, j);
      }
    }
  }

  lemma TwiceIn(b: seq<ProcessSpec>, i: nat, j: nat)
    requires i < j < |b| && b[i] == b[j]
    ensures multiset(b)[b[j]] >= 2
  {
    assert b == b[..j] + [b[j]] + b[j + 1..];
    assert b[i] in b[..j];
  }

  lemma SameSpecs(a: seq<ProcessSpec>, b: seq<ProcessSpec>)
    requires multiset(a) == multiset(b) && UniqueIds(a)
    ensures UniqueIds(b) && SpecsById(a) == SpecsById(b)
  {
    StillUnique(a, b);
    SameMembers(a, b);
    SpecsListed(a);
    SpecsListed(b);
    hide SpecsById, UniqueIds, FirstRepeat;
    forall id ensures id in SpecsById(a) <==> id in SpecsById(b) {}
    forall id | id in SpecsById(a) ensures SpecsById(a)[id] == SpecsById(b)[id] {
      OneSpec(a, SpecsById(a)[id], SpecsById(b)[id]);
    }
  }

  lemma OneSpec(specs: seq<ProcessSpec>, s: ProcessSpec, t: ProcessSpec)
    requires UniqueIds(specs) && s in specs && t in specs && s.ResolvedId() == t.ResolvedId()
    ensures s == t
  {
    var i :| 0 <= i < |specs| && specs[i] == s;
    var j :| 0 <= j < |specs| && specs[j] == t;
    assert i < j || j < i || i == j;
  }

  lemma {:induction false} OnceOnly(specs: seq<ProcessSpec>, s: ProcessSpec)
    requires UniqueIds(specs)
    ensures multiset(specs)[s] <= 1
  {
    if specs != [] {
      var init, last := specs[..|specs| - 1], specs[|specs| - 1];
      assert specs == init + [last];
      OnceOnly(init, s);
    }
  }

  /** The result does not depend on the order in which unique declarations are given. */
  lemma GraphIgnoresOrder(a: seq<ProcessSpec>, b: seq<ProcessSpec>)
    requires multiset(a) == multiset(b) && UniqueIds(a)
    ensures GraphOf(a) == GraphOf(b)
  {
    SameSpecs(a, b);
    SpecsListed(a);
    SpecsListed(b);
    hide SpecsById, FirstRepeat;
  }

  // ---------------------------------------------------------------- transitive dependents

  /** `q` depends on `p` through `n` processes in between. */
  ghost predicate DependsThrough(deps: Edges, q: string, p: string, n: nat)
    decreases n
  {
    q in deps && if n == 0 then p in deps[q] else exists m :: m in deps[q] && DependsThrough(deps, m, p, n - 1)
  }

  ghost predicate DependsOn(deps: Edges, q: string, p: string) {
    exists n: nat :: DependsThrough(deps, q, p, n)
  }

  ghost function TransitiveDependents(deps: Edges, seeds: set<string>): set<string> {
    set q | q in deps && exists p :: p in seeds && DependsOn(deps, q, p)
  }

  lemma DependsDirectly(deps: Edges, q: string, p: string)
    requires q in deps && p in deps[q]
    ensures DependsOn(deps, q, p)
  {
    assert DependsThrough(deps, q, p, 0);
  }

  lemma DependsFurther(deps: Edges, q: string, m: string, p: string)
    requires q in deps && m in deps[q] && DependsOn(deps, m, p)
    ensures DependsOn(deps, q, p)
  {
    var n: nat :| DependsThrough(deps, m, p, n);
    assert DependsThrough(deps, q, p, n + 1);
  }

  /** The listed processes that are in `s`, in their listed order. */
  function Keep(order: seq<string>, s: set<string>): seq<string> {
    if order == [] then []
    else
      Keep(order[..|order| - 1], s) + (if order[|order| - 1] in s then [order[|order| - 1]] else [])
  }
}
