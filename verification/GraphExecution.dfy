/** Layered execution with result caches, against plain recursive evaluation over the bindings. */
module GraphExecution {
  import opened RuntimeTypes
  import opened ComputeGraph
  import opened GraphSort

  type Inputs = map<string, Value>

  // ---------------------------------------------------------------- recursive evaluation

  /** Required slots with neither a binding nor a default. */
  function Unbound(n: TaskNode): set<string> {
    set slot | slot in n.slots && slot !in n.bindings && n.slots[slot].required && n.slots[slot].default.None?
  }

  function Defaults(n: TaskNode): map<string, Value> {
    map slot | slot in n.slots && n.slots[slot].default.Some? && slot !in n.bindings :: n.slots[slot].default.value
  }

  function Given(bound: map<string, Option<Value>>): map<string, Value> {
    map slot | slot in bound && bound[slot].Some? :: bound[slot].value
  }

  /** The keyword arguments from what each binding gives: defaults first, then the bound values. Nothing when
      a binding raises or a required argument is absent. */
  function Keywords(n: TaskNode, bound: map<string, Option<Value>>): Option<map<string, Value>> {
    if Unbound(n) != {} || exists slot :: slot in bound && bound[slot].None? then None
    else
      Some(Defaults(n) + Given(bound))
  }

  ghost function Lookup(n: TaskNode, slot: string, inputs: Inputs): Option<Value>
    requires slot in n.bindings
    decreases n.rank, 0
  {
    match n.bindings[slot]
    case Constant(value) => Some(value)
    case Variable(input) => if input.name in inputs then Some(inputs[input.name]) else None
    case Whole(p) => if p.rank < n.rank then Eval(p, inputs) else None
    case Part(p, selector) =>
      if p.rank >= n.rank || Eval(p, inputs).None? then None else Resolve(Eval(p, inputs).value, selector)
  }

  /** The reference: call the function on the values of the bindings, and wait for a future. */
  ghost function Eval(n: TaskNode, inputs: Inputs): Option<Value>
    decreases n.rank, 1
  {
    match Keywords(n, map slot | slot in n.bindings :: Lookup(n, slot, inputs))
    case Some(arguments) => Some(Settle(n.func(arguments)))
    case None => None
  }

  // ---------------------------------------------------------------- what the checks cover

  lemma InheritsMissing(n: TaskNode, p: TaskNode)
    requires Built(n) && p in n.parents
    ensures Built(p) && p.rank < n.rank && p.missing.Keys <= n.missing.Keys
    ensures forall name | name in p.missing :: name in n.missing && n.missing[name] == p.missing[name]
  {
  }

  /** Every variable any ancestor looks up is one of the root's missing inputs, the same object: the root's
      check covers every lookup. */
  lemma {:induction false} MissingCovers(root: TaskNode, n: TaskNode, slot: string)
    requires Built(root) && n in Reach(root) && slot in n.bindings && n.bindings[slot].Variable?
    ensures Names(root.missing, n.bindings[slot].input)
    decreases root.rank
  {
    if n != root {
      var p :| p in root.parents && p.rank < root.rank && n in Reach(p);
      InheritsMissing(root, p);
      hide Built, Reach;
      MissingCovers(p, n, slot);
    }
  }

  lemma {:induction false} MissingInherited(root: TaskNode, n: TaskNode)
    requires Built(root) && n in Reach(root)
    ensures n.missing.Keys <= root.missing.Keys
    decreases root.rank
  {
    if n != root {
      var p :| p in root.parents && p.rank < root.rank && n in Reach(p);
      InheritsMissing(root, p);
      hide Built, Reach;
      MissingInherited(p, n);
    }
  }

  /** With the inputs given, every ancestor fully bound and no sub-output selected, evaluation cannot fail. */
  lemma {:induction false} CompleteEvaluates(root: TaskNode, n: TaskNode, inputs: Inputs)
    requires Built(root) && n in Reach(root) && root.missing.Keys <= inputs.Keys
    requires forall a | a in Reach(root) ::
      Unbound(a) == {} && forall slot | slot in a.bindings :: !a.bindings[slot].Part?
    ensures Eval(n, inputs).Some?
    decreases n.rank
  {
    hide Reach;
    ReachFacts(root);
    forall slot | slot in n.bindings ensures Lookup(n, slot, inputs).Some? {
      if n.bindings[slot].Variable? {
        MissingCovers(root, n, slot);
      } else if n.bindings[slot].Whole? {
        var p := n.bindings[slot].node;
        ReachFacts(n);
        CompleteEvaluates(root, p, inputs);
      }
    }
  }

  /** A node with nothing missing evaluates alike on all inputs. */
  lemma {:induction false} EvalIgnoresInputs(n: TaskNode, a: Inputs, b: Inputs)
    requires Built(n) && n.missing == map[]
    ensures Eval(n, a) == Eval(n, b)
    decreases n.rank
  {
    forall slot | slot in n.bindings ensures Lookup(n, slot, a) == Lookup(n, slot, b) {
      if n.bindings[slot].Refers() {
        var p := n.bindings[slot].node;
        InheritsMissing(n, p);
        assert p.missing == map[];
        EvalIgnoresInputs(p, a, b);
      }
    }
    assert (map slot | slot in n.bindings :: Lookup(n, slot, a)) ==
      (map slot | slot in n.bindings :: Lookup(n, slot, b));
  }

  // ---------------------------------------------------------------- caches

  /** A cached result that would be reused is the value of the node. */
  ghost predicate CacheRight(n: TaskNode)
    reads n
  {
    n.executed && n.missing == map[] ==> Eval(n, map[]) == Some(n.result)
  }

  ghost predicate CachesRight(nodes: set<TaskNode>)
    reads nodes
  {
    forall n | n in nodes :: CacheRight(n)
  }

  ghost predicate OrderRight(n: TaskNode)
    reads n
  {
    n.cachedOrder.Some? ==> Layered(n.cachedOrder.value, Reach(n))
  }

  // ---------------------------------------------------------------- running one node

  function Found(n: TaskNode, slot: string, results: map<TaskNode, Value>, inputs: Inputs): Option<Value>
    requires slot in n.bindings
  {
    match n.bindings[slot]
    case Constant(value) => Some(value)
    case Variable(input) => if input.name in inputs then Some(inputs[input.name]) else None
    case Whole(p) => if p in results then Some(results[p]) else None
    case Part(p, selector) => if p in results then Resolve(results[p], selector) else None
  }

  function Ran(n: TaskNode, results: map<TaskNode, Value>, inputs: Inputs): Option<Value> {
    match Keywords(n, map slot | slot in n.bindings :: Found(n, slot, results, inputs))
    case Some(arguments) => Some(n.func(arguments))
    case None => None
  }

  /** `_run`: the defaults, then each binding. */
  method RunNode(n: TaskNode, results: map<TaskNode, Value>, inputs: Inputs) returns (r: Option<Value>)
    ensures r == Ran(n, results, inputs)
  {
    var given := Collect(n, results, inputs);
    if given.None? || Unbound(n) != {} {
      return None;
    }
    r := Some(n.func(Defaults(n) + given.value));
  }

  /** The loop over the bindings, which stops at the first that raises. */
  method Collect(n: TaskNode, results: map<TaskNode, Value>, inputs: Inputs) returns (given: Option<map<string, Value>>)
    ensures var all := map slot | slot in n.bindings :: Found(n, slot, results, inputs);
      given == if exists slot :: slot in all && all[slot].None? then None else Some(Given(all))
  {
    ghost var all := map slot | slot in n.bindings :: Found(n, slot, results, inputs);
    var values: map<string, Value> := map[];
    var left := n.bindings.Keys;
    while left != {}
      invariant left <= n.bindings.Keys && values.Keys == n.bindings.Keys - left
      invariant forall slot | slot in values :: all[slot] == Some(values[slot])
      decreases |left|
    {
      var slot :| slot in left;
      var value := Found(n, slot, results, inputs);
      assert all[slot] == value;
      if value.None? {
        return None;
      }
      values := values[slot := value.value];
      left := left - {slot};
    }
    assert values == Given(all);
    given := Some(values);
  }

  /** A node whose parents' values are at hand. */
  ghost predicate ParentsReady(n: TaskNode, results: map<TaskNode, Value>, inputs: Inputs) {
    forall p <- n.parents :: p in results && Eval(p, inputs) == Some(results[p])
  }

  function Settled(raw: Option<Value>): Option<Value> {
    if raw.Some? then Some(Settle(raw.value)) else None
  }

  /** With the parents' values at hand, running a node gives its value, before a future is waited for. */
  lemma RanIsEval(n: TaskNode, results: map<TaskNode, Value>, inputs: Inputs)
    requires Built(n) && ParentsReady(n, results, inputs)
    ensures Eval(n, inputs) == Settled(Ran(n, results, inputs))
  {
    forall slot | slot in n.bindings ensures Lookup(n, slot, inputs) == Found(n, slot, results, inputs) {
      if n.bindings[slot].Refers() { assert n.bindings[slot].node in n.parents; }
    }
    assert (map slot | slot in n.bindings :: Lookup(n, slot, inputs))
      == (map slot | slot in n.bindings :: Found(n, slot, results, inputs));
  }

  // ---------------------------------------------------------------- running one layer

  predicate Reused(n: TaskNode)
    reads n
  {
    n.executed && n.missing == map[]
  }

  /** Runs the nodes of a layer in any order: the choice stands for every schedule of the threads. */
  method RunInAnyOrder(nodes: set<TaskNode>, results: map<TaskNode, Value>, inputs: Inputs)
    returns (raw: Option<map<TaskNode, Value>>)
    requires forall n | n in nodes :: Built(n) && ParentsReady(n, results, inputs)
    ensures raw.Some? ==> raw.value.Keys == nodes
    ensures raw.Some? ==> forall n | n in nodes :: Eval(n, inputs) == Some(Settle(raw.value[n]))
    ensures raw.None? ==> exists n :: n in nodes && Eval(n, inputs).None?
  {
    hide Eval, Ran, Built, ParentsReady;
    var done: map<TaskNode, Value> := map[];
    var left := nodes;
    while left != {}
      invariant left <= nodes && done.Keys == nodes - left
      invariant forall n | n in done :: Eval(n, inputs) == Some(Settle(done[n]))
      decreases |left|
    {
      var n :| n in left;
      var value := RunNode(n, results, inputs);
      RanIsEval(n, results, inputs);
      if value.None? {
        return None;
      }
      done := done[n := value.value];
      left := left - {n};
    }
    raw := Some(done);
  }

  /** What the result table holds: the value of each node, but for a root whose own cache was reused. */
  ghost predicate Outcomes(results: map<TaskNode, Value>, root: TaskNode, reused: Option<Value>, inputs: Inputs) {
    forall n | n in results ::
      if n == root && reused.Some? then results[n] == reused.value else Eval(n, inputs) == Some(results[n])
  }

  /** The layer can run: its parents are done, and what it reuses is right or is the root's own. */
  ghost predicate LayerReady(
    layer: seq<TaskNode>, results: map<TaskNode, Value>, root: TaskNode, reused: Option<Value>, inputs: Inputs)
    reads layer
  {
    && (forall n <- layer :: Built(n) && n !in results && ParentsReady(n, results, inputs))
    && (forall n <- layer | n != root :: CacheRight(n))
    && (root in layer ==> reused == if Reused(root) then Some(root.result) else None)
  }

  /** Waits for one result if it is a future, and caches what it gave. */
  method SettleOne(n: TaskNode, raw: Value, inputs: Inputs)
    requires Built(n) && !Reused(n) && Eval(n, inputs) == Some(Settle(raw))
    modifies n`result, n`executed
    ensures CacheRight(n)
    ensures if raw.Future? then n.executed && n.result == raw.outcome
            else n.executed == old(n.executed) && n.result == old(n.result)
  {
    hide Eval, Built;
    if raw.Future? {
      n.result := raw.outcome;
      n.executed := true;
      if n.missing == map[] {
        EvalIgnoresInputs(n, inputs, map[]);
      }
    }
  }

  /** The settled results of a layer, with every future waited for and cached. */
  method SettleLayer(nodes: set<TaskNode>, raw: map<TaskNode, Value>,
      inputs: Inputs) returns (settled: map<TaskNode, Value>)
    requires raw.Keys == nodes
    requires forall n | n in nodes :: Built(n) && !Reused(n) && Eval(n, inputs) == Some(Settle(raw[n]))
    modifies nodes
    ensures settled.Keys == nodes && forall n | n in nodes :: Eval(n, inputs) == Some(settled[n])
    ensures forall n | n in nodes :: CacheRight(n) && n.cachedOrder == old(n.cachedOrder)
  {
    hide Eval, Built, CacheRight, Settle, Reused;
    settled := map[];
    var left := nodes;
    while left != {}
      invariant left <= nodes && settled.Keys == nodes - left
      invariant forall n | n in settled :: Eval(n, inputs) == Some(settled[n]) && CacheRight(n)
      invariant forall n | n in nodes :: n.cachedOrder == old(n.cachedOrder)
      invariant forall n | n in left :: !Reused(n)
      decreases |left|
    {
      var n :| n in left;
      SettleOne(n, raw[n], inputs);
      settled := settled[n := Settle(raw[n])];
      left := left - {n};
    }
  }

  ghost predicate LayerDone(
    results: map<TaskNode, Value>, before: map<TaskNode, Value>, layer: seq<TaskNode>, root: TaskNode,
    reused: Option<Value>, inputs: Inputs)
  {
    && results.Keys == before.Keys + NodeSet(layer) && (forall n | n in before :: results[n] == before[n])
    && Outcomes(results, root, reused, inputs)
  }

  ghost predicate LayerFails(layer: seq<TaskNode>, root: TaskNode, reused: Option<Value>, inputs: Inputs) {
    exists n :: n in layer && !(n == root && reused.Some?) && Eval(n, inputs).None?
  }

  /** One turn of the execution: reuse what is cached, run the rest, wait for futures. */
  method ExecuteLayer(layer: seq<TaskNode>, before: map<TaskNode, Value>, inputs: Inputs,
      ghost root: TaskNode, ghost reused: Option<Value>)
    returns (results: Option<map<TaskNode, Value>>)
    requires LayerReady(layer, before, root, reused, inputs) && Outcomes(before, root, reused, inputs)
    modifies layer
    ensures results.Some? ==> LayerDone(results.value, before, layer, root, reused, inputs)
    ensures results.None? ==> LayerFails(layer, root, reused, inputs)
    ensures results.None? ==> forall n <- layer :: n.executed == old(n.executed) && n.result == old(n.result)
    ensures forall n <- layer :: n.cachedOrder == old(n.cachedOrder)
    ensures forall n <- layer | n != root :: CacheRight(n)
  {
    var cached := map n | n in layer && Reused(n) :: n.result;
    var toRun := set n | n in layer && !Reused(n);
    ReuseRight(layer, before, root, reused, inputs, cached);
    StillReady(layer, before, root, reused, inputs, before + cached);
    assert cached.Keys + toRun == NodeSet(layer) && cached.Keys !! toRun;
    assert root in toRun ==> reused.None?;
    assert forall n <- layer :: n !in before;
    assert forall n <- layer | n != root && n !in toRun :: CacheRight(n);
    hide Eval, Built, CacheRight, LayerReady, ParentsReady, Outcomes, LayerDone;
    var raw := RunInAnyOrder(toRun, before + cached, inputs);
    if raw.None? {
      return None;
    }
    var settled := SettleLayer(toRun, raw.value, inputs);
    LayerMade(before, cached, settled, layer, root, reused, inputs);
    results := Some(before + cached + settled);
  }

  lemma LayerMade(
    before: map<TaskNode, Value>, cached: map<TaskNode, Value>, settled: map<TaskNode, Value>, layer: seq<TaskNode>,
    root: TaskNode, reused: Option<Value>, inputs: Inputs)
    requires Outcomes(before + cached, root, reused, inputs) && cached.Keys !! before.Keys
    requires cached.Keys + settled.Keys == NodeSet(layer) && cached.Keys !! settled.Keys
    requires (forall n <- layer :: n !in before) && (root in settled ==> reused.None?)
    requires forall n | n in settled :: Eval(n, inputs) == Some(settled[n])
    ensures LayerDone(before + cached + settled, before, layer, root, reused, inputs)
  {
    hide Eval;
    forall n | n in settled ensures n !in before { assert n in NodeSet(layer); }
    forall n | n in before + cached && n !in settled
      ensures (before + cached + settled)[n] == (before + cached)[n] {}
  }

  lemma ReuseRight(layer: seq<TaskNode>, before: map<TaskNode, Value>, root: TaskNode, reused: Option<Value>,
      inputs: Inputs, cached: map<TaskNode, Value>)
    requires LayerReady(layer, before, root, reused, inputs) && Outcomes(before, root, reused, inputs)
    requires cached == map n | n in layer && Reused(n) :: n.result
    ensures Outcomes(before + cached, root, reused, inputs)
    ensures cached.Keys !! before.Keys
  {
    hide Eval, Built, ParentsReady;
    forall n | n in cached && n != root ensures Eval(n, inputs) == Some(cached[n]) {
      EvalIgnoresInputs(n, inputs, map[]);
    }
  }

  lemma StillReady(layer: seq<TaskNode>, before: map<TaskNode, Value>, root: TaskNode, reused: Option<Value>,
      inputs: Inputs, more: map<TaskNode, Value>)
    requires LayerReady(layer, before, root, reused, inputs)
    requires forall n | n in before :: n in more && more[n] == before[n]
    ensures forall n <- layer :: Built(n) && ParentsReady(n, more, inputs)
  {
    hide Eval, Built;
  }

  // ---------------------------------------------------------------- execute

  /** The root's own cached result, when execution would reuse it. */
  function ReusedResult(n: TaskNode): Option<Value>
    reads n
  {
    if Reused(n) then Some(n.result) else None
  }

  /** Every node that has to run, or whose cache stands for a run, has a value. */
  ghost predicate AllEvaluate(root: TaskNode, reused: Option<Value>, inputs: Inputs) {
    forall n | n in Reach(root) && !(n == root && reused.Some?) :: Eval(n, inputs).Some?
  }

  /** The results after the layers below `k`. */
  ghost predicate Progress(k: nat, results: map<TaskNode, Value>, root: TaskNode, reused: Option<Value>,
      inputs: Inputs) {
    results.Keys == Below(Reach(root), k) && Outcomes(results, root, reused, inputs)
  }

  lemma NextLayerReady(
    layer: seq<TaskNode>, k: nat, results: map<TaskNode, Value>, root: TaskNode, reused: Option<Value>, inputs: Inputs)
    requires Built(root) && Enumerates(layer, Level(Reach(root), k)) && Progress(k, results, root, reused, inputs)
    requires CachesRight(Reach(root) - {root}) && (root !in results ==> reused == ReusedResult(root))
    ensures LayerReady(layer, results, root, reused, inputs)
    ensures forall n <- layer :: n in Reach(root)
  {
    hide Eval, Reach;
    ReachFacts(root);
    ReachClosedUp(root);
    forall n <- layer
      ensures n in Reach(root) && Built(n) && n !in results && ParentsReady(n, results, inputs)
      ensures n != root ==> CacheRight(n)
      ensures n == root ==> root !in results
    {
      assert n in NodeSet(layer);
      DepthWithin(n, k);
      forall p <- n.parents ensures p in results && p != root {
        assert p.rank < n.rank;
      }
    }
  }

  lemma NextProgress(
    layer: seq<TaskNode>, k: nat, before: map<TaskNode, Value>, results: map<TaskNode, Value>, root: TaskNode,
    reused: Option<Value>, inputs: Inputs)
    requires Enumerates(layer, Level(Reach(root), k)) && Progress(k, before, root, reused, inputs)
    requires LayerDone(results, before, layer, root, reused, inputs)
    ensures Progress(k + 1, results, root, reused, inputs)
    ensures root in results <==> root in before || root in layer
  {
    hide Eval, Outcomes;
    NextBelow(Reach(root), k);
    assert root in NodeSet(layer) <==> root in layer;
  }

  lemma FailureShows(layer: seq<TaskNode>, root: TaskNode, reused: Option<Value>, inputs: Inputs)
    requires LayerFails(layer, root, reused, inputs) && forall n <- layer :: n in Reach(root)
    ensures !AllEvaluate(root, reused, inputs)
  {
  }

  /** A layer that fails is no deeper than the root, so the root has not run yet. */
  lemma RootNotYet(layer: seq<TaskNode>, k: nat, before: map<TaskNode, Value>, root: TaskNode,
      reused: Option<Value>, inputs: Inputs)
    requires Built(root) && Enumerates(layer, Level(Reach(root), k)) && Progress(k, before, root, reused, inputs)
    requires LayerFails(layer, root, reused, inputs)
    ensures root !in before
  {
    hide Eval, Reach, Outcomes;
    var n :| n in layer;
    assert n in NodeSet(layer);
    if n != root { AncestorsAreShallower(root, n); }
  }

  lemma NothingDone(root: TaskNode, reused: Option<Value>, inputs: Inputs)
    ensures Progress(0, map[], root, reused, inputs)
  {
  }

  lemma AllDone(order: seq<seq<TaskNode>>, results: map<TaskNode, Value>, root: TaskNode,
      reused: Option<Value>, inputs: Inputs)
    requires Built(root) && Layered(order, Reach(root)) && Progress(|order|, results, root, reused, inputs)
    ensures AllEvaluate(root, reused, inputs) && root in results
    ensures reused.Some? ==> results[root] == reused.value
    ensures reused.None? ==> Eval(root, inputs) == Some(results[root])
  {
    ReachFacts(root);
    assert Below(Reach(root), |order|) == Reach(root);
    assert root in Reach(root);
  }

  /** The loop over the layers. */
  method ExecuteLayers(root: TaskNode, order: seq<seq<TaskNode>>, inputs: Inputs,
      ghost all: set<TaskNode>) returns (results: Option<map<TaskNode, Value>>)
    requires Built(root) && all == Reach(root) && Layered(order, all) && CachesRight(all - {root})
    modifies all
    ensures CachesRight(all - {root})
    ensures forall n | n in all :: n.cachedOrder == old(n.cachedOrder)
    ensures results.Some? <==> AllEvaluate(root, old(ReusedResult(root)), inputs)
    ensures results.None? ==> root.executed == old(root.executed) && root.result == old(root.result)
    ensures results.Some? ==> root in results.value
    ensures results.Some? && old(Reused(root)) ==> results.value[root] == old(root.result)
    ensures results.Some? && !old(Reused(root)) ==> Eval(root, inputs) == Some(results.value[root])
  {
    hide Eval, Built, Progress, Layered, AllEvaluate, Reach, CachesRight;
    ghost var reused := ReusedResult(root);
    var done: map<TaskNode, Value> := map[];
    var k := 0;
    NothingDone(root, reused, inputs);
    while k < |order|
      invariant k <= |order| && Progress(k, done, root, reused, inputs)
      invariant CachesRight(all - {root})
      invariant forall n | n in all :: n.cachedOrder == old(n.cachedOrder)
      invariant root !in done ==> reused == ReusedResult(root)
      invariant root !in done ==> root.executed == old(root.executed) && root.result == old(root.result)
    {
      LayerListed(order, root, k);
      var turn := ExecuteTurn(root, order[k], k, done, inputs, all, reused);
      if turn.None? {
        return None;
      }
      done := turn.value;
      k := k + 1;
    }
    AllDone(order, done, root, reused, inputs);
    results := Some(done);
  }

  /** One turn of the loop, with what it keeps. */
  method ExecuteTurn(root: TaskNode, layer: seq<TaskNode>, k: nat, before: map<TaskNode, Value>, inputs: Inputs,
                     ghost all: set<TaskNode>, ghost reused: Option<Value>)
    returns (results: Option<map<TaskNode, Value>>)
    requires Built(root) && all == Reach(root) && Enumerates(layer, Level(all, k))
    requires Progress(k, before, root, reused, inputs)
    requires CachesRight(all - {root}) && (root !in before ==> reused == ReusedResult(root))
    modifies all
    ensures CachesRight(all - {root})
    ensures forall n | n in all :: n.cachedOrder == old(n.cachedOrder)
    ensures results.Some? ==> Progress(k + 1, results.value, root, reused, inputs)
    ensures results.Some? && root in before ==> root in results.value
    ensures results.Some? && root !in results.value ==> reused == ReusedResult(root)
    ensures results.None? ==> !AllEvaluate(root, reused, inputs) && root !in before
    ensures results.None? || root !in results.value ==>
      root.executed == old(root.executed) && root.result == old(root.result)
  {
    hide Eval, Built, LayerReady, LayerDone, LayerFails, AllEvaluate, Outcomes, CacheRight, Reach, Enumerates, Level;
    hide Below;
    NextLayerReady(layer, k, before, root, reused, inputs);
    results := ExecuteLayer(layer, before, inputs, root, reused);
    if results.None? {
      FailureShows(layer, root, reused, inputs);
      RootNotYet(layer, k, before, root, reused, inputs);
    } else {
      NextProgress(layer, k, before, results.value, root, reused, inputs);
    }
  }

  lemma LayerListed(order: seq<seq<TaskNode>>, root: TaskNode, k: nat)
    requires Layered(order, Reach(root)) && k < |order|
    ensures Enumerates(order[k], Level(Reach(root), k))
  {
  }

  /** What `execute` answers: the two checks first, then the value of the root, or a node's failure. */
  ghost predicate Answers(r: Result<Value, GraphFault>, root: TaskNode, reused: Option<Value>, inputs: Inputs) {
    if Unbound(root) != {} then r == Failure(UnboundSlots(Unbound(root)))
    else if !(root.missing.Keys <= inputs.Keys) then r == Failure(MissingInputs(root.missing.Keys - inputs.Keys))
    else if !AllEvaluate(root, reused, inputs) then r == Failure(NodeRaised)
    else r.Success? && if reused.Some? then r.value == reused.value else Eval(root, inputs) == Some(r.value)
  }

  /** Traces and sorts on the first execution, and reuses the layers after that. */
  method EnsureOrder(root: TaskNode, ghost all: set<TaskNode>) returns (order: seq<seq<TaskNode>>)
    requires Built(root) && all == Reach(root) && OrderRight(root)
    modifies root`cachedOrder
    ensures Layered(order, all) && root.cachedOrder == Some(order)
  {
    hide Layered, Enumerates;
    if root.cachedOrder.None? {
      var nodes := TraceAncestors(root);
      var layers, leftover := TopologicalSort(root, nodes);
      root.cachedOrder := Some(layers);
    }
    order := root.cachedOrder.value;
  }

  /** `execute`, on a root whose ancestors' caches are right. Its answer is that of recursive evaluation
      over the bindings, whatever the schedule within a layer, unless the root's own cache is reused; and
      afterwards the ancestors' caches are right again, as is the root's when it was computed. */
  method Execute(root: TaskNode, inputs: Inputs, ghost all: set<TaskNode>) returns (r: Result<Value, GraphFault>)
    requires Built(root) && all == Reach(root) && OrderRight(root) && CachesRight(all - {root})
    modifies all
    ensures Answers(r, root, old(ReusedResult(root)), inputs)
    ensures OrderRight(root) && CachesRight(all - {root})
    ensures forall n | n in all - {root} :: n.cachedOrder == old(n.cachedOrder)
    ensures r.Success? ==> root.executed && root.result == r.value
    ensures r.Failure? ==> root.executed == old(root.executed) && root.result == old(root.result)
    ensures r.Success? && !old(Reused(root)) ==> CacheRight(root)
  {
    hide Eval, Built, AllEvaluate, Layered;
    assert root in all by { SelfReached(root); }
    var unbound := Unbound(root);
    if unbound != {} {
      return Failure(UnboundSlots(unbound));
    }
    var missing := root.missing.Keys - inputs.Keys;
    if missing != {} {
      return Failure(MissingInputs(missing));
    }
    assert root.missing.Keys <= inputs.Keys + missing;
    var order := EnsureOrder(root, all);
    var results := ExecuteLayers(root, order, inputs, all);
    if results.None? {
      return Failure(NodeRaised);
    }
    root.result := results.value[root];
    root.executed := true;
    if root.missing == map[] {
      EvalIgnoresInputs(root, inputs, map[]);
    }
    r := Success(root.result);
  }

  lemma SelfReached(n: TaskNode)
    ensures n in Reach(n)
  {
  }

  // ---------------------------------------------------------------- binding and its copied cache

  /** The copy will be run: its origin left no result behind, or an input is still missing. */
  predicate CopyRuns(origin: TaskNode, w: Wiring)
    reads origin
  {
    !origin.executed || w.missing != map[]
  }

  /** The copied result is right exactly when it will not be used, or happens to be the copy's value. */
  method BindCopy(origin: TaskNode, arguments: seq<(string, Binding)>) returns (r: Result<TaskNode, GraphFault>)
    requires Built(origin) && ArgumentsBuilt(arguments)
    ensures r.Success? <==> BindAll(origin, arguments).Success?
    ensures r.Success? ==>
      && fresh(r.value) && Built(r.value) && WiringOf(r.value) == BindAll(origin, arguments).value
      && r.value.executed == origin.executed && r.value.result == origin.result
      && (CacheRight(r.value) <==>
            CopyRuns(origin, BindAll(origin, arguments).value) || Eval(r.value, map[]) == Some(origin.result))
      && OrderRight(r.value) && r.value in Reach(r.value)
      && forall x | x in Reach(r.value) && x != r.value :: exists p :: p in r.value.parents && x in Reach(p)
  {
    hide Eval, Layered;
    r := Bind(origin, arguments);
  }

  // ---------------------------------------------------------------- whole histories

  /** A set of nodes closed upward, all well built, with right caches: what every history keeps whose
      copies all run, or copy a result that is their own value. */
  ghost predicate Sound(nodes: set<TaskNode>)
    reads nodes
  {
    forall n | n in nodes :: Built(n) && Reach(n) <= nodes && CacheRight(n) && OrderRight(n)
  }

  lemma {:induction false} ParentsFrom(origin: TaskNode, arguments: seq<(string, Binding)>, p: TaskNode)
    requires BindAll(origin, arguments).Success? && p in BindAll(origin, arguments).value.parents
    ensures p in origin.parents || exists a :: a in arguments && a.1.Refers() && a.1.node == p
  {
    if arguments != [] {
      var init, last := arguments[..|arguments| - 1], arguments[|arguments| - 1];
      assert arguments == init + [last];
      hide Conflicts, Reach;
      if p in BindAll(origin, init).value.parents {
        ParentsFrom(origin, init, p);
      } else {
        assert last in arguments;
      }
    }
  }

  /** Binding any node of a sound set: the set stays sound with the new node exactly when the copy will be
      run, or the result it takes over is its own value. */
  method BindInHistory(origin: TaskNode, arguments: seq<(string, Binding)>, ghost nodes: set<TaskNode>)
    returns (r: Result<TaskNode, GraphFault>)
    requires Sound(nodes) && origin in nodes
    requires forall a <- arguments :: a.1.Refers() ==> a.1.node in nodes
    ensures r.Success? <==> BindAll(origin, arguments).Success?
    ensures r.Success? ==>
      && fresh(r.value) && Built(r.value) && WiringOf(r.value) == BindAll(origin, arguments).value
      && r.value.executed == origin.executed && r.value.result == origin.result
      && Reach(r.value) <= nodes + {r.value} && r.value in Reach(r.value) && OrderRight(r.value)
      && (Sound(nodes + {r.value}) <==>
            CopyRuns(origin, BindAll(origin, arguments).value) || Eval(r.value, map[]) == Some(origin.result))
  {
    hide Eval, Built, Reach, CacheRight, OrderRight;
    assert ArgumentsBuilt(arguments);
    r := BindCopy(origin, arguments);
    if r.Success? {
      ghost var n := r.value;
      forall x | x in Reach(n) && x != n ensures x in nodes {
        var p :| p in n.parents && x in Reach(p);
        ParentsFrom(origin, arguments, p);
        OriginParents(origin, nodes);
      }
      assert Reach(n) <= nodes + {n};
    }
  }

  lemma OriginParents(origin: TaskNode, nodes: set<TaskNode>)
    requires Built(origin) && Reach(origin) <= nodes
    ensures forall p <- origin.parents :: p in nodes
  {
    ReachFacts(origin);
  }

  /** Executing any node of a sound set, after any such history, is recursive evaluation over its bindings:
      it succeeds exactly when every ancestor has a value, and the set stays sound. */
  method ExecuteInHistory(root: TaskNode, inputs: Inputs,
      ghost nodes: set<TaskNode>) returns (r: Result<Value, GraphFault>)
    requires Sound(nodes) && root in nodes
    modifies nodes
    ensures Sound(nodes)
    ensures Unbound(root) == {} && root.missing.Keys <= inputs.Keys ==>
      (r.Success? <==> forall n | n in Reach(root) :: Eval(n, inputs).Some?)
    ensures r.Success? ==> Eval(root, inputs) == Some(r.value)
  {
    hide Eval, Built, Reach, Layered;
    ghost var all, reused := Reach(root), ReusedResult(root);
    assert root in all by { SelfReached(root); }
    if Reused(root) {
      EvalIgnoresInputs(root, inputs, map[]);
    }
    r := Execute(root, inputs, all);
    hide Unbound;
    assert AllEvaluate(root, reused, inputs) <==> forall n | n in all :: Eval(n, inputs).Some?;
  }

  /** Binding any node of a sound set and executing the copy. A copy that runs answers with its value by
      recursive evaluation. Any other answers with the result of its origin, right or not. */
  method BindAndExecute(origin: TaskNode, arguments: seq<(string, Binding)>, inputs: Inputs, ghost nodes: set<TaskNode>)
    returns (bound: Result<TaskNode, GraphFault>, r: Result<Value, GraphFault>)
    requires Sound(nodes) && origin in nodes
    requires forall a <- arguments :: a.1.Refers() ==> a.1.node in nodes
    modifies nodes
    ensures bound.Success? <==> BindAll(origin, arguments).Success?
    ensures bound.Failure? ==> r.Failure?
    ensures bound.Success? && old(CopyRuns(origin, BindAll(origin, arguments).value)) ==>
      var n := bound.value;
      && (Unbound(n) == {} && n.missing.Keys <= inputs.Keys ==>
            (r.Success? <==> forall x | x in Reach(n) :: Eval(x, inputs).Some?))
      && (r.Success? ==> Eval(n, inputs) == Some(r.value))
    ensures bound.Success? && !old(CopyRuns(origin, BindAll(origin, arguments).value)) ==>
      var n := bound.value;
      && (Unbound(n) == {} ==> (r.Success? <==> forall x | x in Reach(n) && x != n :: Eval(x, inputs).Some?))
      && (r.Success? ==> r.value == old(origin.result))
  {
    hide Eval, Built, Reach, CacheRight, OrderRight, Unbound, Layered;
    bound := BindInHistory(origin, arguments, nodes);
    if bound.Failure? {
      return bound, Failure(bound.error);
    }
    var n := bound.value;
    if !origin.executed || n.missing != map[] {
      r := ExecuteInHistory(n, inputs, nodes + {n});
    } else {
      ghost var all := Reach(n);
      r := Execute(n, inputs, all);
      assert AllEvaluate(n, Some(old(origin.result)), inputs) <==>
        forall x | x in all && x != n :: Eval(x, inputs).Some?;
    }
  }

  function Echo(arguments: map<string, Value>): Value {
    if "x" in arguments then arguments["x"] else Atom(Null)
  }

  /** A copy that is not run can be wrong: rebinding a node that was executed, with nothing missing, makes
      the copy answer with the old value. */
  method StaleAfterRebinding() returns (before: Value, after: Value, expected: Value)
    ensures before == Atom(Scalar("1")) && expected == Atom(Scalar("2")) && after == before != expected
  {
    hide Layered, Eval, AllEvaluate, Reach, Unbound;
    var one, two := Constant(Atom(Scalar("1"))), Constant(Atom(Scalar("2")));
    var node := ExecutedEcho(one);
    before := node.result;
    var second := Bind(node, [("x", two)]);
    OneArgument(node, "x", two);
    var copy := second.value;
    NoParents(copy);
    EvalConstant(copy, two, map[]);
    expected := Atom(Scalar("2"));
    var again := Execute(copy, map[], {copy});
    after := again.value;
  }

  /** A one-slot node bound to a constant and executed. */
  method ExecutedEcho(value: Binding) returns (node: TaskNode)
    requires value.Constant? && !value.value.Future?
    ensures Built(node) && node.func == Echo && node.slots == map["x" := Slot(true, None)] && node.parents == []
    ensures node.bindings == map["x" := value] && node.missing == map[]
    ensures node.executed && node.result == value.value
  {
    hide Layered, Eval, AllEvaluate, Reach, Unbound;
    var blank := new TaskNode(Echo, map["x" := Slot(true, None)]);
    var first := Bind(blank, [("x", value)]);
    OneArgument(blank, "x", value);
    node := first.value;
    NoParents(node);
    EvalConstant(node, value, map[]);
    var r := Execute(node, map[], {node});
  }

  lemma OneArgument(origin: TaskNode, slot: string, value: Binding)
    requires slot in origin.slots && value.Constant?
    ensures BindAll(origin, [(slot, value)]) == Success(WiringOf(origin).(bindings := origin.bindings[slot := value]))
  {
    assert [(slot, value)][..0] == [];
  }

  lemma NoParents(n: TaskNode)
    requires n.parents == []
    ensures Reach(n) == {n}
  {
  }

  lemma EvalConstant(n: TaskNode, value: Binding, inputs: Inputs)
    requires value.Constant? && n.bindings == map["x" := value] && n.slots == map["x" := Slot(true, None)]
    requires n.func == Echo && n.parents == []
    ensures Unbound(n) == {} && Eval(n, inputs) == Some(Settle(value.value))
    ensures forall reused :: AllEvaluate(n, reused, inputs)
  {
    NoParents(n);
    var bound := map slot | slot in n.bindings :: Lookup(n, slot, inputs);
    assert bound == map["x" := Some(value.value)];
    assert Defaults(n) + Given(bound) == map["x" := value.value];
  }
}
