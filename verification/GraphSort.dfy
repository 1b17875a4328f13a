/** Tracing a node's ancestors and sorting them into layers, with the counters the code keeps: one count for
    each parent entry, so a parent bound through several slots is counted several times. */
module GraphSort {
  import opened Sorting
  import opened ComputeGraph

  function NodeSet(nodes: seq<TaskNode>): set<TaskNode> {
    set n | n in nodes
  }

  /** `nodes` lists the set, each node once. */
  ghost predicate Enumerates(nodes: seq<TaskNode>, s: set<TaskNode>) {
    Distinct(nodes) && NodeSet(nodes) == s
  }

  // ---------------------------------------------------------------- tracing

  /** `_trace_ancestors` */
  method TraceAncestors(root: TaskNode) returns (nodes: seq<TaskNode>)
    requires Built(root)
    ensures Enumerates(nodes, Reach(root))
  {
    nodes := Visit(root, []);
  }

  ghost function ReachAll(nodes: seq<TaskNode>): set<TaskNode> {
    set p, x | p in nodes && x in Reach(p) :: x
  }

  /** Everything at or below `rank` that was visited was visited with all its ancestors. */
  ghost predicate Explored(visited: set<TaskNode>, rank: nat) {
    forall v | v in visited && v.rank <= rank :: Reach(v) <= visited
  }

  /** `dfs` inside it: nodes still on the stack rank above the one being visited. */
  method Visit(node: TaskNode, before: seq<TaskNode>) returns (nodes: seq<TaskNode>)
    requires Built(node) && Distinct(before) && Explored(NodeSet(before), node.rank)
    ensures Enumerates(nodes, NodeSet(before) + Reach(node))
    decreases node.rank
  {
    nodes := before;
    if node in nodes {
      AlreadyVisited(node, before);
      return;
    }
    nodes := nodes + [node];
    assert Enumerates(nodes, NodeSet(before) + {node} + ReachAll(node.parents[..0]));
    hide Explored;
    for i := 0 to |node.parents|
      invariant Enumerates(nodes, NodeSet(before) + {node} + ReachAll(node.parents[..i]))
    {
      assert node.parents[i] in node.parents;
      ReadyForParent(node, before, i);
      nodes := Visit(node.parents[i], nodes);
      OneMoreParent(node, i);
    }
    AllParents(node);
  }

  lemma AlreadyVisited(node: TaskNode, before: seq<TaskNode>)
    requires Built(node) && Distinct(before) && Explored(NodeSet(before), node.rank) && node in before
    ensures Enumerates(before, NodeSet(before) + Reach(node))
  {
    assert node in NodeSet(before);
    assert NodeSet(before) + Reach(node) == NodeSet(before);
  }

  lemma ReadyForParent(node: TaskNode, before: seq<TaskNode>, i: nat)
    requires Built(node) && Explored(NodeSet(before), node.rank) && i < |node.parents|
    ensures Explored(NodeSet(before) + {node} + ReachAll(node.parents[..i]), node.parents[i].rank)
  {
    assert node.parents[i] in node.parents;
    var visited := NodeSet(before) + {node} + ReachAll(node.parents[..i]);
    forall v | v in visited && v.rank <= node.parents[i].rank ensures Reach(v) <= visited {
      if v !in NodeSet(before) {
        var p :| p in node.parents[..i] && v in Reach(p);
        assert p in node.parents;
        ReachFacts(p);
      }
    }
  }

  lemma OneMoreParent(node: TaskNode, i: nat)
    requires i < |node.parents|
    ensures ReachAll(node.parents[..i + 1]) == ReachAll(node.parents[..i]) + Reach(node.parents[i])
  {
    assert node.parents[..i + 1] == node.parents[..i] + [node.parents[i]];
  }

  lemma AllParents(node: TaskNode)
    requires Built(node)
    ensures {node} + ReachAll(node.parents[..|node.parents|]) == Reach(node)
  {
    assert node.parents[..|node.parents|] == node.parents;
  }

  // ---------------------------------------------------------------- depth

  /** The longest path upward from a node, over its first `i` parents. */
  ghost function DepthOver(n: TaskNode, i: nat): nat
    requires i <= |n.parents|
    decreases n.rank, i
  {
    if i == 0 then 0
    else
      var rest, p := DepthOver(n, i - 1), n.parents[i - 1];
      if p.rank < n.rank && Depth(p) + 1 > rest then Depth(p) + 1 else rest
  }

  ghost function Depth(n: TaskNode): nat
    decreases n.rank, |n.parents| + 1
  {
    DepthOver(n, |n.parents|)
  }

  lemma {:induction false} DepthOverBound(n: TaskNode, i: nat, k: nat)
    requires Built(n) && i <= |n.parents|
    ensures DepthOver(n, i) <= k <==> forall p <- n.parents[..i] :: Depth(p) < k
    decreases i
  {
    if i > 0 {
      DepthOverBound(n, i - 1, k);
      var init, p := n.parents[..i - 1], n.parents[i - 1];
      assert n.parents[..i] == init + [p];
      assert p in n.parents && p.rank < n.rank;
      assert DepthOver(n, i) <= k <==> DepthOver(n, i - 1) <= k && Depth(p) < k;
      assert (forall q <- init + [p] :: Depth(q) < k) <==> (forall q <- init :: Depth(q) < k) && Depth(p) < k;
    }
  }

  /** A node is within depth `k` exactly when its parents are all strictly within it. */
  lemma DepthWithin(n: TaskNode, k: nat)
    requires Built(n)
    ensures Depth(n) <= k <==> forall p <- n.parents :: Depth(p) < k
  {
    DepthOverBound(n, |n.parents|, k);
    assert n.parents[..|n.parents|] == n.parents;
  }

  /** Every smaller depth occurs above a node. */
  lemma {:induction false} DepthsAbove(n: TaskNode, k: nat)
    requires Built(n) && k <= Depth(n)
    ensures exists x :: x in Reach(n) && Depth(x) == k
    decreases n.rank
  {
    ReachFacts(n);
    if Depth(n) > k {
      DepthWithin(n, Depth(n) - 1);
      var p :| p in n.parents && Depth(p) >= Depth(n) - 1;
      DepthsAbove(p, k);
      var x :| x in Reach(p) && Depth(x) == k;
      assert x in Reach(n);
    }
  }

  /** A path upward: each node is a parent of the one before. */
  ghost predicate Chain(path: seq<TaskNode>) {
    path != [] && forall i | 0 <= i < |path| - 1 :: path[i + 1] in path[i].parents
  }

  /** Depth is the length of the longest parent path. */
  lemma {:induction false} DepthIsLongestPath(n: TaskNode)
    requires Built(n)
    ensures exists path: seq<TaskNode> :: Chain(path) && path[0] == n && |path| == Depth(n) + 1
    ensures forall path: seq<TaskNode> | Chain(path) && path[0] == n :: |path| <= Depth(n) + 1
    decreases n.rank
  {
    DepthWithin(n, Depth(n));
    forall path: seq<TaskNode> | Chain(path) && path[0] == n ensures |path| <= Depth(n) + 1 {
      if |path| > 1 {
        var p := path[0 + 1];
        DepthIsLongestPath(p);
        assert Chain(path[1..]) by {
          forall i | 0 <= i < |path[1..]| - 1 ensures path[1..][i + 1] in path[1..][i].parents {
            assert path[(i + 1) + 1] in path[i + 1].parents;
          }
        }
      }
    }
    if Depth(n) == 0 {
      assert Chain([n]);
    } else {
      DepthWithin(n, Depth(n) - 1);
      var p :| p in n.parents && Depth(p) >= Depth(n) - 1;
      DepthIsLongestPath(p);
      var up: seq<TaskNode> :| Chain(up) && up[0] == p && |up| == Depth(p) + 1;
      assert Chain([n] + up) by {
        forall i | 0 <= i < |up| ensures ([n] + up)[i + 1] in ([n] + up)[i].parents {
          if i > 0 { assert up[(i - 1) + 1] in up[i - 1].parents; }
        }
      }
    }
  }

  /** Ancestors are strictly shallower, so nodes of one layer are never ancestors of each other. */
  lemma {:induction false} AncestorsAreShallower(n: TaskNode, x: TaskNode)
    requires Built(n) && x in Reach(n) && x != n
    ensures Depth(x) < Depth(n)
    decreases n.rank
  {
    DepthWithin(n, Depth(n));
    var p :| p in n.parents && p.rank < n.rank && x in Reach(p);
    if x != p { AncestorsAreShallower(p, x); }
  }

  ghost function Level(all: set<TaskNode>, k: nat): set<TaskNode> {
    set n | n in all && Depth(n) == k
  }

  ghost function Below(all: set<TaskNode>, k: nat): set<TaskNode> {
    set n | n in all && Depth(n) < k
  }

  /** The layers of `all`: layer `k` lists exactly the nodes whose longest parent path has `k` edges. */
  ghost predicate Layered(layers: seq<seq<TaskNode>>, all: set<TaskNode>) {
    && (forall k | 0 <= k < |layers| :: Enumerates(layers[k], Level(all, k)))
    && (forall n | n in all :: Depth(n) < |layers|)
  }

  // ---------------------------------------------------------------- the counters

  /** How many entries of `nodes` are in `s`. */
  function CountIn(nodes: seq<TaskNode>, s: set<TaskNode>): nat {
    if nodes == [] then 0
    else CountIn(nodes[..|nodes| - 1], s) + (if nodes[|nodes| - 1] in s then 1 else 0)
  }

  lemma {:induction false} CountAdds(nodes: seq<TaskNode>, s: set<TaskNode>, t: set<TaskNode>)
    requires s !! t
    ensures CountIn(nodes, s + t) == CountIn(nodes, s) + CountIn(nodes, t)
  {
    if nodes != [] { CountAdds(nodes[..|nodes| - 1], s, t); }
  }

  lemma {:induction false} CountAll(nodes: seq<TaskNode>, s: set<TaskNode>)
    ensures CountIn(nodes, s) <= |nodes|
    ensures CountIn(nodes, s) == |nodes| <==> forall p <- nodes :: p in s
    ensures s == {} ==> CountIn(nodes, s) == 0
  {
    if nodes != [] {
      assert nodes == nodes[..|nodes| - 1] + [nodes[|nodes| - 1]];
      CountAll(nodes[..|nodes| - 1], s);
    }
  }

  /** The two tables the sort starts from: how many parent entries each node has, and for each parent its
      dependents, one for each entry. */
  ghost predicate Tables(inDegree: map<TaskNode, int>, dependents: map<TaskNode, seq<TaskNode>>,
      all: set<TaskNode>, seen: seq<TaskNode>) {
    && inDegree.Keys == all && dependents.Keys == all
    && (forall n | n in all :: inDegree[n] == if n in seen then |n.parents| else 0)
    && (forall p, n | p in all && n in all ::
          multiset(dependents[p])[n] == if n in seen then CountIn(n.parents, {p}) else 0)
    && (forall p, n | p in all && n in dependents[p] :: n in all)
  }

  function Times(n: TaskNode, count: nat): seq<TaskNode> {
    if count == 0 then [] else Times(n, count - 1) + [n]
  }

  lemma {:induction false} TimesCounts(list: seq<TaskNode>, node: TaskNode, count: nat, n: TaskNode)
    ensures multiset(list + Times(node, count))[n] == multiset(list)[n] + if n == node then count else 0
    ensures n in list + Times(node, count) ==> n in list || n == node
  {
    if count == 0 {
      assert list + Times(node, 0) == list;
    } else {
      TimesCounts(list, node, count - 1, n);
      assert list + Times(node, count) == (list + Times(node, count - 1)) + [node];
    }
  }

  /** The node's own parent entries, the first of them, counted in. */
  ghost predicate PartlyCounted(
    inDegree: map<TaskNode, int>, dependents: map<TaskNode, seq<TaskNode>>, degrees: map<TaskNode, int>,
    lists: map<TaskNode, seq<TaskNode>>, node: TaskNode, part: seq<TaskNode>)
  {
    && node in degrees && inDegree == degrees[node := degrees[node] + |part|] && dependents.Keys == lists.Keys
    && forall p | p in lists :: dependents[p] == lists[p] + Times(node, CountIn(part, {p}))
  }

  /** Counts in the node's own parent entries one after another. */
  method CountParents(node: TaskNode, degrees: map<TaskNode, int>, lists: map<TaskNode, seq<TaskNode>>,
      ghost all: set<TaskNode>, ghost seen: seq<TaskNode>)
    returns (inDegree: map<TaskNode, int>, dependents: map<TaskNode, seq<TaskNode>>)
    requires Tables(degrees, lists, all, seen) && node in all && node !in seen && (forall p <- node.parents :: p in all)
    ensures Tables(inDegree, dependents, all, seen + [node])
  {
    inDegree, dependents := degrees, lists;
    assert node in degrees && lists.Keys == all;
    assert PartlyCounted(inDegree, dependents, degrees, lists, node, node.parents[..0]) by {
      assert degrees[node := degrees[node] + 0] == degrees;
    }
    hide Tables, PartlyCounted;
    for i := 0 to |node.parents|
      invariant PartlyCounted(inDegree, dependents, degrees, lists, node, node.parents[..i])
    {
      var p := node.parents[i];
      assert node.parents[..i + 1] == node.parents[..i] + [p] && p in node.parents;
      OneMoreCounted(inDegree, dependents, degrees, lists, node, node.parents[..i], p);
      inDegree := inDegree[node := inDegree[node] + 1];
      dependents := dependents[p := dependents[p] + [node]];
    }
    assert node.parents[..|node.parents|] == node.parents;
    CountedTables(inDegree, dependents, degrees, lists, all, seen, node);
  }

  lemma OneMoreCounted(
    inDegree: map<TaskNode, int>, dependents: map<TaskNode, seq<TaskNode>>, degrees: map<TaskNode, int>,
    lists: map<TaskNode, seq<TaskNode>>, node: TaskNode, part: seq<TaskNode>, p: TaskNode)
    requires PartlyCounted(inDegree, dependents, degrees, lists, node, part) && p in lists
    ensures node in inDegree && p in dependents
    ensures PartlyCounted(inDegree[node := inDegree[node] + 1], dependents[p := dependents[p] + [node]],
                          degrees, lists, node, part + [p])
  {
    assert (part + [p])[..|part|] == part;
    forall q | q in lists
      ensures dependents[p := dependents[p] + [node]][q] == lists[q] + Times(node, CountIn(part + [p], {q}))
    {
      assert CountIn(part + [p], {q}) == CountIn(part, {q}) + if p == q then 1 else 0;
    }
  }

  lemma CountedList(
    before: seq<TaskNode>, after: seq<TaskNode>, seen: seq<TaskNode>, node: TaskNode, p: TaskNode, n: TaskNode)
    requires after == before + Times(node, CountIn(node.parents, {p})) && node !in seen
    requires multiset(before)[n] == if n in seen then CountIn(n.parents, {p}) else 0
    ensures multiset(after)[n] == if n in seen + [node] then CountIn(n.parents, {p}) else 0
  {
    TimesCounts(before, node, CountIn(node.parents, {p}), n);
  }

  lemma CountedTables(
    inDegree: map<TaskNode, int>, dependents: map<TaskNode, seq<TaskNode>>, degrees: map<TaskNode, int>,
    lists: map<TaskNode, seq<TaskNode>>, all: set<TaskNode>, seen: seq<TaskNode>, node: TaskNode)
    requires Tables(degrees, lists, all, seen) && node in all && node !in seen
    requires PartlyCounted(inDegree, dependents, degrees, lists, node, node.parents)
    ensures Tables(inDegree, dependents, all, seen + [node])
  {
    hide CountIn, Times;
    forall p, n | p in all && n in all
      ensures multiset(dependents[p])[n] == if n in seen + [node] then CountIn(n.parents, {p}) else 0
    {
      CountedList(lists[p], dependents[p], seen, node, p, n);
    }
    forall p, n | p in all && n in dependents[p] ensures n in all {
      TimesCounts(lists[p], node, CountIn(node.parents, {p}), n);
    }
  }

  function EmptyCounts(nodes: seq<TaskNode>): map<TaskNode, int> {
    map n | n in nodes :: 0
  }

  function EmptyLists(nodes: seq<TaskNode>): map<TaskNode, seq<TaskNode>> {
    map n | n in nodes :: []
  }

  lemma EmptyTables(nodes: seq<TaskNode>, all: set<TaskNode>)
    requires NodeSet(nodes) == all
    ensures Tables(EmptyCounts(nodes), EmptyLists(nodes), all, [])
  {
    forall n ensures n in nodes <==> n in all { assert n in nodes <==> n in NodeSet(nodes); }
  }

  method BuildTables(nodes: seq<TaskNode>,
      ghost all: set<TaskNode>) returns (inDegree: map<TaskNode, int>, dependents: map<TaskNode, seq<TaskNode>>)
    requires Enumerates(nodes, all) && forall n | n in all :: forall p <- n.parents :: p in all
    ensures Tables(inDegree, dependents, all, nodes)
  {
    inDegree, dependents := EmptyCounts(nodes), EmptyLists(nodes);
    EmptyTables(nodes, all);
    hide Tables, EmptyCounts, EmptyLists;
    assert nodes[..0] == [];
    for i := 0 to |nodes|
      invariant Tables(inDegree, dependents, all, nodes[..i])
    {
      assert nodes[i] in NodeSet(nodes);
      assert nodes[..i + 1] == nodes[..i] + [nodes[i]];
      inDegree, dependents := CountParents(nodes[i], inDegree, dependents, all, nodes[..i]);
    }
    assert nodes[..|nodes|] == nodes;
  }

  /** What remains of each count once the nodes in `done` are processed. */
  ghost predicate Degrees(inDegree: map<TaskNode, int>, all: set<TaskNode>, done: set<TaskNode>) {
    inDegree.Keys == all && forall n | n in all :: inDegree[n] == |n.parents| - CountIn(n.parents, done)
  }

  ghost function AtZero(inDegree: map<TaskNode, int>): set<TaskNode> {
    set n | n in inDegree && inDegree[n] == 0
  }

  /** Part of the dependents of `p` were counted down. */
  ghost predicate CountedDown(inDegree: map<TaskNode, int>, all: set<TaskNode>, done: set<TaskNode>,
      part: seq<TaskNode>) {
    inDegree.Keys == all
    && forall n | n in all :: inDegree[n] == |n.parents| - CountIn(n.parents, done) - multiset(part)[n]
  }

  /** Processing one node of the layer: its dependents count down, and those reaching zero join the next. */
  method Process(p: TaskNode, list: seq<TaskNode>, degrees: map<TaskNode, int>, before: seq<TaskNode>,
                 ghost all: set<TaskNode>, ghost done: set<TaskNode>, ghost free: set<TaskNode>)
    returns (inDegree: map<TaskNode, int>, next: seq<TaskNode>)
    requires p in all && p !in done && Degrees(degrees, all, done) && (forall n <- list :: n in all)
    requires forall n | n in all :: multiset(list)[n] == CountIn(n.parents, {p})
    requires free <= AtZero(degrees) && Enumerates(before, AtZero(degrees) - free)
    ensures Degrees(inDegree, all, done + {p})
    ensures free <= AtZero(inDegree) && Enumerates(next, AtZero(inDegree) - free)
  {
    inDegree, next := degrees, before;
    for j := 0 to |list|
      invariant CountedDown(inDegree, all, done, list[..j])
      invariant free <= AtZero(inDegree) && Enumerates(next, AtZero(inDegree) - free)
    {
      inDegree, next := CountDown(p, list, j, inDegree, next, all, done, free);
    }
    assert list[..|list|] == list;
    forall n | n in all ensures inDegree[n] == |n.parents| - CountIn(n.parents, done + {p}) {
      CountAdds(n.parents, done, {p});
    }
  }

  method CountDown(p: TaskNode, list: seq<TaskNode>, j: nat, degrees: map<TaskNode, int>, before: seq<TaskNode>,
                   ghost all: set<TaskNode>, ghost done: set<TaskNode>, ghost free: set<TaskNode>)
    returns (inDegree: map<TaskNode, int>, next: seq<TaskNode>)
    requires j < |list| && p !in done && (forall n <- list :: n in all)
    requires forall n | n in all :: multiset(list)[n] == CountIn(n.parents, {p})
    requires CountedDown(degrees, all, done, list[..j])
    requires free <= AtZero(degrees) && Enumerates(before, AtZero(degrees) - free)
    ensures CountedDown(inDegree, all, done, list[..j + 1])
    ensures free <= AtZero(inDegree) && Enumerates(next, AtZero(inDegree) - free)
  {
    var d := list[j];
    StillCounted(p, list, j, degrees, all, done);
    inDegree, next := degrees[d := degrees[d] - 1], before;
    assert list[..j + 1] == list[..j] + [d];
    if inDegree[d] == 0 {
      next := next + [d];
      assert AtZero(inDegree) == AtZero(degrees) + {d};
      assert NodeSet(next) == NodeSet(before) + {d};
    } else {
      assert AtZero(inDegree) == AtZero(degrees);
    }
  }

  /** A dependent still to be counted down has a positive count. */
  lemma StillCounted(p: TaskNode, list: seq<TaskNode>, j: nat, inDegree: map<TaskNode, int>,
      all: set<TaskNode>, done: set<TaskNode>)
    requires j < |list| && p !in done && (forall n <- list :: n in all)
    requires forall n | n in all :: multiset(list)[n] == CountIn(n.parents, {p})
    requires CountedDown(inDegree, all, done, list[..j])
    ensures list[j] in all && inDegree[list[j]] > 0
  {
    var d := list[j];
    CountAdds(d.parents, done, {p});
    CountAll(d.parents, done + {p});
    assert list == list[..j] + [d] + list[j + 1..];
    assert multiset(list)[d] >= multiset(list[..j])[d] + 1;
  }

  // ---------------------------------------------------------------- layer by layer

  ghost predicate ClosedUp(all: set<TaskNode>) {
    forall n | n in all :: Built(n) && forall p <- n.parents :: p in all
  }

  lemma ReachClosedUp(root: TaskNode)
    requires Built(root)
    ensures ClosedUp(Reach(root))
  {
    ReachFacts(root);
    forall n | n in Reach(root) ensures forall p <- n.parents :: p in Reach(root) {
      ReachFacts(n);
    }
  }

  /** With the layers below `k` processed, the zero counts are those of depth at most `k`. */
  lemma ZeroIsDepth(inDegree: map<TaskNode, int>, all: set<TaskNode>, k: nat)
    requires ClosedUp(all) && Degrees(inDegree, all, Below(all, k))
    ensures AtZero(inDegree) == Below(all, k + 1)
  {
    forall n | n in all ensures inDegree[n] == 0 <==> Depth(n) < k + 1 {
      CountAll(n.parents, Below(all, k));
      DepthWithin(n, k);
    }
  }

  lemma NextBelow(all: set<TaskNode>, k: nat)
    ensures Below(all, k) + Level(all, k) == Below(all, k + 1)
    ensures Below(all, k + 1) - Below(all, k) == Level(all, k)
  {
  }

  /** An empty layer is past the deepest node. */
  lemma NoneDeeper(root: TaskNode, k: nat)
    requires Built(root) && Level(Reach(root), k) == {}
    ensures Below(Reach(root), k) == Reach(root)
  {
    forall n | n in Reach(root) ensures Depth(n) < k {
      if k <= Depth(n) { LevelInhabited(root, n, k); }
    }
  }

  lemma LevelInhabited(root: TaskNode, n: TaskNode, k: nat)
    requires Built(root) && n in Reach(root) && k <= Depth(n)
    ensures Level(Reach(root), k) != {}
  {
    ReachFacts(root);
    DepthsAbove(n, k);
    var x :| x in Reach(n) && Depth(x) == k;
    assert x in Level(Reach(root), k);
  }

  /** The nodes of `nodes` whose count is zero, in their order. */
  method Zeros(nodes: seq<TaskNode>, inDegree: map<TaskNode, int>) returns (zeros: seq<TaskNode>)
    requires Enumerates(nodes, inDegree.Keys)
    ensures Enumerates(zeros, AtZero(inDegree))
  {
    zeros := [];
    for i := 0 to |nodes|
      invariant Distinct(zeros) && forall n :: n in zeros <==> n in nodes[..i] && n in inDegree && inDegree[n] == 0
    {
      assert nodes[..i + 1] == nodes[..i] + [nodes[i]];
      assert nodes[i] in NodeSet(nodes);
      if inDegree[nodes[i]] == 0 {
        zeros := zeros + [nodes[i]];
      }
    }
    assert nodes[..|nodes|] == nodes;
    forall n | n in inDegree ensures n in nodes { assert n in NodeSet(nodes); }
  }

  /** The nodes still counting parents. */
  method Leftover(nodes: seq<TaskNode>, inDegree: map<TaskNode, int>) returns (remaining: seq<TaskNode>)
    requires forall n <- nodes :: n in inDegree
    ensures remaining == [] <==> forall n <- nodes :: inDegree[n] <= 0
  {
    remaining := [];
    for i := 0 to |nodes|
      invariant remaining == [] <==> forall n <- nodes[..i] :: inDegree[n] <= 0
    {
      assert nodes[..i + 1] == nodes[..i] + [nodes[i]];
      if inDegree[nodes[i]] > 0 {
        remaining := remaining + [nodes[i]];
      }
    }
    assert nodes[..|nodes|] == nodes;
  }

  ghost predicate DependentLists(dependents: map<TaskNode, seq<TaskNode>>, all: set<TaskNode>) {
    && dependents.Keys == all
    && (forall p, n | p in all && n in all :: multiset(dependents[p])[n] == CountIn(n.parents, {p}))
    && (forall p, n | p in all && n in dependents[p] :: n in all)
  }

  /** One layer: every node in it is processed, and the next layer collects as counts reach zero. */
  method ProcessLayer(
    current: seq<TaskNode>, degrees: map<TaskNode, int>, dependents: map<TaskNode, seq<TaskNode>>,
    ghost all: set<TaskNode>, ghost k: nat)
    returns (inDegree: map<TaskNode, int>, next: seq<TaskNode>)
    requires ClosedUp(all) && DependentLists(dependents, all)
    requires Enumerates(current, Level(all, k)) && Degrees(degrees, all, Below(all, k))
    ensures Degrees(inDegree, all, Below(all, k + 1)) && Enumerates(next, Level(all, k + 1))
  {
    inDegree, next := degrees, [];
    ghost var free := AtZero(degrees);
    assert Below(all, k) + NodeSet(current[..0]) == Below(all, k);
    for j := 0 to |current|
      invariant Degrees(inDegree, all, Below(all, k) + NodeSet(current[..j]))
      invariant free <= AtZero(inDegree) && Enumerates(next, AtZero(inDegree) - free)
    {
      InLayer(current, all, k, j);
      inDegree, next := Process(current[j], dependents[current[j]], inDegree, next, all,
                                Below(all, k) + NodeSet(current[..j]), free);
    }
    assert current[..|current|] == current;
    ZeroIsDepth(degrees, all, k);
    NextBelow(all, k);
    NextBelow(all, k + 1);
    ZeroIsDepth(inDegree, all, k + 1);
  }

  lemma InLayer(current: seq<TaskNode>, all: set<TaskNode>, k: nat, j: nat)
    requires Enumerates(current, Level(all, k)) && j < |current|
    ensures current[j] in all && current[j] !in Below(all, k) + NodeSet(current[..j])
    ensures Below(all, k) + NodeSet(current[..j]) + {current[j]} == Below(all, k) + NodeSet(current[..j + 1])
  {
    assert current[j] in NodeSet(current);
    assert current[..j + 1] == current[..j] + [current[j]];
  }

  /** What the layer loop has done after some turns. */
  ghost predicate LayerState(
    all: set<TaskNode>, inDegree: map<TaskNode, int>, current: seq<TaskNode>, layers: seq<seq<TaskNode>>)
  {
    && Degrees(inDegree, all, Below(all, |layers|)) && Enumerates(current, Level(all, |layers|))
    && forall i | 0 <= i < |layers| :: Enumerates(layers[i], Level(all, i))
  }

  /** `_topological_sort`: the layers are exactly the depths, and nothing is left over, so the cycle error
      behind the leftover check cannot be raised for a graph that `bind` built. */
  method TopologicalSort(root: TaskNode, nodes: seq<TaskNode>) returns (layers: seq<seq<TaskNode>>,
      leftover: seq<TaskNode>)
    requires Built(root) && Enumerates(nodes, Reach(root))
    ensures Layered(layers, Reach(root)) && leftover == []
  {
    ghost var all := Reach(root);
    ReachClosedUp(root);
    var inDegree, dependents := BuildTables(nodes, all);
    SortStarts(nodes, inDegree, dependents, all);
    var current := Zeros(nodes, inDegree);
    layers := [];
    assert LayerState(all, inDegree, current, layers);
    layers, inDegree := SortLayers(current, inDegree, dependents, all);
    SortEnds(root, nodes, inDegree, layers);
    leftover := Leftover(nodes, inDegree);
  }

  /** The layer loop. */
  method SortLayers(first: seq<TaskNode>, degrees: map<TaskNode, int>,
      dependents: map<TaskNode, seq<TaskNode>>, ghost all: set<TaskNode>)
    returns (layers: seq<seq<TaskNode>>, inDegree: map<TaskNode, int>)
    requires ClosedUp(all) && DependentLists(dependents, all) && LayerState(all, degrees, first, [])
    ensures LayerState(all, inDegree, [], layers)
  {
    hide LayerState, DependentLists, ClosedUp;
    var current := first;
    layers, inDegree := [], degrees;
    while current != []
      invariant LayerState(all, inDegree, current, layers)
      decreases all - Below(all, |layers|)
    {
      LayerTurn(all, inDegree, current, layers);
      ghost var k := |layers|;
      layers := layers + [current];
      inDegree, current := ProcessLayer(current, inDegree, dependents, all, k);
      LayerDone(all, inDegree, current, layers);
    }
  }

  lemma SortStarts(nodes: seq<TaskNode>, inDegree: map<TaskNode, int>, dependents: map<TaskNode, seq<TaskNode>>,
      all: set<TaskNode>)
    requires ClosedUp(all) && Enumerates(nodes, all) && Tables(inDegree, dependents, all, nodes)
    ensures DependentLists(dependents, all) && Degrees(inDegree, all, Below(all, 0))
    ensures AtZero(inDegree) == Level(all, 0) && inDegree.Keys == all
  {
    forall n ensures n in all <==> n in nodes { assert n in nodes <==> n in NodeSet(nodes); }
    assert Below(all, 0) == {};
    forall n | n in all ensures inDegree[n] == |n.parents| - CountIn(n.parents, Below(all, 0)) {
      CountAll(n.parents, {});
    }
    ZeroIsDepth(inDegree, all, 0);
    NextBelow(all, 0);
  }

  lemma LayerTurn(all: set<TaskNode>, inDegree: map<TaskNode, int>, current: seq<TaskNode>, layers: seq<seq<TaskNode>>)
    requires LayerState(all, inDegree, current, layers) && current != []
    ensures Degrees(inDegree, all, Below(all, |layers|)) && Enumerates(current, Level(all, |layers|))
    ensures forall i | 0 <= i < |layers| + 1 :: Enumerates((layers + [current])[i], Level(all, i))
    ensures all - Below(all, |layers| + 1) < all - Below(all, |layers|)
  {
    assert current[0] in NodeSet(current);
    assert current[0] in all - Below(all, |layers|) && current[0] !in all - Below(all, |layers| + 1);
  }

  lemma LayerDone(all: set<TaskNode>, inDegree: map<TaskNode, int>, current: seq<TaskNode>, layers: seq<seq<TaskNode>>)
    requires Degrees(inDegree, all, Below(all, |layers|)) && Enumerates(current, Level(all, |layers|))
    requires forall i | 0 <= i < |layers| :: Enumerates(layers[i], Level(all, i))
    ensures LayerState(all, inDegree, current, layers)
  {
  }

  lemma SortEnds(root: TaskNode, nodes: seq<TaskNode>, inDegree: map<TaskNode, int>, layers: seq<seq<TaskNode>>)
    requires Built(root) && Enumerates(nodes, Reach(root)) && LayerState(Reach(root), inDegree, [], layers)
    ensures Layered(layers, Reach(root)) && forall n <- nodes :: n in inDegree && inDegree[n] <= 0
  {
    assert NodeSet([]) == {};
    NoneDeeper(root, |layers|);
    forall n <- nodes ensures n in inDegree && inDegree[n] <= 0 {
      assert n in NodeSet(nodes);
      ReachClosedUp(root);
      CountAll(n.parents, Below(Reach(root), |layers|));
    }
  }
}
