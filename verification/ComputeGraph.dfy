/** The reverse-DAG compute graph: persistent nodes built by `bind`, and what evaluating one means. */
module ComputeGraph {
  import opened RuntimeTypes

  // ---------------------------------------------------------------- values and selectors

  datatype Key = Name(text: string) | Index(position: int)

  /** What node functions return. An atom is anything that cannot be indexed, and a future is anything
      with a pending outcome to wait for. */
  datatype Value =
    | Atom(json: Json) | Chars(text: string) | Mapping(fields: map<Key, Value>) | Items(items: seq<Value>)
    | Future(outcome: Value)

  /** A selector is one key, or the tuple of keys that nested selection builds up. */
  datatype Selector = One(key: Key) | Path(keys: seq<Key>)

  /** `value[key]`, where negative positions count from the end; nothing when Python would raise. */
  function Item(value: Value, key: Key): Option<Value> {
    match value
    case Mapping(fields) => if key in fields then Some(fields[key]) else None
    case Items(items) =>
      if key.Index? && 0 <= key.position < |items| then Some(items[key.position])
      else if key.Index? && -|items| <= key.position < 0 then Some(items[key.position + |items|])
      else None
    case Chars(text) =>
      if key.Index? && 0 <= key.position < |text| then Some(Chars([text[key.position]]))
      else if key.Index? && -|text| <= key.position < 0 then Some(Chars([text[key.position + |text|]]))
      else None
    case _ => None
  }

  function ItemAlong(value: Value, keys: seq<Key>): Option<Value> {
    if keys == [] then Some(value)
    else
      match ItemAlong(value, keys[..|keys| - 1])
      case Some(inner) => Item(inner, keys[|keys| - 1])
      case None => None
  }

  /** `_resolve_selector` */
  function Resolve(value: Value, selector: Selector): Option<Value> {
    match selector
    case One(key) => Item(value, key)
    case Path(keys) => ItemAlong(value, keys)
  }

  /** `_nest_selector` */
  function Nest(selector: Selector, key: Key): Selector {
    match selector
    case One(first) => Path([first, key])
    case Path(keys) => Path(keys + [key])
  }

  /** Nested selection resolves one level after another. */
  lemma NestResolves(value: Value, selector: Selector, key: Key)
    ensures Resolve(value, Nest(selector, key)) ==
      match Resolve(value, selector) case Some(inner) => Item(inner, key) case None => None
  {
    match selector
    case One(first) =>
      assert [first, key][..1] == [first] && [first][..0] == [];
      assert ItemAlong(value, [first]) == Item(value, first);
    case Path(keys) =>
      assert (keys + [key])[..|keys|] == keys;
  }

  method ResolveSelector(value: Value, selector: Selector) returns (r: Option<Value>)
    ensures r == Resolve(value, selector)
  {
    match selector {
      case One(key) => r := Item(value, key);
      case Path(keys) =>
        r := Some(value);
        for i := 0 to |keys|
          invariant r == ItemAlong(value, keys[..i]) && r.Some?
        {
          assert keys[..i + 1][..i] == keys[..i];
          r := Item(r.value, keys[i]);
          if r.None? {
            NothingAlong(value, keys, i + 1);
            return;
          }
        }
        assert keys[..|keys|] == keys;
    }
  }

  lemma {:induction false} NothingAlong(value: Value, keys: seq<Key>, k: nat)
    requires k <= |keys| && ItemAlong(value, keys[..k]).None?
    ensures ItemAlong(value, keys).None?
    decreases |keys|
  {
    if k < |keys| {
      assert keys[..|keys| - 1][..k] == keys[..k];
      NothingAlong(value, keys[..|keys| - 1], k);
    } else {
      assert keys[..k] == keys;
    }
  }

  /** `_resolve_future` where it applies: one level, as the code waits once. */
  function Settle(value: Value): Value {
    if value.Future? then value.outcome else value
  }

  // ---------------------------------------------------------------- nodes

  datatype Slot = Slot(required: bool, default: Option<Value>)

  /** A named external input. Two variables are the same only when they are the same object. */
  class InputVar {
    const name: string

    constructor (name: string)
      ensures this.name == name
    {
      this.name := name;
    }
  }

  datatype Binding =
    | Constant(value: Value)
    | Variable(input: InputVar)
    | Whole(node: TaskNode)
    | Part(node: TaskNode, selector: Selector)
  {
    predicate Refers() {
      Whole? || Part?
    }
  }

  /** What `bind` fills in step by step on the copy. */
  datatype Wiring = Wiring(bindings: map<string, Binding>, parents: seq<TaskNode>, missing: map<string, InputVar>)

  datatype GraphFault =
    | UnknownSlot(slot: string) | DuplicateName | CyclicDependency
    | UnboundSlots(slots: set<string>) | MissingInputs(names: set<string>) | NodeRaised

  ghost function MaxRank(nodes: seq<TaskNode>): nat {
    if nodes == [] then 0
    else if nodes[|nodes| - 1].rank > MaxRank(nodes[..|nodes| - 1]) then nodes[|nodes| - 1].rank
    else MaxRank(nodes[..|nodes| - 1])
  }

  lemma {:induction false} RankBounded(nodes: seq<TaskNode>)
    ensures forall p <- nodes :: p.rank <= MaxRank(nodes)
  {
    if nodes != [] {
      assert nodes == nodes[..|nodes| - 1] + [nodes[|nodes| - 1]];
      RankBounded(nodes[..|nodes| - 1]);
    }
  }

  /** Structure never changes once a node exists; results and the sort cache do. */
  class TaskNode {
    const func: map<string, Value> -> Value
    const slots: map<string, Slot>
    const bindings: map<string, Binding>
    const parents: seq<TaskNode>
    const missing: map<string, InputVar>
    /** Above every parent: a node is older than anything bound to it. */
    ghost const rank: nat
    var result: Value
    var executed: bool
    var cachedOrder: Option<seq<seq<TaskNode>>>

    constructor (func: map<string, Value> -> Value, slots: map<string, Slot>)
      ensures this.func == func && this.slots == slots && bindings == map[] && parents == [] && missing == map[]
      ensures !executed && cachedOrder == None && Built(this)
    {
      this.func, this.slots, bindings, parents, missing := func, slots, map[], [], map[];
      rank := 0;
      result, executed, cachedOrder := Atom(Null), false, None;
    }

    /** The copy `bind` returns: same function and slots, new wiring, and the result fields copied along. */
    constructor Rewired(origin: TaskNode, w: Wiring)
      ensures func == origin.func && slots == origin.slots
      ensures bindings == w.bindings && parents == w.parents && missing == w.missing
      ensures rank > MaxRank(w.parents)
      ensures result == origin.result && executed == origin.executed && cachedOrder == None
    {
      func, slots := origin.func, origin.slots;
      bindings, parents, missing := w.bindings, w.parents, w.missing;
      rank := MaxRank(w.parents) + 1;
      result, executed, cachedOrder := origin.result, origin.executed, None;
    }
  }

  /** Every missing input of a parent is one of the node's own, the same variable; so is every variable
      bound directly; and whatever a binding refers to is a parent. */
  ghost predicate Wired(slots: map<string, Slot>, w: Wiring) {
    && (forall slot | slot in w.bindings :: slot in slots)
    && (forall slot | slot in w.bindings && w.bindings[slot].Refers() :: w.bindings[slot].node in w.parents)
    && (forall slot | slot in w.bindings && w.bindings[slot].Variable? ::
          Names(w.missing, w.bindings[slot].input))
    && (forall p, name | p in w.parents && name in p.missing :: name in w.missing && w.missing[name] == p.missing[name])
  }

  ghost predicate Names(missing: map<string, InputVar>, v: InputVar) {
    v.name in missing && missing[v.name] == v
  }

  function WiringOf(n: TaskNode): Wiring {
    Wiring(n.bindings, n.parents, n.missing)
  }

  /** A node as the constructor and `bind` make them, with everything above it. */
  ghost predicate Built(n: TaskNode)
    decreases n.rank
  {
    && (forall p <- n.parents :: p.rank < n.rank && Built(p))
    && Wired(n.slots, WiringOf(n))
  }

  /** The node and all its ancestors. */
  ghost function Reach(n: TaskNode): set<TaskNode>
    decreases n.rank
  {
    {n} + set p, x | p in n.parents && p.rank < n.rank && x in Reach(p) :: x
  }

  lemma {:induction false} ReachFacts(n: TaskNode)
    requires Built(n)
    ensures forall x | x in Reach(n) :: Built(x) && x.rank <= n.rank && (x.rank == n.rank ==> x == n)
    ensures forall x | x in Reach(n) :: Reach(x) <= Reach(n)
    ensures forall p <- n.parents :: Reach(p) <= Reach(n) && p in Reach(p)
    decreases n.rank
  {
    forall p <- n.parents
      ensures forall x | x in Reach(p) :: Built(x) && x.rank <= p.rank && Reach(x) <= Reach(p)
      ensures Reach(p) <= Reach(n)
    {
      ReachFacts(p);
    }
  }

  // ---------------------------------------------------------------- bind

  ghost predicate Conflicts(missing: map<string, InputVar>, other: map<string, InputVar>) {
    exists name :: name in missing && name in other && missing[name] != other[name]
  }

  ghost function Merged(w: Wiring, other: map<string, InputVar>): Result<Wiring, GraphFault> {
    if Conflicts(w.missing, other) then Failure(DuplicateName) else Success(w.(missing := w.missing + other))
  }

  ghost function BindOne(origin: TaskNode, w: Wiring, slot: string, value: Binding): Result<Wiring, GraphFault> {
    if slot !in origin.slots then Failure(UnknownSlot(slot))
    else
      var bound := w.(bindings := w.bindings[slot := value]);
      match value
      case Constant(_) => Success(bound)
      case Variable(input) => Merged(bound, map[input.name := input])
      case _ =>
        if origin in Reach(value.node) then Failure(CyclicDependency)
        else Merged(bound.(parents := bound.parents + [value.node]), value.node.missing)
  }

  /** The wiring after the keyword arguments, in order, or the first fault. */
  ghost function BindAll(origin: TaskNode, arguments: seq<(string, Binding)>): Result<Wiring, GraphFault> {
    if arguments == [] then Success(WiringOf(origin))
    else
      match BindAll(origin, arguments[..|arguments| - 1])
      case Failure(fault) => Failure(fault)
      case Success(w) => BindOne(origin, w, arguments[|arguments| - 1].0, arguments[|arguments| - 1].1)
  }

  ghost predicate ArgumentsBuilt(arguments: seq<(string, Binding)>) {
    forall a <- arguments :: a.1.Refers() ==> Built(a.1.node)
  }

  /** Binding keeps the wiring rules, whatever was bound before; a rebound slot leaves its old parent and
      missing names behind, so parents and missing names cover more than is used. */
  lemma BindOneWired(origin: TaskNode, w: Wiring, slot: string, value: Binding)
    requires Wired(origin.slots, w) && BindOne(origin, w, slot, value).Success?
    requires forall p <- w.parents :: Built(p)
    requires value.Refers() ==> Built(value.node)
    ensures var after := BindOne(origin, w, slot, value).value;
      && Wired(origin.slots, after) && (forall p <- after.parents :: Built(p))
      && w.parents <= after.parents
  {
    hide Built, Reach;
  }

  lemma {:induction false} BindAllWired(origin: TaskNode, arguments: seq<(string, Binding)>)
    requires Built(origin) && ArgumentsBuilt(arguments) && BindAll(origin, arguments).Success?
    ensures var w := BindAll(origin, arguments).value;
      Wired(origin.slots, w) && (forall p <- w.parents :: Built(p)) && origin.parents <= w.parents
  {
    if arguments != [] {
      var init, last := arguments[..|arguments| - 1], arguments[|arguments| - 1];
      assert arguments == init + [last];
      BindAllWired(origin, init);
      assert last in arguments;
      BindOneWired(origin, BindAll(origin, init).value, last.0, last.1);
    }
  }

  /** `_has_cycle`: a search that marks what it has visited finds the origin exactly when it is above. */
  method HasCycle(candidate: TaskNode, origin: TaskNode) returns (found: bool)
    requires Built(candidate)
    ensures found <==> origin in Reach(candidate)
  {
    var visited;
    found, visited := Search(candidate, origin, {});
  }

  /** `dfs` inside it. Nodes still on the stack rank above the one being searched. */
  method Search(node: TaskNode, origin: TaskNode, before: set<TaskNode>) returns (found: bool, visited: set<TaskNode>)
    requires Built(node)
    requires forall v | v in before && v.rank <= node.rank :: origin !in Reach(v)
    ensures found <==> origin in Reach(node)
    ensures !found ==> before <= visited && forall v | v in visited && v !in before :: origin !in Reach(v)
    decreases node.rank
  {
    visited := before;
    if node == origin {
      return true, visited;
    }
    if node in visited {
      return false, visited;
    }
    visited := visited + {node};
    for i := 0 to |node.parents|
      invariant before + {node} <= visited
      invariant forall v | v in visited && v !in before && v != node :: origin !in Reach(v)
      invariant forall p <- node.parents[..i] :: origin !in Reach(p)
    {
      assert node.parents[..i + 1] == node.parents[..i] + [node.parents[i]];
      var p := node.parents[i];
      assert p in node.parents;
      found, visited := Search(p, origin, visited);
      if found {
        return;
      }
    }
    assert node.parents[..|node.parents|] == node.parents;
    found := false;
  }

  /** `_merge_missing` */
  method MergeMissing(missing: map<string, InputVar>,
      other: map<string, InputVar>) returns (r: Result<map<string, InputVar>, GraphFault>)
    ensures r == if Conflicts(missing, other) then Failure(DuplicateName) else Success(missing + other)
  {
    var merged := missing;
    var left := other.Keys;
    while left != {}
      invariant left <= other.Keys && merged.Keys == missing.Keys + (other.Keys - left)
      invariant forall name | name in missing :: merged[name] == missing[name]
      invariant forall name | name in other && name !in left :: merged[name] == other[name]
      decreases |left|
    {
      var name :| name in left;
      if name in merged && merged[name] != other[name] {
        return Failure(DuplicateName);
      }
      merged := merged[name := other[name]];
      left := left - {name};
    }
    assert !Conflicts(missing, other);
    assert merged == missing + other;
    r := Success(merged);
  }

  /** `bind`: a new node, or the first fault; the node it is called on is not touched. */
  method Bind(origin: TaskNode, arguments: seq<(string, Binding)>) returns (r: Result<TaskNode, GraphFault>)
    requires Built(origin) && ArgumentsBuilt(arguments)
    ensures r.Failure? <==> BindAll(origin, arguments).Failure?
    ensures r.Failure? ==> r.error == BindAll(origin, arguments).error
    ensures r.Success? ==>
      var n := r.value;
      && fresh(n) && Built(n) && n.func == origin.func && n.slots == origin.slots
      && WiringOf(n) == BindAll(origin, arguments).value
      && n.executed == origin.executed && n.result == origin.result && n.cachedOrder == None
  {
    var w := WiringOf(origin);
    for i := 0 to |arguments|
      invariant BindAll(origin, arguments[..i]) == Success(w)
    {
      assert arguments[..i + 1][..i] == arguments[..i];
      var step := BindSlot(origin, w, arguments[i].0, arguments[i].1);
      if step.Failure? {
        BindStops(origin, arguments, i + 1);
        return Failure(step.error);
      }
      w := step.value;
    }
    assert arguments[..|arguments|] == arguments;
    BindAllWired(origin, arguments);
    RankBounded(w.parents);
    var n := new TaskNode.Rewired(origin, w);
    r := Success(n);
  }

  /** One keyword argument of `bind`. */
  method BindSlot(origin: TaskNode, w: Wiring, slot: string, value: Binding) returns (r: Result<Wiring, GraphFault>)
    requires value.Refers() ==> Built(value.node)
    ensures r == BindOne(origin, w, slot, value)
  {
    if slot !in origin.slots {
      return Failure(UnknownSlot(slot));
    }
    var bound := w.(bindings := w.bindings[slot := value]);
    if value.Constant? {
      return Success(bound);
    }
    var inherited := if value.Variable? then map[value.input.name := value.input] else value.node.missing;
    if value.Refers() {
      var cyclic := HasCycle(value.node, origin);
      if cyclic {
        return Failure(CyclicDependency);
      }
      bound := bound.(parents := bound.parents + [value.node]);
    }
    var merged := MergeMissing(bound.missing, inherited);
    r := match merged
         case Failure(fault) => Failure(fault)
         case Success(missing) => Success(bound.(missing := missing));
  }

  lemma {:induction false} BindStops(origin: TaskNode, arguments: seq<(string, Binding)>, k: nat)
    requires k <= |arguments| && BindAll(origin, arguments[..k]).Failure?
    ensures BindAll(origin, arguments) == BindAll(origin, arguments[..k])
    decreases |arguments|
  {
    hide BindOne;
    if k < |arguments| {
      assert arguments[..|arguments| - 1][..k] == arguments[..k];
      BindStops(origin, arguments[..|arguments| - 1], k);
    } else {
      assert arguments[..k] == arguments;
    }
  }
}
