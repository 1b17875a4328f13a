/** What binding and evaluating a node mean, in terms of its slots and of the arguments given. */
module GraphFacts {
  import opened RuntimeTypes
  import opened ComputeGraph
  import opened GraphExecution

  // ---------------------------------------------------------------- selecting

  /** Positions count from either end, and only positions select from a sequence. */
  lemma SequenceItems(items: seq<Value>, text: string, i: int, name: string)
    ensures 0 <= i < |items| ==> Item(Items(items), Index(i)) == Some(items[i])
    ensures 0 < i <= |items| ==> Item(Items(items), Index(-i)) == Some(items[|items| - i])
    ensures i >= |items| || i < -|items| ==> Item(Items(items), Index(i)) == None
    ensures 0 <= i < |text| ==> Item(Chars(text), Index(i)) == Some(Chars([text[i]]))
    ensures 0 < i <= |text| ==> Item(Chars(text), Index(-i)) == Some(Chars([text[|text| - i]]))
    ensures i >= |text| || i < -|text| ==> Item(Chars(text), Index(i)) == None
    ensures Item(Items(items), Name(name)) == None && Item(Chars(text), Name(name)) == None
  {
  }

  /** A dict selects by key, and an atom or a future not at all. */
  lemma OtherItems(fields: map<Key, Value>, json: Json, outcome: Value, key: Key)
    ensures Item(Mapping(fields), key).Some? <==> key in fields
    ensures key in fields ==> Item(Mapping(fields), key) == Some(fields[key])
    ensures Item(Atom(json), key) == None && Item(Future(outcome), key) == None
  {
  }

  // ---------------------------------------------------------------- binding

  /** The inputs an argument leaves to be given later. */
  function LeavesOpen(b: Binding): map<string, InputVar> {
    match b
    case Constant(_) => map[]
    case Variable(input) => map[input.name := input]
    case Whole(node) => node.missing
    case Part(node, _) => node.missing
  }

  /** What the node and its arguments leave open, one after another. */
  function Open(origin: TaskNode, arguments: seq<(string, Binding)>): seq<map<string, InputVar>> {
    if arguments == [] then [origin.missing]
    else Open(origin, arguments[..|arguments| - 1]) + [LeavesOpen(arguments[|arguments| - 1].1)]
  }

  /** No name stands for two variables. */
  ghost predicate OneEach(open: seq<map<string, InputVar>>) {
    forall i, j | 0 <= i < |open| && 0 <= j < |open| :: Agree(open[i], open[j])
  }

  predicate Agree(a: map<string, InputVar>, b: map<string, InputVar>) {
    forall name | name in a && name in b :: a[name] == b[name]
  }

  ghost predicate Named(open: seq<map<string, InputVar>>, name: string) {
    exists i :: 0 <= i < |open| && name in open[i]
  }

  /** Every open name, with its variable, and no other. */
  ghost predicate Collects(missing: map<string, InputVar>, open: seq<map<string, InputVar>>) {
    && (forall name :: name in missing <==> Named(open, name))
    && (forall i | 0 <= i < |open| :: open[i].Keys <= missing.Keys && Agree(open[i], missing))
  }

  function Referred(arguments: seq<(string, Binding)>): seq<TaskNode> {
    if arguments == [] then []
    else
      var last := arguments[|arguments| - 1].1;
      Referred(arguments[..|arguments| - 1]) + if last.Refers() then [last.node] else []
  }

  /** What the arguments make of the node: the last one given for a slot counts, every node referred to
      becomes a parent, and every open name is missing. */
  ghost predicate WiredBy(origin: TaskNode, arguments: seq<(string, Binding)>, w: Wiring) {
    && LastGiven(origin.bindings, arguments, w.bindings) && w.parents == origin.parents + Referred(arguments)
    && Collects(w.missing, Open(origin, arguments))
  }

  predicate SlotGiven(arguments: seq<(string, Binding)>, slot: string) {
    exists a <- arguments :: a.0 == slot
  }

  /** The last argument given for a slot counts, and what is not given stays. */
  ghost predicate LastGiven(
    before: map<string, Binding>, arguments: seq<(string, Binding)>, after: map<string, Binding>)
  {
    && (forall slot :: slot in after <==> slot in before || SlotGiven(arguments, slot))
    && (forall slot | slot in before && !SlotGiven(arguments, slot) :: slot in after && after[slot] == before[slot])
    && (forall k | 0 <= k < |arguments| && (forall j | k < j < |arguments| :: arguments[j].0 != arguments[k].0) ::
          arguments[k].0 in after && after[arguments[k].0] == arguments[k].1)
  }

  /** Every slot exists, nothing bound depends on the node itself, and no name stands for two variables. */
  ghost predicate Bindable(origin: TaskNode, arguments: seq<(string, Binding)>) {
    && (forall a <- arguments :: a.0 in origin.slots)
    && (forall a <- arguments | a.1.Refers() :: origin !in Reach(a.1.node))
    && OneEach(Open(origin, arguments))
  }

  /** One more argument keeps what is missing in step with what is open. */
  lemma MissingGrows(open: seq<map<string, InputVar>>, more: map<string, InputVar>, missing: map<string, InputVar>)
    requires Collects(missing, open) && OneEach(open)
    ensures OneEach(open + [more]) <==> !Conflicts(missing, more)
    ensures OneEach(open + [more]) ==> Collects(missing + more, open + [more])
  {
    if Conflicts(missing, more) {
      hide OneEach;
      var name :| name in missing && name in more && missing[name] != more[name];
      ConflictShows(open, more, missing, name);
    } else {
      StillOne(open, more, missing);
      hide OneEach, Conflicts;
      NamesGrow(open, more);
      var all := open + [more];
      forall i | 0 <= i < |all| ensures all[i].Keys <= (missing + more).Keys && Agree(all[i], missing + more) {
        StillOneAt(open, more, missing, i);
      }
    }
  }

  lemma ConflictShows(open: seq<map<string, InputVar>>, more: map<string, InputVar>, missing: map<string, InputVar>,
                      name: string)
    requires Collects(missing, open) && name in missing && name in more && missing[name] != more[name]
    ensures !OneEach(open + [more])
  {
    var i := OpenedAt(missing, open, name);
    hide Collects;
    TwoDiffer(open, more, i, name);
  }

  lemma OpenedAt(missing: map<string, InputVar>, open: seq<map<string, InputVar>>, name: string) returns (i: nat)
    requires Collects(missing, open) && name in missing
    ensures i < |open| && name in open[i] && open[i][name] == missing[name]
  {
    hide Agree;
    assert Named(open, name);
    i :| 0 <= i < |open| && name in open[i];
    AgreeOn(open[i], missing, name);
  }

  lemma AgreeOn(a: map<string, InputVar>, b: map<string, InputVar>, name: string)
    requires Agree(a, b) && name in a && name in b
    ensures a[name] == b[name]
  {
  }

  lemma TwoDiffer(open: seq<map<string, InputVar>>, more: map<string, InputVar>, i: nat, name: string)
    requires i < |open| && name in open[i] && name in more && open[i][name] != more[name]
    ensures !OneEach(open + [more])
  {
    var all := open + [more];
    hide Agree;
    assert all[i] == open[i] && all[|open|] == more;
    if Agree(all[i], all[|open|]) { AgreeOn(all[i], all[|open|], name); }
  }

  lemma StillOne(open: seq<map<string, InputVar>>, more: map<string, InputVar>, missing: map<string, InputVar>)
    requires Collects(missing, open) && OneEach(open) && !Conflicts(missing, more)
    ensures OneEach(open + [more])
  {
    var all := open + [more];
    forall i, j | 0 <= i < |all| && 0 <= j < |all| ensures Agree(all[i], all[j]) {
      StillOneAt(open, more, missing, i);
      StillOneAt(open, more, missing, j);
    }
  }

  lemma StillOneAt(open: seq<map<string, InputVar>>, more: map<string, InputVar>, missing: map<string, InputVar>,
                   i: nat)
    requires Collects(missing, open) && !Conflicts(missing, more) && i < |open| + 1
    ensures (open + [more])[i].Keys <= (missing + more).Keys && Agree((open + [more])[i], missing + more)
  {
    if i < |open| {
      assert (open + [more])[i] == open[i] && Agree(open[i], missing);
    }
  }

  lemma NamesGrow(open: seq<map<string, InputVar>>, more: map<string, InputVar>)
    ensures forall name :: Named(open + [more], name) <==> Named(open, name) || name in more
  {
    var all := open + [more];
    forall i | 0 <= i < |open| ensures all[i] == open[i] {}
    assert all[|open|] == more;
  }

  lemma LastCounts(before: map<string, Binding>, init: seq<(string, Binding)>, last: (string, Binding),
                   after: map<string, Binding>)
    requires LastGiven(before, init, after)
    ensures LastGiven(before, init + [last], after[last.0 := last.1])
  {
    var all := init + [last];
    forall k | 0 <= k < |init| ensures all[k] == init[k] {}
    assert all[|init|] == last;
    forall slot ensures SlotGiven(all, slot) <==> SlotGiven(init, slot) || slot == last.0 {
      if SlotGiven(init, slot) {
        var a :| a in init && a.0 == slot;
        assert a in all;
      }
    }
  }

  /** Main result for `bind`: exactly when it succeeds, and everything about the wiring it makes. */
  lemma {:induction false} BindMeans(origin: TaskNode, arguments: seq<(string, Binding)>)
    ensures BindAll(origin, arguments).Success? <==> Bindable(origin, arguments)
    ensures BindAll(origin, arguments).Success? ==> WiredBy(origin, arguments, BindAll(origin, arguments).value)
  {
    if arguments == [] {
      NothingBound(origin);
    } else {
      hide Reach, WiredBy, Bindable;
      var init, last := arguments[..|arguments| - 1], arguments[|arguments| - 1];
      assert arguments == init + [last];
      BindMeans(origin, init);
      if Bindable(origin, init) {
        OneMoreBound(origin, init, last, BindAll(origin, init).value);
      } else {
        FewerBound(origin, init, last);
      }
    }
  }

  lemma NothingBound(origin: TaskNode)
    ensures Bindable(origin, []) && WiredBy(origin, [], WiringOf(origin))
  {
    assert Open(origin, [])[0] == origin.missing;
    forall name | name in origin.missing ensures Named(Open(origin, []), name) {
      assert name in Open(origin, [])[0];
    }
  }

  lemma FewerBound(origin: TaskNode, init: seq<(string, Binding)>, last: (string, Binding))
    ensures Bindable(origin, init + [last]) ==> Bindable(origin, init)
  {
    hide Reach, LeavesOpen;
    assert (init + [last])[..|init|] == init;
    var open := Open(origin, init);
    forall i | 0 <= i < |open| ensures Open(origin, init + [last])[i] == open[i] {}
    assert forall a <- init :: a in init + [last];
  }

  lemma OneMoreBindable(origin: TaskNode, init: seq<(string, Binding)>, last: (string, Binding))
    requires Bindable(origin, init)
    ensures Bindable(origin, init + [last]) <==>
      && last.0 in origin.slots && (last.1.Refers() ==> origin !in Reach(last.1.node))
      && OneEach(Open(origin, init) + [LeavesOpen(last.1)])
  {
    hide Reach, OneEach, LeavesOpen;
    assert (init + [last])[..|init|] == init && (init + [last])[|init|] == last;
    assert last in init + [last];
    assert forall a <- init :: a in init + [last];
  }

  lemma OneMoreBound(origin: TaskNode, init: seq<(string, Binding)>, last: (string, Binding), w: Wiring)
    requires Bindable(origin, init) && WiredBy(origin, init, w)
    ensures BindOne(origin, w, last.0, last.1).Success? <==> Bindable(origin, init + [last])
    ensures BindOne(origin, w, last.0, last.1).Success? ==>
      WiredBy(origin, init + [last], BindOne(origin, w, last.0, last.1).value)
  {
    hide Reach, OneEach, Conflicts, Collects, LastGiven, Bindable;
    OneMoreBindable(origin, init, last);
    assert OneEach(Open(origin, init)) by { OpenOnce(origin, init); }
    MissingGrows(Open(origin, init), LeavesOpen(last.1), w.missing);
    LastCounts(origin.bindings, init, last, w.bindings);
    assert (init + [last])[..|init|] == init && (init + [last])[|init|] == last;
    NothingLeft(w.missing);
  }

  lemma OpenOnce(origin: TaskNode, arguments: seq<(string, Binding)>)
    requires Bindable(origin, arguments)
    ensures OneEach(Open(origin, arguments))
  {
  }

  lemma NothingLeft(missing: map<string, InputVar>)
    ensures missing + map[] == missing && !Conflicts(missing, map[])
  {
  }

  /** The fault is that of the first argument that cannot be bound: a slot that does not exist, a dependency on
      the node itself, or a name that would stand for two variables. */
  ghost predicate FirstFault(origin: TaskNode, arguments: seq<(string, Binding)>, k: nat, fault: GraphFault)
    requires k < |arguments|
  {
    var a := arguments[k];
    && Bindable(origin, arguments[..k])
    && match fault
       case UnknownSlot(slot) => slot == a.0 && a.0 !in origin.slots
       case CyclicDependency => a.0 in origin.slots && a.1.Refers() && origin in Reach(a.1.node)
       case DuplicateName =>
         && a.0 in origin.slots && (a.1.Refers() ==> origin !in Reach(a.1.node))
         && !OneEach(Open(origin, arguments[..k + 1]))
       case _ => false
  }

  lemma {:induction false} BindFaults(origin: TaskNode, arguments: seq<(string, Binding)>)
    requires BindAll(origin, arguments).Failure?
    ensures exists k :: 0 <= k < |arguments| && FirstFault(origin, arguments, k, BindAll(origin, arguments).error)
  {
    var init, last := arguments[..|arguments| - 1], arguments[|arguments| - 1];
    assert arguments == init + [last];
    if BindAll(origin, init).Failure? {
      BindFaults(origin, init);
      var k :| 0 <= k < |init| && FirstFault(origin, init, k, BindAll(origin, init).error);
      assert arguments[..k] == init[..k] && arguments[..k + 1] == init[..k + 1] && arguments[k] == init[k];
      hide Reach, Bindable, OneEach;
      assert FirstFault(origin, arguments, k, BindAll(origin, arguments).error);
    } else {
      BindMeans(origin, init);
      LastFaults(origin, init, last, BindAll(origin, init).value);
      assert arguments[..|init|] == init && arguments[..|init| + 1] == arguments;
      assert FirstFault(origin, arguments, |init|, BindAll(origin, arguments).error);
    }
  }

  lemma LastFaults(origin: TaskNode, init: seq<(string, Binding)>, last: (string, Binding), w: Wiring)
    requires Bindable(origin, init) && WiredBy(origin, init, w) && BindOne(origin, w, last.0, last.1).Failure?
    ensures match BindOne(origin, w, last.0, last.1).error
            case UnknownSlot(slot) => slot == last.0 && last.0 !in origin.slots
            case CyclicDependency => last.0 in origin.slots && last.1.Refers() && origin in Reach(last.1.node)
            case DuplicateName =>
              && last.0 in origin.slots && (last.1.Refers() ==> origin !in Reach(last.1.node))
              && !OneEach(Open(origin, init + [last]))
            case _ => false
  {
    hide Reach, OneEach, Conflicts, Collects, LastGiven, Bindable;
    assert OneEach(Open(origin, init)) by { OpenOnce(origin, init); }
    MissingGrows(Open(origin, init), LeavesOpen(last.1), w.missing);
    assert (init + [last])[..|init|] == init && (init + [last])[|init|] == last;
    NothingLeft(w.missing);
  }

  // ---------------------------------------------------------------- evaluating

  /** What a binding gives on these inputs: a constant, an input, or the value of a node or a part of it. */
  ghost function BoundValue(b: Binding, inputs: Inputs): Option<Value> {
    match b
    case Constant(value) => Some(value)
    case Variable(input) => if input.name in inputs then Some(inputs[input.name]) else None
    case Whole(node) => Eval(node, inputs)
    case Part(node, selector) =>
      match Eval(node, inputs)
      case Some(value) => Resolve(value, selector)
      case None => None
  }

  /** The arguments a node is called with: what is bound, and the default of every slot that is not. */
  ghost predicate CalledWith(n: TaskNode, inputs: Inputs, arguments: map<string, Value>) {
    && (forall slot :: slot in arguments <==>
          slot in n.bindings || (slot in n.slots && n.slots[slot].default.Some?))
    && (forall slot | slot in n.bindings && slot in arguments ::
          BoundValue(n.bindings[slot], inputs) == Some(arguments[slot]))
    && (forall slot | slot in arguments && slot !in n.bindings && slot in n.slots ::
          n.slots[slot].default == Some(arguments[slot]))
  }

  /** Main result for evaluation: a node has a value exactly when every required slot is bound or has a default
      and every binding gives something; and the value is what its function returns on those arguments, or
      what comes of it when that is a future. */
  lemma EvalMeans(n: TaskNode, inputs: Inputs)
    requires Built(n)
    ensures Eval(n, inputs).Some? <==>
      && (forall slot | slot in n.slots && n.slots[slot].required && n.slots[slot].default.None? :: slot in n.bindings)
      && (forall slot | slot in n.bindings :: BoundValue(n.bindings[slot], inputs).Some?)
    ensures Eval(n, inputs).Some? ==>
      exists arguments :: CalledWith(n, inputs, arguments) &&
        match n.func(arguments)
        case Future(outcome) => Eval(n, inputs) == Some(outcome)
        case raw => Eval(n, inputs) == Some(raw)
  {
    var bound := map slot | slot in n.bindings :: Lookup(n, slot, inputs);
    forall slot | slot in n.bindings ensures bound[slot] == BoundValue(n.bindings[slot], inputs) {
      LookupMeans(n, slot, inputs);
    }
    KeywordsMean(n, bound);
    EvalIsCall(n, inputs, bound);
    hide Eval, Lookup, BoundValue, Keywords, Built;
    if Keywords(n, bound).Some? {
      assert CalledWith(n, inputs, Keywords(n, bound).value);
    }
  }

  lemma EvalIsCall(n: TaskNode, inputs: Inputs, bound: map<string, Option<Value>>)
    requires bound == map slot | slot in n.bindings :: Lookup(n, slot, inputs)
    ensures Eval(n, inputs).Some? <==> Keywords(n, bound).Some?
    ensures Keywords(n, bound).Some? ==>
      match n.func(Keywords(n, bound).value)
      case Future(outcome) => Eval(n, inputs) == Some(outcome)
      case raw => Eval(n, inputs) == Some(raw)
  {
    hide Keywords;
    var again := map slot | slot in n.bindings :: Lookup(n, slot, inputs);
    assert again == bound;
    assert Eval(n, inputs) == match Keywords(n, again)
                              case Some(arguments) => Some(Settle(n.func(arguments)))
                              case None => None;
  }

  /** The keyword arguments exist when nothing required is left out and every binding gives a value. */
  lemma KeywordsMean(n: TaskNode, bound: map<string, Option<Value>>)
    requires bound.Keys == n.bindings.Keys
    ensures Keywords(n, bound).Some? <==>
      && (forall slot | slot in n.slots && n.slots[slot].required && n.slots[slot].default.None? :: slot in n.bindings)
      && (forall slot | slot in n.bindings :: bound[slot].Some?)
    ensures Keywords(n, bound).Some? ==>
      var arguments := Keywords(n, bound).value;
      && (forall slot :: slot in arguments <==> slot in n.bindings || (slot in n.slots && n.slots[slot].default.Some?))
      && (forall slot | slot in n.bindings && slot in arguments :: bound[slot] == Some(arguments[slot]))
      && (forall slot | slot in arguments && slot !in n.bindings && slot in n.slots ::
            n.slots[slot].default == Some(arguments[slot]))
  {
    SomeUnbound(n);
    hide Unbound;
    assert forall slot | slot in n.bindings :: slot in bound;
  }

  lemma SomeUnbound(n: TaskNode)
    ensures Unbound(n) == {} <==>
      forall slot | slot in n.slots && n.slots[slot].required && n.slots[slot].default.None? :: slot in n.bindings
  {
    forall slot | slot in n.slots && n.slots[slot].required && n.slots[slot].default.None? && slot !in n.bindings
      ensures slot in Unbound(n)
    {
    }
  }

  lemma LookupMeans(n: TaskNode, slot: string, inputs: Inputs)
    requires Built(n) && slot in n.bindings
    ensures Lookup(n, slot, inputs) == BoundValue(n.bindings[slot], inputs)
  {
    if n.bindings[slot].Refers() {
      assert n.bindings[slot].node in n.parents;
      InheritsMissing(n, n.bindings[slot].node);
    }
    hide Eval, Resolve;
  }
}
