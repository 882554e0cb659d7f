/**
 * The wiring of the demo graph in index.ts, as a binding graph over node
 * names: `mul` reads `add` and `sin`, `add` reads `cos` and `sin`, `sin` reads
 * `getVar`. The lemmas pin down the depths discovery records and the order
 * any schedule of this graph runs the nodes in.
 */
module Demo {
  import Dag
  import opened Scheduler

  /** Each node's producers in binding order. */
  function Wiring(): map<string, seq<string>>
  {
    map["mul" := ["add", "sin"], "add" := ["cos", "sin"], "sin" := ["getVar"], "cos" := [], "getVar" := []]
  }

  /** A rank that strictly falls along every binding: the graph is acyclic. */
  function Ranks(): map<string, nat>
  {
    map["mul" := 4, "add" := 3, "sin" := 2, "cos" := 1, "getVar" := 0]
  }

  lemma WiringIsDag()
    ensures Dag.IsDag(Wiring(), Ranks())
  {
    var g, rank := Wiring(), Ranks();
    forall n, i | n in g && 0 <= i < |g[n]| ensures g[n][i] in g && rank[g[n][i]] < rank[n] {
      assert n in {"mul", "add", "sin", "cos", "getVar"};
    }
  }

  /** A node without producers reaches only itself. */
  lemma LeafDepths(n: string, m: string)
    requires Dag.IsDag(Wiring(), Ranks()) && n in Wiring() && Wiring()[n] == []
    ensures Dag.Longest(Wiring(), Ranks(), n, m) == if n == m then 0 else -1
  {
  }

  /**
   * The depths from the root `mul`: `getVar` 3, `cos` and `sin` 2, `add` 1 and
   * `mul` 0, and every node is reachable.
   */
  lemma {:induction false} DemoDepths()
    ensures Dag.IsDag(Wiring(), Ranks())
    ensures Dag.Longest(Wiring(), Ranks(), "mul", "getVar") == 3
    ensures Dag.Longest(Wiring(), Ranks(), "mul", "cos") == 2
    ensures Dag.Longest(Wiring(), Ranks(), "mul", "sin") == 2
    ensures Dag.Longest(Wiring(), Ranks(), "mul", "add") == 1
    ensures Dag.Longest(Wiring(), Ranks(), "mul", "mul") == 0
    ensures Dag.Reach(Wiring(), Ranks(), "mul") == Wiring().Keys
  {
    var g, rank := Wiring(), Ranks();
    WiringIsDag();
    LeafDepths("getVar", "getVar");
    LeafDepths("getVar", "cos");
    LeafDepths("getVar", "sin");
    LeafDepths("getVar", "add");
    LeafDepths("getVar", "mul");
    LeafDepths("cos", "getVar");
    LeafDepths("cos", "cos");
    LeafDepths("cos", "sin");
    LeafDepths("cos", "add");
    LeafDepths("cos", "mul");
    assert Dag.Longest(g, rank, "sin", "getVar") == 1;
    assert Dag.Longest(g, rank, "sin", "sin") == 0;
    assert Dag.Longest(g, rank, "sin", "cos") == -1;
    assert Dag.Longest(g, rank, "sin", "add") == -1;
    assert Dag.Longest(g, rank, "sin", "mul") == -1;
    assert Dag.Longest(g, rank, "add", "getVar") == 2;
    assert Dag.Longest(g, rank, "add", "cos") == 1;
    assert Dag.Longest(g, rank, "add", "sin") == 1;
    assert Dag.Longest(g, rank, "add", "add") == 0;
    assert Dag.Longest(g, rank, "add", "mul") == -1;
    assert Dag.Longest(g, rank, "mul", "getVar") == 3;
    assert Dag.Longest(g, rank, "mul", "cos") == 2;
    assert Dag.Longest(g, rank, "mul", "sin") == 2;
    assert Dag.Longest(g, rank, "mul", "add") == 1;
    assert Dag.Longest(g, rank, "mul", "mul") == 0;
    assert g.Keys == {"mul", "add", "sin", "cos", "getVar"};
  }

  /** A queue without repeated nodes has as many entries as nodes. */
  lemma {:induction false} DistinctSize<N>(q: seq<(N, nat)>)
    requires DistinctNodes(q)
    ensures |Members(q)| == |q|
    decreases |q|
  {
    if q != [] {
      var front := q[..|q| - 1];
      assert q == front + [q[|q| - 1]];
      DistinctSize(front);
      assert Members(q) == Members(front) + {q[|q| - 1].0};
      assert q[|q| - 1].0 !in Members(front);
    }
  }

  /** The depths discovery records, as a table. */
  function DemoDepth(x: string): int
  {
    if x == "getVar" then 3 else if x == "cos" || x == "sin" then 2 else if x == "add" then 1 else 0
  }

  /** The depth table agrees with the longest distances from `mul`. */
  lemma DepthTable(x: string)
    requires x in Dag.Reach(Wiring(), Ranks(), "mul")
    ensures Dag.IsDag(Wiring(), Ranks())
    ensures x in Wiring() && Dag.Longest(Wiring(), Ranks(), "mul", x) == DemoDepth(x)
  {
    DemoDepths();
    assert x in {"mul", "add", "sin", "cos", "getVar"};
    if x == "mul" {} else if x == "add" {} else if x == "sin" {} else if x == "cos" {} else {}
  }

  /**
   * Any schedule of the demo graph, in the form `Schedule` promises, runs
   * `getVar` first, then `cos` and `sin` in either order, then `add`, and
   * `mul` last: five entries, so `sin`, read by both `add` and `mul`, runs once.
   */
  lemma DemoSchedule(q: seq<(string, nat)>)
    requires forall k :: 0 <= k < |q| ==>
               q[k].0 in Dag.Reach(Wiring(), Ranks(), "mul") && q[k].1 == Dag.Longest(Wiring(), Ranks(), "mul", q[k].0)
    requires Members(q) == Dag.Reach(Wiring(), Ranks(), "mul") && DistinctNodes(q) && DepthOrdered(q)
    ensures |q| == 5
    ensures q[0].0 == "getVar" && q[3].0 == "add" && q[4].0 == "mul"
    ensures {q[1].0, q[2].0} == {"cos", "sin"}
  {
    DemoDepths();
    forall k | 0 <= k < |q| ensures q[k].1 == DemoDepth(q[k].0) {
      DepthTable(q[k].0);
    }
    OrderOfNames(q);
  }

  /** The ordering argument of `DemoSchedule`, on the depth table alone. */
  lemma OrderOfNames(q: seq<(string, nat)>)
    requires forall k :: 0 <= k < |q| ==> q[k].1 == DemoDepth(q[k].0)
    requires Members(q) == {"mul", "add", "sin", "cos", "getVar"} && DistinctNodes(q) && DepthOrdered(q)
    ensures |q| == 5
    ensures q[0].0 == "getVar" && q[3].0 == "add" && q[4].0 == "mul"
    ensures {q[1].0, q[2].0} == {"cos", "sin"}
  {
    DistinctSize(q);
    assert |q| == 5;
    assert forall k :: 0 <= k < 5 ==> q[k].0 in Members(q);
    assert "getVar" in Members(q);
    var kg :| 0 <= kg < 5 && q[kg].0 == "getVar";
    assert q[0].1 == 3;
    assert "mul" in Members(q);
    var km :| 0 <= km < 5 && q[km].0 == "mul";
    assert q[4].1 == 0;
    assert "add" in Members(q);
    var ka :| 0 <= ka < 5 && q[ka].0 == "add";
    assert q[3].1 == 1;
  }
}

/**
 * The demo of index.ts run on the node model itself: five single-output nodes,
 * the five `bind` calls of `makeDemo`, and `Evaluate` on the graph rooted at
 * `mul`. Numbers are modelled as `int`, and `Math.cos` and `Math.sin` as the
 * parameters `cosF` and `sinF`.
 */
module DemoRun {
  import opened Wrappers
  import opened Nodes
  import opened Scheduler
  import Dag

  /** A numeric property as a node kind reads it; an unset property reads as 0. */
  function Num(p: Properties<int>, k: string): int
  {
    if k in p && p[k].Some? then p[k].value else 0
  }

  /** The `evaluateDefaultOutput` of each node kind of index.ts. */
  function GetVarOut(): Properties<int> -> int { p => Num(p, "value") }
  function CosineOut(cosF: int -> int): Properties<int> -> int { p => cosF(Num(p, "operand")) }
  function SineOut(sinF: int -> int): Properties<int> -> int { p => sinF(Num(p, "operand")) }
  function AddOut(): Properties<int> -> int { p => Num(p, "lhs") + Num(p, "rhs") }
  function MulOut(): Properties<int> -> int { p => Num(p, "lhs") * Num(p, "rhs") }

  /** The value `expected()` computes: `(sin(VAR) + cos(COS)) * sin(VAR)`. */
  function Expected(cosF: int -> int, sinF: int -> int, varValue: int, cosOp: int): int
  {
    (sinF(varValue) + cosF(cosOp)) * sinF(varValue)
  }

  /** The binding graph after the five `bind` calls, over the five nodes. */
  ghost function Edges5(mul: Node<int>, add: Node<int>, sin: Node<int>, cos: Node<int>, getVar: Node<int>): map<Node<int>, seq<Node<int>>>
  {
    map[mul := [add, sin], add := [cos, sin], sin := [getVar], cos := [], getVar := []]
  }

  ghost function Ranks5(mul: Node<int>, add: Node<int>, sin: Node<int>, cos: Node<int>, getVar: Node<int>): map<Node<int>, nat>
  {
    map[mul := 4, add := 3, sin := 2, cos := 1, getVar := 0]
  }

  ghost predicate Distinct5(mul: Node<int>, add: Node<int>, sin: Node<int>, cos: Node<int>, getVar: Node<int>)
  {
    && mul != add && mul != sin && mul != cos && mul != getVar
    && add != sin && add != cos && add != getVar
    && sin != cos && sin != getVar
    && cos != getVar
  }

  /** The five nodes as `makeDemo` leaves them: single-output, bound as in index.ts. */
  ghost predicate Bound5(mul: Node<int>, add: Node<int>, sin: Node<int>, cos: Node<int>, getVar: Node<int>)
    reads mul, add, sin, cos, getVar
  {
    && mul.Valid() && add.Valid() && sin.Valid() && cos.Valid() && getVar.Valid()
    && mul.outputCount == 1 && add.outputCount == 1 && sin.outputCount == 1 && cos.outputCount == 1 && getVar.outputCount == 1
    && getVar.bindings == map[] && getVar.bindingOrder == []
    && cos.bindings == map[] && cos.bindingOrder == []
    && sin.bindings == map["operand" := Binding(getVar, 0)] && sin.bindingOrder == ["operand"]
    && add.bindings == map["lhs" := Binding(cos, 0), "rhs" := Binding(sin, 0)] && add.bindingOrder == ["lhs", "rhs"]
    && mul.bindings == map["lhs" := Binding(add, 0), "rhs" := Binding(sin, 0)] && mul.bindingOrder == ["lhs", "rhs"]
  }

  /** Each binding of a demo node names slot 0 of another demo node. */
  lemma DemoClosed(mul: Node<int>, add: Node<int>, sin: Node<int>, cos: Node<int>, getVar: Node<int>)
    requires Bound5(mul, add, sin, cos, getVar)
    ensures Closed({mul, add, sin, cos, getVar})
  {
    var nodes := {mul, add, sin, cos, getVar};
    forall n | n in nodes
      ensures n.Valid() && forall k :: k in n.bindings ==>
                n.bindings[k].target in nodes && n.bindings[k].outputIndex < n.bindings[k].target.outputCount
    {
      if n == mul {} else if n == add {} else if n == sin {} else if n == cos {} else {}
    }
  }

  /** The producers of a node bound on one key. */
  lemma TargetsOne<V>(order: seq<string>, bindings: map<string, Binding<V>>, k: string)
    requires order == [k] && k in bindings
    ensures Targets(order, bindings) == [bindings[k].target]
  {
  }

  /** The producers of a node bound on two keys, in binding order. */
  lemma TargetsTwo<V>(order: seq<string>, bindings: map<string, Binding<V>>, k1: string, k2: string)
    requires order == [k1, k2] && k1 in bindings && k2 in bindings
    ensures Targets(order, bindings) == [bindings[k1].target, bindings[k2].target]
  {
  }

  /** `Edges5` is the binding graph of the demo nodes, given each node's producers. */
  lemma DemoEdges(mul: Node<int>, add: Node<int>, sin: Node<int>, cos: Node<int>, getVar: Node<int>)
    requires Distinct5(mul, add, sin, cos, getVar) && Closed({mul, add, sin, cos, getVar})
    requires Targets(mul.bindingOrder, mul.bindings) == [add, sin]
    requires Targets(add.bindingOrder, add.bindings) == [cos, sin]
    requires Targets(sin.bindingOrder, sin.bindings) == [getVar]
    requires Targets(cos.bindingOrder, cos.bindings) == [] && Targets(getVar.bindingOrder, getVar.bindings) == []
    ensures Edges5(mul, add, sin, cos, getVar) == Edges({mul, add, sin, cos, getVar})
  {
    var nodes := {mul, add, sin, cos, getVar};
    var e, e5 := Edges(nodes), Edges5(mul, add, sin, cos, getVar);
    assert e.Keys == e5.Keys;
    forall n | n in nodes ensures e[n] == e5[n] {
      if n == mul {} else if n == add {} else if n == sin {} else if n == cos {} else {}
    }
  }

  /** `Ranks5` falls along every edge of `Edges5`. */
  lemma DemoAcyclic(mul: Node<int>, add: Node<int>, sin: Node<int>, cos: Node<int>, getVar: Node<int>)
    requires Distinct5(mul, add, sin, cos, getVar)
    ensures Dag.IsDag(Edges5(mul, add, sin, cos, getVar), Ranks5(mul, add, sin, cos, getVar))
  {
    var g, rank := Edges5(mul, add, sin, cos, getVar), Ranks5(mul, add, sin, cos, getVar);
    forall n, i | n in g && 0 <= i < |g[n]| ensures g[n][i] in g && rank[g[n][i]] < rank[n] {
      if n == mul {} else if n == add {} else if n == sin {} else if n == cos {} else {}
    }
  }

  /** The bindings the five `bind` calls of `makeDemo` record. */
  ghost predicate Bindings5(mul: Node<int>, add: Node<int>, sin: Node<int>, cos: Node<int>, getVar: Node<int>)
    reads mul, add, sin, cos, getVar
  {
    && getVar.bindings == map[] && cos.bindings == map[]
    && "operand" in sin.bindings && sin.bindings["operand"] == Binding(getVar, 0)
    && "lhs" in add.bindings && add.bindings["lhs"] == Binding(cos, 0)
    && "rhs" in add.bindings && add.bindings["rhs"] == Binding(sin, 0)
    && "lhs" in mul.bindings && mul.bindings["lhs"] == Binding(add, 0)
    && "rhs" in mul.bindings && mul.bindings["rhs"] == Binding(sin, 0)
  }

  /** The node kinds of the demo: `GetVar`, `Cosine`, `Sine`, `Add` and `Mul`. */
  ghost predicate Kinds5(mul: Node<int>, add: Node<int>, sin: Node<int>, cos: Node<int>, getVar: Node<int>,
                   cosF: int -> int, sinF: int -> int)
  {
    && getVar.computation == SingleOutput(GetVarOut()) && cos.computation == SingleOutput(CosineOut(cosF))
    && sin.computation == SingleOutput(SineOut(sinF)) && add.computation == SingleOutput(AddOut())
    && mul.computation == SingleOutput(MulOut())
  }

  /** The bound demo nodes are wired: `Edges5` is their binding graph and `Ranks5` shows it acyclic. */
  lemma DemoWired(mul: Node<int>, add: Node<int>, sin: Node<int>, cos: Node<int>, getVar: Node<int>)
    requires Distinct5(mul, add, sin, cos, getVar) && Bound5(mul, add, sin, cos, getVar)
    ensures Wired(Edges5(mul, add, sin, cos, getVar), Ranks5(mul, add, sin, cos, getVar))
  {
    assert Edges5(mul, add, sin, cos, getVar).Keys == {mul, add, sin, cos, getVar};
    DemoClosed(mul, add, sin, cos, getVar);
    TargetsTwo(mul.bindingOrder, mul.bindings, "lhs", "rhs");
    TargetsTwo(add.bindingOrder, add.bindings, "lhs", "rhs");
    TargetsOne(sin.bindingOrder, sin.bindings, "operand");
    DemoEdges(mul, add, sin, cos, getVar);
    DemoAcyclic(mul, add, sin, cos, getVar);
  }

  /** Every demo node is reachable from `mul`, so `evaluate` runs all five. */
  lemma DemoReach(mul: Node<int>, add: Node<int>, sin: Node<int>, cos: Node<int>, getVar: Node<int>)
    requires Distinct5(mul, add, sin, cos, getVar)
    requires Dag.IsDag(Edges5(mul, add, sin, cos, getVar), Ranks5(mul, add, sin, cos, getVar))
    ensures {mul, add, sin, cos, getVar} <= Dag.Reach(Edges5(mul, add, sin, cos, getVar), Ranks5(mul, add, sin, cos, getVar), mul)
  {
    var g, rank := Edges5(mul, add, sin, cos, getVar), Ranks5(mul, add, sin, cos, getVar);
    Dag.LongestSelf(g, rank, mul);
    Dag.PathBound(g, rank, [mul, add]);
    Dag.PathBound(g, rank, [mul, sin]);
    Dag.PathBound(g, rank, [mul, add, cos]);
    Dag.PathBound(g, rank, [mul, sin, getVar]);
  }

  /** A node without bindings runs on its own properties. */
  lemma RanLeaf(x: Node<int>, f: Properties<int> -> int, p0: Properties<int>, o0: seq<Option<int>>)
    requires Ran(x, p0, o0) && x.bindings == map[] && x.computation == SingleOutput(f)
    ensures x.properties == p0 && x.outputs == [Some(f(p0))]
  {
    assert x.BoundValues() == map[];
  }

  /** A node runs on its properties, and a property bound to slot 0 holds the producer's slot 0. */
  lemma RanFed(x: Node<int>, f: Properties<int> -> int, p0: Properties<int>, o0: seq<Option<int>>, k: string)
    requires Ran(x, p0, o0) && x.computation == SingleOutput(f)
    requires k in x.bindings && x.bindings[k].outputIndex == 0
    ensures x.outputs == [Some(f(x.properties))]
    ensures k in x.properties && x.properties[k] == x.bindings[k].target.outputs[0]
  {
    FanOut(x, k, p0, o0, x, k, p0, o0);
  }

  /**
   * Once each demo node has run, the root's slot holds the expected value:
   * `sin` feeds both `add` and `mul` the same slot.
   */
  lemma DemoOutcome(mul: Node<int>, add: Node<int>, sin: Node<int>, cos: Node<int>, getVar: Node<int>,
                    cosF: int -> int, sinF: int -> int, varValue: int, cosOp: int,
                    mp: Properties<int>, mo: seq<Option<int>>, ap: Properties<int>, ao: seq<Option<int>>,
                    sp: Properties<int>, so: seq<Option<int>>, cp: Properties<int>, co: seq<Option<int>>,
                    gp: Properties<int>, go: seq<Option<int>>)
    requires Bindings5(mul, add, sin, cos, getVar) && Kinds5(mul, add, sin, cos, getVar, cosF, sinF)
    requires Num(gp, "value") == varValue && Num(cp, "operand") == cosOp
    requires Ran(getVar, gp, go) && Ran(cos, cp, co) && Ran(sin, sp, so) && Ran(add, ap, ao) && Ran(mul, mp, mo)
    ensures mul.outputs == [Some(Expected(cosF, sinF, varValue, cosOp))]
  {
    RanLeaf(getVar, GetVarOut(), gp, go);
    assert GetVarOut()(gp) == varValue;
    RanLeaf(cos, CosineOut(cosF), cp, co);
    assert CosineOut(cosF)(cp) == cosF(cosOp);
    RanFed(sin, SineOut(sinF), sp, so, "operand");
    assert sin.properties["operand"] == getVar.outputs[0] == Some(varValue);
    assert Num(sin.properties, "operand") == varValue;
    assert SineOut(sinF)(sin.properties) == sinF(varValue);
    RanFed(add, AddOut(), ap, ao, "lhs");
    RanFed(add, AddOut(), ap, ao, "rhs");
    assert AddOut()(add.properties) == cosF(cosOp) + sinF(varValue);
    RanFed(mul, MulOut(), mp, mo, "lhs");
    RanFed(mul, MulOut(), mp, mo, "rhs");
    assert MulOut()(mul.properties) == Expected(cosF, sinF, varValue, cosOp);
  }

  /** `bind(sin, 'operand', getVar)`. */
  method BindSine(sin: Node<int>, getVar: Node<int>)
    requires sin.Valid() && sin.bindings == map[] && sin.bindingOrder == []
    modifies sin
    ensures sin.Valid() && sin.properties == old(sin.properties)
    ensures sin.bindings == map["operand" := Binding(getVar, 0)] && sin.bindingOrder == ["operand"]
  {
    Bind(sin, "operand", getVar);
  }

  /** `bind(add, 'lhs', cos)` and `bind(add, 'rhs', sin)`. */
  method BindAdd(add: Node<int>, cos: Node<int>, sin: Node<int>)
    requires add.Valid() && add.bindings == map[] && add.bindingOrder == []
    modifies add
    ensures add.Valid() && add.properties == old(add.properties)
    ensures add.bindings == map["lhs" := Binding(cos, 0), "rhs" := Binding(sin, 0)] && add.bindingOrder == ["lhs", "rhs"]
  {
    Bind(add, "lhs", cos);
    Bind(add, "rhs", sin);
  }

  /** `bind(mul, 'lhs', add)` and `bind(mul, 'rhs', sin)`. */
  method BindMul(mul: Node<int>, add: Node<int>, sin: Node<int>)
    requires mul.Valid() && mul.bindings == map[] && mul.bindingOrder == []
    modifies mul
    ensures mul.Valid() && mul.properties == old(mul.properties)
    ensures mul.bindings == map["lhs" := Binding(add, 0), "rhs" := Binding(sin, 0)] && mul.bindingOrder == ["lhs", "rhs"]
  {
    Bind(mul, "lhs", add);
    Bind(mul, "rhs", sin);
  }

  /**
   * `makeDemo` of index.ts: five new single-output nodes, with `getVar.value`
   * and `cos.operand` set, bound by the five `bind` calls.
   */
  method MakeDemo(cosF: int -> int, sinF: int -> int, varValue: int, cosOp: int)
    returns (mul: Node<int>, add: Node<int>, sin: Node<int>, cos: Node<int>, getVar: Node<int>)
    ensures fresh(mul) && fresh(add) && fresh(sin) && fresh(cos) && fresh(getVar)
    ensures Distinct5(mul, add, sin, cos, getVar) && Bound5(mul, add, sin, cos, getVar)
    ensures Kinds5(mul, add, sin, cos, getVar, cosF, sinF)
    ensures Num(getVar.properties, "value") == varValue && Num(cos.properties, "operand") == cosOp
  {
    getVar := new Node<int>.Single(GetVarOut(), map["value" := Some(varValue)]);
    cos := new Node<int>.Single(CosineOut(cosF), map["operand" := Some(cosOp)]);
    sin := new Node<int>.Single(SineOut(sinF), map["operand" := Some(0)]);
    add := new Node<int>.Single(AddOut(), map["lhs" := Some(0), "rhs" := Some(0)]);
    mul := new Node<int>.Single(MulOut(), map["lhs" := Some(0), "rhs" := Some(0)]);
    BindSine(sin, getVar);
    BindAdd(add, cos, sin);
    BindMul(mul, add, sin);
  }

  /**
   * `evaluate(graph)` on the five demo nodes, wired as `g`: each of them runs
   * once, its bindings stay, and the result is `mul`'s slot 0.
   */
  method EvaluateRoot(mul: Node<int>, add: Node<int>, sin: Node<int>, cos: Node<int>, getVar: Node<int>,
                      ghost g: map<Node<int>, seq<Node<int>>>, ghost rank: map<Node<int>, nat>)
    returns (result: Option<int>)
    requires Wired(g, rank) && g.Keys == {mul, add, sin, cos, getVar}
    requires g.Keys <= Dag.Reach(g, rank, mul) && mul.outputCount >= 1
    modifies mul, add, sin, cos, getVar
    ensures mul.bindings == old(mul.bindings) && add.bindings == old(add.bindings) && sin.bindings == old(sin.bindings)
    ensures cos.bindings == old(cos.bindings) && getVar.bindings == old(getVar.bindings)
    ensures Ran(getVar, old(getVar.properties), old(getVar.outputs)) && Ran(cos, old(cos.properties), old(cos.outputs))
    ensures Ran(sin, old(sin.properties), old(sin.outputs)) && Ran(add, old(add.properties), old(add.outputs))
    ensures Ran(mul, old(mul.properties), old(mul.outputs))
    ensures |mul.outputs| >= 1 && result == mul.outputs[0]
  {
    ghost var reach := Dag.Reach(g, rank, mul);
    assert mul in g && add in g && sin in g && cos in g && getVar in g;
    assert mul in reach && add in reach && sin in reach && cos in reach && getVar in reach;
    ghost var trace;
    result, trace := Evaluate(Graph(mul), g, rank);
  }

  /**
   * `evaluate(graph)` on the graph `makeDemo` built, rooted at `mul` and wired
   * as `g`: its output is `expected()`, `(sin(VAR) + cos(COS)) * sin(VAR)`.
   */
  method EvaluateDemo(mul: Node<int>, add: Node<int>, sin: Node<int>, cos: Node<int>, getVar: Node<int>,
                      cosF: int -> int, sinF: int -> int, varValue: int, cosOp: int,
                      ghost g: map<Node<int>, seq<Node<int>>>, ghost rank: map<Node<int>, nat>)
    returns (result: Option<int>)
    requires Wired(g, rank) && g.Keys == {mul, add, sin, cos, getVar}
    requires g.Keys <= Dag.Reach(g, rank, mul) && mul.outputCount >= 1
    requires Bindings5(mul, add, sin, cos, getVar) && Kinds5(mul, add, sin, cos, getVar, cosF, sinF)
    requires Num(getVar.properties, "value") == varValue && Num(cos.properties, "operand") == cosOp
    modifies mul, add, sin, cos, getVar
    ensures result == Some(Expected(cosF, sinF, varValue, cosOp))
  {
    result := EvaluateRoot(mul, add, sin, cos, getVar, g, rank);
    assert Bindings5(mul, add, sin, cos, getVar);
    DemoOutcome(mul, add, sin, cos, getVar, cosF, sinF, varValue, cosOp,
                old(mul.properties), old(mul.outputs), old(add.properties), old(add.outputs),
                old(sin.properties), old(sin.outputs), old(cos.properties), old(cos.outputs),
                old(getVar.properties), old(getVar.outputs));
  }

  /** What `evaluate(graph)` needs of the bound demo nodes, in the form `EvaluateDemo` takes it. */
  lemma DemoReady(mul: Node<int>, add: Node<int>, sin: Node<int>, cos: Node<int>, getVar: Node<int>)
    requires Distinct5(mul, add, sin, cos, getVar) && Bound5(mul, add, sin, cos, getVar)
    ensures Wired(Edges5(mul, add, sin, cos, getVar), Ranks5(mul, add, sin, cos, getVar))
    ensures Edges5(mul, add, sin, cos, getVar).Keys == {mul, add, sin, cos, getVar}
    ensures {mul, add, sin, cos, getVar} <= Dag.Reach(Edges5(mul, add, sin, cos, getVar), Ranks5(mul, add, sin, cos, getVar), mul)
    ensures mul.outputCount >= 1 && Bindings5(mul, add, sin, cos, getVar)
  {
    DemoWired(mul, add, sin, cos, getVar);
    DemoReach(mul, add, sin, cos, getVar);
  }

  /**
   * `makeDemo` and `evaluate(graph)` of index.ts: the graph's output is
   * `expected()`, `(sin(VAR) + cos(COS)) * sin(VAR)`.
   */
  method RunDemo(cosF: int -> int, sinF: int -> int, varValue: int, cosOp: int) returns (result: Option<int>)
    ensures result == Some(Expected(cosF, sinF, varValue, cosOp))
  {
    var mul, add, sin, cos, getVar := MakeDemo(cosF, sinF, varValue, cosOp);
    DemoReady(mul, add, sin, cos, getVar);
    ghost var g, rank := Edges5(mul, add, sin, cos, getVar), Ranks5(mul, add, sin, cos, getVar);
    result := EvaluateDemo(mul, add, sin, cos, getVar, cosF, sinF, varValue, cosOp, g, rank);
  }
}
