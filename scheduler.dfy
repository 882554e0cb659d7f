/**
 * The scheduler of lib.ts, `evaluate(graph)`: label every node reachable from
 * the root with its depth (the recursive `enqueue`), copy the depth map's
 * entries into a queue, sort the queue by depth, largest first, evaluate each
 * node once in that order, and return the root's output slot 0.
 *
 * The graph is given to the proofs as a ghost snapshot `g` of the binding
 * graph (each node's producers in binding order) and a ghost `rank` that
 * witnesses acyclicity; lib.ts itself takes neither.
 */
module Scheduler {
  import opened Wrappers
  import opened Nodes
  import Dag

  /** The graph handed to the scheduler: just its root node. */
  datatype Graph<V> = Graph(rootOutput: Node<V>)

  /** A depth-map entry: a node and its recorded depth. */
  type Entry<V> = (Node<V>, nat)

  /** The producers a node's bindings point at, in binding order. */
  function Targets<V>(order: seq<string>, bindings: map<string, Binding<V>>): (ts: seq<Node<V>>)
    requires forall k :: k in order ==> k in bindings
    ensures |ts| == |order| && forall i :: 0 <= i < |order| ==> ts[i] == bindings[order[i]].target
  {
    seq(|order|, (i: int) requires 0 <= i < |order| => bindings[order[i]].target)
  }

  /** Every node is valid, and each binding names an output slot of a node of the set. */
  ghost predicate Closed<V>(nodes: set<Node<V>>)
    reads nodes
  {
    && (forall n :: n in nodes ==> n.Valid())
    && (forall n, k :: n in nodes && k in n.bindings ==>
          n.bindings[k].target in nodes && n.bindings[k].outputIndex < n.bindings[k].target.outputCount)
  }

  /** The binding graph of a closed set of nodes. */
  ghost function Edges<V>(nodes: set<Node<V>>): map<Node<V>, seq<Node<V>>>
    reads nodes
    requires Closed(nodes)
  {
    map n | n in nodes :: Targets(n.bindingOrder, n.bindings)
  }

  /** `g` is the binding graph of its nodes, which are closed and acyclic, as `rank` witnesses. */
  ghost predicate Wired<V>(g: map<Node<V>, seq<Node<V>>>, rank: map<Node<V>, nat>)
    reads g.Keys
  {
    Closed(g.Keys) && g == Edges(g.Keys) && Dag.IsDag(g, rank)
  }

  /** The nodes of a queue. */
  function Members<N>(queue: seq<(N, nat)>): set<N>
  {
    set e | e in queue :: e.0
  }

  /** The nodes of a queue, in queue order. */
  function NodesOf<N>(queue: seq<(N, nat)>): (r: seq<N>)
    ensures |r| == |queue| && forall k :: 0 <= k < |queue| ==> r[k] == queue[k].0
    ensures (set x | x in r) == Members(queue)
  {
    if queue == [] then []
    else
      var r := NodesOf(queue[..|queue| - 1]) + [queue[|queue| - 1].0];
      assert queue == queue[..|queue| - 1] + [queue[|queue| - 1]];
      r
  }

  ghost predicate DistinctNodes<N>(queue: seq<(N, nat)>)
  {
    forall k, l :: 0 <= k < l < |queue| ==> queue[k].0 != queue[l].0
  }

  /** Sorted by depth, largest first. */
  ghost predicate DepthOrdered<N>(queue: seq<(N, nat)>)
  {
    forall k, l :: 0 <= k < l < |queue| ==> queue[k].1 >= queue[l].1
  }

  /** In a wired graph a node has one producer per binding key. */
  lemma ProducerCount<V>(node: Node<V>, g: map<Node<V>, seq<Node<V>>>, rank: map<Node<V>, nat>)
    requires Wired(g, rank) && node in g
    ensures |g[node]| == |node.bindingOrder|
  {
  }

  /** In a wired graph the `i`-th binding key of a node names its `i`-th producer. */
  lemma ProducerAt<V>(node: Node<V>, g: map<Node<V>, seq<Node<V>>>, rank: map<Node<V>, nat>, i: nat)
    requires Wired(g, rank) && node in g && i < |node.bindingOrder|
    ensures node.bindingOrder[i] in node.bindings && i < |g[node]|
    ensures node.bindings[node.bindingOrder[i]].target == g[node][i]
  {
  }

  /**
   * The recursive `enqueue(node, depth)`. The depth map, which lib.ts captures
   * in a closure and updates in place, is passed in and returned. A node not
   * yet recorded is recorded at `depth`; a recorded node whose depth is larger
   * than `depth` stops the walk; otherwise the node is recorded at `depth`,
   * which re-descends on an equal depth too, and every producer is visited at
   * `depth + 1` in binding order. The result is `Relax`: every node reachable
   * from `node` is recorded with at least `depth` plus its longest distance
   * from `node`, and nothing else changes.
   */
  method Enqueue<V>(node: Node<V>, depth: nat, depthMap: map<Node<V>, nat>,
                    ghost g: map<Node<V>, seq<Node<V>>>, ghost rank: map<Node<V>, nat>)
    returns (result: map<Node<V>, nat>)
    requires Wired(g, rank) && node in g
    requires Dag.SettledBelow(g, rank, depthMap, node)
    ensures result == Dag.Relax(g, rank, depthMap, node, depth)
    ensures Dag.SettledBelow(g, rank, result, node)
    decreases rank[node]
  {
    result := depthMap;
    if node !in result {
      result := result[node := depth];
    } else {
      var maxDepth := result[node];
      if depth < maxDepth {
        Dag.RelaxPrune(g, rank, depthMap, node, depth);
        return;
      } else {
        result := result[node := depth];
      }
    }
    Dag.SettledEntry(g, rank, depthMap, node, depth);
    Dag.ProducersBelow(g, rank, node);
    ghost var base := result;
    ghost var ps := g[node];
    ProducerCount(node, g, rank);
    var i := 0;
    while i < |node.bindingOrder|
      invariant 0 <= i <= |node.bindingOrder| == |ps|
      invariant Dag.RelaxedBy(g, rank, result, base, ps[..i], depth + 1, rank[node])
      invariant Dag.SettledStrictlyBelow(g, rank, result, node)
    {
      ProducerAt(node, g, rank, i);
      var binding := node.bindings[node.bindingOrder[i]];
      Dag.SettledForProducer(g, rank, result, node, i);
      ghost var before := result;
      result := Enqueue(binding.target, depth + 1, result, g, rank);
      Dag.VisitProducer(g, rank, before, result, base, node, i, depth + 1);
      i := i + 1;
    }
    assert ps[..i] == ps;
    Dag.RelaxComplete(g, rank, depthMap, node, depth, result);
  }

  /** `[...depthMap]`: every entry of the depth map once; the order is left open. */
  method CopyEntries<V>(depthMap: map<Node<V>, nat>) returns (entries: seq<Entry<V>>)
    ensures forall k :: 0 <= k < |entries| ==> entries[k].0 in depthMap && entries[k].1 == depthMap[entries[k].0]
    ensures Members(entries) == depthMap.Keys
    ensures DistinctNodes(entries)
  {
    entries := [];
    var rest := depthMap.Keys;
    while rest != {}
      invariant rest <= depthMap.Keys
      invariant forall k :: 0 <= k < |entries| ==>
                  entries[k].0 in depthMap && entries[k].0 !in rest && entries[k].1 == depthMap[entries[k].0]
      invariant Members(entries) == depthMap.Keys - rest
      invariant DistinctNodes(entries)
      decreases rest
    {
      var n :| n in rest;
      assert Members(entries + [(n, depthMap[n])]) == Members(entries) + {n};
      entries := entries + [(n, depthMap[n])];
      rest := rest - {n};
    }
  }

  /** `queue.sort(([_1, a], [_2, b]) => b - a)`: in place, by depth, largest first. */
  method SortByDepth<V>(queue: array<Entry<V>>)
    modifies queue
    ensures DepthOrdered(queue[..])
    ensures multiset(queue[..]) == multiset(old(queue[..]))
  {
    var i := 0;
    while i < queue.Length
      invariant 0 <= i <= queue.Length
      invariant forall p, q :: 0 <= p < q < i ==> queue[p].1 >= queue[q].1
      invariant multiset(queue[..]) == multiset(old(queue[..]))
    {
      InsertLast(queue, i);
      i := i + 1;
    }
  }

  /** Moves `queue[i]` down into the depth-ordered prefix `queue[..i]`. */
  method InsertLast<V>(queue: array<Entry<V>>, i: nat)
    requires i < queue.Length
    requires forall p, q :: 0 <= p < q < i ==> queue[p].1 >= queue[q].1
    modifies queue
    ensures forall p, q :: 0 <= p < q <= i ==> queue[p].1 >= queue[q].1
    ensures multiset(queue[..]) == multiset(old(queue[..]))
  {
    var j := i;
    while j > 0 && queue[j - 1].1 < queue[j].1
      invariant 0 <= j <= i
      invariant forall p, q :: 0 <= p < q <= i && p != j && q != j ==> queue[p].1 >= queue[q].1
      invariant forall q :: j < q <= i ==> queue[j].1 > queue[q].1
      invariant multiset(queue[..]) == multiset(old(queue[..]))
    {
      Swap(queue, j - 1, j);
      j := j - 1;
    }
  }

  /** Exchanges two entries of the queue. */
  method Swap<V>(queue: array<Entry<V>>, i: nat, j: nat)
    requires i < j < queue.Length
    modifies queue
    ensures queue[..] == old(queue[..])[i := old(queue[j])][j := old(queue[i])]
    ensures multiset(queue[..]) == multiset(old(queue[..]))
  {
    ghost var s := queue[..];
    queue[i], queue[j] := queue[j], queue[i];
    assert s == s[..i] + [s[i]] + s[i + 1..j] + [s[j]] + s[j + 1..];
    assert queue[..] == s[..i] + [s[j]] + s[i + 1..j] + [s[i]] + s[j + 1..];
  }

  /** `queue` is filled with `entries` and sorted in place. */
  method SortedCopy<V>(entries: seq<Entry<V>>) returns (queue: seq<Entry<V>>)
    ensures multiset(queue) == multiset(entries) && DepthOrdered(queue)
  {
    var a := new Entry<V>[|entries|](k requires 0 <= k < |entries| => entries[k]);
    assert a[..] == entries;
    SortByDepth(a);
    queue := a[..];
  }

  lemma {:induction false} CountDistinct<T>(s: seq<T>, x: T)
    requires forall i, j :: 0 <= i < j < |s| ==> s[i] != s[j]
    ensures multiset(s)[x] <= 1
    decreases |s|
  {
    if s != [] {
      var front := s[..|s| - 1];
      assert s == front + [s[|s| - 1]];
      CountDistinct(front, x);
      assert s[|s| - 1] == x ==> x !in front;
    }
  }

  lemma CountRepeated<T>(t: seq<T>, i: nat, j: nat)
    requires i < j < |t|
    ensures t[i] == t[j] ==> multiset(t)[t[i]] >= 2
  {
    assert t == t[..j] + t[j..];
    assert t[i] in t[..j] && t[j] in t[j..];
  }

  /** A rearrangement of a sequence without repetitions has none either. */
  lemma DistinctByMultiset<T>(s: seq<T>, t: seq<T>)
    requires multiset(s) == multiset(t)
    requires forall i, j :: 0 <= i < j < |s| ==> s[i] != s[j]
    ensures forall i, j :: 0 <= i < j < |t| ==> t[i] != t[j]
  {
    forall i, j | 0 <= i < j < |t| ensures t[i] != t[j] {
      CountDistinct(s, t[i]);
      CountRepeated(t, i, j);
    }
  }

  /** What `evaluate` does before it runs any node: discover, copy, sort. */
  method Schedule<V>(graph: Graph<V>, ghost g: map<Node<V>, seq<Node<V>>>, ghost rank: map<Node<V>, nat>)
    returns (queue: seq<Entry<V>>)
    requires Wired(g, rank) && graph.rootOutput in g
    ensures forall k :: 0 <= k < |queue| ==>
              queue[k].0 in Dag.Reach(g, rank, graph.rootOutput)
              && queue[k].1 == Dag.Longest(g, rank, graph.rootOutput, queue[k].0)
    ensures Members(queue) == Dag.Reach(g, rank, graph.rootOutput)
    ensures DistinctNodes(queue)
    ensures DepthOrdered(queue)
    ensures forall k, l :: 0 <= k < |queue| && 0 <= l < |queue| && queue[k].0 in g && queue[l].0 in g[queue[k].0] ==> l < k
    ensures |queue| > 0 && queue[|queue| - 1].0 == graph.rootOutput
  {
    var root := graph.rootOutput;
    var depthMap := Enqueue(root, 0, map[], g, rank);
    Dag.RelaxFromEmpty(g, rank, root);
    var entries := CopyEntries(depthMap);
    queue := SortedCopy(entries);
    SortedQueue(g, rank, root, depthMap, entries, queue);
  }

  /**
   * Any depth-ordered rearrangement of the depth map's entries, once discovery
   * has recorded the longest distances from the root, is a schedule: exactly
   * the reachable nodes, each once, producers before consumers, root last.
   */
  lemma SortedQueue<N>(g: map<N, seq<N>>, rank: map<N, nat>, root: N, depthMap: map<N, nat>,
                       entries: seq<(N, nat)>, queue: seq<(N, nat)>)
    requires Dag.IsDag(g, rank) && root in g
    requires depthMap.Keys == Dag.Reach(g, rank, root)
    requires forall m :: m in Dag.Reach(g, rank, root) ==> depthMap[m] == Dag.Longest(g, rank, root, m)
    requires forall k :: 0 <= k < |entries| ==> entries[k].0 in depthMap && entries[k].1 == depthMap[entries[k].0]
    requires Members(entries) == depthMap.Keys && DistinctNodes(entries)
    requires multiset(queue) == multiset(entries) && DepthOrdered(queue)
    ensures forall k :: 0 <= k < |queue| ==>
              queue[k].0 in Dag.Reach(g, rank, root) && queue[k].1 == Dag.Longest(g, rank, root, queue[k].0)
    ensures Members(queue) == Dag.Reach(g, rank, root) && DistinctNodes(queue)
    ensures forall k, l :: 0 <= k < |queue| && 0 <= l < |queue| && queue[k].0 in g && queue[l].0 in g[queue[k].0] ==> l < k
    ensures |queue| > 0 && queue[|queue| - 1].0 == root
  {
    forall k | 0 <= k < |queue|
      ensures queue[k].0 in depthMap && queue[k].1 == depthMap[queue[k].0]
    {
      assert queue[k] in multiset(entries);
    }
    forall n | n in depthMap ensures n in Members(queue) {
      var e :| e in entries && e.0 == n;
      assert e in multiset(queue);
    }
    forall a, b | 0 <= a < b < |entries| ensures entries[a] != entries[b] {
      assert entries[a].0 != entries[b].0;
    }
    DistinctByMultiset(entries, queue);
    assert root in Members(queue);
    var r :| r in queue && r.0 == root;
    Dag.TopologicalOrder(g, rank, root, queue);
  }

  /** Each key of a node's bindings contributes its producer to the node's producer list. */
  lemma TargetListed<V>(order: seq<string>, bindings: map<string, Binding<V>>, k: string)
    requires forall k :: k in order ==> k in bindings
    requires k in order
    ensures bindings[k].target in Targets(order, bindings)
  {
    var i :| 0 <= i < |order| && order[i] == k;
    assert Targets(order, bindings)[i] == bindings[k].target;
  }

  /**
   * `x` has run once from properties `properties0` and slots `outputs0`: each bound
   * property holds its producer's slot as it is now, the others are as they
   * were, and the slots are what the node's own computation made of them.
   */
  ghost predicate Ran<V>(x: Node<V>, properties0: Properties<V>, outputs0: seq<Option<V>>)
    reads x, x.Producers()
  {
    && x.Ready()
    && x.properties == properties0 + x.BoundValues()
    && (x.computation.SingleOutput? ==> |outputs0| == 1)
    && x.outputs == SelfOutputs(x.computation, x.properties, outputs0)
  }

  /**
   * After a run, a bound property holds its producer's slot as it is now; so
   * two properties bound to the same slot, on one node or on two, hold the
   * same value.
   */
  lemma FanOut<V>(x: Node<V>, kx: string, x0: Properties<V>, xo: seq<Option<V>>,
                  y: Node<V>, ky: string, y0: Properties<V>, yo: seq<Option<V>>)
    requires Ran(x, x0, xo) && Ran(y, y0, yo)
    requires kx in x.bindings && ky in y.bindings && x.bindings[kx] == y.bindings[ky]
    ensures x.properties[kx] == x.bindings[kx].target.outputs[x.bindings[kx].outputIndex]
    ensures x.properties[kx] == y.properties[ky]
  {
    assert x.bindings[kx].target in x.Producers();
    assert y.bindings[ky].target in y.Producers();
  }

  /**
   * The nodes of `g` are closed and each binding's producer is listed among
   * its consumer's producers in `g`: what the execution loop needs of `g`.
   * Unlike `Wired`, it does not tie `g` to the order of the bindings.
   */
  ghost predicate Linked<V>(g: map<Node<V>, seq<Node<V>>>)
    reads g.Keys
  {
    && Closed(g.Keys)
    && forall x, k :: x in g && k in x.bindings ==> x.bindings[k].target in g[x]
  }

  /** A wired graph is linked: each binding's producer is in its consumer's producer list. */
  lemma WiredLinked<V>(g: map<Node<V>, seq<Node<V>>>, rank: map<Node<V>, nat>)
    requires Wired(g, rank)
    ensures Linked(g)
  {
    forall x, k | x in g && k in x.bindings ensures x.bindings[k].target in g[x] {
      TargetListed(x.bindingOrder, x.bindings, k);
    }
  }

  /**
   * One turn of the execution loop: `node.evaluate()`, where `node` does not
   * read its own slots and no node of `done` reads `node`.
   */
  method RunOne<V>(node: Node<V>, ghost g: map<Node<V>, seq<Node<V>>>, ghost done: set<Node<V>>)
    requires node in g && node !in g[node] && Linked(g)
    requires forall x :: x in done ==> x in g && node !in g[x] && x != node
    modifies node
    ensures node.Valid() && node.bindings == old(node.bindings) && node.bindingOrder == old(node.bindingOrder)
    ensures Ran(node, old(node.properties), old(node.outputs))
    ensures forall x, p, o :: x in done && old(allocated(p) && allocated(o) && Ran(x, p, o)) ==> Ran(x, p, o)
    ensures Linked(g)
  {
    forall k | k in node.bindings ensures node.bindings[k].target != node {
      assert node.bindings[k].target in g[node];
    }
    ghost var bound := node.BoundValues();
    node.Evaluate();
    assert node.BoundValues() == bound;
    forall x | x in done ensures node !in x.Producers() {
      forall b | b in x.bindings ensures x.bindings[b].target != node {
        assert x.bindings[b].target in g[x];
      }
    }
  }

  /** The execution loop: runs the queue's nodes in queue order, each once. */
  method RunQueue<V>(queue: seq<Entry<V>>, ghost g: map<Node<V>, seq<Node<V>>>)
    requires Linked(g)
    requires forall k :: 0 <= k < |queue| ==> queue[k].0 in g
    requires DistinctNodes(queue)
    requires forall k, l :: 0 <= k < |queue| && 0 <= l < |queue| && queue[k].0 in g && queue[l].0 in g[queue[k].0] ==> l < k
    modifies g.Keys
    ensures forall x :: x in g ==>
              x.Valid() && x.bindings == old(x.bindings) && x.bindingOrder == old(x.bindingOrder)
    ensures forall x :: x in g && x !in Members(queue) ==> x.properties == old(x.properties) && x.outputs == old(x.outputs)
    ensures forall k :: 0 <= k < |queue| ==> Ran(queue[k].0, old(queue[k].0.properties), old(queue[k].0.outputs))
  {
    var i := 0;
    while i < |queue|
      invariant 0 <= i <= |queue|
      invariant Linked(g)
      invariant forall x :: x in g ==> x.bindings == old(x.bindings) && x.bindingOrder == old(x.bindingOrder)
      invariant forall x :: x in g && x !in Members(queue[..i]) ==> x.properties == old(x.properties) && x.outputs == old(x.outputs)
      invariant forall k :: 0 <= k < i ==> Ran(queue[k].0, old(queue[k].0.properties), old(queue[k].0.outputs))
    {
      var node := queue[i].0;
      ghost var done := Members(queue[..i]);
      forall x | x in done ensures x in g && node !in g[x] && x != node {
        var k :| 0 <= k < i && queue[k].0 == x;
      }
      RunOne(node, g, done);
      assert Members(queue[..i + 1]) == done + {node};
      forall k | 0 <= k < i ensures Ran(queue[k].0, old(queue[k].0.properties), old(queue[k].0.outputs)) {
        assert queue[k].0 in done;
      }
      i := i + 1;
    }
    assert queue[..i] == queue;
  }

  /**
   * `evaluate(graph)`: schedules the nodes reachable from the root, evaluates
   * each once in that order and returns the root's output slot 0. `trace` is the
   * queue order that the execution loop follows.
   */
  method Evaluate<V>(graph: Graph<V>, ghost g: map<Node<V>, seq<Node<V>>>, ghost rank: map<Node<V>, nat>)
    returns (result: Option<V>, ghost trace: seq<Node<V>>)
    requires Wired(g, rank) && graph.rootOutput in g && graph.rootOutput.outputCount >= 1
    modifies g.Keys
    ensures forall i, j :: 0 <= i < j < |trace| ==> trace[i] != trace[j]
    ensures (set x | x in trace) == Dag.Reach(g, rank, graph.rootOutput)
    ensures forall i, j :: 0 <= i < |trace| && 0 <= j < |trace| && trace[i] in g && trace[j] in g[trace[i]] ==> j < i
    ensures |trace| > 0 && trace[|trace| - 1] == graph.rootOutput
    ensures forall x :: x in g ==>
              x.Valid() && x.bindings == old(x.bindings) && x.bindingOrder == old(x.bindingOrder)
    ensures forall x :: x in Dag.Reach(g, rank, graph.rootOutput) ==> Ran(x, old(x.properties), old(x.outputs))
    ensures forall x :: x in g && x !in Dag.Reach(g, rank, graph.rootOutput) ==>
              x.properties == old(x.properties) && x.outputs == old(x.outputs)
    ensures |graph.rootOutput.outputs| >= 1 && graph.rootOutput.outputs[0] == result
  {
    var queue := Schedule(graph, g, rank);
    trace := NodesOf(queue);
    WiredLinked(g, rank);
    RunQueue(queue, g);
    forall x | x in Dag.Reach(g, rank, graph.rootOutput) ensures Ran(x, old(x.properties), old(x.outputs)) {
      var e :| e in queue && e.0 == x;
      var k :| 0 <= k < |queue| && queue[k] == e;
    }
    result := graph.rootOutput.GetOutput(0);
  }
}
