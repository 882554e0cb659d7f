# Dataflow graph evaluator: a verified Dafny model

The system is a minimal dataflow graph evaluator written in TypeScript. A
**node** has a fixed number of output slots, which start unset. It also has
named input properties, and a map of **bindings**. A binding takes one
property of the node from one output slot of a producer node. `bind` records a
binding; rebinding a property replaces its binding in place.

`node.evaluate()` first copies each bound producer's slot into its property,
in binding order. Then it runs the node's own computation, which writes the
output slots. A single-output node has exactly one slot and fills it from its
properties.

The scheduler `evaluate(graph)` works in four steps:
1. It labels every node reachable from the root with a depth, by a recursive
   walk (`enqueue`). The depth is the largest distance from the root seen so
   far. The walk stops at a node whose recorded depth is already larger than
   the proposed one.
2. It copies the depth map into a queue of `[node, depth]` pairs.
3. It sorts the queue by depth, largest first.
4. It evaluates each node in queue order, then returns the root's output
   slot 0.

The model has six modules:

- `Wrappers` holds `Option`. `None` stands for a slot or property holding
  `undefined`.
- `Nodes` holds the node `class`, `Binding`, `Computation` and `Bind`.
  - `Node` keeps `outputCount` and a `computation` as constants.
  - Its fields are `bindingOrder` plus `bindings`, which model a JavaScript
    `Map` by its insertion order.
  - Its other fields are `properties`, the property values, and `outputs`, the
    slots.
  - `GetOutput` reads a slot. `Binding.Get` reads the bound producer's slot
    through it.
- `Dag` is graph theory on values.
  - A binding graph `g` maps each node to its producers in binding order.
  - A ghost `rank` that strictly decreases along every binding witnesses
    acyclicity.
  - `Longest(g, rank, n, m)` is the length of the longest binding path from
    `n` to `m`, or -1 when there is none. `Reach` is the set of nodes it
    reaches.
  - `Relax` states what one call of `enqueue` does to a depth map.
  - `Settled` is the invariant that makes its pruning sound.
- `Scheduler` holds the imperative scheduler.
  - `Enqueue` is the recursive depth labelling. The depth map, which the
    source captures in a closure, is passed in and returned.
  - `CopyEntries` is `[...depthMap]`.
  - `SortByDepth` is an in-place insertion sort on an `array`.
  - `Schedule` composes these three.
  - `RunQueue` and `RunOne` form the execution loop. `Evaluate` is the whole
    `evaluate(graph)`.
  - `Evaluate` takes the ghost binding graph `g` and the ghost `rank`.
    `Wired` ties `g` to the nodes' actual bindings in the heap.
- `Demo` holds the wiring of the demo graph in index.ts, with lemmas on its
  depths and on the only schedules it admits.
- `DemoRun` runs the demo of index.ts on the node model itself. It builds the
  five nodes, makes the five `bind` calls and calls `Scheduler.Evaluate`.
  Numbers are `int`, and `Math.cos` and `Math.sin` are the function
  parameters `cosF` and `sinF`.

Two details of lib.ts that the model keeps as written:

- **The walk re-descends on an equal depth.** lib.ts:94 returns only when the
  proposed depth is strictly smaller than the recorded one. On an equal depth
  it records the depth again and visits every producer again. `Enqueue` does
  the same. `Dag.RelaxPrune` shows that on an equal depth the depth map ends
  as it was.
- **`bind` does not check that the property exists.** At run time lib.ts:80-82
  only checks that the key is a string, and that check is not modelled.

## Model

| member | source | states |
|---|---|---|
| Nodes.Node.constructor | lib.ts:7-9 | a new node has exactly `outputCount` slots, all unset, and no bindings |
| Nodes.Node.Single | lib.ts:36-39 | a single-output node has exactly one slot, unset, and no bindings |
| Nodes.Node.SetOutput | lib.ts:23-33 | after `SetOutput(i, v)`, `GetOutput(i)` reads back `v`; `GetOutput` of every other slot is unchanged, and so are the bindings and the properties |
| Nodes.Binding.Get | lib.ts:65-67 | the producer's slot `outputIndex`, as it is now |
| Nodes.SelfOutputs | lib.ts:43-45 | the node's own computation keeps the number of slots; a single-output node's only slot becomes the value computed from its properties |
| Nodes.Node.SelfEvaluate | lib.ts:20 | running the node's own computation sets the slots to `SelfOutputs` of the properties; bindings and properties are unchanged |
| Nodes.OverlayAll | lib.ts:15-18 | assigning the bound properties one by one in binding order leaves the properties as the old ones overridden by all bound values |
| Nodes.Node.Evaluate | lib.ts:13-21 | afterwards each bound property holds `Binding.Get` of its binding, as read at call time, every unbound property is unchanged, the slots are the node's own computation on the new properties, and the bindings are unchanged |
| Nodes.Bind | lib.ts:79-84 | the property's binding becomes (producer, index), so the last write wins; a new property goes last in binding order and a rebound one keeps its place; index 0 is the default; properties and slots are unchanged |
| Dag.LongestRank | lib.ts:102-103 | along bindings rank only decreases, so the walk from a node reaches only lower-ranked nodes; a node is at distance 0 from itself and from no other node |
| Dag.LongestSelf | lib.ts:106 | the start node, the root of the walk, is at depth 0 |
| Dag.ProducerDeeper | lib.ts:102-103 | whatever a producer reaches, its consumer reaches by a path at least one edge longer; a producer never reaches its consumer |
| Dag.LongestEdge | lib.ts:102-103 | for every binding between reachable nodes, the producer's depth is at least the consumer's depth plus 1 |
| Dag.PathBound | lib.ts:102-103 | no binding path from a node is longer than its `Longest` distance |
| Dag.LongestPath | lib.ts:102-103 | some binding path has exactly the `Longest` length, so a depth is the longest path length |
| Dag.ReachByPath | lib.ts:89-105 | a node is reachable exactly when some binding path leads to it from the start node, in both directions |
| Dag.RelaxPrune | lib.ts:93-98 | when the proposed depth is not above a recorded, settled one, relaxing leaves the depth map unchanged: stopping the walk below it is sound, and re-descending on an equal depth changes nothing |
| Dag.SettledEntry | lib.ts:90-99 | recording a depth for a node that is not below its old one keeps every node strictly below it settled |
| Dag.SettledAfterProducer | lib.ts:102-104 | visiting one producer keeps every node strictly below the consumer settled |
| Dag.RelaxStep | lib.ts:102-104 | visiting one more producer at depth + 1 extends the relaxation by that producer's whole reachable set |
| Dag.VisitProducer | lib.ts:102-104 | one turn of the producer loop extends both loop facts, the relaxation so far and the settled nodes, by one producer |
| Dag.RelaxComplete | lib.ts:89-105 | recording the node and then relaxing all of its producers in binding order equals relaxing the node itself |
| Dag.RelaxFromEmpty | lib.ts:88-106 | a walk from the root over an empty map records exactly the reachable nodes, each at its longest distance from the root |
| Dag.TopologicalOrder | lib.ts:109-113 | in a queue of reachable nodes at their depths, containing the root and sorted by non-increasing depth, each producer precedes its consumers and the root is last |
| Scheduler.Enqueue | lib.ts:89-105 | the recursive depth labelling returns `Relax` of its input map: each node reachable from `node` gets the larger of its recorded depth and `depth` plus its longest distance from `node`; other entries are unchanged; the result stays settled |
| Scheduler.CopyEntries | lib.ts:108 | the queue holds every entry of the depth map, each node once, with its depth |
| Scheduler.SortByDepth | lib.ts:109 | the queue is then sorted by non-increasing depth and is a permutation of the queue before |
| Scheduler.InsertLast | lib.ts:109 | one insertion step extends the sorted prefix by one element and keeps the multiset |
| Scheduler.Swap | lib.ts:109 | exchanging two entries keeps the multiset of the queue |
| Scheduler.SortedCopy | lib.ts:108-109 | copying the entries and sorting them gives a permutation of the entries sorted by non-increasing depth |
| Scheduler.SortedQueue | lib.ts:108-113 | any depth-ordered permutation of the discovered entries holds exactly the reachable nodes, each once at its longest distance from the root, with producers before consumers and the root last |
| Scheduler.Schedule | lib.ts:86-109 | the sorted queue holds exactly the nodes reachable from the root, each once at its longest distance from the root; it is sorted by non-increasing depth, each producer comes before its consumers, and the root comes last |
| Scheduler.NodesOf | lib.ts:111 | the nodes in queue order: same length, same positions, same set of nodes |
| Scheduler.FanOut | lib.ts:15-18 | after a run, a bound property holds its producer's slot as it is now, so two properties bound to the same slot hold the same value |
| Scheduler.WiredLinked | lib.ts:111-113 | in a wired graph each binding's producer is listed among its consumer's producers, which is what the execution loop relies on |
| Scheduler.RunOne | lib.ts:112 | evaluating one node changes only that node and leaves it in the `Ran` state; every already-run node keeps its `Ran` state, because none of them reads this node |
| Scheduler.RunQueue | lib.ts:111-113 | each queued node ends in the `Ran` state, with each bound property holding its producer's final slot; nodes outside the queue are unchanged; bindings are unchanged |
| Scheduler.Evaluate | lib.ts:86-116 | each reachable node is evaluated exactly once, producers before consumers and the root last; each ends with its bound properties holding its producers' final slots; unreachable nodes are unchanged; the result is the root's slot 0 |
| Demo.WiringIsDag | index.ts:65-71 | the demo wiring ranks every producer strictly below its consumer, so it is acyclic |
| Demo.DemoDepths | index.ts:65-75 | from the root `mul` the depths are getVar 3, cos 2, sin 2, add 1 and mul 0, and every node is reachable |
| Demo.DemoSchedule | index.ts:65-75 | every schedule of the demo graph runs getVar first, cos and sin next in either order, add fourth and mul last; sin runs once although two nodes read it |
| Demo.OrderOfNames | index.ts:65-75 | five distinct names ordered by the demo depth table are in that schedule order |
| DemoRun.BindSine | index.ts:65 | `sin` reads `getVar`'s slot 0 as `operand` |
| DemoRun.BindAdd | index.ts:67-68 | `add` reads `cos` as `lhs` and `sin` as `rhs`, in that binding order |
| DemoRun.BindMul | index.ts:70-71 | `mul` reads `add` as `lhs` and `sin` as `rhs`, in that binding order |
| DemoRun.MakeDemo | index.ts:53-71 | five new, distinct single-output nodes of the five kinds, with `getVar.value` and `cos.operand` set, bound as the five `bind` calls record |
| DemoRun.DemoWired | index.ts:57-71 | the bound demo nodes are closed, their binding graph is `Edges5`, and `Ranks5` shows it acyclic |
| DemoRun.DemoReach | index.ts:65-76 | all five nodes are reachable from the root `mul`, so all five are evaluated |
| DemoRun.DemoOutcome | index.ts:3-50 | once every demo node has run, `mul`'s only slot is `(sin(VAR) + cos(COS)) * sin(VAR)`; `sin` feeds `add` and `mul` the same value |
| DemoRun.EvaluateRoot | index.ts:85 | `evaluate(graph)` on the demo graph runs each of the five nodes, keeps their bindings and returns `mul`'s slot 0 |
| DemoRun.EvaluateDemo | index.ts:73-85 | `evaluate(graph)` on the graph `makeDemo` built returns `expected()` |
| DemoRun.RunDemo | index.ts:53-85 | `makeDemo` then `evaluate(graph)` yields `(sin(VAR) + cos(COS)) * sin(VAR)` for every value of `VAR` and `COS` and every `sin` and `cos` |

## Left out

- **Cyclic graphs.** `Scheduler.Evaluate` requires an acyclic graph, witnessed by a ghost `rank`. On a cycle the source's discovery recurses forever.
- **Getter and setter range errors.** Out-of-range indices are preconditions:
  - Reading or writing a slot that does not exist throws in the source, so it is a precondition here.
  - This covers a binding to a missing slot (`Closed`), and a root without slot 0.
- **Scheduler.CopyEntries:** does not model the insertion order of the JavaScript `Map`. It picks entries in an unspecified order.
- **Scheduler.SortByDepth:** is an insertion sort. It does not model the tie order of the JavaScript engine's sort. Its contract, sorted and a permutation, is all the scheduler relies on. So the order among nodes of equal depth is left open. In lib.ts that order follows only from the `Map`'s insertion order and the sort's stability.
- **Slots as a sequence.** `outputs` is a sequence field of fixed length, not an array of `{ value }` cells. `selfEvaluate` receives the node's own slots, so no aliasing between nodes is lost.
- **Properties as a map.** The reflective assignment `this[propertyKey] = ...` is modelled as an update of the `properties` map. A property key that collides with one of the class's own fields is not modelled.
- **Node kinds.** A concrete node kind's computation is a function parameter: `Custom(step)` or `SingleOutput(defaultOutput)`. Subclass field initialisers become the initial `properties`.
- **Setting a property directly.** index.ts sets a property by direct assignment after construction; the model does not. The constructors take the initial values instead.
- **The `bindable` decorator.** It is unused (lib.ts:70-77) and not modelled.
- **The type checks of `bind`.** The TypeScript type-level checks of `bind` are not modelled. Neither is its runtime check that the key is a string.
- **The index.ts demo.** `DemoRun` models the numbers as `int` and `Math.cos` and `Math.sin` as arbitrary functions. So floating-point rounding, `Math.PI` and the constants `COS_OP` and `VAR_VALUE` are not modelled. `main` prints, which is not modelled; `RunDemo` returns the value instead.
- **Reading a numeric property.** `DemoRun.Num` reads a missing or unset property as 0. In index.ts every property the node kinds read has a field initialiser, so that case does not occur.
