/**
 * The node model of lib.ts: a node has a fixed number of output slots, a map of
 * property bindings (each to one output slot of a producer node) and the values
 * of its properties. Evaluating a node first copies every bound producer's slot
 * into the named property and then runs the node's own computation, which
 * writes the output slots.
 */
module Nodes {
  import opened Wrappers

  /** The values of a node's properties by name; `None` is a property holding `undefined`. */
  type Properties<V> = map<string, Option<V>>

  /**
   * A node kind's own computation, slot by slot: what output slot `i` holds
   * after it ran, from the properties and the slots before. Its slots are a
   * fixed-size list, so it cannot change their number.
   */
  type Step<!V> = (Properties<V>, seq<Option<V>>, nat) -> Option<V>

  /** `props` after writing the `bound` value of each of `keys` in turn. */
  function Overlay<V>(props: Properties<V>, bound: Properties<V>, keys: seq<string>): Properties<V>
    requires forall k :: k in keys ==> k in bound
  {
    if keys == [] then props
    else Overlay(props, bound, keys[..|keys| - 1])[keys[|keys| - 1] := bound[keys[|keys| - 1]]]
  }

  /** Writing every bound key, in any order, gives the bound values over the old properties. */
  lemma {:induction false} OverlayAll<V>(props: Properties<V>, bound: Properties<V>, keys: seq<string>)
    requires forall k :: k in keys ==> k in bound
    ensures Overlay(props, bound, keys) == props + map k | k in keys :: bound[k]
    decreases |keys|
  {
    if keys != [] {
      OverlayAll(props, bound, keys[..|keys| - 1]);
    }
  }

  /** Writing every key of `bound`, each once or more, gives `bound` over the old properties. */
  lemma OverlayBound<V>(props: Properties<V>, bound: Properties<V>, keys: seq<string>)
    requires forall k :: k in keys <==> k in bound
    ensures Overlay(props, bound, keys) == props + bound
  {
    OverlayAll(props, bound, keys);
    assert (map k | k in keys :: bound[k]) == bound;
  }

  /** What `selfEvaluate` does: a node kind's own step, or the single-output form. */
  datatype Computation<!V> =
    | Custom(step: Step<V>)
    | SingleOutput(defaultOutput: Properties<V> -> V)

  /** The output slots after one `selfEvaluate`. */
  function SelfOutputs<V>(c: Computation<V>, props: Properties<V>, outs: seq<Option<V>>): (r: seq<Option<V>>)
    requires c.SingleOutput? ==> |outs| == 1
    ensures |r| == |outs|
    ensures c.SingleOutput? ==> r == [Some(c.defaultOutput(props))]
  {
    match c
    case Custom(step) => seq(|outs|, (i: int) requires 0 <= i < |outs| => step(props, outs, i))
    case SingleOutput(f) => outs[0 := Some(f(props))]
  }

  /** A property binding: the producer node and the index of one of its output slots. */
  datatype Binding<V> = Binding(target: Node<V>, outputIndex: nat)
  {
    /** The producer's slot, as it is now. */
    function Get(): Option<V>
      reads target
      requires outputIndex < |target.outputs|
    {
      target.GetOutput(outputIndex)
    }
  }

  class Node<V> {
    const outputCount: nat
    const computation: Computation<V>
    /** The keys of `bindings` in insertion order, as a JavaScript `Map` iterates them. */
    var bindingOrder: seq<string>
    var bindings: map<string, Binding<V>>
    var properties: Properties<V>
    var outputs: seq<Option<V>>

    ghost predicate Valid()
      reads this
    {
      && |outputs| == outputCount
      && (computation.SingleOutput? ==> outputCount == 1)
      && (forall i, j :: 0 <= i < j < |bindingOrder| ==> bindingOrder[i] != bindingOrder[j])
      && (forall k :: k in bindingOrder <==> k in bindings)
    }

    /** The nodes this node's bindings read from. */
    ghost function Producers(): set<Node<V>>
      reads this
    {
      set k | k in bindings :: bindings[k].target
    }

    /** Every binding names an existing output slot of its producer. */
    ghost predicate Ready()
      reads this, Producers()
    {
      forall k :: k in bindings ==> bindings[k].outputIndex < |bindings[k].target.outputs|
    }

    /** The producers' slots as the bindings read them now, by property. */
    ghost function BoundValues(): Properties<V>
      reads this, Producers()
      requires Ready()
    {
      map k | k in bindings :: bindings[k].Get()
    }

    /** The properties after fetching: each bound property holds its producer's slot. */
    ghost function Fetched(): Properties<V>
      reads this, Producers()
      requires Ready()
    {
      properties + BoundValues()
    }

    /** A node with `outputCount` empty slots and no bindings, computing with `step`. */
    constructor (outputCount: nat, step: Step<V>, initial: Properties<V>)
      ensures Valid()
      ensures this.outputCount == outputCount && computation == Custom(step)
      ensures |outputs| == outputCount && forall i :: 0 <= i < |outputs| ==> outputs[i] == None
      ensures bindings == map[] && bindingOrder == [] && properties == initial
    {
      this.outputCount := outputCount;
      computation := Custom(step);
      outputs := seq(outputCount, _ => None);
      bindings := map[];
      bindingOrder := [];
      properties := initial;
    }

    /** A single-output node: exactly one slot, empty, which `defaultOutput` fills. */
    constructor Single(defaultOutput: Properties<V> -> V, initial: Properties<V>)
      ensures Valid()
      ensures outputCount == 1 && computation == SingleOutput(defaultOutput)
      ensures outputs == [None]
      ensures bindings == map[] && bindingOrder == [] && properties == initial
    {
      outputCount := 1;
      computation := SingleOutput(defaultOutput);
      outputs := [None];
      bindings := map[];
      bindingOrder := [];
      properties := initial;
    }

    function GetOutput(outputIndex: nat): Option<V>
      reads this
      requires outputIndex < |outputs|
    {
      outputs[outputIndex]
    }

    method SetOutput(outputIndex: nat, value: V)
      requires Valid() && outputIndex < |outputs|
      modifies this
      ensures Valid()
      ensures |outputs| == old(|outputs|) && GetOutput(outputIndex) == Some(value)
      ensures forall i :: 0 <= i < |outputs| && i != outputIndex ==> GetOutput(i) == old(GetOutput(i))
      ensures bindings == old(bindings) && bindingOrder == old(bindingOrder) && properties == old(properties)
    {
      outputs := outputs[outputIndex := Some(value)];
    }

    /** The node kind's own computation; a single-output node writes slot 0 only. */
    method SelfEvaluate()
      requires Valid()
      modifies this
      ensures Valid()
      ensures outputs == SelfOutputs(computation, properties, old(outputs))
      ensures bindings == old(bindings) && bindingOrder == old(bindingOrder) && properties == old(properties)
    {
      match computation
      case Custom(step) =>
        var props, outs := properties, outputs;
        outputs := seq(|outs|, (i: int) requires 0 <= i < |outs| => step(props, outs, i));
      case SingleOutput(defaultOutput) =>
        SetOutput(0, defaultOutput(properties));
    }

    /**
     * Copies every bound producer's slot, as read at call time, into the named
     * property, then runs the node's own computation on the new properties.
     */
    method Evaluate()
      requires Valid() && Ready()
      modifies this
      ensures Valid()
      ensures bindings == old(bindings) && bindingOrder == old(bindingOrder)
      ensures properties == old(Fetched())
      ensures outputs == SelfOutputs(computation, properties, old(outputs))
    {
      ghost var bound := BoundValues();
      var i := 0;
      while i < |bindingOrder|
        invariant 0 <= i <= |bindingOrder|
        invariant bindings == old(bindings) && bindingOrder == old(bindingOrder) && outputs == old(outputs)
        invariant properties == Overlay(old(properties), bound, bindingOrder[..i])
      {
        var key := bindingOrder[i];
        var value := bindings[key].Get();
        assert value == bound[key];
        assert bindingOrder[..i + 1][..i] == bindingOrder[..i];
        properties := properties[key := value];
        i := i + 1;
      }
      assert bindingOrder[..i] == bindingOrder;
      OverlayBound(old(properties), bound, bindingOrder);
      SelfEvaluate();
    }
  }

  /**
   * Binds `propertyKey` of `consumer` to output slot `outputIndex` of `producer`:
   * a `Map.set` on the consumer's bindings, so a new key goes last in iteration
   * order and an existing key keeps its place and gets the new binding.
   */
  method Bind<V>(consumer: Node<V>, propertyKey: string, producer: Node<V>, outputIndex: nat := 0)
    requires consumer.Valid()
    modifies consumer
    ensures consumer.Valid()
    ensures consumer.bindings == old(consumer.bindings)[propertyKey := Binding(producer, outputIndex)]
    ensures consumer.bindingOrder == if propertyKey in old(consumer.bindings) then old(consumer.bindingOrder)
                                     else old(consumer.bindingOrder) + [propertyKey]
    ensures consumer.properties == old(consumer.properties) && consumer.outputs == old(consumer.outputs)
  {
    if propertyKey !in consumer.bindings {
      consumer.bindingOrder := consumer.bindingOrder + [propertyKey];
    }
    consumer.bindings := consumer.bindings[propertyKey := Binding(producer, outputIndex)];
  }
}
