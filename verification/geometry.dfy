/** The layer geometry calculator of dnn.c: counts of columns, nodes, connections and
 weights per layer, and the byte sizes of nodes, columns, layers and the whole network
 derived from them.

 Each C function that switches on a layer type terminates the program on a kind it
 does not know; here that is `Abort(WrongLayerType)`. The C code reads the
 neighbouring definitions through `layerDef-1` and `layerDef+1`; `HasNeighbours`
 states when those neighbours exist.

 The `sizeof` of the six C structures depends on the platform, so it is a parameter.
 */
module Geometry {
  import opened Outcomes
  import opened LayerDefs

  /** sizeof(Network), sizeof(Layer), sizeof(Column), sizeof(Node), sizeof(Connection)
      and sizeof(Weight) on the target platform. */
  datatype SizeOf = SizeOf(network: nat, layer: nat, column: nat, node: nat, connection: nat, weight: nat)
  {
    predicate Valid() {
      network > 0 && layer > 0 && column > 0 && node > 0 && connection > 0 && weight > 0
    }
  }

  /** getLayerColumnCount and getColumnCount (the two are the same computation). */
  function ColumnCount(d: LayerDefinition): nat {
    d.nodeMap.width * d.nodeMap.height
  }

  /** getLayerNodeCount: one node per column and depth level. */
  function NodeCount(d: LayerDefinition): nat {
    ColumnCount(d) * d.nodeMap.depth
  }

  /** The neighbours the size functions dereference for layer `i` exist. */
  predicate HasNeighbours(defs: seq<LayerDefinition>, i: nat) {
    && i < |defs|
    && (defs[i].layerType.ReadsPrevious() ==> 0 < i)
    && (defs[i].layerType.ReadsNext() ==> i + 1 < |defs|)
  }

  predicate Linked(defs: seq<LayerDefinition>) {
    forall i :: 0 <= i < |defs| ==> HasNeighbours(defs, i)
  }

  /** The sizes of layer `i` can be computed without terminating: its own kind is
      known, and if its forward bound comes from the next layer, that layer is one
      that has backward connections. */
  predicate SizeDefined(defs: seq<LayerDefinition>, i: nat)
    requires i < |defs|
  {
    && defs[i].layerType.Recognized()
    && (defs[i].layerType.ReadsNext() ==> i + 1 < |defs| && defs[i+1].layerType.ReadsPrevious())
  }

  predicate Computable(defs: seq<LayerDefinition>) {
    && Linked(defs)
    && forall i :: 0 <= i < |defs| ==> SizeDefined(defs, i)
  }

  /** A prepared list is linked: its first layer is an input layer and its last an
      output layer, so every layer that looks back or ahead has a neighbour there. */
  lemma PreparedIsLinked(defs: seq<LayerDefinition>)
    requires Prepared(defs)
    ensures Linked(defs)
  {
    forall i | 0 <= i < |defs|
      ensures HasNeighbours(defs, i)
    {
      assert PreparedLayer(defs, i);
    }
  }

  /** getNodeBackwardConnectionCount: the fan-in of one node. */
  function NodeBackwardConnectionCount(defs: seq<LayerDefinition>, i: nat): (r: Result<nat>)
    requires HasNeighbours(defs, i)
    ensures r.Ok? <==> defs[i].layerType.Recognized()
    ensures r.Abort? ==> r.reason == WrongLayerType
  {
    match defs[i].layerType
    case Input => Ok(0)
    case FullyConnected | Output => Ok(NodeCount(defs[i-1]))
    case Convolutional => Ok(defs[i].filter * defs[i].filter * defs[i-1].nodeMap.depth)
    case _ => Abort(WrongLayerType)
  }

  /** getNodeForwardConnectionCount: an upper bound on the fan-out of one node, taken
      from the kind of the NEXT layer. */
  function NodeForwardConnectionCount(defs: seq<LayerDefinition>, i: nat): (r: Result<nat>)
    requires HasNeighbours(defs, i)
    ensures r.Ok? <==> (defs[i].layerType.ReadsNext() ==> defs[i+1].layerType.ReadsPrevious())
    ensures r.Abort? ==> r.reason == WrongLayerType
  {
    if defs[i].layerType.Input? || defs[i].layerType.Output? then Ok(0)
    else
      match defs[i+1].layerType
      case Output | FullyConnected => Ok(NodeCount(defs[i+1]))
      case Convolutional => Ok(defs[i+1].filter * defs[i+1].filter * defs[i+1].nodeMap.depth)
      case _ => Abort(WrongLayerType)
  }

  /** getLayerWeightCount: dense layers own one weight per (node, previous node) pair,
      convolutional layers one per (level, previous level, filter position). */
  function LayerWeightCount(defs: seq<LayerDefinition>, i: nat): (r: Result<nat>)
    requires HasNeighbours(defs, i)
    ensures r.Ok? <==> defs[i].layerType.Recognized()
    ensures r.Abort? ==> r.reason == WrongLayerType
  {
    match defs[i].layerType
    case Input => Ok(0)
    case FullyConnected | Output => Ok(NodeCount(defs[i]) * NodeCount(defs[i-1]))
    case Convolutional => Ok(defs[i].filter * defs[i].filter * defs[i].nodeMap.depth * defs[i-1].nodeMap.depth)
    case _ => Abort(WrongLayerType)
  }

  /** getLayerWeightBlockSize */
  function LayerWeightBlockSize(sz: SizeOf, defs: seq<LayerDefinition>, i: nat): (r: Result<nat>)
    requires HasNeighbours(defs, i)
    ensures r.Ok? <==> defs[i].layerType.Recognized()
    ensures r.Ok? ==> r.value == LayerWeightCount(defs, i).value * sz.weight
  {
    var count :- LayerWeightCount(defs, i);
    Ok(count * sz.weight)
  }

  /** getNodeSize: the node header plus one connection record per backward
      connection and per predicted forward connection. */
  function NodeSize(sz: SizeOf, defs: seq<LayerDefinition>, i: nat): (r: Result<nat>)
    requires HasNeighbours(defs, i)
    ensures r.Ok? <==> SizeDefined(defs, i)
    ensures r.Abort? ==> r.reason == WrongLayerType
  {
    var back :- NodeBackwardConnectionCount(defs, i);
    var fwd :- NodeForwardConnectionCount(defs, i);
    Ok(sz.node + (back + fwd) * sz.connection)
  }

  /** getColumnSize: the column header plus `depth` nodes. */
  function ColumnSize(sz: SizeOf, defs: seq<LayerDefinition>, i: nat): (r: Result<nat>)
    requires HasNeighbours(defs, i)
    ensures r.Ok? <==> SizeDefined(defs, i)
    ensures r.Ok? ==> r.value == sz.column + defs[i].nodeMap.depth * NodeSize(sz, defs, i).value
  {
    var nodeSize :- NodeSize(sz, defs, i);
    Ok(sz.column + defs[i].nodeMap.depth * nodeSize)
  }

  /** getLayerSize: the layer header plus one column per (x, y) position. */
  function LayerSize(sz: SizeOf, defs: seq<LayerDefinition>, i: nat): (r: Result<nat>)
    requires HasNeighbours(defs, i)
    ensures r.Ok? <==> SizeDefined(defs, i)
    ensures r.Ok? ==> r.value == sz.layer + ColumnCount(defs[i]) * ColumnSize(sz, defs, i).value
  {
    var columnSize :- ColumnSize(sz, defs, i);
    Ok(sz.layer + ColumnCount(defs[i]) * columnSize)
  }

  // ---------------------------------------------------------------------------
  // Values of the above on computable lists

  function Back(defs: seq<LayerDefinition>, i: nat): nat
    requires Computable(defs) && i < |defs|
  {
    assert SizeDefined(defs, i);
    NodeBackwardConnectionCount(defs, i).value
  }

  function FwdMax(defs: seq<LayerDefinition>, i: nat): nat
    requires Computable(defs) && i < |defs|
  {
    assert SizeDefined(defs, i);
    NodeForwardConnectionCount(defs, i).value
  }

  function Weights(defs: seq<LayerDefinition>, i: nat): nat
    requires Computable(defs) && i < |defs|
  {
    assert SizeDefined(defs, i);
    LayerWeightCount(defs, i).value
  }

  function NodeBytes(sz: SizeOf, defs: seq<LayerDefinition>, i: nat): nat
    requires Computable(defs) && i < |defs|
  {
    NodeSize(sz, defs, i).value
  }

  function ColumnBytes(sz: SizeOf, defs: seq<LayerDefinition>, i: nat): nat
    requires Computable(defs) && i < |defs|
  {
    ColumnSize(sz, defs, i).value
  }

  function LayerBytes(sz: SizeOf, defs: seq<LayerDefinition>, i: nat): nat
    requires Computable(defs) && i < |defs|
  {
    LayerSize(sz, defs, i).value
  }

  /** Number of weights owned by the layers before layer `n`. */
  function WeightsBefore(defs: seq<LayerDefinition>, n: nat): nat
    requires Computable(defs) && n <= |defs|
  {
    if n == 0 then 0 else WeightsBefore(defs, n - 1) + Weights(defs, n - 1)
  }

  /** Bytes occupied by the layer records before layer `n`. */
  function LayerBytesBefore(sz: SizeOf, defs: seq<LayerDefinition>, n: nat): nat
    requires Computable(defs) && n <= |defs|
  {
    if n == 0 then 0 else LayerBytesBefore(sz, defs, n - 1) + LayerBytes(sz, defs, n - 1)
  }

  // ---------------------------------------------------------------------------
  // Network-wide sums, with the C loops' early termination

  /** The weight-block sizes of the first `n` layers, summed as getNetworkWeightBlockSize
      does. */
  function WeightBlockSum(sz: SizeOf, defs: seq<LayerDefinition>, n: nat): (r: Result<nat>)
    requires Linked(defs) && n <= |defs|
    ensures r.Ok? <==> forall k :: 0 <= k < n ==> defs[k].layerType.Recognized()
    ensures r.Abort? ==> r.reason == WrongLayerType
    ensures Computable(defs) ==> r.Ok? && r.value == WeightsBefore(defs, n) * sz.weight
  {
    if n == 0 then Ok(0)
    else
      var prefix :- WeightBlockSum(sz, defs, n - 1);
      assert Computable(defs) ==> SizeDefined(defs, n - 1);
      var last :- LayerWeightBlockSize(sz, defs, n - 1);
      Ok(prefix + last)
  }

  /** getNetworkWeightBlockSize */
  function NetworkWeightBlockSize(sz: SizeOf, defs: seq<LayerDefinition>): (r: Result<nat>)
    requires Linked(defs)
    ensures r.Ok? <==> forall k :: 0 <= k < |defs| ==> defs[k].layerType.Recognized()
    ensures r.Abort? ==> r.reason == WrongLayerType
    ensures Computable(defs) ==> r.Ok? && r.value == WeightsBefore(defs, |defs|) * sz.weight
  {
    WeightBlockSum(sz, defs, |defs|)
  }

  /** The layer sizes of the first `n` layers, summed as getNetworkSize does. */
  function LayerSizeSum(sz: SizeOf, defs: seq<LayerDefinition>, n: nat): (r: Result<nat>)
    requires Linked(defs) && n <= |defs|
    ensures r.Ok? <==> forall k :: 0 <= k < n ==> SizeDefined(defs, k)
    ensures r.Abort? ==> r.reason == WrongLayerType
    ensures r.Ok? && Computable(defs) ==> r.value == LayerBytesBefore(sz, defs, n)
  {
    if n == 0 then Ok(0)
    else
      var prefix :- LayerSizeSum(sz, defs, n - 1);
      var last :- LayerSize(sz, defs, n - 1);
      Ok(prefix + last)
  }

  /** getNetworkSize: the network header, every layer record, and the weight block
      behind them. The size is defined exactly when every layer's sizes are. */
  function NetworkSize(sz: SizeOf, defs: seq<LayerDefinition>): (r: Result<nat>)
    requires Linked(defs)
    ensures r.Ok? <==> Computable(defs)
    ensures r.Abort? ==> r.reason == WrongLayerType
    ensures r.Ok? ==> r.value == sz.network + LayerBytesBefore(sz, defs, |defs|) + WeightsBefore(defs, |defs|) * sz.weight
  {
    var layers :- LayerSizeSum(sz, defs, |defs|);
    var weights :- NetworkWeightBlockSize(sz, defs);
    Ok(sz.network + layers + weights)
  }
}
