/** createNetwork (dnn.c:1372-1392) and what the network it returns looks like.

 The network is sized first, which terminates on a definition list whose sizes are
 undefined. Then its header is set, the layers are built with their backward
 connections, and the forward connections are discovered. initNetworkWeights,
 which draws random weights and biases, is not part of this model.
 */
module Creation {
  import opened Outcomes
  import opened LayerDefs
  import opened Geometry
  import opened Arith
  import opened Structures
  import opened Wiring
  import opened Arena
  import opened Construction
  import opened ForwardLinks
  import opened FanOut

  /** The layers after the first loop of initNetwork. */
  function BuiltLayers(sz: SizeOf, defs: seq<LayerDefinition>): (layers: seq<Layer>)
    requires Buildable(defs)
    ensures |layers| == |defs| && SoundLayers(layers)
    ensures forall l :: 0 <= l < |defs| ==> layers[l] == InitLayer(sz, defs, l)
  {
    seq(|defs|, l requires 0 <= l < |defs| => InitLayer(sz, defs, l))
  }

  /** The shape the definitions give a network: the layer, column and node counts,
      every node's backward count, its connection slots, and a forward count within
      the predicted bound. */
  predicate Shaped(layers: seq<Layer>, defs: seq<LayerDefinition>)
    requires Computable(defs)
  {
    && |layers| == |defs|
    && (forall l :: 0 <= l < |defs| ==>
          |layers[l].columns| == layers[l].columnCount == ColumnCount(defs[l]) && layers[l].layerDef == defs[l])
    && (forall l, c :: 0 <= l < |defs| && 0 <= c < |layers[l].columns| ==>
          |layers[l].columns[c].nodes| == layers[l].columns[c].nodeCount == defs[l].nodeMap.depth)
    && (forall l, c, n :: 0 <= l < |defs| && 0 <= c < |layers[l].columns| && 0 <= n < |layers[l].columns[c].nodes| ==>
          && layers[l].columns[c].nodes[n].backwardConnCount == Back(defs, l)
          && layers[l].columns[c].nodes[n].forwardConnCount <= FwdMax(defs, l)
          && |layers[l].columns[c].nodes[n].connections| == Back(defs, l) + FwdMax(defs, l))
  }

  lemma LinkedShaped(sz: SizeOf, defs: seq<LayerDefinition>)
    requires Buildable(defs) && AllFit(BuiltLayers(sz, defs))
    ensures Shaped(LinkedLayers(BuiltLayers(sz, defs)), defs)
  {
    var built := BuiltLayers(sz, defs);
    var linked := LinkedLayers(built);
    forall l | 0 <= l < |defs|
      ensures |linked[l].columns| == linked[l].columnCount == ColumnCount(defs[l]) && linked[l].layerDef == defs[l]
    {
      if Interior(built, l) {
        assert FitsAt(built, l);
      }
    }
    forall l, c | 0 <= l < |defs| && 0 <= c < |linked[l].columns|
      ensures |linked[l].columns[c].nodes| == linked[l].columns[c].nodeCount == defs[l].nodeMap.depth
    {
      if Interior(built, l) {
        assert FitsAt(built, l);
      }
    }
    forall l, c, n | 0 <= l < |defs| && 0 <= c < |linked[l].columns| && 0 <= n < |linked[l].columns[c].nodes|
      ensures linked[l].columns[c].nodes[n].backwardConnCount == Back(defs, l)
      ensures linked[l].columns[c].nodes[n].forwardConnCount <= FwdMax(defs, l)
      ensures |linked[l].columns[c].nodes[n].connections| == Back(defs, l) + FwdMax(defs, l)
    {
      LinkedKeepsBackward(built, l, c, n);
    }
  }

  /** getNodeForwardConnectionCount is an upper bound on the forward connections
      discovery finds in the built layers, so that discovery runs to completion,
      exactly when no interior input or output layer (whose bound is 0) is followed by
      a layer with backward connections. In particular it always is when every
      interior layer is convolutional or fully connected. */
  lemma ForwardBoundSuffices(sz: SizeOf, defs: seq<LayerDefinition>)
    requires Buildable(defs)
    ensures AllFit(BuiltLayers(sz, defs)) <==> FanOutPredicted(defs)
  {
    var built := BuiltLayers(sz, defs);
    forall l | 0 < l < |defs| - 1
      ensures FitsAt(built, l) <==> (defs[l].layerType.Input? || defs[l].layerType.Output? ==> defs[l + 1].layerType.Input?)
    {
      LayerFitsIff(sz, defs, built, l);
    }
  }

  /** The layers of the network createNetwork returns: built, then forward-linked. */
  function Wired(sz: SizeOf, defs: seq<LayerDefinition>): (layers: seq<Layer>)
    requires Buildable(defs) && AllFit(BuiltLayers(sz, defs))
    ensures Shaped(layers, defs)
  {
    LinkedShaped(sz, defs);
    LinkedLayers(BuiltLayers(sz, defs))
  }

  /** createNetwork without the random weight initialisation. It terminates with
      WrongLayerType exactly when the sizes are undefined. Otherwise it terminates
      exactly when forward discovery overflows a node's bound, and else returns the
      header of setNetworkDefaults over the linked layers. Once the sizes are
      defined, the header and the layer initialisation cannot fail. */
  function CreateNetwork(sz: SizeOf, defs: seq<LayerDefinition>): (r: Result<Network>)
    requires sz.Valid() && Prepared(defs) && StrideDefined(defs)
    ensures !Computable(defs) ==> r == Abort(WrongLayerType)
    ensures Computable(defs) ==> (r.Ok? <==> AllFit(BuiltLayers(sz, defs)))
    ensures r.Abort? ==> r.reason == WrongLayerType || r.reason == ForwardCapacityExceeded
    ensures r.Ok? ==>
      && Computable(defs)
      && r.value.layers == Wired(sz, defs)
      && r.value.layerCount == |defs|
      && r.value.weightCount == WeightsBefore(defs, |defs|)
      && r.value.size == LayerOffset(sz, defs, |defs|) + r.value.weightCount * sz.weight
      && r.value.weightsOffset == LayerOffset(sz, defs, |defs|)
  {
    PreparedIsLinked(defs);
    var netSize :- NetworkSize(sz, defs);
    var net := SetNetworkDefaults(sz, defs, netSize).value;
    var layers := InitNetworkLayers(sz, defs, |defs|).value;
    assert layers == BuiltLayers(sz, defs);
    ForwardWireAll(layers);
    var linked :- ForwardWireFrom(layers, 0);
    Ok(net.(layers := linked))
  }

  /** With the sizes defined, createNetwork succeeds exactly when no interior input or
      output layer is followed by a layer with backward connections. */
  lemma CreateNetworkSucceeds(sz: SizeOf, defs: seq<LayerDefinition>)
    requires sz.Valid() && Prepared(defs) && StrideDefined(defs) && Computable(defs)
    ensures CreateNetwork(sz, defs).Ok? <==> FanOutPredicted(defs)
  {
    ForwardBoundSuffices(sz, defs);
  }

  /** The backward part of every node of the built network is what initNetworkNodes
      wrote there; forward discovery leaves it alone. */
  lemma WiredBackward(sz: SizeOf, defs: seq<LayerDefinition>, l: nat, c: nat, n: nat)
    requires Buildable(defs) && AllFit(BuiltLayers(sz, defs))
    requires l < |defs| && c < ColumnCount(defs[l]) && n < defs[l].nodeMap.depth
    ensures
      var node := Wired(sz, defs)[l].columns[c].nodes[n];
      && node.backwardConnCount == Back(defs, l)
      && node.connections[..Back(defs, l)] == BackwardConnections(defs, l, c, n)
  {
    var built := BuiltLayers(sz, defs);
    LinkedKeepsBackward(built, l, c, n);
    assert built[l].columns[c].nodes[n] == InitNode(sz, defs, l, c, n);
  }

  /** Forward and backward connections of a built network agree. Take forward slot k
      of node (c, n) of an interior layer l. It connects to an existing node Y of layer
      l+1, and initNetworkNodes gave Y a backward connection to (l, c, n) over the
      same weight. That weight lies in layer l+1's block. */
  lemma ForwardMirrorsBackward(sz: SizeOf, defs: seq<LayerDefinition>, l: nat, c: nat, n: nat, k: nat)
    requires Buildable(defs) && AllFit(BuiltLayers(sz, defs))
    requires 0 < l < |defs| - 1 && c < ColumnCount(defs[l]) && n < defs[l].nodeMap.depth
    requires
      var x := Wired(sz, defs)[l].columns[c].nodes[n];
      x.backwardConnCount <= k < x.backwardConnCount + x.forwardConnCount
    ensures
      var f := Wired(sz, defs)[l].columns[c].nodes[n].connections[k];
      && f.target.Some?
      && f.target.value.layer == l + 1
      && ValidRef(defs, f.target.value)
      && Conn(Some(NodeRef(l, c, n)), f.weight) in BackwardConnections(defs, l + 1, f.target.value.column, f.target.value.level)
      && f.weight.Slot?
      && WeightsBefore(defs, l + 1) <= f.weight.index < WeightsBefore(defs, l + 1) + Weights(defs, l + 1)
  {
    var built := BuiltLayers(sz, defs);
    ForwardSound(built, l, c, n, k);
    var f := Wired(sz, defs)[l].columns[c].nodes[n].connections[k];
    var yr := f.target.value;
    WiredBackward(sz, defs, l + 1, yr.column, yr.level);
    var back := BackwardConnections(defs, l + 1, yr.column, yr.level);
    var j :| 0 <= j < |back| && back[j] == Conn(Some(NodeRef(l, c, n)), f.weight);
    BackwardConnectionInRange(defs, l + 1, yr.column, yr.level, j);
  }

  /** Forward discovery misses nothing. Take a backward connection of a layer-(l+1)
      node of a built network that reaches node (c, n) of an interior layer l. It
      appears among that node's forward connections, over the same weight. */
  lemma ForwardCoversBackward(sz: SizeOf, defs: seq<LayerDefinition>, l: nat, c: nat, n: nat, yc: nat, yn: nat, j: nat)
    requires Buildable(defs) && AllFit(BuiltLayers(sz, defs))
    requires 0 < l < |defs| - 1 && c < ColumnCount(defs[l]) && n < defs[l].nodeMap.depth
    requires yc < ColumnCount(defs[l + 1]) && yn < defs[l + 1].nodeMap.depth && j < Back(defs, l + 1)
    requires BackwardConnections(defs, l + 1, yc, yn)[j].target == Some(NodeRef(l, c, n))
    ensures
      var x := Wired(sz, defs)[l].columns[c].nodes[n];
      Conn(Some(NodeRef(l + 1, yc, yn)), BackwardConnections(defs, l + 1, yc, yn)[j].weight)
        in x.connections[x.backwardConnCount..x.backwardConnCount + x.forwardConnCount]
  {
    var built := BuiltLayers(sz, defs);
    WiredBackward(sz, defs, l + 1, yc, yn);
    assert Wired(sz, defs) == LinkedLayers(built);
    ForwardComplete(built, l, c, n, yc, yn, j);
  }
}
