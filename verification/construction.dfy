/** Building the layers of a network from prepared definitions (dnn.c:1097-1319,
 1333-1360): node defaults, backward connections of convolutional and
 fully-connected nodes, columns, layers with their self-check, and the network
 header with its weight-count check.
 */
module Construction {
  import opened Outcomes
  import opened LayerDefs
  import opened Geometry
  import opened Arith
  import opened Structures
  import opened Wiring
  import opened Arena

  /** calcStride divides by the convolutional layer's width minus one. */
  predicate StrideDefined(defs: seq<LayerDefinition>) {
    forall i :: 0 <= i < |defs| && defs[i].layerType.Convolutional? ==> defs[i].nodeMap.width > 1
  }

  /** Definitions whose structure can be laid out: accepted and defaulted, every
      size is defined, and every convolutional stride is. */
  predicate Buildable(defs: seq<LayerDefinition>) {
    Prepared(defs) && Computable(defs) && StrideDefined(defs)
  }

  /** createFilterColumnIds for column c of layer l: the filter window into the
      previous layer, and the empty list for a layer without a filter. */
  function LayerFilterIds(defs: seq<LayerDefinition>, l: nat, c: nat): (ids: seq<int>)
    requires Buildable(defs) && l < |defs|
    ensures |ids| == defs[l].filter * defs[l].filter
    ensures defs[l].layerType.Convolutional? ==>
      && 0 < l && 0 < |ids| && ValidIds(ids)
      && forall p :: 0 <= p < |ids| && ids[p] != OutOfRange ==> ids[p] < ColumnCount(defs[l - 1])
  {
    assert PreparedLayer(defs, l);
    if defs[l].layerType.Convolutional? then
      MulMonotone(1, defs[l].filter, defs[l].filter);
      FilterColumnIds(defs[l].nodeMap.width, defs[l - 1].nodeMap.width, defs[l - 1].nodeMap.height, defs[l].filter, c)
    else []
  }

  /** Weight index of the first weight of node n of column c of a dense layer:
      nodeId * backwardConnCount past the layer's first weight, with
      nodeId = c * depth + n. */
  function DenseNodeWeightBase(defs: seq<LayerDefinition>, l: nat, c: nat, n: nat): nat
    requires Computable(defs) && l < |defs|
  {
    WeightsBefore(defs, l) + (c * defs[l].nodeMap.depth + n) * Back(defs, l)
  }

  /** The backward connections initNetworkNodes gives node n of column c of layer l. */
  function BackwardConnections(defs: seq<LayerDefinition>, l: nat, c: nat, n: nat): (conns: seq<Conn>)
    requires Buildable(defs) && l < |defs|
    ensures |conns| == Back(defs, l)
  {
    assert PreparedLayer(defs, l) && SizeDefined(defs, l);
    match defs[l].layerType
    case FullyConnected | Output =>
      assert HasNeighbours(defs, l) && PreparedLayer(defs, l - 1);
      FCNodeConnections(l, DenseNodeWeightBase(defs, l, c, n), ColumnCount(defs[l - 1]), defs[l - 1].nodeMap.depth)
    case Convolutional =>
      var ids := LayerFilterIds(defs, l, c);
      assert Back(defs, l) == defs[l - 1].nodeMap.depth * |ids|;
      ConvNodeConnections(l, WeightsBefore(defs, l), n, defs[l - 1].nodeMap.depth, ids)
    case _ => []
  }

  /** setNetworkNodeDefaults followed by the backward wiring: zero bias, output and
      error; the backward count and the forward bound of the layer; the backward
      slots wired and every forward slot empty with the null weight. */
  function InitNode(sz: SizeOf, defs: seq<LayerDefinition>, l: nat, c: nat, n: nat): (node: Node)
    requires Buildable(defs) && l < |defs|
    ensures node.backwardConnCount == Back(defs, l) && node.forwardConnCount == FwdMax(defs, l)
    ensures |node.connections| == Back(defs, l) + FwdMax(defs, l)
    ensures node.connections[..Back(defs, l)] == BackwardConnections(defs, l, c, n)
    ensures forall k :: Back(defs, l) <= k < |node.connections| ==> node.connections[k] == Conn(None, NullWeight)
  {
    var back := BackwardConnections(defs, l, c, n);
    var unset := seq(FwdMax(defs, l), _ => Conn(None, NullWeight));
    var node := Node(NodeBytes(sz, defs, l), 0.0, 0.0, 0.0, Back(defs, l), FwdMax(defs, l), back + unset);
    assert node.connections[..Back(defs, l)] == back;
    node
  }

  /** initNetworkColumns / initNetworkNodes for column c of layer l. */
  function InitColumn(sz: SizeOf, defs: seq<LayerDefinition>, l: nat, c: nat): (col: Column)
    requires Buildable(defs) && l < |defs|
    ensures |col.nodes| == col.nodeCount == defs[l].nodeMap.depth
    ensures forall n :: 0 <= n < |col.nodes| ==> col.nodes[n] == InitNode(sz, defs, l, c, n)
  {
    Column(ColumnBytes(sz, defs, l), Back(defs, l) + FwdMax(defs, l), defs[l].nodeMap.depth,
      seq(defs[l].nodeMap.depth, n requires 0 <= n < defs[l].nodeMap.depth => InitNode(sz, defs, l, c, n)))
  }

  /** initNetworkLayer for layer l, before its self-check. */
  function InitLayer(sz: SizeOf, defs: seq<LayerDefinition>, l: nat): (layer: Layer)
    requires Buildable(defs) && l < |defs|
    ensures layer.id == l && layer.layerDef == defs[l] && layer.size == LayerBytes(sz, defs, l)
    ensures |layer.columns| == layer.columnCount == ColumnCount(defs[l])
    ensures forall c :: 0 <= c < |layer.columns| ==> layer.columns[c] == InitColumn(sz, defs, l, c)
  {
    Layer(l, LayerBytes(sz, defs, l), defs[l], WeightsBefore(defs, l), ColumnCount(defs[l]),
      seq(ColumnCount(defs[l]), c requires 0 <= c < ColumnCount(defs[l]) => InitColumn(sz, defs, l, c)))
  }

  /** The first loop of initNetwork over layers 0..n-1. Before initialising each layer,
      initNetworkLayer compares two things: the position it computed from the
      earlier definitions' sizes, and the position getNetworkLayer finds by walking
      the records already written. A mismatch terminates the program. This never
      happens: every prefix of layers is built, each layer as InitLayer gives it. */
  function InitNetworkLayers(sz: SizeOf, defs: seq<LayerDefinition>, n: nat): (r: Result<seq<Layer>>)
    requires Buildable(defs) && n <= |defs|
    ensures r.Ok?
    ensures |r.value| == n && forall i :: 0 <= i < n ==> r.value[i] == InitLayer(sz, defs, i)
  {
    if n == 0 then Ok([])
    else
      var built := InitNetworkLayers(sz, defs, n - 1).value;
      WalkMatchesPrefixSum(sz, defs, built, n - 1);
      if NetworkLayerOffset(sz, built, n - 1) != LayerOffset(sz, defs, n - 1) then Abort(LayerInitMismatch)
      else Ok(built + [InitLayer(sz, defs, n - 1)])
  }

  /** The learning rate setNetworkDefaults installs. */
  const DefaultLearningRate: real := 0.001

  /** setNetworkDefaults for an allocation of `netSize` bytes, the network size of the
      definitions. The weight block is placed in the last weightBlockSize bytes. The
      weight count is the sum of the layers' weight counts. The program terminates if
      that count differs from the block size divided by sizeof(Weight). It never does:
      the weight block starts exactly where the layer records end and covers the
      counted weights up to the end of the allocation. */
  function SetNetworkDefaults(sz: SizeOf, defs: seq<LayerDefinition>, netSize: nat): (r: Result<Network>)
    requires sz.Valid() && Linked(defs) && NetworkSize(sz, defs).Ok? && netSize == NetworkSize(sz, defs).value
    ensures r.Ok?
    ensures r.value.weightsOffset == LayerOffset(sz, defs, |defs|)
    ensures r.value.weightsOffset + r.value.weightCount * sz.weight == netSize
    ensures r.value.weightCount == WeightsBefore(defs, |defs|)
    ensures r.value.size == netSize && r.value.layerCount == |defs| && r.value.layers == []
    ensures r.value.nullWeight == 0.0 && r.value.learningRate == DefaultLearningRate
  {
    var wbs := NetworkWeightBlockSize(sz, defs).value;
    var weightCount := WeightsBefore(defs, |defs|);
    ExactQuotient(weightCount, sz.weight);
    if (weightCount as real) != (wbs as real) / (sz.weight as real) then Abort(IncorrectWeightCount)
    else Ok(Network(netSize, DefaultLearningRate, weightCount, netSize - wbs, 0.0, |defs|, []))
  }

  // ---------------------------------------------------------------------------
  // What the backward wiring connects

  /** The backward connections of a dense node are initNetworkBackwardConnectionsFCNode's
      for the node's own run of weights: nodeId * backwardConnCount past the
      layer's first weight, with nodeId = c * depth + n. */
  lemma DenseBackward(defs: seq<LayerDefinition>, l: nat, c: nat, n: nat)
    requires Buildable(defs) && 0 < l < |defs| && (defs[l].layerType.FullyConnected? || defs[l].layerType.Output?)
    ensures 0 < defs[l - 1].nodeMap.depth && Back(defs, l) == ColumnCount(defs[l - 1]) * defs[l - 1].nodeMap.depth
    ensures BackwardConnections(defs, l, c, n)
         == FCNodeConnections(l, DenseNodeWeightBase(defs, l, c, n), ColumnCount(defs[l - 1]), defs[l - 1].nodeMap.depth)
  {
    assert PreparedLayer(defs, l - 1) && SizeDefined(defs, l);
  }

  /** The backward connections of a convolutional node are
      initNetworkBackwardConnectionsConvNode's for the column's filter window, with
      the layer's weight block shared by all columns. */
  lemma ConvBackward(defs: seq<LayerDefinition>, l: nat, c: nat, n: nat)
    requires Buildable(defs) && 0 < l < |defs| && defs[l].layerType.Convolutional?
    ensures 1 < defs[l].nodeMap.width && defs[l].filter < defs[l - 1].nodeMap.width
    ensures Back(defs, l) == defs[l - 1].nodeMap.depth * (defs[l].filter * defs[l].filter)
    ensures Weights(defs, l) == defs[l].nodeMap.depth * defs[l - 1].nodeMap.depth * (defs[l].filter * defs[l].filter)
    ensures
      BackwardConnections(defs, l, c, n)
      == ConvNodeConnections(l, WeightsBefore(defs, l), n, defs[l - 1].nodeMap.depth, LayerFilterIds(defs, l, c))
  {
    assert PreparedLayer(defs, l) && SizeDefined(defs, l);
  }

  /** Convolution shares its weights across columns: backward slot j of level n
      (one filter cell at one previous-layer level) uses the same weight in every
      column of a convolutional layer where that cell is live. */
  lemma ConvWeightShared(defs: seq<LayerDefinition>, l: nat, c1: nat, c2: nat, n: nat, j: nat)
    requires Buildable(defs) && 0 < l < |defs| && defs[l].layerType.Convolutional?
    requires j < Back(defs, l)
    ensures
      var a := BackwardConnections(defs, l, c1, n)[j];
      var b := BackwardConnections(defs, l, c2, n)[j];
      a.target.Some? && b.target.Some? ==> a.weight.Slot? && a.weight == b.weight
  {
    ConvBackward(defs, l, c1, n);
    ConvBackward(defs, l, c2, n);
  }

  /** A weight of a dense node's run lies in its layer's block. */
  lemma DenseWeightInBlock(defs: seq<LayerDefinition>, l: nat, c: nat, n: nat, j: nat)
    requires Computable(defs) && l < |defs| && (defs[l].layerType.FullyConnected? || defs[l].layerType.Output?)
    requires c < ColumnCount(defs[l]) && n < defs[l].nodeMap.depth && j < Back(defs, l)
    ensures WeightsBefore(defs, l) <= DenseNodeWeightBase(defs, l, c, n) + j < WeightsBefore(defs, l) + Weights(defs, l)
  {
    DenseRunInBlock(defs, l, c, n);
  }

  /** Each node of a dense layer owns a run of backwardConnCount weights, and the run
      lies inside the layer's block. */
  lemma DenseRunInBlock(defs: seq<LayerDefinition>, l: nat, c: nat, n: nat)
    requires Computable(defs) && l < |defs| && (defs[l].layerType.FullyConnected? || defs[l].layerType.Output?)
    requires c < ColumnCount(defs[l]) && n < defs[l].nodeMap.depth
    ensures DenseNodeWeightBase(defs, l, c, n) + Back(defs, l) <= WeightsBefore(defs, l) + Weights(defs, l)
  {
    DenseRunWithinLayer(defs, l, c, n);
  }

  /** The same, counted from the layer's first weight. */
  lemma DenseRunWithinLayer(defs: seq<LayerDefinition>, l: nat, c: nat, n: nat)
    requires Computable(defs) && l < |defs| && (defs[l].layerType.FullyConnected? || defs[l].layerType.Output?)
    requires c < ColumnCount(defs[l]) && n < defs[l].nodeMap.depth
    ensures (c * defs[l].nodeMap.depth + n) * Back(defs, l) + Back(defs, l) <= Weights(defs, l)
  {
    assert SizeDefined(defs, l);
    RunInGrid(ColumnCount(defs[l]), defs[l].nodeMap.depth, Back(defs, l), c, n);
    assert Weights(defs, l) == ColumnCount(defs[l]) * defs[l].nodeMap.depth * Back(defs, l);
  }

  /** The weight runs of distinct nodes of a dense layer do not overlap: the run of
      the earlier node (column first, level second) ends before the later one's. */
  lemma DenseRunsDisjoint(defs: seq<LayerDefinition>, l: nat, c1: nat, n1: nat, c2: nat, n2: nat)
    requires Computable(defs) && l < |defs| && (defs[l].layerType.FullyConnected? || defs[l].layerType.Output?)
    requires n1 < defs[l].nodeMap.depth
    requires c1 < c2 || (c1 == c2 && n1 < n2)
    ensures DenseNodeWeightBase(defs, l, c1, n1) + Back(defs, l) <= DenseNodeWeightBase(defs, l, c2, n2)
  {
    var d := defs[l].nodeMap.depth;
    if c1 < c2 {
      MulStrictMonotone(c1, c2, d);
    }
    MulStrictMonotone(c1 * d + n1, c2 * d + n2, Back(defs, l));
  }

  /** The weight blocks of distinct layers do not overlap: between the start of
      layer a's block and the start of a later layer b's lies all of a's block. */
  lemma LayerWeightBlocksDisjoint(defs: seq<LayerDefinition>, a: nat, b: nat)
    requires Computable(defs) && a < b <= |defs|
    ensures Weights(defs, a) <= WeightsBefore(defs, b) - WeightsBefore(defs, a)
  {
    WeightsBeforeMonotone(defs, a + 1, b);
  }

  /** The backward connections of a dense node reach existing nodes of the previous
      layer over weights of the node's own run. */
  lemma DenseConnectionInRange(defs: seq<LayerDefinition>, l: nat, c: nat, n: nat, j: nat)
    requires Buildable(defs) && 0 < l < |defs| && (defs[l].layerType.FullyConnected? || defs[l].layerType.Output?)
    requires c < ColumnCount(defs[l]) && n < defs[l].nodeMap.depth && j < Back(defs, l)
    ensures
      var conn := BackwardConnections(defs, l, c, n)[j];
      && conn.target.Some?
      && conn.target.value.layer + 1 == l
      && ValidRef(defs, conn.target.value)
      && conn.weight.Slot?
      && WeightsBefore(defs, l) <= conn.weight.index < WeightsBefore(defs, l) + Weights(defs, l)
  {
    DenseBackward(defs, l, c, n);
    FCConnection(l, DenseNodeWeightBase(defs, l, c, n), ColumnCount(defs[l - 1]), defs[l - 1].nodeMap.depth, j);
    DenseWeightInBlock(defs, l, c, n, j);
  }

  /** The backward connections of a convolutional node are dead with the null weight
      or reach existing nodes of the previous layer over weights of the layer's block. */
  lemma ConvConnectionInRange(defs: seq<LayerDefinition>, l: nat, c: nat, n: nat, j: nat)
    requires Buildable(defs) && 0 < l < |defs| && defs[l].layerType.Convolutional?
    requires c < ColumnCount(defs[l]) && n < defs[l].nodeMap.depth && j < Back(defs, l)
    ensures
      var conn := BackwardConnections(defs, l, c, n)[j];
      || conn == Conn(None, NullWeight)
      || (&& conn.target.Some?
          && conn.target.value.layer + 1 == l
          && ValidRef(defs, conn.target.value)
          && conn.weight.Slot?
          && WeightsBefore(defs, l) <= conn.weight.index < WeightsBefore(defs, l) + Weights(defs, l))
  {
    ConvBackward(defs, l, c, n);
    var prev := defs[l - 1].nodeMap;
    ConvConnectionBounds(l, WeightsBefore(defs, l), defs[l].nodeMap.width, prev.width, prev.height, defs[l].filter,
                         c, n, defs[l].nodeMap.depth, prev.depth, j);
  }

  /** Every backward connection initNetworkNodes writes is either dead with the null
      weight, or it reaches an existing node of the previous layer over a weight of
      the layer's own block. */
  lemma BackwardConnectionInRange(defs: seq<LayerDefinition>, l: nat, c: nat, n: nat, j: nat)
    requires Buildable(defs) && l < |defs| && c < ColumnCount(defs[l]) && n < defs[l].nodeMap.depth
    requires j < Back(defs, l)
    ensures
      var conn := BackwardConnections(defs, l, c, n)[j];
      || conn == Conn(None, NullWeight)
      || (&& conn.target.Some?
          && conn.target.value.layer + 1 == l
          && ValidRef(defs, conn.target.value)
          && conn.weight.Slot?
          && WeightsBefore(defs, l) <= conn.weight.index < WeightsBefore(defs, l) + Weights(defs, l))
  {
    assert PreparedLayer(defs, l) && SizeDefined(defs, l) && HasNeighbours(defs, l);
    match defs[l].layerType
    case FullyConnected | Output =>
      DenseConnectionInRange(defs, l, c, n, j);
    case Convolutional =>
      ConvConnectionInRange(defs, l, c, n, j);
    case Input =>
  }
}
