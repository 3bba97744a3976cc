/** Why getNodeForwardConnectionCount (dnn.c:94-128) is a bound on what forward
 discovery (dnn.c:1013-1084) finds, and where it is not.

 A node X of an interior layer l predicts its fan-out from the kind of layer l+1:
 every node of a dense layer l+1 reaches X exactly once, so X is found by at most
 nodeCount(l+1) nodes; a node of a convolutional layer l+1 reaches X at most once,
 and only if its filter window covers X's column. A cell is covered by at most
 filter^2 windows, because the windows advance by a stride of at least one, so X is
 found at most filter^2 * depth(l+1) times. An interior input or output layer,
 however, predicts 0, and any following layer with backward connections reaches
 its first node: forward discovery then terminates.

 The counting argument is stated on scans (module ForwardLinks): a node whose
 backward slots reach X at most once contributes at most one found connection.
 */
module FanOut {
  import opened Outcomes
  import opened LayerDefs
  import opened Geometry
  import opened Arith
  import opened Structures
  import opened Wiring
  import opened Construction
  import opened ForwardLinks

  /** The number of marked entries. */
  function CountTrue(bs: seq<bool>): (n: nat)
    ensures n <= |bs|
    ensures (forall i :: 0 <= i < |bs| ==> !bs[i]) ==> n == 0
  {
    if |bs| == 0 then 0 else CountTrue(bs[..|bs| - 1]) + (if bs[|bs| - 1] then 1 else 0)
  }

  /** Marked entries whose ranks increase strictly and stay below b number at most b. */
  lemma {:induction false} RankedCount(bs: seq<bool>, ranks: seq<nat>, b: nat)
    requires |ranks| == |bs|
    requires forall i, j :: 0 <= i < j < |bs| && bs[i] && bs[j] ==> ranks[i] < ranks[j]
    requires forall i :: 0 <= i < |bs| && bs[i] ==> ranks[i] < b
    ensures CountTrue(bs) <= b
  {
    if |bs| > 0 {
      var k := |bs| - 1;
      if bs[k] {
        RankedCount(bs[..k], ranks[..k], ranks[k]);
      } else {
        RankedCount(bs[..k], ranks[..k], b);
      }
    }
  }

  // ---------------------------------------------------------------------------
  // Counting found connections along a scan

  /** At most one of `conns` points at x, and none unless `hit`. */
  predicate AtMostOnce(conns: seq<Conn>, x: NodeRef, hit: bool) {
    forall j1, j2 :: 0 <= j1 < |conns| && 0 <= j2 < |conns| && conns[j1].target == Some(x) && conns[j2].target == Some(x) ==>
      hit && j1 == j2
  }

  lemma {:induction false} DiscoverAtMostOnce(x: NodeRef, edges: seq<Edge>, hit: bool)
    requires forall j1, j2 :: 0 <= j1 < |edges| && 0 <= j2 < |edges| && edges[j1].conn.target == Some(x) && edges[j2].conn.target == Some(x) ==>
      hit && j1 == j2
    ensures |Discover(x, edges)| <= (if hit then 1 else 0)
  {
    if |edges| > 0 {
      var k := |edges| - 1;
      var init := edges[..k];
      if edges[k].conn.target == Some(x) {
        DiscoverAtMostOnce(x, init, false);
      } else {
        DiscoverAtMostOnce(x, init, hit);
      }
    }
  }

  /** A node whose backward slots reach x at most once adds at most one connection to
      x's scan, and none unless `hit`. */
  lemma NodeDiscoverAtMostOnce(node: Node, r: NodeRef, x: NodeRef, hit: bool)
    requires SoundNode(node) && AtMostOnce(node.connections[..node.backwardConnCount], x, hit)
    ensures |Discover(x, NodeEdges(node, r))| <= (if hit then 1 else 0)
  {
    var es := NodeEdges(node, r);
    var back := node.connections[..node.backwardConnCount];
    assert forall j :: 0 <= j < |es| ==> es[j].conn == back[j];
    DiscoverAtMostOnce(x, es, hit);
  }

  /** Every node of the column reaches x at most once, and none unless `hit`. */
  predicate ColumnAtMostOnce(col: Column, x: NodeRef, hit: bool) {
    forall n :: 0 <= n < |col.nodes| ==>
      SoundNode(col.nodes[n]) && AtMostOnce(col.nodes[n].connections[..col.nodes[n].backwardConnCount], x, hit)
  }

  lemma {:induction false} ColumnDiscoverBound(col: Column, l: nat, c: nat, k: nat, x: NodeRef, hit: bool)
    requires k <= |col.nodes| && ColumnAtMostOnce(col, x, hit)
    ensures |Discover(x, ColumnEdges(col, l, c, k))| <= (if hit then k else 0)
  {
    if k > 0 {
      ColumnDiscoverBound(col, l, c, k - 1, x, hit);
      DiscoverAppend(x, ColumnEdges(col, l, c, k - 1), NodeEdges(col.nodes[k - 1], NodeRef(l, c, k - 1)));
      NodeDiscoverAtMostOnce(col.nodes[k - 1], NodeRef(l, c, k - 1), x, hit);
    }
  }

  /** w for every marked entry. */
  function Weighted(bs: seq<bool>, w: nat): nat {
    if |bs| == 0 then 0 else Weighted(bs[..|bs| - 1], w) + (if bs[|bs| - 1] then w else 0)
  }

  lemma {:induction false} WeightedIsProduct(bs: seq<bool>, w: nat)
    ensures Weighted(bs, w) == w * CountTrue(bs)
  {
    if |bs| > 0 {
      WeightedIsProduct(bs[..|bs| - 1], w);
      MulSucc(w, CountTrue(bs[..|bs| - 1]));
    }
  }

  lemma WeightedStep(bs: seq<bool>, k: nat, w: nat)
    requires 0 < k <= |bs|
    ensures Weighted(bs[..k], w) == Weighted(bs[..k - 1], w) + (if bs[k - 1] then w else 0)
  {
    assert bs[..k][..k - 1] == bs[..k - 1];
  }

  /** A scan of a layer whose nodes reach x at most once each, and only in the columns
      `hits` marks, finds at most depth connections per marked column. */
  lemma {:induction false} LayerDiscoverBound(layer: Layer, l: nat, k: nat, x: NodeRef, hits: seq<bool>, depth: nat)
    requires k <= |layer.columns| && SoundLayer(layer) && |hits| == |layer.columns|
    requires forall c :: 0 <= c < |layer.columns| ==> |layer.columns[c].nodes| <= depth
    requires forall c :: 0 <= c < |layer.columns| ==> ColumnAtMostOnce(layer.columns[c], x, hits[c])
    ensures |Discover(x, LayerEdgesUpTo(layer, l, k))| <= Weighted(hits[..k], depth)
  {
    if k > 0 {
      var col := layer.columns[k - 1];
      var prefix := LayerEdgesUpTo(layer, l, k - 1);
      var rest := ColumnEdges(col, l, k - 1, |col.nodes|);
      assert LayerEdgesUpTo(layer, l, k) == prefix + rest;
      LayerDiscoverBound(layer, l, k - 1, x, hits, depth);
      DiscoverAppend(x, prefix, rest);
      ColumnDiscoverBound(col, l, k - 1, |col.nodes|, x, hits[k - 1]);
      WeightedStep(hits, k, depth);
    }
  }

  // ---------------------------------------------------------------------------
  // How often the backward wiring reaches one node

  /** A dense node reaches each node of the previous layer through exactly one slot. */
  lemma DenseAtMostOnce(defs: seq<LayerDefinition>, m: nat, yc: nat, yn: nat, x: NodeRef)
    requires Buildable(defs) && 0 < m < |defs| && (defs[m].layerType.FullyConnected? || defs[m].layerType.Output?)
    ensures AtMostOnce(BackwardConnections(defs, m, yc, yn), x, true)
  {
    DenseBackward(defs, m, yc, yn);
    var conns := BackwardConnections(defs, m, yc, yn);
    var pc, pd := ColumnCount(defs[m - 1]), defs[m - 1].nodeMap.depth;
    forall j1, j2 | 0 <= j1 < |conns| && 0 <= j2 < |conns| && conns[j1].target == Some(x) && conns[j2].target == Some(x)
      ensures j1 == j2
    {
      FCConnection(m, DenseNodeWeightBase(defs, m, yc, yn), pc, pd, j1);
      FCConnection(m, DenseNodeWeightBase(defs, m, yc, yn), pc, pd, j2);
    }
  }

  /** The window of column yc of convolutional layer m covers column c of layer m-1. */
  predicate ConvCovers(defs: seq<LayerDefinition>, m: nat, yc: nat, c: nat)
    requires 0 < m < |defs| && 1 < defs[m].nodeMap.width && defs[m].filter < defs[m - 1].nodeMap.width
  {
    var tw := defs[m - 1].nodeMap.width;
    WindowCovers(defs[m].nodeMap.width, tw, defs[m].filter, yc, c % tw, c / tw)
  }

  /** A backward slot j of a convolutional node that reaches node (c, n) of the
      previous layer sits at level n, in a window covering c, at the window position
      of c. */
  lemma ConvSlotHit(defs: seq<LayerDefinition>, m: nat, yc: nat, yn: nat, c: nat, n: nat, j: nat)
    requires Buildable(defs) && 0 < m < |defs| && defs[m].layerType.Convolutional?
    requires j < Back(defs, m) && BackwardConnections(defs, m, yc, yn)[j].target == Some(NodeRef(m - 1, c, n))
    ensures 1 < defs[m].nodeMap.width && defs[m].filter < defs[m - 1].nodeMap.width
    ensures 0 < defs[m].filter * defs[m].filter
    ensures ConvCovers(defs, m, yc, c)
    ensures j == n * (defs[m].filter * defs[m].filter)
               + WindowPos(defs[m].nodeMap.width, defs[m - 1].nodeMap.width, defs[m].filter, yc,
                           c % defs[m - 1].nodeMap.width, c / defs[m - 1].nodeMap.width)
  {
    ConvBackward(defs, m, yc, yn);
    var ids := LayerFilterIds(defs, m, yc);
    var fs := |ids|;
    var td := defs[m - 1].nodeMap.depth;
    RowMajorSplit(td, fs, j);
    assert BackwardConnections(defs, m, yc, yn)[j] == ConvConnection(m, WeightsBefore(defs, m), yn, td, ids, j);
    assert ids[j % fs] as nat == c && j / fs == n;
    WindowHit(defs[m].nodeMap.width, defs[m - 1].nodeMap.width, defs[m - 1].nodeMap.height, defs[m].filter, yc, j % fs);
  }

  /** A convolutional node reaches each node of the previous layer through at most one
      slot, and only when its window covers that node's column. */
  lemma ConvAtMostOnce(defs: seq<LayerDefinition>, m: nat, yc: nat, yn: nat, c: nat, n: nat)
    requires Buildable(defs) && 0 < m < |defs| && defs[m].layerType.Convolutional?
    ensures 1 < defs[m].nodeMap.width && defs[m].filter < defs[m - 1].nodeMap.width
    ensures AtMostOnce(BackwardConnections(defs, m, yc, yn), NodeRef(m - 1, c, n), ConvCovers(defs, m, yc, c))
  {
    ConvBackward(defs, m, yc, yn);
    var conns := BackwardConnections(defs, m, yc, yn);
    var x := NodeRef(m - 1, c, n);
    forall j1, j2 | 0 <= j1 < |conns| && 0 <= j2 < |conns| && conns[j1].target == Some(x) && conns[j2].target == Some(x)
      ensures ConvCovers(defs, m, yc, c) && j1 == j2
    {
      ConvSlotHit(defs, m, yc, yn, c, n, j1);
      ConvSlotHit(defs, m, yc, yn, c, n, j2);
    }
  }

  /** Which columns of convolutional layer m have a window covering column c of layer
      m-1. */
  function CoverMarks(defs: seq<LayerDefinition>, m: nat, c: nat): (marks: seq<bool>)
    requires Buildable(defs) && 0 < m < |defs| && defs[m].layerType.Convolutional?
    ensures 1 < defs[m].nodeMap.width && defs[m].filter < defs[m - 1].nodeMap.width
    ensures |marks| == ColumnCount(defs[m])
    ensures forall yc :: 0 <= yc < |marks| ==> marks[yc] == ConvCovers(defs, m, yc, c)
  {
    ConvBackward(defs, m, 0, 0);
    seq(ColumnCount(defs[m]), yc requires 0 <= yc < ColumnCount(defs[m]) => ConvCovers(defs, m, yc, c))
  }

  /** At most filter^2 windows of a convolutional layer cover one cell. */
  lemma CoverCount(defs: seq<LayerDefinition>, m: nat, c: nat)
    requires Buildable(defs) && 0 < m < |defs| && defs[m].layerType.Convolutional?
    ensures CountTrue(CoverMarks(defs, m, c)) <= defs[m].filter * defs[m].filter
  {
    var marks := CoverMarks(defs, m, c);
    var sw, tw, f := defs[m].nodeMap.width, defs[m - 1].nodeMap.width, defs[m].filter;
    var cx, cy := c % tw, c / tw;
    var ranks := seq(|marks|, yc requires 0 <= yc < |marks| =>
      if marks[yc] then f * f - 1 - WindowPos(sw, tw, f, yc, cx, cy) else 0);
    forall i, j | 0 <= i < j < |marks| && marks[i] && marks[j]
      ensures ranks[i] < ranks[j]
    {
      WindowPosDecreasing(sw, tw, f, i, j, cx, cy);
    }
    RankedCount(marks, ranks, f * f);
  }

  // ---------------------------------------------------------------------------
  // The bound, layer by layer

  /** Every interior layer whose forward bound is 0 (an input or output layer) is
      followed by a layer without backward connections. */
  predicate FanOutPredicted(defs: seq<LayerDefinition>) {
    forall l :: 0 < l < |defs| - 1 && (defs[l].layerType.Input? || defs[l].layerType.Output?) ==>
      defs[l + 1].layerType.Input?
  }

  /** The built layer m, as initNetworkLayer leaves it, is sound, and the backward part
      of each node is the wiring's. */
  lemma BuiltNode(sz: SizeOf, defs: seq<LayerDefinition>, m: nat, yc: nat, yn: nat)
    requires Buildable(defs) && m < |defs|
    requires yc < ColumnCount(defs[m]) && yn < defs[m].nodeMap.depth
    ensures
      var node := InitLayer(sz, defs, m).columns[yc].nodes[yn];
      && SoundNode(node)
      && node.connections[..node.backwardConnCount] == BackwardConnections(defs, m, yc, yn)
  {
    assert InitLayer(sz, defs, m).columns[yc].nodes[yn] == InitNode(sz, defs, m, yc, yn);
  }

  lemma BuiltLayerSound(sz: SizeOf, defs: seq<LayerDefinition>, m: nat)
    requires Buildable(defs) && m < |defs|
    ensures SoundLayer(InitLayer(sz, defs, m))
  {
    var layer := InitLayer(sz, defs, m);
    forall yc, yn | 0 <= yc < |layer.columns| && 0 <= yn < |layer.columns[yc].nodes|
      ensures SoundNode(layer.columns[yc].nodes[yn])
    {
      BuiltNode(sz, defs, m, yc, yn);
    }
  }

  /** Scanning a built layer with backward connections: what every node in column yc
      contributes to the scan of x is bounded by hits[yc]. */
  lemma BuiltScanBound(sz: SizeOf, defs: seq<LayerDefinition>, m: nat, x: NodeRef, hits: seq<bool>)
    requires Buildable(defs) && m < |defs| && |hits| == ColumnCount(defs[m])
    requires forall yc, yn :: 0 <= yc < ColumnCount(defs[m]) && 0 <= yn < defs[m].nodeMap.depth ==>
      AtMostOnce(BackwardConnections(defs, m, yc, yn), x, hits[yc])
    ensures SoundLayer(InitLayer(sz, defs, m))
    ensures |Discover(x, LayerEdges(InitLayer(sz, defs, m), m))| <= defs[m].nodeMap.depth * CountTrue(hits)
  {
    var layer := InitLayer(sz, defs, m);
    BuiltLayerSound(sz, defs, m);
    forall yc | 0 <= yc < |layer.columns|
      ensures ColumnAtMostOnce(layer.columns[yc], x, hits[yc])
    {
      forall yn | 0 <= yn < |layer.columns[yc].nodes|
        ensures AtMostOnce(layer.columns[yc].nodes[yn].connections[..layer.columns[yc].nodes[yn].backwardConnCount], x, hits[yc])
      {
        BuiltNode(sz, defs, m, yc, yn);
      }
    }
    LayerDiscoverBound(layer, m, |layer.columns|, x, hits, defs[m].nodeMap.depth);
    assert hits[..|layer.columns|] == hits;
    WeightedIsProduct(hits, defs[m].nodeMap.depth);
  }

  /** After a layer without backward connections nothing is found. */
  lemma InputScan(sz: SizeOf, defs: seq<LayerDefinition>, m: nat, x: NodeRef)
    requires Buildable(defs) && m < |defs| && defs[m].layerType.Input?
    ensures SoundLayer(InitLayer(sz, defs, m))
    ensures |Discover(x, LayerEdges(InitLayer(sz, defs, m), m))| == 0
  {
    var layer := InitLayer(sz, defs, m);
    BuiltLayerSound(sz, defs, m);
    var edges := LayerEdges(layer, m);
    if 0 < |edges| {
      var e := edges[0];
      LayerEdgesFrom(layer, m, |layer.columns|, e);
      BuiltNode(sz, defs, m, e.from.column, e.from.level);
      InputNotWired(defs, m, e.from.column, e.from.level);
      assert false;
    }
  }

  /** An input node has no backward connections. */
  lemma InputNotWired(defs: seq<LayerDefinition>, m: nat, yc: nat, yn: nat)
    requires Buildable(defs) && m < |defs| && defs[m].layerType.Input?
    ensures BackwardConnections(defs, m, yc, yn) == []
  {
    assert SizeDefined(defs, m);
  }

  /** After a dense layer a node is found at most once per node of that layer. */
  lemma DenseScan(sz: SizeOf, defs: seq<LayerDefinition>, m: nat, x: NodeRef)
    requires Buildable(defs) && 0 < m < |defs| && (defs[m].layerType.FullyConnected? || defs[m].layerType.Output?)
    ensures SoundLayer(InitLayer(sz, defs, m))
    ensures |Discover(x, LayerEdges(InitLayer(sz, defs, m), m))| <= NodeCount(defs[m])
  {
    var hits := seq(ColumnCount(defs[m]), _ => true);
    forall yc, yn | 0 <= yc < ColumnCount(defs[m]) && 0 <= yn < defs[m].nodeMap.depth
      ensures AtMostOnce(BackwardConnections(defs, m, yc, yn), x, hits[yc])
    {
      DenseAtMostOnce(defs, m, yc, yn, x);
    }
    BuiltScanBound(sz, defs, m, x, hits);
    MulMonotone(CountTrue(hits), ColumnCount(defs[m]), defs[m].nodeMap.depth);
  }

  /** After a convolutional layer a node is found at most filter^2 * depth times. */
  lemma ConvScan(sz: SizeOf, defs: seq<LayerDefinition>, m: nat, c: nat, n: nat)
    requires Buildable(defs) && 0 < m < |defs| && defs[m].layerType.Convolutional?
    ensures SoundLayer(InitLayer(sz, defs, m))
    ensures |Discover(NodeRef(m - 1, c, n), LayerEdges(InitLayer(sz, defs, m), m))|
         <= defs[m].filter * defs[m].filter * defs[m].nodeMap.depth
  {
    var hits := CoverMarks(defs, m, c);
    forall yc, yn | 0 <= yc < ColumnCount(defs[m]) && 0 <= yn < defs[m].nodeMap.depth
      ensures AtMostOnce(BackwardConnections(defs, m, yc, yn), NodeRef(m - 1, c, n), hits[yc])
    {
      ConvAtMostOnce(defs, m, yc, yn, c, n);
    }
    BuiltScanBound(sz, defs, m, NodeRef(m - 1, c, n), hits);
    CoverCount(defs, m, c);
    MulMonotone(CountTrue(hits), defs[m].filter * defs[m].filter, defs[m].nodeMap.depth);
  }

  /** Node (c, n) of interior layer l finds no more forward connections in the built
      layer l+1 than getNodeForwardConnectionCount predicts, unless layer l is an input
      or output layer followed by a layer with backward connections. */
  lemma NodeFanOutBound(sz: SizeOf, defs: seq<LayerDefinition>, l: nat, c: nat, n: nat)
    requires Buildable(defs) && 0 < l < |defs| - 1
    requires defs[l].layerType.Input? || defs[l].layerType.Output? ==> defs[l + 1].layerType.Input?
    ensures SoundLayer(InitLayer(sz, defs, l + 1))
    ensures |Discover(NodeRef(l, c, n), LayerEdges(InitLayer(sz, defs, l + 1), l + 1))| <= FwdMax(defs, l)
  {
    var m := l + 1;
    assert SizeDefined(defs, l) && PreparedLayer(defs, m);
    match defs[m].layerType
    case Input =>
      InputScan(sz, defs, m, NodeRef(l, c, n));
    case FullyConnected | Output =>
      DenseScan(sz, defs, m, NodeRef(l, c, n));
    case Convolutional =>
      ConvScan(sz, defs, m, c, n);
  }

  /** The first backward slot of the first node of a layer with backward connections
      reaches the first node of the layer before it. */
  lemma FirstSlotReachesFirstNode(defs: seq<LayerDefinition>, m: nat)
    requires Buildable(defs) && 0 < m < |defs| && defs[m].layerType.ReadsPrevious()
    ensures 0 < Back(defs, m)
    ensures BackwardConnections(defs, m, 0, 0)[0].target == Some(NodeRef(m - 1, 0, 0))
  {
    assert PreparedLayer(defs, m) && PreparedLayer(defs, m - 1);
    var prev := defs[m - 1].nodeMap;
    MulMonotone(1, prev.width, prev.height);
    if defs[m].layerType.Convolutional? {
      ConvBackward(defs, m, 0, 0);
      var f := defs[m].filter;
      MulMonotone(1, f, f);
      MulMonotone(1, f * f, prev.depth);
      ConvCellWiring(m, WeightsBefore(defs, m), defs[m].nodeMap.width, prev.width, prev.height, f,
                     0, 0, defs[m].nodeMap.depth, 0, prev.depth, 0, 0);
    } else {
      DenseBackward(defs, m, 0, 0);
      MulMonotone(1, ColumnCount(defs[m - 1]), prev.depth);
      FCConnection(m, DenseNodeWeightBase(defs, m, 0, 0), ColumnCount(defs[m - 1]), prev.depth, 0);
    }
  }

  /** An interior input or output layer predicts no forward connections, yet the
      first node of a following layer with backward connections reaches its first
      node, so the scan finds one. */
  lemma UnpredictedFanOut(sz: SizeOf, defs: seq<LayerDefinition>, l: nat)
    requires Buildable(defs) && 0 < l < |defs| - 1
    requires (defs[l].layerType.Input? || defs[l].layerType.Output?) && !defs[l + 1].layerType.Input?
    ensures FwdMax(defs, l) == 0 && SoundLayer(InitLayer(sz, defs, l + 1))
    ensures 0 < |Discover(NodeRef(l, 0, 0), LayerEdges(InitLayer(sz, defs, l + 1), l + 1))|
  {
    var m := l + 1;
    var next := InitLayer(sz, defs, m);
    assert SizeDefined(defs, l) && PreparedLayer(defs, m);
    BuiltLayerSound(sz, defs, m);
    FirstSlotReachesFirstNode(defs, m);
    MulMonotone(1, defs[m].nodeMap.width, defs[m].nodeMap.height);
    BuiltNode(sz, defs, m, 0, 0);
    var y := next.columns[0].nodes[0];
    assert y.connections[0] == BackwardConnections(defs, m, 0, 0)[0];
    LayerEdgesCover(next, m, |next.columns|, 0, 0, 0);
    DiscoverMembership(NodeRef(l, 0, 0), LayerEdges(next, m), NodeRef(m, 0, 0), y.connections[0].weight);
  }

  /** Interior layer l of the built layers fits its forward bounds exactly when it is
      not an input or output layer followed by a layer with backward connections. */
  lemma LayerFitsIff(sz: SizeOf, defs: seq<LayerDefinition>, layers: seq<Layer>, l: nat)
    requires Buildable(defs) && |layers| == |defs| && SoundLayers(layers) && 0 < l < |defs| - 1
    requires layers[l] == InitLayer(sz, defs, l) && layers[l + 1] == InitLayer(sz, defs, l + 1)
    ensures FitsAt(layers, l) <==> (defs[l].layerType.Input? || defs[l].layerType.Output? ==> defs[l + 1].layerType.Input?)
  {
    var edges := LayerEdges(layers[l + 1], l + 1);
    if defs[l].layerType.Input? || defs[l].layerType.Output? ==> defs[l + 1].layerType.Input? {
      forall c, n | 0 <= c < |layers[l].columns| && 0 <= n < |layers[l].columns[c].nodes|
        ensures NodeFits(layers[l].columns[c].nodes[n], NodeRef(l, c, n), edges)
      {
        assert layers[l].columns[c].nodes[n] == InitNode(sz, defs, l, c, n);
        NodeFanOutBound(sz, defs, l, c, n);
      }
    } else {
      UnpredictedFanOut(sz, defs, l);
      assert PreparedLayer(defs, l);
      MulMonotone(1, defs[l].nodeMap.width, defs[l].nodeMap.height);
      assert layers[l].columns[0].nodes[0] == InitNode(sz, defs, l, 0, 0);
      assert !NodeFits(layers[l].columns[0].nodes[0], NodeRef(l, 0, 0), edges);
    }
  }
}
