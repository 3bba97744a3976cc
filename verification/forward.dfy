/** Forward-connection discovery (dnn.c:1013-1084, 1306-1319).

 After every layer has its backward connections, a second pass visits the
 interior layers in order. For each node X of layer l, initNetworkForwardConnectionsAnyNode
 scans the next layer: column by column, level by level, and backward slot by
 backward slot. Each backward connection that points at X becomes a forward
 connection of X to the scanning node, over the same weight. The found connections
 fill X's slots from backwardConnCount on, and forwardConnCount becomes their
 number. Finding more than the predicted maximum terminates the program.

 A scan is modelled as the list of backward connections in scan order (`Edge`s)
 filtered by target (`Discover`). Node identity is (layer, column, level); module
 Arena shows that this agrees with the C pointer comparison.
 */
module ForwardLinks {
  import opened Outcomes
  import opened Structures

  /** A backward connection together with the node that owns it. */
  datatype Edge = Edge(from: NodeRef, conn: Conn)

  /** The node has room for its declared backward and forward connections. */
  predicate SoundNode(node: Node) {
    node.backwardConnCount + node.forwardConnCount <= |node.connections|
  }

  predicate SoundLayer(layer: Layer) {
    forall c, n :: 0 <= c < |layer.columns| && 0 <= n < |layer.columns[c].nodes| ==>
      SoundNode(layer.columns[c].nodes[n])
  }

  predicate SoundLayers(layers: seq<Layer>) {
    forall l :: 0 <= l < |layers| ==> SoundLayer(layers[l])
  }

  // ---------------------------------------------------------------------------
  // The scan

  /** The backward connections of one node, slot by slot. */
  function NodeEdges(node: Node, r: NodeRef): (es: seq<Edge>)
    requires SoundNode(node)
    ensures |es| == node.backwardConnCount
    ensures forall j :: 0 <= j < |es| ==> es[j] == Edge(r, node.connections[j])
  {
    seq(node.backwardConnCount, j requires 0 <= j < node.backwardConnCount => Edge(r, node.connections[j]))
  }

  /** The backward connections of the first `k` nodes of column `c` of layer `l`. */
  function ColumnEdges(col: Column, l: nat, c: nat, k: nat): seq<Edge>
    requires k <= |col.nodes|
    requires forall n :: 0 <= n < |col.nodes| ==> SoundNode(col.nodes[n])
  {
    if k == 0 then [] else ColumnEdges(col, l, c, k - 1) + NodeEdges(col.nodes[k - 1], NodeRef(l, c, k - 1))
  }

  /** The backward connections of the first `k` columns of layer `l`, in scan order. */
  function LayerEdgesUpTo(layer: Layer, l: nat, k: nat): seq<Edge>
    requires k <= |layer.columns| && SoundLayer(layer)
  {
    if k == 0 then []
    else
      var col := layer.columns[k - 1];
      assert forall n :: 0 <= n < |col.nodes| ==> SoundNode(col.nodes[n]);
      LayerEdgesUpTo(layer, l, k - 1) + ColumnEdges(col, l, k - 1, |col.nodes|)
  }

  function LayerEdges(layer: Layer, l: nat): seq<Edge>
    requires SoundLayer(layer)
  {
    LayerEdgesUpTo(layer, l, |layer.columns|)
  }

  /** Every scanned edge belongs to a node of the layer and is one of that node's
      backward connections. */
  lemma {:induction false} ColumnEdgesFrom(col: Column, l: nat, c: nat, k: nat, e: Edge)
    requires k <= |col.nodes|
    requires forall n :: 0 <= n < |col.nodes| ==> SoundNode(col.nodes[n])
    requires e in ColumnEdges(col, l, c, k)
    ensures e.from.layer == l && e.from.column == c && e.from.level < k
    ensures e.conn in col.nodes[e.from.level].connections[..col.nodes[e.from.level].backwardConnCount]
  {
    var node := col.nodes[k - 1];
    if e in ColumnEdges(col, l, c, k - 1) {
      ColumnEdgesFrom(col, l, c, k - 1, e);
    } else {
      var es := NodeEdges(node, NodeRef(l, c, k - 1));
      var j :| 0 <= j < |es| && es[j] == e;
      assert node.connections[..node.backwardConnCount][j] == e.conn;
    }
  }

  lemma {:induction false} LayerEdgesFrom(layer: Layer, l: nat, k: nat, e: Edge)
    requires k <= |layer.columns| && SoundLayer(layer)
    requires e in LayerEdgesUpTo(layer, l, k)
    ensures e.from.layer == l && e.from.column < k
    ensures e.from.level < |layer.columns[e.from.column].nodes|
    ensures
      var node := layer.columns[e.from.column].nodes[e.from.level];
      e.conn in node.connections[..node.backwardConnCount]
  {
    var col := layer.columns[k - 1];
    if e in LayerEdgesUpTo(layer, l, k - 1) {
      LayerEdgesFrom(layer, l, k - 1, e);
    } else {
      ColumnEdgesFrom(col, l, k - 1, |col.nodes|, e);
    }
  }

  /** Every backward connection of every node of the layer is scanned. */
  lemma {:induction false} ColumnEdgesCover(col: Column, l: nat, c: nat, k: nat, n: nat, j: nat)
    requires k <= |col.nodes|
    requires forall m :: 0 <= m < |col.nodes| ==> SoundNode(col.nodes[m])
    requires n < k && SoundNode(col.nodes[n]) && j < col.nodes[n].backwardConnCount
    ensures Edge(NodeRef(l, c, n), col.nodes[n].connections[j]) in ColumnEdges(col, l, c, k)
  {
    if n < k - 1 {
      ColumnEdgesCover(col, l, c, k - 1, n, j);
    } else {
      assert NodeEdges(col.nodes[n], NodeRef(l, c, n))[j] == Edge(NodeRef(l, c, n), col.nodes[n].connections[j]);
    }
  }

  lemma {:induction false} LayerEdgesCover(layer: Layer, l: nat, k: nat, c: nat, n: nat, j: nat)
    requires k <= |layer.columns| && SoundLayer(layer)
    requires c < k && n < |layer.columns[c].nodes| && j < layer.columns[c].nodes[n].backwardConnCount
    ensures Edge(NodeRef(l, c, n), layer.columns[c].nodes[n].connections[j]) in LayerEdgesUpTo(layer, l, k)
  {
    var e := Edge(NodeRef(l, c, n), layer.columns[c].nodes[n].connections[j]);
    var col := layer.columns[k - 1];
    var rest := ColumnEdges(col, l, k - 1, |col.nodes|);
    assert LayerEdgesUpTo(layer, l, k) == LayerEdgesUpTo(layer, l, k - 1) + rest;
    if c < k - 1 {
      LayerEdgesCover(layer, l, k - 1, c, n, j);
      assert e in LayerEdgesUpTo(layer, l, k - 1);
    } else {
      assert forall m :: 0 <= m < |col.nodes| ==> SoundNode(col.nodes[m]);
      ColumnEdgesCover(col, l, c, |col.nodes|, n, j);
      assert e in rest;
    }
  }

  // ---------------------------------------------------------------------------
  // Discovery

  /** The forward connections a scan finds for node x: for each scanned backward
      connection that points at x, in scan order, a connection back to its owner
      over the same weight. */
  function Discover(x: NodeRef, edges: seq<Edge>): (found: seq<Conn>)
    ensures |found| <= |edges|
  {
    if |edges| == 0 then []
    else
      var e := edges[|edges| - 1];
      Discover(x, edges[..|edges| - 1])
        + (if e.conn.target == Some(x) then [Conn(Some(e.from), e.conn.weight)] else [])
  }

  /** Scanning two lists one after the other finds the two results one after the other. */
  lemma {:induction false} DiscoverAppend(x: NodeRef, a: seq<Edge>, b: seq<Edge>)
    ensures Discover(x, a + b) == Discover(x, a) + Discover(x, b)
  {
    if |b| > 0 {
      assert (a + b)[..|a + b| - 1] == a + b[..|b| - 1];
      DiscoverAppend(x, a, b[..|b| - 1]);
    } else {
      assert a + b == a;
    }
  }

  /** A found connection leads back to the owner of a scanned backward connection to
      x over the same weight, and every such backward connection is found. */
  lemma {:induction false} DiscoverMembership(x: NodeRef, edges: seq<Edge>, y: NodeRef, w: WeightRef)
    ensures Conn(Some(y), w) in Discover(x, edges) <==> Edge(y, Conn(Some(x), w)) in edges
  {
    if |edges| > 0 {
      var init := edges[..|edges| - 1];
      DiscoverMembership(x, init, y, w);
      assert edges == init + [edges[|edges| - 1]];
    }
  }

  /** Every found connection has a target. */
  lemma {:induction false} DiscoverLive(x: NodeRef, edges: seq<Edge>, k: nat)
    requires k < |Discover(x, edges)|
    ensures Discover(x, edges)[k].target.Some?
    ensures Edge(Discover(x, edges)[k].target.value, Conn(Some(x), Discover(x, edges)[k].weight)) in edges
  {
    var f := Discover(x, edges)[k];
    var init := edges[..|edges| - 1];
    if k < |Discover(x, init)| {
      DiscoverLive(x, init, k);
      assert edges == init + [edges[|edges| - 1]];
    }
  }

  /** Scan order: a backward connection to x at scan position j is found at position
      |Discover(x, edges[..j])|, so matches at earlier scan positions are found
      earlier. */
  lemma DiscoverPosition(x: NodeRef, edges: seq<Edge>, j: nat)
    requires j < |edges| && edges[j].conn.target == Some(x)
    ensures |Discover(x, edges[..j])| < |Discover(x, edges)|
    ensures Discover(x, edges)[|Discover(x, edges[..j])|] == Conn(Some(edges[j].from), edges[j].conn.weight)
  {
    assert edges == edges[..j] + ([edges[j]] + edges[j + 1..]);
    DiscoverAppend(x, edges[..j], [edges[j]] + edges[j + 1..]);
    DiscoverAppend(x, [edges[j]], edges[j + 1..]);
    assert Discover(x, [edges[j]]) == Discover(x, []) + [Conn(Some(edges[j].from), edges[j].conn.weight)];
  }

  lemma DiscoverPositionMonotone(x: NodeRef, edges: seq<Edge>, i: nat, j: nat)
    requires i < j <= |edges| && edges[i].conn.target == Some(x)
    ensures |Discover(x, edges[..i])| < |Discover(x, edges[..j])|
  {
    var pre := edges[..j];
    assert pre[..i] == edges[..i];
    DiscoverPosition(x, pre, i);
  }

  // ---------------------------------------------------------------------------
  // Writing the forward connections of one node

  /** The found connections fit into the node's forward slots. */
  predicate NodeFits(node: Node, x: NodeRef, edges: seq<Edge>) {
    |Discover(x, edges)| <= node.forwardConnCount
  }

  /** The node after its forward slots received the found connections. */
  function WiredNode(node: Node, x: NodeRef, edges: seq<Edge>): Node
    requires SoundNode(node) && NodeFits(node, x, edges)
  {
    var found := Discover(x, edges);
    var start := node.backwardConnCount;
    node.(forwardConnCount := |found|,
          connections := node.connections[..start] + found + node.connections[start + |found|..])
  }

  /** initNetworkForwardConnectionsAnyNode for node x scanning `edges`. It terminates
      exactly when more connections are found than the node's forward bound. Otherwise
      the forward slots hold what was found, in scan order. The backward slots, the
      slots past the found ones and every other field keep their values. */
  function ForwardWireNode(node: Node, x: NodeRef, edges: seq<Edge>): (r: Result<Node>)
    requires SoundNode(node)
    ensures r.Ok? <==> |Discover(x, edges)| <= node.forwardConnCount
    ensures r.Abort? ==> r.reason == ForwardCapacityExceeded
    ensures r.Ok? ==>
      var start := node.backwardConnCount;
      var found := Discover(x, edges);
      && SoundNode(r.value)
      && r.value.forwardConnCount == |found|
      && r.value.backwardConnCount == start
      && |r.value.connections| == |node.connections|
      && r.value.connections[..start] == node.connections[..start]
      && r.value.connections[start..start + |found|] == found
      && r.value.connections[start + |found|..] == node.connections[start + |found|..]
      && r.value.(connections := node.connections, forwardConnCount := node.forwardConnCount) == node
  {
    if !NodeFits(node, x, edges) then Abort(ForwardCapacityExceeded)
    else
      var r := WiredNode(node, x, edges);
      var start := node.backwardConnCount;
      var found := Discover(x, edges);
      assert r.connections[start..start + |found|] == found;
      assert r.connections[start + |found|..] == node.connections[start + |found|..];
      Ok(r)
  }

  // ---------------------------------------------------------------------------
  // One layer, and the pass over all layers

  predicate LayerFits(layer: Layer, l: nat, edges: seq<Edge>) {
    forall c, n :: 0 <= c < |layer.columns| && 0 <= n < |layer.columns[c].nodes| ==>
      NodeFits(layer.columns[c].nodes[n], NodeRef(l, c, n), edges)
  }

  function WiredLayer(layer: Layer, l: nat, edges: seq<Edge>): (r: Layer)
    requires SoundLayer(layer) && LayerFits(layer, l, edges)
    ensures SoundLayer(r)
    ensures r.(columns := layer.columns) == layer && |r.columns| == |layer.columns|
    ensures forall c :: 0 <= c < |r.columns| ==>
      && |r.columns[c].nodes| == |layer.columns[c].nodes|
      && r.columns[c].(nodes := layer.columns[c].nodes) == layer.columns[c]
  {
    var r := layer.(columns := seq(|layer.columns|, c requires 0 <= c < |layer.columns| =>
      var col := layer.columns[c];
      col.(nodes := seq(|col.nodes|, n requires 0 <= n < |col.nodes| =>
        WiredNode(col.nodes[n], NodeRef(l, c, n), edges)))));
    assert forall c, n :: 0 <= c < |r.columns| && 0 <= n < |r.columns[c].nodes| ==>
      r.columns[c].nodes[n] == WiredNode(layer.columns[c].nodes[n], NodeRef(l, c, n), edges);
    r
  }

  /** initNetworkForwardConnections: the first and the last layer are skipped; any
      other layer scans the layer after it. */
  function ForwardWireLayer(layers: seq<Layer>, l: nat): (r: Result<seq<Layer>>)
    requires l < |layers| && SoundLayers(layers)
    ensures r.Abort? ==> r.reason == ForwardCapacityExceeded
    ensures r.Ok? ==> |r.value| == |layers| && SoundLayers(r.value)
    ensures r.Ok? ==> forall i :: 0 <= i < |layers| && i != l ==> r.value[i] == layers[i]
  {
    if l == 0 || l == |layers| - 1 then Ok(layers)
    else
      var edges := LayerEdges(layers[l + 1], l + 1);
      if !LayerFits(layers[l], l, edges) then Abort(ForwardCapacityExceeded)
      else Ok(layers[l := WiredLayer(layers[l], l, edges)])
  }

  /** The second loop of initNetwork: layers l, l+1, ... in order, each one reading
      the layers as the earlier steps left them. */
  function ForwardWireFrom(layers: seq<Layer>, l: nat): (r: Result<seq<Layer>>)
    requires l <= |layers| && SoundLayers(layers)
    ensures r.Abort? ==> r.reason == ForwardCapacityExceeded
    decreases |layers| - l
  {
    if l == |layers| then Ok(layers)
    else
      var next :- ForwardWireLayer(layers, l);
      ForwardWireFrom(next, l + 1)
  }

  // ---------------------------------------------------------------------------
  // The pass, stated on the layers as they were before it

  predicate Interior(layers: seq<Layer>, l: nat) {
    0 < l < |layers| - 1
  }

  /** Layer l's forward connections fit when it scans the untouched next layer. */
  predicate FitsAt(layers: seq<Layer>, l: nat)
    requires l < |layers| && SoundLayers(layers)
  {
    Interior(layers, l) ==> LayerFits(layers[l], l, LayerEdges(layers[l + 1], l + 1))
  }

  predicate AllFit(layers: seq<Layer>)
    requires SoundLayers(layers)
  {
    forall l :: 0 <= l < |layers| ==> FitsAt(layers, l)
  }

  /** Layer l after the pass, computed from the layers before it. */
  function LinkedLayer(layers: seq<Layer>, l: nat): Layer
    requires l < |layers| && SoundLayers(layers) && FitsAt(layers, l)
  {
    if Interior(layers, l) then WiredLayer(layers[l], l, LayerEdges(layers[l + 1], l + 1)) else layers[l]
  }

  function LinkedLayers(layers: seq<Layer>): seq<Layer>
    requires SoundLayers(layers) && AllFit(layers)
  {
    seq(|layers|, l requires 0 <= l < |layers| => LinkedLayer(layers, l))
  }

  /** The pass from step l on, when steps before l have already produced their
      linked layers and the rest are untouched: it terminates exactly when some
      remaining layer does not fit, and otherwise yields the linked layers. */
  lemma {:induction false} WireFromMidway(init: seq<Layer>, layers: seq<Layer>, l: nat)
    requires SoundLayers(init) && SoundLayers(layers) && |layers| == |init| && l <= |init|
    requires forall i :: 0 <= i < l ==> FitsAt(init, i)
    requires forall i :: 0 <= i < l ==> layers[i] == LinkedLayer(init, i)
    requires forall i :: l <= i < |init| ==> layers[i] == init[i]
    ensures ForwardWireFrom(layers, l).Ok? <==> forall i :: l <= i < |init| ==> FitsAt(init, i)
    ensures ForwardWireFrom(layers, l).Ok? ==> AllFit(init) && ForwardWireFrom(layers, l).value == LinkedLayers(init)
    decreases |init| - l
  {
    if l == |init| {
      assert layers == LinkedLayers(init);
    } else {
      var step := ForwardWireLayer(layers, l);
      if Interior(init, l) {
        assert layers[l + 1] == init[l + 1];
      }
      if step.Ok? {
        assert FitsAt(init, l);
        assert step.value[l] == LinkedLayer(init, l);
        WireFromMidway(init, step.value, l + 1);
      } else {
        assert !FitsAt(init, l);
      }
    }
  }

  /** The whole pass: it terminates exactly when some interior layer's nodes find
      more forward connections than their bound, and otherwise every layer is its
      linked version computed from the layers before the pass. The order of the
      steps does not matter, because each step only reads a layer no earlier step
      has written. */
  lemma ForwardWireAll(layers: seq<Layer>)
    requires SoundLayers(layers)
    ensures ForwardWireFrom(layers, 0).Ok? <==> AllFit(layers)
    ensures ForwardWireFrom(layers, 0).Ok? ==> ForwardWireFrom(layers, 0).value == LinkedLayers(layers)
  {
    WireFromMidway(layers, layers, 0);
  }

  /** What a forward connection means. Take a forward slot k of node (c, n) of
      interior layer l after the pass. It holds a connection to a node Y of layer
      l+1, and Y has a backward connection to (l, c, n) over the same weight.
      Forward slots are listed in scan order. */
  lemma ForwardSound(layers: seq<Layer>, l: nat, c: nat, n: nat, k: nat)
    requires SoundLayers(layers) && AllFit(layers) && Interior(layers, l)
    requires c < |layers[l].columns| && n < |layers[l].columns[c].nodes|
    requires
      var x := LinkedLayers(layers)[l].columns[c].nodes[n];
      x.backwardConnCount <= k < x.backwardConnCount + x.forwardConnCount
    ensures
      var linked := LinkedLayers(layers);
      var x := linked[l].columns[c].nodes[n];
      var f := x.connections[k];
      && f.target.Some?
      && f.target.value.layer == l + 1
      && f.target.value.column < |linked[l + 1].columns|
      && f.target.value.level < |linked[l + 1].columns[f.target.value.column].nodes|
      && var y := linked[l + 1].columns[f.target.value.column].nodes[f.target.value.level];
         Conn(Some(NodeRef(l, c, n)), f.weight) in y.connections[..y.backwardConnCount]
  {
    var linked := LinkedLayers(layers);
    var edges := LayerEdges(layers[l + 1], l + 1);
    var node := layers[l].columns[c].nodes[n];
    assert FitsAt(layers, l);
    assert NodeFits(node, NodeRef(l, c, n), edges);
    var x := linked[l].columns[c].nodes[n];
    assert x == WiredNode(node, NodeRef(l, c, n), edges);
    var start := node.backwardConnCount;
    var found := Discover(NodeRef(l, c, n), edges);
    assert x.connections[k] == found[k - start];
    DiscoverLive(NodeRef(l, c, n), edges, k - start);
    var f := found[k - start];
    LayerEdgesFrom(layers[l + 1], l + 1, |layers[l + 1].columns|, Edge(f.target.value, Conn(Some(NodeRef(l, c, n)), f.weight)));
    if l + 1 < |layers| - 1 {
      var yr := f.target.value;
      var y0 := layers[l + 1].columns[yr.column].nodes[yr.level];
      var y := linked[l + 1].columns[yr.column].nodes[yr.level];
      assert FitsAt(layers, l + 1);
      assert NodeFits(y0, yr, LayerEdges(layers[l + 2], l + 2));
      assert y == WiredNode(y0, yr, LayerEdges(layers[l + 2], l + 2));
      assert y.connections[..y.backwardConnCount] == y0.connections[..y0.backwardConnCount];
    }
  }

  /** Completeness: every backward connection of a layer-(l+1) node that points at
      node (c, n) of interior layer l shows up among that node's forward
      connections, over the same weight. */
  lemma ForwardComplete(layers: seq<Layer>, l: nat, c: nat, n: nat, yc: nat, yn: nat, j: nat)
    requires SoundLayers(layers) && AllFit(layers) && Interior(layers, l)
    requires c < |layers[l].columns| && n < |layers[l].columns[c].nodes|
    requires yc < |layers[l + 1].columns| && yn < |layers[l + 1].columns[yc].nodes|
    requires
      var y := LinkedLayers(layers)[l + 1].columns[yc].nodes[yn];
      j < y.backwardConnCount && y.connections[j].target == Some(NodeRef(l, c, n))
    ensures
      var linked := LinkedLayers(layers);
      var x := linked[l].columns[c].nodes[n];
      var y := linked[l + 1].columns[yc].nodes[yn];
      Conn(Some(NodeRef(l + 1, yc, yn)), y.connections[j].weight)
        in x.connections[x.backwardConnCount..x.backwardConnCount + x.forwardConnCount]
  {
    var linked := LinkedLayers(layers);
    var edges := LayerEdges(layers[l + 1], l + 1);
    var node := layers[l].columns[c].nodes[n];
    assert FitsAt(layers, l);
    assert NodeFits(node, NodeRef(l, c, n), edges);
    var x := linked[l].columns[c].nodes[n];
    assert x == WiredNode(node, NodeRef(l, c, n), edges);
    var y0 := layers[l + 1].columns[yc].nodes[yn];
    var y := linked[l + 1].columns[yc].nodes[yn];
    if l + 1 < |layers| - 1 {
      assert FitsAt(layers, l + 1);
      assert NodeFits(y0, NodeRef(l + 1, yc, yn), LayerEdges(layers[l + 2], l + 2));
      assert y == WiredNode(y0, NodeRef(l + 1, yc, yn), LayerEdges(layers[l + 2], l + 2));
    }
    assert y.connections[j] == y0.connections[j];
    var w := y0.connections[j].weight;
    assert y0.connections[j] == Conn(Some(NodeRef(l, c, n)), w);
    LayerEdgesCover(layers[l + 1], l + 1, |layers[l + 1].columns|, yc, yn, j);
    DiscoverMembership(NodeRef(l, c, n), edges, NodeRef(l + 1, yc, yn), w);
    var start := node.backwardConnCount;
    var found := Discover(NodeRef(l, c, n), edges);
    assert x.connections[start..start + |found|] == found;
  }

  /** The pass leaves the shape of every layer, every column and every node's
      backward slots as they were; the first and the last layer are not touched. */
  lemma LinkedKeepsBackward(layers: seq<Layer>, l: nat, c: nat, n: nat)
    requires SoundLayers(layers) && AllFit(layers) && l < |layers|
    requires c < |layers[l].columns| && n < |layers[l].columns[c].nodes|
    ensures
      var linked := LinkedLayers(layers);
      && |linked[l].columns| == |layers[l].columns|
      && |linked[l].columns[c].nodes| == |layers[l].columns[c].nodes|
      && var a := layers[l].columns[c].nodes[n];
         var b := linked[l].columns[c].nodes[n];
         && b.backwardConnCount == a.backwardConnCount
         && |b.connections| == |a.connections|
         && b.connections[..a.backwardConnCount] == a.connections[..a.backwardConnCount]
         && b.forwardConnCount <= a.forwardConnCount
         && (!Interior(layers, l) ==> b == a)
  {
    if Interior(layers, l) {
      var edges := LayerEdges(layers[l + 1], l + 1);
      var a := layers[l].columns[c].nodes[n];
      assert FitsAt(layers, l);
      assert NodeFits(a, NodeRef(l, c, n), edges);
      var b := LinkedLayers(layers)[l].columns[c].nodes[n];
      assert b == WiredNode(a, NodeRef(l, c, n), edges);
    }
  }
}
