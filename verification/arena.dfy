/** The byte layout of the network's single allocation (dnn.c:297-401, 1261-1345).

 The allocation starts with the network header. The layer records follow it
 back to back, and the weight block fills the tail. A layer record is the layer
 header followed by its columns. A column is the column header followed by its
 nodes. A node is the node header followed by its connection records. A flexible
 array member is taken to start right after its header, at offset sizeof(header).

 Offsets are counted in bytes from the start of the allocation. The lemmas here
 show three things:
 - the navigation functions find the records where initialisation put them;
 - distinct nodes occupy disjoint byte ranges, so comparing node pointers is the
   same as comparing (layer, column, level) positions;
 - the weight block is exactly the last weightBlockSize bytes.
 */
module Arena {
  import opened LayerDefs
  import opened Geometry
  import opened Arith
  import opened Structures

  /** Offset of layer `l` as initNetworkLayer places it: the network header, then the
      getLayerSize of every earlier definition. */
  function LayerOffset(sz: SizeOf, defs: seq<LayerDefinition>, l: nat): nat
    requires Computable(defs) && l <= |defs|
  {
    sz.network + LayerBytesBefore(sz, defs, l)
  }

  /** The sum of the stored `size` fields of the first `k` layer records. */
  function WalkLayers(layers: seq<Layer>, k: nat): nat
    requires k <= |layers|
  {
    if k == 0 then 0 else WalkLayers(layers, k - 1) + layers[k - 1].size
  }

  /** getNetworkLayer: start at the first layer record and step over `k` records by
      their stored sizes. */
  function NetworkLayerOffset(sz: SizeOf, layers: seq<Layer>, k: nat): nat
    requires k <= |layers|
  {
    sz.network + WalkLayers(layers, k)
  }

  /** Walking the stored sizes reaches the prefix-sum position, once each earlier
      layer record holds its own getLayerSize. This is why initNetworkLayer's
      cross-check never fires. */
  lemma {:induction false} WalkMatchesPrefixSum(sz: SizeOf, defs: seq<LayerDefinition>, layers: seq<Layer>, k: nat)
    requires Computable(defs) && k <= |layers| && k <= |defs|
    requires forall i :: 0 <= i < k ==> layers[i].size == LayerBytes(sz, defs, i)
    ensures NetworkLayerOffset(sz, layers, k) == LayerOffset(sz, defs, k)
  {
    if k > 0 {
      WalkMatchesPrefixSum(sz, defs, layers, k - 1);
    }
  }

  /** Layer records do not shrink the running offset: later layers start no earlier. */
  lemma {:induction false} LayerOffsetMonotone(sz: SizeOf, defs: seq<LayerDefinition>, a: nat, b: nat)
    requires Computable(defs) && a <= b <= |defs|
    ensures LayerOffset(sz, defs, a) <= LayerOffset(sz, defs, b)
  {
    if a < b {
      LayerOffsetMonotone(sz, defs, a, b - 1);
    }
  }

  /** getLayerColumn: the column base of the layer plus c column sizes. */
  function ColumnOffset(sz: SizeOf, defs: seq<LayerDefinition>, l: nat, c: nat): nat
    requires Computable(defs) && l < |defs|
  {
    LayerOffset(sz, defs, l) + sz.layer + c * ColumnBytes(sz, defs, l)
  }

  /** The node stride getColumnNode uses: the node header plus maxConnCountPerNode
      connection records. */
  function ColumnNodeStride(sz: SizeOf, maxConnCountPerNode: nat): nat {
    sz.node + maxConnCountPerNode * sz.connection
  }

  /** getColumnNode's stride, from the column's maxConnCountPerNode, equals the
      getNodeSize that initNetworkNodes advances by. */
  lemma NodeStrideIsNodeSize(sz: SizeOf, defs: seq<LayerDefinition>, l: nat)
    requires Computable(defs) && l < |defs|
    ensures ColumnNodeStride(sz, Back(defs, l) + FwdMax(defs, l)) == NodeBytes(sz, defs, l)
  {
    assert SizeDefined(defs, l);
  }

  /** getNetworkNode: the node at level n of column c of layer l. */
  function NodeOffset(sz: SizeOf, defs: seq<LayerDefinition>, r: NodeRef): nat
    requires Computable(defs) && r.layer < |defs|
  {
    ColumnOffset(sz, defs, r.layer, r.column) + sz.column
      + r.level * ColumnNodeStride(sz, Back(defs, r.layer) + FwdMax(defs, r.layer))
  }

  /** A position the definitions give a node: column below w*h, level below depth. */
  predicate ValidRef(defs: seq<LayerDefinition>, r: NodeRef) {
    && r.layer < |defs|
    && r.column < ColumnCount(defs[r.layer])
    && r.level < defs[r.layer].nodeMap.depth
  }

  /** Each node's bytes lie inside its column's. */
  lemma NodeInsideColumn(sz: SizeOf, defs: seq<LayerDefinition>, r: NodeRef)
    requires Computable(defs) && ValidRef(defs, r)
    ensures ColumnOffset(sz, defs, r.layer, r.column) + sz.column <= NodeOffset(sz, defs, r)
    ensures NodeOffset(sz, defs, r) + NodeBytes(sz, defs, r.layer)
         <= ColumnOffset(sz, defs, r.layer, r.column) + ColumnBytes(sz, defs, r.layer)
  {
    var l := r.layer;
    assert SizeDefined(defs, l);
    NodeStrideIsNodeSize(sz, defs, l);
    var nb := NodeBytes(sz, defs, l);
    assert ColumnBytes(sz, defs, l) == sz.column + defs[l].nodeMap.depth * nb;
    MulStrictMonotone(r.level, defs[l].nodeMap.depth, nb);
  }

  /** A layer record is its header followed by width x height columns. */
  lemma LayerBytesAreColumns(sz: SizeOf, defs: seq<LayerDefinition>, l: nat)
    requires Computable(defs) && l < |defs|
    ensures LayerOffset(sz, defs, l + 1)
         == LayerOffset(sz, defs, l) + sz.layer + ColumnCount(defs[l]) * ColumnBytes(sz, defs, l)
  {
    assert SizeDefined(defs, l);
  }

  /** Each column's bytes lie inside its layer's record, which ends where the next
      layer begins. */
  lemma ColumnInsideLayer(sz: SizeOf, defs: seq<LayerDefinition>, l: nat, c: nat)
    requires Computable(defs) && l < |defs| && c < ColumnCount(defs[l])
    ensures LayerOffset(sz, defs, l) + sz.layer <= ColumnOffset(sz, defs, l, c)
    ensures ColumnOffset(sz, defs, l, c) + ColumnBytes(sz, defs, l) <= LayerOffset(sz, defs, l + 1)
  {
    LayerBytesAreColumns(sz, defs, l);
    MulStrictMonotone(c, ColumnCount(defs[l]), ColumnBytes(sz, defs, l));
  }

  /** Position `a` comes before position `b` in layer, column, level order. */
  predicate Before(a: NodeRef, b: NodeRef) {
    || a.layer < b.layer
    || (a.layer == b.layer && a.column < b.column)
    || (a.layer == b.layer && a.column == b.column && a.level < b.level)
  }

  /** Distinct node positions have disjoint byte ranges: the node of the earlier
      position ends no later than the other one starts. */
  lemma NodesDisjoint(sz: SizeOf, defs: seq<LayerDefinition>, a: NodeRef, b: NodeRef)
    requires Computable(defs) && ValidRef(defs, a) && ValidRef(defs, b) && Before(a, b)
    ensures NodeOffset(sz, defs, a) + NodeBytes(sz, defs, a.layer) <= NodeOffset(sz, defs, b)
  {
    NodeInsideColumn(sz, defs, a);
    NodeInsideColumn(sz, defs, b);
    ColumnInsideLayer(sz, defs, a.layer, a.column);
    ColumnInsideLayer(sz, defs, b.layer, b.column);
    var l := a.layer;
    if a.layer < b.layer {
      LayerOffsetMonotone(sz, defs, a.layer + 1, b.layer);
    } else if a.column < b.column {
      MulStrictMonotone(a.column, b.column, ColumnBytes(sz, defs, l));
    } else {
      NodeStrideIsNodeSize(sz, defs, l);
      MulStrictMonotone(a.level, b.level, NodeBytes(sz, defs, l));
    }
  }

  /** The earlier of two positions has the lower address. */
  lemma EarlierNodeLower(sz: SizeOf, defs: seq<LayerDefinition>, a: NodeRef, b: NodeRef)
    requires sz.Valid() && Computable(defs) && ValidRef(defs, a) && ValidRef(defs, b) && Before(a, b)
    ensures NodeOffset(sz, defs, a) < NodeOffset(sz, defs, b)
  {
    NodesDisjoint(sz, defs, a, b);
    assert SizeDefined(defs, a.layer);
    assert NodeBytes(sz, defs, a.layer) >= sz.node;
  }

  /** Pointer equality of nodes is position equality: two valid positions have the
      same address exactly when they are the same position. */
  lemma NodeAddressInjective(sz: SizeOf, defs: seq<LayerDefinition>, a: NodeRef, b: NodeRef)
    requires sz.Valid() && Computable(defs) && ValidRef(defs, a) && ValidRef(defs, b)
    ensures NodeOffset(sz, defs, a) == NodeOffset(sz, defs, b) <==> a == b
  {
    if Before(a, b) {
      EarlierNodeLower(sz, defs, a, b);
    } else if Before(b, a) {
      EarlierNodeLower(sz, defs, b, a);
    }
  }

  /** The weights owned by the first `a` layers are a prefix of those of the first `b`. */
  lemma {:induction false} WeightsBeforeMonotone(defs: seq<LayerDefinition>, a: nat, b: nat)
    requires Computable(defs) && a <= b <= |defs|
    ensures WeightsBefore(defs, a) <= WeightsBefore(defs, b)
  {
    if a < b {
      WeightsBeforeMonotone(defs, a, b - 1);
    }
  }

  /** setNetworkDefaults puts the weight block at netSize - weightBlockSize. That is
      where the layer records end, and the block then runs to the end of the
      allocation. Layer l's weights (the sum of the earlier block sizes past the
      block start, as initNetworkLayer walks it) fit inside the block. */
  lemma WeightBlockAtTail(sz: SizeOf, defs: seq<LayerDefinition>, l: nat)
    requires Linked(defs) && NetworkSize(sz, defs).Ok? && l < |defs|
    ensures NetworkSize(sz, defs).value >= NetworkWeightBlockSize(sz, defs).value
    ensures NetworkSize(sz, defs).value - NetworkWeightBlockSize(sz, defs).value == LayerOffset(sz, defs, |defs|)
    ensures WeightBlockSum(sz, defs, l).Ok?
    ensures WeightBlockSum(sz, defs, l).value == WeightsBefore(defs, l) * sz.weight
    ensures WeightsBefore(defs, l) + Weights(defs, l) <= WeightsBefore(defs, |defs|)
  {
    WeightsBeforeMonotone(defs, l + 1, |defs|);
  }
}
