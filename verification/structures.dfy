/** The network structures of dnn.h:64-138, as index-based pools.

 In the C program a network is one allocation in which layers, columns and nodes of
 varying byte size follow each other, and connections hold raw pointers to nodes and
 weights. Here the same tree is a value: a network holds its layers, a layer its
 columns, a column its nodes, and a connection names its target node by
 (layer, column, level) and its weight by its index in the network's weight block.
 The byte layout of the original allocation is modelled separately (module Arena),
 which also shows that distinct nodes have distinct addresses, so comparing node
 references is the same as comparing the C pointers.
 */
module Structures {
  import opened Outcomes
  import opened LayerDefs

  /** A node's position: layer id, column id inside the layer, level (depth) inside
      the column. */
  datatype NodeRef = NodeRef(layer: nat, column: nat, level: nat)

  /** A connection's weight: the network's shared null-weight slot, or a slot of the
      weight block, counted in weights from the start of the block. */
  datatype WeightRef = NullWeight | Slot(index: nat)

  /** Target node (None for the NULL pointer of a dead convolutional connection) and
      weight of a connection. */
  datatype Conn = Conn(target: Option<NodeRef>, weight: WeightRef)

  /** The first `backwardConnCount` connections point into the previous layer, the
      next `forwardConnCount` into the following one. */
  datatype Node = Node(
    size: nat,
    bias: real,
    output: real,
    errorSum: real,
    backwardConnCount: nat,
    forwardConnCount: nat,
    connections: seq<Conn>)

  datatype Column = Column(size: nat, maxConnCountPerNode: nat, nodeCount: nat, nodes: seq<Node>)

  /** `weightsIndex` is the layer's weightsPtr, as a weight index into the block. */
  datatype Layer = Layer(
    id: nat,
    size: nat,
    layerDef: LayerDefinition,
    weightsIndex: nat,
    columnCount: nat,
    columns: seq<Column>)

  /** `weightsOffset` is the byte offset of the weight block from the start of the
      allocation. */
  datatype Network = Network(
    size: nat,
    learningRate: real,
    weightCount: nat,
    weightsOffset: nat,
    nullWeight: real,
    layerCount: nat,
    layers: seq<Layer>)

  /** A connection that is not dead. */
  predicate Live(c: Conn) {
    c.target.Some?
  }

  /** The node a reference names, if it exists in the network. */
  predicate Exists(net: Network, r: NodeRef) {
    && r.layer < |net.layers|
    && r.column < |net.layers[r.layer].columns|
    && r.level < |net.layers[r.layer].columns[r.column].nodes|
  }

  function NodeAt(net: Network, r: NodeRef): Node
    requires Exists(net, r)
  {
    net.layers[r.layer].columns[r.column].nodes[r.level]
  }
}
