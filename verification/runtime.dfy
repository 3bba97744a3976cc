/** Using a built network: feedInput (dnn.c:710-725) and getNetworkClassification
 (dnn.c:735-754).

 feedInput copies an input vector into the outputs of the input layer's nodes, one
 value per column, into the node at level 0. getNetworkClassification reads back the
 level-0 outputs of the output layer and returns the index of the largest one. The
 arithmetic between the two (the activation functions of dnn.c) is not part of this
 model; outputs are real numbers here, not doubles.
 */
module Runtime {
  import opened Outcomes
  import opened LayerDefs
  import opened Geometry
  import opened Structures
  import opened Construction
  import opened ForwardLinks
  import opened Creation
  import opened Mnist

  /** Every column the layer counts exists and holds a level-0 node. */
  predicate LayerReady(layer: Layer) {
    && |layer.columns| == layer.columnCount
    && forall c :: 0 <= c < |layer.columns| ==> |layer.columns[c].nodes| > 0
  }

  /** The shape feedInput and getNetworkClassification walk: an input layer first
      and an output layer last, each with a level-0 node in every column. */
  predicate Ready(net: Network) {
    && |net.layers| > 0
    && LayerReady(net.layers[0])
    && LayerReady(net.layers[|net.layers| - 1])
  }

  /** The level-0 outputs of a layer, column by column. */
  function LevelZeroOutputs(layer: Layer): seq<real>
    requires LayerReady(layer)
  {
    seq(|layer.columns|, c requires 0 <= c < |layer.columns| => layer.columns[c].nodes[0].output)
  }

  /** What the input layer currently holds. */
  function InputValues(net: Network): (vals: seq<real>)
    requires Ready(net)
    ensures |vals| == net.layers[0].columnCount
  {
    LevelZeroOutputs(net.layers[0])
  }

  /** What getNetworkClassification compares: the output layer's level-0 outputs. */
  function OutputValues(net: Network): (vals: seq<real>)
    requires Ready(net)
    ensures |vals| == net.layers[|net.layers| - 1].columnCount
  {
    LevelZeroOutputs(net.layers[|net.layers| - 1])
  }

  predicate Zeros(vals: seq<real>) {
    forall i :: 0 <= i < |vals| ==> vals[i] == 0.0
  }

  /** The network a createNetwork call returns is ready for both operations, and
      its input layer holds zeros. */
  lemma CreatedIsReady(sz: SizeOf, defs: seq<LayerDefinition>, net: Network)
    requires sz.Valid() && Prepared(defs) && StrideDefined(defs)
    requires CreateNetwork(sz, defs) == Ok(net)
    ensures Ready(net) && Zeros(InputValues(net))
  {
    assert Buildable(defs) && AllFit(BuiltLayers(sz, defs)) && net.layers == Wired(sz, defs);
    WiredReady(sz, defs);
  }

  /** The linked layers have a level-0 node in every column of the input and output
      layers, and the input layer's outputs are zero. */
  lemma WiredReady(sz: SizeOf, defs: seq<LayerDefinition>)
    requires Buildable(defs) && AllFit(BuiltLayers(sz, defs))
    ensures LayerReady(Wired(sz, defs)[0]) && LayerReady(Wired(sz, defs)[|defs| - 1])
    ensures Zeros(LevelZeroOutputs(Wired(sz, defs)[0]))
  {
    var layers := Wired(sz, defs);
    assert PreparedLayer(defs, 0) && PreparedLayer(defs, |defs| - 1);
    forall c | 0 <= c < ColumnCount(defs[0])
      ensures LevelZeroOutputs(layers[0])[c] == 0.0
    {
      WiredInputOutput(sz, defs, c);
    }
  }

  /** Nodes of the input layer start with output 0: initNetworkNode zeroes every
      node, and neither forward discovery nor the network header touch outputs. */
  lemma WiredInputOutput(sz: SizeOf, defs: seq<LayerDefinition>, c: nat)
    requires Buildable(defs) && AllFit(BuiltLayers(sz, defs))
    requires c < ColumnCount(defs[0])
    ensures 0 < |Wired(sz, defs)[0].columns[c].nodes|
    ensures Wired(sz, defs)[0].columns[c].nodes[0].output == 0.0
  {
    var built := BuiltLayers(sz, defs);
    assert PreparedLayer(defs, 0);
    assert !Interior(built, 0);
    assert Wired(sz, defs)[0] == built[0];
    assert built[0].columns[c].nodes[0] == InitNode(sz, defs, 0, c, 0);
  }

  /** The network with only the outputs of the input layer's level-0 nodes changed:
      every other field of every record is as it was. */
  predicate InputOnlyChanged(net: Network, fed: Network)
    requires Ready(net)
  {
    && fed.(layers := []) == net.(layers := [])
    && |fed.layers| == |net.layers|
    && fed.layers[1..] == net.layers[1..]
    && fed.layers[0].(columns := []) == net.layers[0].(columns := [])
    && |fed.layers[0].columns| == |net.layers[0].columns|
    && forall c :: 0 <= c < |net.layers[0].columns| ==>
         var col, col' := net.layers[0].columns[c], fed.layers[0].columns[c];
         && col'.(nodes := []) == col.(nodes := [])
         && |col'.nodes| == |col.nodes|
         && col'.nodes[1..] == col.nodes[1..]
         && col'.nodes[0].(output := 0.0) == col.nodes[0].(output := 0.0)
  }

  /** feedInput. A vector whose count is not the input layer's column count is
      refused (the C program prints a message and exits). Otherwise value i becomes
      the output of the level-0 node of column i, and nothing else changes. */
  function FeedInput(net: Network, v: Vector): (r: Result<Network>)
    requires Ready(net)
    ensures r.Abort? <==> |v| != net.layers[0].columnCount
    ensures r.Abort? ==> r.reason == InputSizeMismatch
    ensures r.Ok? ==> Ready(r.value) && InputValues(r.value) == v && InputOnlyChanged(net, r.value)
  {
    if |v| != net.layers[0].columnCount then
      Abort(InputSizeMismatch)
    else
      var input := net.layers[0];
      var columns := seq(|input.columns|, c requires 0 <= c < |input.columns| =>
        var col := input.columns[c];
        col.(nodes := col.nodes[0 := col.nodes[0].(output := v[c])]));
      Ok(net.(layers := net.layers[0 := input.(columns := columns)]))
  }

  /** Feeding back what the input layer already holds changes nothing. */
  lemma FeedInputValuesIsIdentity(net: Network)
    requires Ready(net)
    ensures FeedInput(net, InputValues(net)) == Ok(net)
  {
    var fed := FeedInput(net, InputValues(net)).value;
    var input, input' := net.layers[0], fed.layers[0];
    forall c | 0 <= c < |input.columns|
      ensures input'.columns[c] == input.columns[c]
    {
      var col, col' := input.columns[c], input'.columns[c];
      assert col'.nodes[0] == col.nodes[0];
      assert col'.nodes == [col'.nodes[0]] + col'.nodes[1..];
      assert col.nodes == [col.nodes[0]] + col.nodes[1..];
    }
    assert input'.columns == input.columns;
    assert fed.layers == [fed.layers[0]] + fed.layers[1..];
    assert net.layers == [net.layers[0]] + net.layers[1..];
  }

  /** The last of two feeds wins: what the first one wrote is overwritten. */
  lemma FeedInputOverwrites(net: Network, v: Vector, w: Vector)
    requires Ready(net) && |v| == |w| == net.layers[0].columnCount
    ensures FeedInput(FeedInput(net, v).value, w) == FeedInput(net, w)
  {
    var once := FeedInput(net, w).value;
    var twice := FeedInput(FeedInput(net, v).value, w).value;
    forall c | 0 <= c < |net.layers[0].columns|
      ensures twice.layers[0].columns[c] == once.layers[0].columns[c]
    {
      var col, col' := once.layers[0].columns[c], twice.layers[0].columns[c];
      assert col'.nodes[0] == col.nodes[0];
      assert col'.nodes == [col'.nodes[0]] + col'.nodes[1..];
      assert col.nodes == [col.nodes[0]] + col.nodes[1..];
    }
    assert twice.layers[0].columns == once.layers[0].columns;
    assert twice.layers == [twice.layers[0]] + twice.layers[1..];
    assert once.layers == [once.layers[0]] + once.layers[1..];
  }

  /** What getNetworkClassification answers for outputs `outs`. If no output is
      positive the answer is 0, the index the search starts from. Otherwise it is
      the first index holding the largest output. */
  predicate IsClassification(outs: seq<real>, k: nat) {
    if forall j :: 0 <= j < |outs| ==> outs[j] <= 0.0 then
      k == 0
    else
      && k < |outs|
      && 0.0 < outs[k]
      && (forall j :: 0 <= j < |outs| ==> outs[j] <= outs[k])
      && (forall j :: 0 <= j < k ==> outs[j] < outs[k])
  }

  /** The description above leaves one answer for each list of outputs. */
  lemma ClassificationUnique(outs: seq<real>, a: nat, b: nat)
    requires IsClassification(outs, a) && IsClassification(outs, b)
    ensures a == b
  {
  }

  /** getNetworkClassification: scan the output layer's level-0 outputs, starting
      from maximum 0 at index 0, and move to index i whenever its output is strictly
      larger than the maximum so far. */
  method GetNetworkClassification(net: Network) returns (maxInd: nat)
    requires Ready(net)
    ensures IsClassification(OutputValues(net), maxInd)
  {
    var outs := OutputValues(net);
    var maxOut := 0.0;
    maxInd := 0;
    var i := 0;
    while i < |outs|
      invariant 0 <= i <= |outs|
      invariant forall j :: 0 <= j < i ==> outs[j] <= maxOut
      invariant (maxOut == 0.0 && maxInd == 0)
             || (maxInd < i && 0.0 < maxOut == outs[maxInd] && forall j :: 0 <= j < maxInd ==> outs[j] < maxOut)
    {
      if outs[i] > maxOut {
        maxOut := outs[i];
        maxInd := i;
      }
      i := i + 1;
    }
    if maxOut == 0.0 {
      assert forall j :: 0 <= j < |outs| ==> outs[j] <= 0.0;
    } else {
      assert !(forall j :: 0 <= j < |outs| ==> outs[j] <= 0.0) by {
        assert outs[maxInd] > 0.0;
      }
    }
  }
}
