/** Layer definitions (dnn.h:16-59) and the two passes that prepare them before a
 network is built: validation (isValidNetworkDefinition) and defaulting
 (setLayerDefinitionDefaults), run in that order by setLayerDefinitions.
 */
module LayerDefs {
  import opened Outcomes

  /** Largest filter edge a convolutional layer may declare (MAX_CONVOLUTIONAL_FILTER). */
  const MaxConvolutionalFilter: nat := 10

  /** The layer kinds of the C enum. `Undeclared` stands for any other value the enum
      variable may hold; `Empty` is the zero value of an unset definition. */
  datatype LayerType = Empty | Input | Convolutional | FullyConnected | Output | Undeclared
  {
    /** One of the four kinds the engine knows how to size and wire. */
    predicate Recognized() {
      Input? || Convolutional? || FullyConnected? || Output?
    }

    /** Kinds whose nodes have backward connections into the previous layer. */
    predicate ReadsPrevious() {
      Convolutional? || FullyConnected? || Output?
    }

    /** Kinds whose forward-connection bound is taken from the next layer. */
    predicate ReadsNext() {
      !Input? && !Output?
    }
  }

  /** Activation kinds; `UndeclaredActivation` is any other value of the C enum. */
  datatype ActFctType = Sigmoid | Tanh | Relu | NoActivation | UndeclaredActivation
  {
    predicate Recognized() {
      !UndeclaredActivation?
    }
  }

  /** Width, height and depth of a layer's node map; 0 means "not set". */
  datatype Volume = Volume(width: nat, height: nat, depth: nat)

  datatype LayerDefinition = LayerDefinition(
    layerType: LayerType,
    activationType: ActFctType,
    nodeMap: Volume,
    filter: nat)

  /** The rules isValidNetworkDefinition applies to layer `i` (on the raw, undefaulted
      definitions). The rule on the previous layer only applies to convolutional
      layers, which can never be layer 0 of an accepted list. */
  predicate LayerRules(defs: seq<LayerDefinition>, i: nat)
    requires i < |defs|
  {
    var d := defs[i];
    && d.layerType.Recognized()
    && !(d.nodeMap.width == 0 && d.nodeMap.height == 0 && d.nodeMap.depth == 0)
    && (d.layerType.Input? || d.layerType.FullyConnected? || d.layerType.Output? ==> d.nodeMap.depth == 0)
    && (d.layerType.Convolutional? ==>
          && d.nodeMap.height != 0
          && d.nodeMap.depth != 0
          && d.filter != 0
          && 0 < i
          && d.filter < defs[i-1].nodeMap.width
          && d.filter < defs[i-1].nodeMap.height
          && d.filter <= MaxConvolutionalFilter)
    && (!d.layerType.Input? ==> d.activationType.Recognized())
  }

  /** A definition list the original accepts: it starts with an input layer, ends
      with an output layer, and every layer obeys the per-layer rules. */
  predicate ValidDefinition(defs: seq<LayerDefinition>)
    requires |defs| > 0
  {
    && defs[0].layerType.Input?
    && defs[|defs|-1].layerType.Output?
    && forall i :: 0 <= i < |defs| ==> LayerRules(defs, i)
  }

  /** isValidNetworkDefinition: the two end checks, then one pass over the layers that
      stops at the first layer reached while the verdict is already negative. */
  method IsValidNetworkDefinition(defs: seq<LayerDefinition>) returns (isValid: bool)
    requires |defs| > 0
    ensures isValid <==> ValidDefinition(defs)
  {
    isValid := true;
    if !defs[0].layerType.Input? {
      isValid := false;
    }
    if !defs[|defs|-1].layerType.Output? {
      isValid := false;
    }
    var i := 0;
    while i < |defs|
      invariant 0 <= i <= |defs|
      invariant isValid <==>
        && defs[0].layerType.Input?
        && defs[|defs|-1].layerType.Output?
        && forall k :: 0 <= k < i ==> LayerRules(defs, k)
    {
      if !isValid {
        return;
      }
      var d := defs[i];
      if !d.layerType.Recognized() {
        isValid := false;
      }
      if d.nodeMap.width == 0 && d.nodeMap.height == 0 && d.nodeMap.depth == 0 {
        isValid := false;
      }
      if (d.layerType.Input? || d.layerType.FullyConnected? || d.layerType.Output?) && d.nodeMap.depth != 0 {
        isValid := false;
      }
      if d.layerType.Convolutional? && (d.nodeMap.height == 0 || d.nodeMap.depth == 0) {
        isValid := false;
      }
      if d.layerType.Convolutional? && d.filter == 0 {
        isValid := false;
      }
      if d.layerType.Convolutional? {
        // layer 0 is an input layer whenever the verdict is still positive here
        assert 0 < i;
        if d.filter >= defs[i-1].nodeMap.width || d.filter >= defs[i-1].nodeMap.height {
          isValid := false;
        }
      }
      if d.layerType.Convolutional? && d.filter > MaxConvolutionalFilter {
        isValid := false;
      }
      if !d.layerType.Input? && !d.activationType.Recognized() {
        isValid := false;
      }
      assert isValid <==> LayerRules(defs, i);
      i := i + 1;
    }
  }

  /** One definition after setLayerDefinitionDefaults: unset dimensions become 1 and
      the filter of a non-convolutional layer becomes 0. */
  function DefaultLayer(d: LayerDefinition): (r: LayerDefinition)
    ensures r.layerType == d.layerType && r.activationType == d.activationType
    ensures r.nodeMap.width >= 1 && r.nodeMap.height >= 1 && r.nodeMap.depth >= 1
    ensures d.nodeMap.width == 0 ==> r.nodeMap.width == 1
    ensures d.nodeMap.height == 0 ==> r.nodeMap.height == 1
    ensures d.nodeMap.depth == 0 ==> r.nodeMap.depth == 1
    ensures d.nodeMap.width != 0 ==> r.nodeMap.width == d.nodeMap.width
    ensures d.nodeMap.height != 0 ==> r.nodeMap.height == d.nodeMap.height
    ensures d.nodeMap.depth != 0 ==> r.nodeMap.depth == d.nodeMap.depth
    ensures !d.layerType.Convolutional? ==> r.filter == 0
    ensures d.layerType.Convolutional? ==> r.filter == d.filter
  {
    var w := if d.nodeMap.width == 0 then 1 else d.nodeMap.width;
    var h := if d.nodeMap.height == 0 then 1 else d.nodeMap.height;
    var z := if d.nodeMap.depth == 0 then 1 else d.nodeMap.depth;
    var f := if d.layerType.Convolutional? then d.filter else 0;
    LayerDefinition(d.layerType, d.activationType, Volume(w, h, z), f)
  }

  /** Every layer has all three dimensions at least 1 and only convolutional layers
      carry a filter. */
  predicate Defaulted(defs: seq<LayerDefinition>) {
    forall i :: 0 <= i < |defs| ==>
      && defs[i].nodeMap.width >= 1
      && defs[i].nodeMap.height >= 1
      && defs[i].nodeMap.depth >= 1
      && (!defs[i].layerType.Convolutional? ==> defs[i].filter == 0)
  }

  /** setLayerDefinitionDefaults over the whole list: a zero dimension becomes 1, a
      nonzero one is kept, a convolutional layer keeps its filter and every other
      layer loses it. */
  function SetLayerDefinitionDefaults(defs: seq<LayerDefinition>): (r: seq<LayerDefinition>)
    ensures |r| == |defs|
    ensures Defaulted(r)
    ensures forall i :: 0 <= i < |defs| ==>
      r[i].layerType == defs[i].layerType && r[i].activationType == defs[i].activationType
    ensures forall i :: 0 <= i < |defs| ==>
      && r[i].nodeMap.width == (if defs[i].nodeMap.width == 0 then 1 else defs[i].nodeMap.width)
      && r[i].nodeMap.height == (if defs[i].nodeMap.height == 0 then 1 else defs[i].nodeMap.height)
      && r[i].nodeMap.depth == (if defs[i].nodeMap.depth == 0 then 1 else defs[i].nodeMap.depth)
    ensures forall i :: 0 <= i < |defs| ==>
      r[i].filter == (if defs[i].layerType.Convolutional? then defs[i].filter else 0)
  {
    seq(|defs|, i requires 0 <= i < |defs| => DefaultLayer(defs[i]))
  }

  /** Defaulting an already defaulted list changes nothing. */
  lemma DefaultsIdempotent(defs: seq<LayerDefinition>)
    ensures SetLayerDefinitionDefaults(SetLayerDefinitionDefaults(defs)) == SetLayerDefinitionDefaults(defs)
  {
    var once := SetLayerDefinitionDefaults(defs);
    var twice := SetLayerDefinitionDefaults(once);
    forall i | 0 <= i < |defs|
      ensures twice[i] == once[i]
    {
      assert twice[i] == DefaultLayer(once[i]);
    }
  }

  /** The shape every later stage relies on: what an accepted, defaulted definition
      list looks like. */
  predicate PreparedLayer(defs: seq<LayerDefinition>, i: nat)
    requires i < |defs|
  {
    var d := defs[i];
    && d.layerType.Recognized()
    && (!d.layerType.Input? ==> d.activationType.Recognized())
    && d.nodeMap.width >= 1 && d.nodeMap.height >= 1 && d.nodeMap.depth >= 1
    && (!d.layerType.Convolutional? ==> d.filter == 0 && d.nodeMap.depth == 1)
    && (d.layerType.Convolutional? ==>
          && 0 < i
          && 1 <= d.filter <= MaxConvolutionalFilter
          && d.filter < defs[i-1].nodeMap.width
          && d.filter < defs[i-1].nodeMap.height)
  }

  predicate Prepared(defs: seq<LayerDefinition>) {
    && |defs| >= 2
    && defs[0].layerType.Input?
    && defs[|defs|-1].layerType.Output?
    && forall i :: 0 <= i < |defs| ==> PreparedLayer(defs, i)
  }

  /** Defaulting an accepted list yields a prepared one: in particular a convolutional
      filter stays below the previous layer's (now defaulted) width and height. */
  lemma ValidThenDefaultedIsPrepared(defs: seq<LayerDefinition>)
    requires |defs| > 0 && ValidDefinition(defs)
    ensures Prepared(SetLayerDefinitionDefaults(defs))
  {
    var r := SetLayerDefinitionDefaults(defs);
    forall i | 0 <= i < |r|
      ensures PreparedLayer(r, i)
    {
      assert LayerRules(defs, i);
      assert r[i] == DefaultLayer(defs[i]);
      if defs[i].layerType.Convolutional? {
        assert r[i-1] == DefaultLayer(defs[i-1]);
      }
    }
  }

  /** Validation has to run first: after defaulting, every input layer has depth 1,
      which the "no depth for non-convolutional layers" rule rejects. */
  lemma ValidationMustPrecedeDefaults(defs: seq<LayerDefinition>)
    requires |defs| > 0
    ensures !ValidDefinition(SetLayerDefinitionDefaults(defs))
  {
    var r := SetLayerDefinitionDefaults(defs);
    if r[0].layerType.Input? {
      assert !LayerRules(r, 0);
    }
  }

  /** setLayerDefinitions: validate the raw list, abort if it is rejected, otherwise
      return the defaulted list. */
  method SetLayerDefinitions(defs: seq<LayerDefinition>) returns (r: Result<seq<LayerDefinition>>)
    requires |defs| > 0
    ensures r.Ok? <==> ValidDefinition(defs)
    ensures r.Abort? ==> r.reason == InvalidNetworkDefinition
    ensures r.Ok? ==> Prepared(r.value) && |r.value| == |defs|
    ensures r.Ok? ==> forall i :: 0 <= i < |defs| ==> r.value[i] == DefaultLayer(defs[i])
  {
    var isValid := IsValidNetworkDefinition(defs);
    if !isValid {
      return Abort(InvalidNetworkDefinition);
    }
    ValidThenDefaultedIsPrepared(defs);
    r := Ok(SetLayerDefinitionDefaults(defs));
  }
}
