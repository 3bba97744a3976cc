# mnist-dnn structure engine, modelled in Dafny

This project models the structure-building core of mnist-dnn, a C program that
trains a small neural network on the MNIST handwritten-digit images. It also models
the byte and offset helpers that read the MNIST data files.

A network is described by a list of layer definitions. Each definition gives the
layer kind (input, convolutional, fully connected, output), an activation function,
a node map (width x height x depth) and a filter size. From that list the program:

- validates the list and fills in defaults (`setLayerDefinitions`);
- computes every size: nodes per layer, backward and forward connections per node,
  weights per layer, and the byte sizes of nodes, columns, layers and the whole
  network (`getNetworkSize` and its helpers);
- lays the network out in one allocation: the header, then layer records that
  contain their columns and nodes, then one block of weights;
- wires each node's backward connections into the previous layer. A fully
  connected node gets one weight per previous node. A convolutional node gets a
  filter window into the previous layer, with the weights shared by all nodes of
  the same depth level (`calcStride`, `calcFilterColumnIds`);
- discovers each interior node's forward connections by scanning the next layer's
  backward connections for pointers back to it (`initNetworkForwardConnections`);
- feeds an input vector into the input layer and reads the classification off the
  output layer (`feedInput`, `getNetworkClassification`).

The model keeps the network as a value: layers hold columns, columns hold nodes.
A connection names its target node by (layer, column, level) and its weight by its
index in the weight block. The byte layout is modelled separately (module `Arena`).
There it is shown that distinct nodes occupy disjoint bytes, so comparing node
positions is the same as the C program's pointer comparison. Each `exit(1)` of the
C code is an `Abort` carrying the reason. The platform's `sizeof` values are a
parameter.

The layer self-check of initNetworkLayer (dnn.c:1284-1288) is modelled as an abort
with LayerInitMismatch in `Construction.InitNetworkLayers`, which shows that it
cannot fire on a buildable list. The weight-count check of setNetworkDefaults is
modelled the same way in `Construction.SetNetworkDefaults`.

Forward discovery writes at most getNodeForwardConnectionCount connections per node
and terminates otherwise. `FanOut` shows that the bound holds for every interior
node except in one case: an interior input or output layer (bound 0) followed by a
layer with backward connections. So `createNetwork` succeeds on a buildable list
exactly when there is no such layer, which covers every list whose interior layers
are all convolutional or fully connected.

Modules, in dependency order:

- `Outcomes`: the result types.
- `LayerDefs`: definitions, validation and defaulting.
- `Geometry`: counts and byte sizes.
- `Structures`: the network records.
- `Arith`: small arithmetic lemmas.
- `Wiring`: stride, filter window, backward connection lists.
- `Arena`: the byte layout.
- `Construction`: building layers, columns and nodes.
- `ForwardLinks`: forward discovery.
- `FanOut`: how many forward connections discovery can find, against the bound
  getNodeForwardConnectionCount predicts.
- `Creation`: `createNetwork`.
- `Mnist`: the data-file helpers.
- `Runtime`: feeding and classification.

## Model

| member | source | states |
|---|---|---|
| LayerDefs.IsValidNetworkDefinition | dnn.c:1405-1472 | The loop's verdict is true exactly when the list starts with an input layer, ends with an output layer, and every layer obeys the per-layer rules (known kind; some dimension set; no depth except on convolutional layers; a convolutional filter that is set, at most 10, and smaller than the previous layer's width and height; a known activation off the input layer). |
| LayerDefs.DefaultLayer | dnn.c:1483-1499 | Defaulting keeps kind and activation, turns every unset (zero) dimension into 1, keeps set ones, and clears the filter of non-convolutional layers. |
| LayerDefs.SetLayerDefinitionDefaults | dnn.c:1483-1499 | Defaulting the whole list keeps its length, every kind and activation, and every set dimension; each unset dimension becomes 1; a convolutional layer keeps its filter and every other layer's filter becomes 0. |
| LayerDefs.DefaultsIdempotent | dnn.c:1483-1499 | Defaulting twice is the same as defaulting once. |
| LayerDefs.ValidThenDefaultedIsPrepared | dnn.c:1510-1533 | An accepted list, once defaulted, has every property the builder relies on, including a filter below the previous layer's defaulted width and height. |
| LayerDefs.ValidationMustPrecedeDefaults | dnn.c:1510-1533 | No defaulted list passes validation, because defaulting gives the input layer depth 1; this is why the validation runs first. |
| LayerDefs.SetLayerDefinitions | dnn.c:1510-1533 | Aborts with InvalidNetworkDefinition exactly when the raw list is rejected; otherwise returns each layer defaulted, and the result is ready to build. |
| Geometry.PreparedIsLinked | dnn.c:63-128 | In a prepared list every layer that reads its previous or next neighbour has one. |
| Geometry.NodeBackwardConnectionCount | dnn.c:63-88 | Aborts with WrongLayerType exactly on an unknown layer kind. |
| Geometry.NodeForwardConnectionCount | dnn.c:99-128 | Aborts with WrongLayerType exactly when a layer that is neither input nor output is followed by a layer kind without backward connections (input, unset or unknown). |
| Geometry.LayerWeightCount | dnn.c:138-164 | Aborts with WrongLayerType exactly on an unknown layer kind. |
| Geometry.LayerWeightBlockSize | dnn.c:190-196 | Defined exactly when the weight count is, and then the count times the weight size. |
| Geometry.NodeSize | dnn.c:230-240 | Defined exactly when both connection counts are; aborts with WrongLayerType otherwise. |
| Geometry.ColumnSize | dnn.c:250-259 | Defined exactly when the node size is; the column header plus depth nodes. |
| Geometry.LayerSize | dnn.c:272-279 | Defined exactly when the column size is; the layer header plus width x height columns. |
| Geometry.WeightBlockSum | dnn.c:209-217 | The loop over the first n layers aborts exactly when one of them has an unknown kind; on a sizeable list its result is the weights of those layers times the weight size. |
| Geometry.NetworkWeightBlockSize | dnn.c:209-217 | The weight block size, with the same abort condition, is the total weight count times the weight size. |
| Geometry.LayerSizeSum | dnn.c:297-313 | The running sum of layer sizes aborts exactly when some size in the prefix is undefined, and otherwise equals the prefix sum of the layer sizes. |
| Geometry.NetworkSize | dnn.c:297-313 | The network size is defined exactly when every layer's size is; it is then the header, plus all layer records, plus the weight block. |
| Wiring.CeilDiv | dnn.c:802-806 | The ceiling of a/b: the least q with a <= q*b. |
| Wiring.CalcStride | dnn.c:802-806 | The stride is the least step for which srcWidth-1 steps cover tgtWidth-filter cells. |
| Wiring.StridePositive | dnn.c:802-806 | A filter smaller than the previous layer's width gives a stride of at least 1. |
| Wiring.FilterCellMeaning | dnn.c:827-865 | A window cell is marked out of range exactly when it falls off the right or bottom edge of the previous layer; otherwise its id is the row-major column id of that cell, with row and column recoverable by / and %. |
| Wiring.FilterColumnIds | dnn.c:827-865 | The list has filter x filter entries, each out of range or a valid column id of the previous layer. |
| Wiring.FilterWindow | dnn.c:827-865 | Entry y*filter+x of the list is the cell (x, y) positions past the window origin, which is the source column's (x, y) times the stride. |
| Wiring.ConvNodeConnections | dnn.c:898-943 | A convolutional node has one connection per (previous level, filter position). |
| Wiring.ConvWiring | dnn.c:898-943 | Connection (level t, position p) is dead (no node, the null weight) for an out-of-range cell; otherwise it reaches that cell's node at level t through weight srcLevel*tgtDepth*f + t*f + p of the layer block, which lies inside the block. |
| Wiring.ConvCellWiring | dnn.c:898-943 | The same in window coordinates: the connection for cell (x, y) at level t is dead off the edge and otherwise reaches the node of previous-layer column (startY+y)*width + startX+x. |
| Wiring.ConvConnectionBounds | dnn.c:898-943 | Every connection of a convolutional node is dead, or reaches an existing node of the previous layer through a weight inside the layer's block. |
| Wiring.WindowPos | dnn.c:827-865 | A previous-layer cell inside a column's filter window has a position in that window below filter x filter. |
| Wiring.WindowHit | dnn.c:827-865 | An in-range entry p of a column's filter list names a cell inside the window, and p is that cell's window position. |
| Wiring.WindowHitCell | dnn.c:827-865 | The in-range entry for window cell (x, y) lies on row startY+y and column startX+x of the previous layer. |
| Wiring.WindowPosDecreasing | dnn.c:802-865 | Of two columns whose windows both cover a cell, the later column (starting further right or lower, since the stride is positive) sees the cell at a strictly earlier window position. |
| Wiring.FCNodeConnections | dnn.c:957-998 | A dense node has one connection per previous-layer node. |
| Wiring.FCWiring | dnn.c:957-998 | Connection col*depth+lvl reaches previous node (col, lvl) through the node's weight run at that offset. |
| Wiring.FCConnection | dnn.c:957-998 | Connection i reaches previous node (i / depth, i % depth) through weight base+i. |
| Arena.WalkMatchesPrefixSum | dnn.c:389-401 | Walking the stored layer sizes reaches the same offset as summing the layer sizes the definitions give. |
| Arena.LayerOffsetMonotone | dnn.c:1261-1269 | Later layers start no earlier. |
| Arena.NodeStrideIsNodeSize | dnn.c:327-336 | The node stride getColumnNode uses equals the node size initNetworkNodes steps by. |
| Arena.NodeInsideColumn | dnn.c:370-376 | A node's bytes lie within its column's, after the column header. |
| Arena.LayerBytesAreColumns | dnn.c:1266-1269 | The next layer record starts after this layer's header and its width x height columns. |
| Arena.ColumnInsideLayer | dnn.c:350-358 | A column's bytes lie within its layer record, after the layer header. |
| Arena.NodesDisjoint | dnn.c:370-376 | The node at an earlier position ends before the node at a later position starts. |
| Arena.EarlierNodeLower | dnn.c:370-376 | The node at an earlier position has the strictly lower address. |
| Arena.NodeAddressInjective | dnn.c:1013-1053 | Two valid positions have the same node address exactly when they are the same position, so the pointer test of forward discovery compares positions. |
| Arena.WeightsBeforeMonotone | dnn.c:1271-1274 | Each layer's weight pointer is no earlier than the one of any layer before it. |
| Arena.WeightBlockAtTail | dnn.c:1333-1359 | The weight block starts where the layer records end and runs to the end of the allocation; each layer's weights lie inside it. |
| Construction.LayerFilterIds | dnn.c:1097-1111 | Convolutional layers get a non-empty window of filter x filter valid previous-layer ids; other layers an empty list. |
| Construction.BackwardConnections | dnn.c:1158-1201 | A node gets exactly as many backward connections as getNodeBackwardConnectionCount predicts. |
| Construction.InitNode | dnn.c:1124-1143 | A fresh node carries the predicted counts and connection slots, its backward connections first and unset forward slots after them. |
| Construction.InitColumn | dnn.c:1214-1249 | A column holds depth nodes, node n built for level n. |
| Construction.InitLayer | dnn.c:1261-1293 | A layer record carries its id, definition, size and width x height columns, column c built for position c. |
| Construction.InitNetworkLayers | dnn.c:1306-1319 | The first loop of initNetwork cannot fail on a buildable list and yields layer i for each i. |
| Construction.SetNetworkDefaults | dnn.c:1333-1359 | The header's weight count cross-check cannot fail; the weight block sits at the end of the layer records and fills the rest of the allocation. |
| Construction.DenseBackward | dnn.c:1181-1190 | A dense node's backward connections are the dense wiring over all previous-layer nodes, from the node's own weight run. |
| Construction.ConvBackward | dnn.c:1193-1196 | A convolutional node's backward connections are the convolutional wiring from the layer's first weight, shared by every node of the same level. |
| Construction.ConvWeightShared | dnn.c:898-943 | A backward slot of a convolutional node uses the same weight in every column of the layer wherever it is live, so the filter's weights are shared. |
| Construction.DenseWeightInBlock | dnn.c:1181-1187 | Every weight of a dense node's run lies inside its layer's block. |
| Construction.DenseRunInBlock | dnn.c:1181-1187 | A dense node's whole weight run ends inside its layer's block. |
| Construction.DenseRunWithinLayer | dnn.c:1181-1187 | The run of node (c, n) ends within the layer's weight count. |
| Construction.DenseRunsDisjoint | dnn.c:1181-1187 | Weight runs of distinct dense nodes of one layer do not overlap. |
| Construction.LayerWeightBlocksDisjoint | dnn.c:1271-1274 | An earlier layer's weight block ends before a later layer's starts. |
| Construction.DenseConnectionInRange | dnn.c:957-998 | Every backward connection of a dense node reaches an existing node of the previous layer through a weight of its own layer's block. |
| Construction.ConvConnectionInRange | dnn.c:898-943 | Every backward connection of a convolutional node is dead or reaches an existing previous-layer node through a weight of its own layer's block. |
| Construction.BackwardConnectionInRange | dnn.c:1158-1201 | The same for every node of every layer kind. |
| ForwardLinks.NodeEdges | dnn.c:1027-1044 | The scanned connections of one next-layer node are its backward ones, in slot order. |
| ForwardLinks.ColumnEdgesFrom | dnn.c:1021-1047 | Every scanned connection of a column comes from one of its nodes' backward slots. |
| ForwardLinks.LayerEdgesFrom | dnn.c:1021-1047 | Every scanned connection of a layer comes from a backward slot of one of its nodes. |
| ForwardLinks.ColumnEdgesCover | dnn.c:1021-1047 | Every backward slot of every scanned node of a column is scanned. |
| ForwardLinks.LayerEdgesCover | dnn.c:1021-1047 | Every backward slot of every scanned node of a layer is scanned. |
| ForwardLinks.Discover | dnn.c:1013-1053 | Discovery finds at most one connection per scanned slot. |
| ForwardLinks.DiscoverAppend | dnn.c:1013-1053 | Discovering over two scans in turn is discovering over each and concatenating. |
| ForwardLinks.DiscoverMembership | dnn.c:1013-1053 | Node y over weight w is found exactly when y has a backward connection to the node over w. |
| ForwardLinks.DiscoverLive | dnn.c:1013-1053 | Every found connection is live and mirrors a scanned backward connection. |
| ForwardLinks.DiscoverPosition | dnn.c:1013-1053 | A matching scanned slot j lands at the position counted by the matches before j. |
| ForwardLinks.DiscoverPositionMonotone | dnn.c:1013-1053 | Earlier matches land at earlier positions. |
| ForwardLinks.ForwardWireNode | dnn.c:1013-1053 | Aborts with ForwardCapacityExceeded exactly when more connections are found than the predicted bound; otherwise writes the found connections right after the backward ones, sets the forward count to their number, and changes nothing else. |
| ForwardLinks.WiredLayer | dnn.c:1064-1084 | Wiring a layer changes only its nodes' connections and forward counts. |
| ForwardLinks.ForwardWireLayer | dnn.c:1064-1084 | Wiring one layer aborts only for capacity and leaves every other layer alone. |
| ForwardLinks.ForwardWireFrom | dnn.c:1306-1319 | The second loop of initNetwork aborts only for capacity. |
| ForwardLinks.WireFromMidway | dnn.c:1306-1319 | Resumed at layer l, the loop succeeds exactly when every remaining layer fits, and then yields the linked layers. |
| ForwardLinks.ForwardWireAll | dnn.c:1306-1319 | The whole loop succeeds exactly when every layer fits, and then yields the linked layers. |
| ForwardLinks.ForwardSound | dnn.c:1013-1053 | Every forward connection of an interior node reaches a node of the next layer that has a backward connection to it over the same weight. |
| ForwardLinks.ForwardComplete | dnn.c:1013-1053 | Every backward connection of a next-layer node to an interior node appears among that node's forward connections. |
| ForwardLinks.LinkedKeepsBackward | dnn.c:1064-1084 | Forward wiring keeps every node's backward connections and never raises its forward count; the first and last layers are untouched. |
| FanOut.CountTrue | dnn.c:1013-1053 | The number of marked entries is at most the length, and zero when nothing is marked. |
| FanOut.RankedCount | dnn.c:1013-1053 | Marked entries with strictly increasing ranks below b number at most b. |
| FanOut.DiscoverAtMostOnce | dnn.c:1027-1044 | A scan in which at most one slot points at a node finds at most one connection for it. |
| FanOut.NodeDiscoverAtMostOnce | dnn.c:1027-1044 | The same for the backward slots of one next-layer node. |
| FanOut.ColumnDiscoverBound | dnn.c:1021-1047 | Scanning k nodes of a column, each pointing at a node at most once, finds at most k connections, and none when the column misses it. |
| FanOut.WeightedIsProduct | dnn.c:1021-1047 | Charging w per marked column adds up to w times the number of marked columns. |
| FanOut.LayerDiscoverBound | dnn.c:1021-1047 | Scanning the first k columns finds at most depth connections per marked column and none from unmarked ones. |
| FanOut.DenseAtMostOnce | dnn.c:957-998 | A dense node's backward connections reach each previous-layer node at most once. |
| FanOut.ConvSlotHit | dnn.c:898-943 | A convolutional slot that reaches previous node (c, n) belongs to a column whose window covers c, and is slot n*f^2 plus c's window position. |
| FanOut.ConvAtMostOnce | dnn.c:898-943 | A convolutional node's backward connections reach a previous-layer node at most once, and only when its column's window covers that node's column. |
| FanOut.CoverMarks | dnn.c:827-865 | One mark per column of a convolutional layer: whether its window covers a given previous-layer column. |
| FanOut.CoverCount | dnn.c:802-865 | At most filter x filter columns of a convolutional layer have windows covering any one previous-layer column. |
| FanOut.BuiltNode | dnn.c:1124-1201 | A built node is sound and its backward part is the node's backward wiring. |
| FanOut.BuiltLayerSound | dnn.c:1261-1293 | A built layer is sound. |
| FanOut.BuiltScanBound | dnn.c:1013-1053 | Discovery over a built layer finds at most depth connections per column marked as reaching the node. |
| FanOut.InputNotWired | dnn.c:63-88 | An input node has no backward connections. |
| FanOut.InputScan | dnn.c:1013-1053 | Scanning an input layer finds nothing, as it has no backward connections. |
| FanOut.DenseScan | dnn.c:94-128 | Scanning a dense next layer finds at most its node count, the bound for a next layer that is fully connected or output. |
| FanOut.ConvScan | dnn.c:94-128 | Scanning a convolutional next layer finds at most filter^2 x depth connections, the bound for that case. |
| FanOut.NodeFanOutBound | dnn.c:94-128 | Unless an interior input or output layer is followed by a layer with backward connections, discovery finds no more connections for any interior node than getNodeForwardConnectionCount allows. |
| FanOut.FirstSlotReachesFirstNode | dnn.c:898-998 | The first backward slot of node (0, 0) of a fully connected, output or convolutional layer reaches node (0, 0) of the previous layer. |
| FanOut.UnpredictedFanOut | dnn.c:94-128 | An interior input or output layer followed by a layer with backward connections has bound 0, yet discovery finds a connection for its node (0, 0). |
| FanOut.LayerFitsIff | dnn.c:1064-1084 | An interior built layer fits its forward bounds exactly when it is not an input or output layer followed by a layer with backward connections. |
| Creation.ForwardBoundSuffices | dnn.c:1306-1319 | Every interior layer of the built network fits its forward bounds exactly when no interior input or output layer is followed by a layer with backward connections. |
| Creation.CreateNetworkSucceeds | dnn.c:1372-1393 | On a list whose sizes are defined, createNetwork succeeds exactly when no interior input or output layer is followed by a layer with backward connections. |
| Creation.BuiltLayers | dnn.c:1306-1319 | The built layers are sound, one per definition, layer l built for definition l. |
| Creation.LinkedShaped | dnn.c:1306-1319 | The linked layers have the shape the definitions give: counts, backward counts, slot counts, and forward counts within the bound. |
| Creation.Wired | dnn.c:1306-1319 | The layers of a created network have the shape the definitions give. |
| Creation.CreateNetwork | dnn.c:1372-1393 | Aborts with WrongLayerType exactly when some size is undefined; otherwise aborts with ForwardCapacityExceeded exactly when forward discovery overflows a node, and else returns the linked layers with the header of setNetworkDefaults. |
| Creation.WiredBackward | dnn.c:1158-1201 | In a created network every node's backward part is what initNetworkNodes wired. |
| Creation.ForwardMirrorsBackward | dnn.c:1013-1053 | Each forward connection of an interior node reaches an existing node of the next layer, which has a backward connection to it over the same weight, and that weight is in the next layer's block. |
| Creation.ForwardCoversBackward | dnn.c:1013-1053 | Each backward connection reaching an interior node appears among its forward connections, over the same weight. |
| Runtime.CreatedIsReady | dnn.c:1372-1393 | A created network has a level-0 node in every column of its input and output layers, and its input outputs start at zero. |
| Runtime.WiredReady | dnn.c:1306-1319 | The linked layers have those level-0 nodes, and the input layer's outputs are zero. |
| Runtime.WiredInputOutput | dnn.c:1124-1143 | Every input-layer node starts with output 0, and forward discovery does not change it. |
| Runtime.FeedInput | dnn.c:710-725 | Aborts with InputSizeMismatch exactly when the vector's count differs from the input layer's column count; otherwise the input layer reads back the vector and nothing else changes. |
| Runtime.FeedInputValuesIsIdentity | dnn.c:710-725 | Feeding in what the input layer already holds leaves the network unchanged. |
| Runtime.FeedInputOverwrites | dnn.c:710-725 | A second feed overwrites the first completely. |
| Runtime.ClassificationUnique | dnn.c:735-754 | The description of the classification leaves exactly one answer for any outputs. |
| Runtime.GetNetworkClassification | dnn.c:735-754 | Returns 0 when no output is positive; otherwise the first index holding the largest output. |
| Mnist.FlipBytes | util/mnist-utils.c:24-35 | Byte k of the argument becomes byte 3-k of the result. |
| Mnist.FlipBytesInvolution | util/mnist-utils.c:24-35 | Flipping twice gives the number back. |
| Mnist.LoadLittleEndian | util/mnist-utils.c:52 | The word fread stores from four bytes on a little-endian host has those bytes, first one least significant. |
| Mnist.BigEndian | util/mnist-utils.c:52-53 | The big-endian number of four bytes has them in reverse significance. |
| Mnist.ReadField | util/mnist-utils.c:52-53 | Read then flipped, a header field is the big-endian number of its four bytes, and writing it back big-endian gives those bytes. |
| Mnist.ReadFieldOfBytes | util/mnist-utils.c:52-53 | Reading back a number written big-endian gives the number. |
| Mnist.ReadImageFileHeader | util/mnist-utils.c:45-63 | The four image header fields are the big-endian numbers of bytes 0-3, 4-7, 8-11 and 12-15. |
| Mnist.ReadLabelFileHeader | util/mnist-utils.c:73-84 | The two label header fields are the big-endian numbers of bytes 0-3 and 4-7. |
| Mnist.ImageHeaderFileBytes | util/mnist-utils.h:80-85 | An image file header occupies 16 bytes. |
| Mnist.LabelHeaderFileBytes | util/mnist-utils.h:98-101 | A label file header occupies 8 bytes. |
| Mnist.ImageHeaderRoundTrip | util/mnist-utils.c:45-63 | Decoding a written image header gives it back, whatever follows. |
| Mnist.ImageHeaderBytesRoundTrip | util/mnist-utils.c:45-63 | Re-encoding a decoded image header reproduces the first 16 file bytes. |
| Mnist.LabelHeaderRoundTrip | util/mnist-utils.c:73-84 | Decoding a written label header gives it back, whatever follows. |
| Mnist.LabelHeaderBytesRoundTrip | util/mnist-utils.c:73-84 | Re-encoding a decoded label header reproduces the first 8 file bytes. |
| Mnist.ImageOffset | util/mnist-utils.c:165 | Image p starts at byte 16 + 784p, and for every int position it ends below 2^63, so neither size_t nor fseek's long offset wraps. |
| Mnist.LabelOffset | util/mnist-utils.c:206 | Label p is at byte 8 + p, again without wrap-around. |
| Mnist.RecordsDisjoint | util/mnist-utils.c:161-173 | Records at different positions do not overlap, and the first starts after the header. |
| Mnist.ReadRecordAt | util/mnist-utils.c:165-170 | A seek-and-read succeeds exactly when the record lies within the file, and then returns its bytes; otherwise ShortRead. |
| Mnist.GetImageByPosition | util/mnist-utils.c:161-173 | Succeeds exactly when image p lies within the file, and returns bytes 16+784p up to 16+784(p+1); otherwise ShortRead. |
| Mnist.GetLabelByPosition | util/mnist-utils.c:202-214 | Succeeds exactly when byte 8+p exists, and returns it; otherwise ShortRead. |
| Mnist.Open | util/mnist-utils.c:95-108 | Opening reads the header, leaving the position after it, or at the end of a shorter file. |
| Mnist.ReadNext | util/mnist-utils.c:141-152 | Reading the next record succeeds exactly when it lies within the file, returns its bytes and moves past it; otherwise ShortRead. |
| Mnist.SkipReachesOffset | util/mnist-utils.c:141-173 | After k records read in turn from a freshly opened file, the position is the by-position offset of record k. |
| Mnist.SkipStopsAtEnd | util/mnist-utils.c:141-152 | Reading k records in turn fails with ShortRead when the file ends before record k. |
| Mnist.SequentialImageIsPositional | util/mnist-utils.c:141-173 | The image getImage returns after k earlier calls is the image getImageByPosition returns for position k. |
| Mnist.SequentialLabelIsPositional | util/mnist-utils.c:182-214 | The label getLabel returns after k earlier calls is the label getLabelByPosition returns for position k. |
| Mnist.PixelValueBounds | util/mnist-utils.c:233 | A pixel's input value lies in [-127/128, 1], and the pixel can be read back from it. |
| Mnist.VectorFromImage | util/mnist-utils.c:224-236 | The vector has 784 values; value i is pixel i scaled, lies in [-127/128, 1], and gives pixel i back. |
| Mnist.VectorFromImageInjective | util/mnist-utils.c:224-236 | Different images give different input vectors. |
| Mnist.PixelValueMonotone | util/mnist-utils.c:233 | A brighter pixel gives a larger input value, and only a brighter one does. |

## Left out

- Numerics: activation functions, feed-forward, back-propagation and weight updates (dnn.c:405-699). Outputs and weights are real numbers, not doubles; NaN is not modelled.
- initNetworkWeights (dnn.c:764-789) draws random weights and biases; the model leaves weights at their initial values.
- Memory: malloc/calloc/free, and the varargs of setLayerDefinitions (a sequence stands for them).
- File handling: fopen failure, and short reads of a header (a partially read field is indeterminate in C). Header decoding is modelled for files that hold the whole header.
- Mnist.ReadImageFileHeader: requires the 16 header bytes to be present, because a field fread only partly fills has no defined value.
- Mnist.ReadLabelFileHeader: requires the 8 header bytes to be present, for the same reason.
- Mnist.ImageOffset: positions are non-negative. A negative int position converts to a huge size_t, and fseek then fails; that path is not modelled.
- Mnist.LabelOffset: positions are non-negative, for the same reason.
- Screen output and statistics (util/screen.c, util/mnist-stats.c), the training and testing loops of main.c, and the wip/ sources.
- An empty definition list: with a layer count of 0, isValidNetworkDefinition reads a first and a last definition that do not exist (dnn.c:1410, 1413) and setLayerDefinitions allocates zero bytes (dnn.c:1513), which is undefined behaviour, so LayerDefs.IsValidNetworkDefinition and LayerDefs.SetLayerDefinitions require a non-empty list.
- Integer widths in dnn.c: sizes and counts are unbounded naturals, so int overflow for huge layer definitions is not modelled.
- Negative dimensions and filters: the C fields are int, and validation tests only for zero and for upper bounds (dnn.c:1429-1455). So a negative filter on a convolutional layer passes isValidNetworkDefinition, and so do negative dimensions. The model's dimensions and filter are naturals, so such lists cannot be written.
- calcStride divides by srcWidth-1 in double arithmetic. createFilterColumnIds runs for every column of every layer, not only convolutional ones (dnn.c:1101, 1168); for layer 0 its "previous layer" is layer 0 itself. So any layer of width 1 divides by zero, and converting the resulting infinity or NaN to int is undefined behaviour, even though a filter of 0 makes the window empty. The model does not compute a stride for a non-convolutional layer: Construction.LayerFilterIds returns the empty list for it. For a convolutional layer of width 1, which validation does not exclude, building is modelled only for lists where every convolutional layer is wider than 1. The stride is exact integer ceiling division: the double division cannot round across an integer for operands in int range.
- Forward discovery: when a node finds one connection more than its bound, the C code writes that connection one slot past the node's connections before it terminates. The model terminates without that write.
- Forward discovery in the model decides per layer whether every node fits, then links the layer; the C code links node by node and stops at the first overflow. Both terminate on the same inputs, which ForwardLinks.WireFromMidway states; the partially linked state before termination is not modelled.
- The column self-check of initNetworkColumns (dnn.c:1238-1242) compares the same expression on both sides, so it cannot fire; it is not modelled.
- The weight-count check of setNetworkDefaults (dnn.c:1354-1357) converts to double; the model compares exactly and shows that the check cannot fire.
- Platform layout: the byte layout (module Arena) assumes that a flexible array member starts at offset sizeof(header), as it does for these structs on common LP64 platforms; C itself only promises that it starts no later.
- Mnist.ImageOffset: the "no wrap-around" bound assumes fseek's long offset is 64 bits wide (LP64); on a platform with a 32-bit long, images past about 2.7 million would wrap.
