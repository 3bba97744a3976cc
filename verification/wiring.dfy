/** Backward-connection wiring (dnn.c:795-998): the convolutional stride and filter
 window, the filter-window wiring of a convolutional node with weights shared across
 spatial positions, and the dense wiring of a fully-connected node with one weight
 per connection.

 Connections are returned as the final content of a node's backward-connection
 slots; weight slots are counted from the start of the network's weight block.
 */
module Wiring {
  import opened Outcomes
  import opened Arith
  import opened Structures

  /** OUT_OF_RANGE: the marker for a filter position outside the previous layer. */
  const OutOfRange: int := -1

  /** The ceiling of a / b, for a positive divisor. */
  function CeilDiv(a: int, b: int): (q: int)
    requires b > 0
    ensures (q - 1) * b < a <= q * b
  {
    var f := (-a) / b;
    assert -a == f * b + (-a) % b;
    -f
  }

  /** calcStride: the smallest step at which `srcWidth` windows of width `filter`,
      started at 0, stride, 2*stride, ..., reach the right edge of a target row of
      width `tgtWidth`. The C code divides as doubles and rounds up; for int operands
      the double quotient of a non-integral ratio is never rounded onto an integer,
      so this is exact. A source width of 1 would divide by zero. */
  function CalcStride(tgtWidth: int, filter: int, srcWidth: int): (stride: int)
    requires srcWidth > 1
    ensures (stride - 1) * (srcWidth - 1) < tgtWidth - filter <= stride * (srcWidth - 1)
  {
    CeilDiv(tgtWidth - filter, srcWidth - 1)
  }

  /** A filter narrower than the target row advances by at least one column. */
  lemma StridePositive(tgtWidth: int, filter: int, srcWidth: int)
    requires srcWidth > 1 && filter < tgtWidth
    ensures CalcStride(tgtWidth, filter, srcWidth) >= 1
  {
  }

  /** One cell of calcFilterColumnIds: the target column id for filter row `y` and
      column `x` of a window whose top-left corner is (startX, startY), with the two
      out-of-range tests of the C code (right and bottom overflow). */
  function FilterCell(tgtWidth: nat, tgtHeight: nat, startX: nat, startY: nat, y: nat, x: nat): int
    requires tgtWidth > 0
  {
    var colId := (startY + y) * tgtWidth + (startX + x);
    if colId / tgtWidth > startY + y || colId >= tgtWidth * tgtHeight then OutOfRange else colId
  }

  /** What a filter cell means: it is out of range exactly when its position falls
      right of or below the target node map, and otherwise it is the id of the
      column at row startY+y, column startX+x of that map. */
  lemma FilterCellMeaning(tgtWidth: nat, tgtHeight: nat, startX: nat, startY: nat, y: nat, x: nat)
    requires tgtWidth > 0
    ensures FilterCell(tgtWidth, tgtHeight, startX, startY, y, x) == OutOfRange
        <==> startX + x >= tgtWidth || startY + y >= tgtHeight
    ensures FilterCell(tgtWidth, tgtHeight, startX, startY, y, x) != OutOfRange ==>
      var id := FilterCell(tgtWidth, tgtHeight, startX, startY, y, x);
      && id == (startY + y) * tgtWidth + (startX + x)
      && 0 <= id < tgtWidth * tgtHeight
      && id / tgtWidth == startY + y
      && id % tgtWidth == startX + x
  {
    var row := startY + y;
    var col := startX + x;
    var colId := row * tgtWidth + col;
    if col < tgtWidth {
      DivModUnique(colId, tgtWidth, row, col);
      if row >= tgtHeight {
        MulMonotone(tgtHeight, row, tgtWidth);
      } else {
        MulStrictMonotone(row, tgtHeight, tgtWidth);
      }
    } else {
      assert colId == (row + 1) * tgtWidth + (col - tgtWidth);
      DivLowerBound(colId, tgtWidth, row + 1);
    }
  }

  /** The top-left corner of the filter window of source column `srcColId`:
      ((srcColId mod srcWidth) * stride, floor(srcColId / srcWidth) * stride). */
  function WindowStartX(srcWidth: nat, tgtWidth: nat, filter: nat, srcColId: nat): nat
    requires 1 < srcWidth && filter < tgtWidth
  {
    StridePositive(tgtWidth, filter, srcWidth);
    (srcColId % srcWidth) * CalcStride(tgtWidth, filter, srcWidth)
  }

  function WindowStartY(srcWidth: nat, tgtWidth: nat, filter: nat, srcColId: nat): nat
    requires 1 < srcWidth && filter < tgtWidth
  {
    StridePositive(tgtWidth, filter, srcWidth);
    (srcColId / srcWidth) * CalcStride(tgtWidth, filter, srcWidth)
  }

  /** Entry p of the filter window, at filter row p / filter and column p % filter. */
  function WindowCell(srcWidth: nat, tgtWidth: nat, tgtHeight: nat, filter: nat, srcColId: nat, p: nat): int
    requires 1 < srcWidth && filter < tgtWidth && p < filter * filter
  {
    PositiveFactor(p, filter);
    FilterCell(tgtWidth, tgtHeight, WindowStartX(srcWidth, tgtWidth, filter, srcColId),
               WindowStartY(srcWidth, tgtWidth, filter, srcColId), p / filter, p % filter)
  }

  /** calcFilterColumnIds: filter*filter target column ids in row-major order, each
      either OUT_OF_RANGE or a column id of the target (previous) layer. */
  function FilterColumnIds(srcWidth: nat, tgtWidth: nat, tgtHeight: nat, filter: nat, srcColId: nat): (ids: seq<int>)
    requires 1 < srcWidth && filter < tgtWidth
    ensures |ids| == filter * filter
    ensures forall p :: 0 <= p < |ids| ==> ids[p] == OutOfRange || 0 <= ids[p] < tgtWidth * tgtHeight
  {
    var ids := seq(filter * filter, p requires 0 <= p < filter * filter =>
      WindowCell(srcWidth, tgtWidth, tgtHeight, filter, srcColId, p));
    assert forall p :: 0 <= p < |ids| ==> ids[p] == OutOfRange || 0 <= ids[p] < tgtWidth * tgtHeight by {
      forall p | 0 <= p < |ids|
        ensures ids[p] == OutOfRange || 0 <= ids[p] < tgtWidth * tgtHeight
      {
        PositiveFactor(p, filter);
        FilterCellMeaning(tgtWidth, tgtHeight, WindowStartX(srcWidth, tgtWidth, filter, srcColId),
                          WindowStartY(srcWidth, tgtWidth, filter, srcColId), p / filter, p % filter);
      }
    }
    ids
  }

  /** The filter window, position by position: entry y*filter + x is out of range
      exactly when the cell (startX+x, startY+y) lies right of or below the target
      map, and otherwise is the id of that cell. */
  lemma FilterWindow(srcWidth: nat, tgtWidth: nat, tgtHeight: nat, filter: nat, srcColId: nat, y: nat, x: nat)
    requires 1 < srcWidth && filter < tgtWidth
    requires y < filter && x < filter
    ensures y * filter + x < filter * filter
    ensures
      var ids := FilterColumnIds(srcWidth, tgtWidth, tgtHeight, filter, srcColId);
      var startX := (srcColId % srcWidth) * CalcStride(tgtWidth, filter, srcWidth);
      var startY := (srcColId / srcWidth) * CalcStride(tgtWidth, filter, srcWidth);
      && (ids[y * filter + x] == OutOfRange <==> startX + x >= tgtWidth || startY + y >= tgtHeight)
      && (ids[y * filter + x] != OutOfRange ==>
            && ids[y * filter + x] == (startY + y) * tgtWidth + (startX + x)
            && ids[y * filter + x] / tgtWidth == startY + y
            && ids[y * filter + x] % tgtWidth == startX + x)
  {
    RowMajor(filter, filter, y, x);
    var startX := WindowStartX(srcWidth, tgtWidth, filter, srcColId);
    var startY := WindowStartY(srcWidth, tgtWidth, filter, srcColId);
    FilterCellMeaning(tgtWidth, tgtHeight, startX, startY, y, x);
  }

  /** The filter window of source column srcColId covers the target cell (cx, cy). */
  predicate WindowCovers(srcWidth: nat, tgtWidth: nat, filter: nat, srcColId: nat, cx: nat, cy: nat)
    requires 1 < srcWidth && filter < tgtWidth
  {
    var sx := WindowStartX(srcWidth, tgtWidth, filter, srcColId);
    var sy := WindowStartY(srcWidth, tgtWidth, filter, srcColId);
    sx <= cx < sx + filter && sy <= cy < sy + filter
  }

  /** The filter position at which a covering window sees the cell (cx, cy). */
  function WindowPos(srcWidth: nat, tgtWidth: nat, filter: nat, srcColId: nat, cx: nat, cy: nat): (p: nat)
    requires 1 < srcWidth && filter < tgtWidth && WindowCovers(srcWidth, tgtWidth, filter, srcColId, cx, cy)
    ensures p < filter * filter
  {
    var sx := WindowStartX(srcWidth, tgtWidth, filter, srcColId);
    var sy := WindowStartY(srcWidth, tgtWidth, filter, srcColId);
    RowMajor(filter, filter, cy - sy, cx - sx);
    Flat(filter, cy - sy, cx - sx)
  }

  /** A window names a target column only where it covers that column's cell, and
      there at the one position WindowPos: no column appears twice in a window. */
  lemma WindowHit(srcWidth: nat, tgtWidth: nat, tgtHeight: nat, filter: nat, srcColId: nat, p: nat)
    requires 1 < srcWidth && filter < tgtWidth && p < filter * filter
    requires FilterColumnIds(srcWidth, tgtWidth, tgtHeight, filter, srcColId)[p] != OutOfRange
    ensures
      var t := FilterColumnIds(srcWidth, tgtWidth, tgtHeight, filter, srcColId)[p];
      && 0 <= t
      && WindowCovers(srcWidth, tgtWidth, filter, srcColId, t % tgtWidth, t / tgtWidth)
      && p == WindowPos(srcWidth, tgtWidth, filter, srcColId, t % tgtWidth, t / tgtWidth)
  {
    RowMajorSplit(filter, filter, p);
    var y, x := p / filter, p % filter;
    var t := WindowHitCell(srcWidth, tgtWidth, tgtHeight, filter, srcColId, y, x);
    assert WindowPos(srcWidth, tgtWidth, filter, srcColId, t % tgtWidth, t / tgtWidth) == Flat(filter, y, x);
  }

  /** The cell an in-range window entry names, split into row and column. */
  lemma WindowHitCell(srcWidth: nat, tgtWidth: nat, tgtHeight: nat, filter: nat, srcColId: nat, y: nat, x: nat)
    returns (t: int)
    requires 1 < srcWidth && filter < tgtWidth && y < filter && x < filter
    requires y * filter + x < filter * filter
    requires FilterColumnIds(srcWidth, tgtWidth, tgtHeight, filter, srcColId)[y * filter + x] != OutOfRange
    ensures t == FilterColumnIds(srcWidth, tgtWidth, tgtHeight, filter, srcColId)[y * filter + x] && 0 <= t
    ensures t / tgtWidth == WindowStartY(srcWidth, tgtWidth, filter, srcColId) + y
    ensures t % tgtWidth == WindowStartX(srcWidth, tgtWidth, filter, srcColId) + x
  {
    FilterWindow(srcWidth, tgtWidth, tgtHeight, filter, srcColId, y, x);
    t := FilterColumnIds(srcWidth, tgtWidth, tgtHeight, filter, srcColId)[y * filter + x];
  }

  /** Windows of later source columns see a covered cell at earlier filter positions:
      along a row the windows move right, from row to row they move down, each time
      by a stride of at least one. */
  lemma WindowPosDecreasing(srcWidth: nat, tgtWidth: nat, filter: nat, a: nat, b: nat, cx: nat, cy: nat)
    requires 1 < srcWidth && filter < tgtWidth && a < b
    requires WindowCovers(srcWidth, tgtWidth, filter, a, cx, cy)
    requires WindowCovers(srcWidth, tgtWidth, filter, b, cx, cy)
    ensures WindowPos(srcWidth, tgtWidth, filter, b, cx, cy) < WindowPos(srcWidth, tgtWidth, filter, a, cx, cy)
  {
    var s := CalcStride(tgtWidth, filter, srcWidth);
    StridePositive(tgtWidth, filter, srcWidth);
    var sxa, sya := WindowStartX(srcWidth, tgtWidth, filter, a), WindowStartY(srcWidth, tgtWidth, filter, a);
    var sxb, syb := WindowStartX(srcWidth, tgtWidth, filter, b), WindowStartY(srcWidth, tgtWidth, filter, b);
    assert WindowPos(srcWidth, tgtWidth, filter, a, cx, cy) == (cy - sya) * filter + (cx - sxa);
    assert WindowPos(srcWidth, tgtWidth, filter, b, cx, cy) == (cy - syb) * filter + (cx - sxb);
    RowMajorOrder(srcWidth, a, b);
    if a / srcWidth < b / srcWidth {
      MulStrictMonotone(a / srcWidth, b / srcWidth, s);
      MulStrictMonotone(cy - syb, cy - sya, filter);
    } else {
      MulStrictMonotone(a % srcWidth, b % srcWidth, s);
    }
  }

  /** Filter ids that are either OUT_OF_RANGE or a column id. */
  predicate ValidIds(ids: seq<int>) {
    forall p :: 0 <= p < |ids| ==> ids[p] == OutOfRange || ids[p] >= 0
  }

  /** The weight of filter position `pos` connecting level srcLevel of a convolutional
      layer to level tgtLevel of the previous layer, counted from the layer's first
      weight: srcLevel*tgtDepth*filterSize + tgtLevel*filterSize + pos. */
  function ConvWeight(srcLevel: nat, tgtLevel: nat, tgtDepth: nat, filterSize: nat, pos: nat): nat {
    srcLevel * (tgtDepth * filterSize) + tgtLevel * filterSize + pos
  }

  /** Backward slot `s` of a convolutional node at level `srcLevel` of layer `l`, as
      initNetworkBackwardConnectionsConvNode leaves it: slot tgtLevel*filterSize + pos
      connects to level tgtLevel of the column the filter puts at position pos, with
      the layer's weight srcLevel*tgtDepth*filterSize + tgtLevel*filterSize + pos;
      an out-of-range position gets no target and the null weight. */
  function ConvConnection(l: nat, layerBase: nat, srcLevel: nat, tgtDepth: nat, ids: seq<int>, s: nat): Conn
    requires 0 < l && 0 < |ids| && ValidIds(ids)
  {
    var filterSize := |ids|;
    var tgtLevel := s / filterSize;
    var pos := s % filterSize;
    if ids[pos] == OutOfRange then Conn(None, NullWeight)
    else Conn(Some(NodeRef(l - 1, ids[pos] as nat, tgtLevel)),
              Slot(layerBase + ConvWeight(srcLevel, tgtLevel, tgtDepth, filterSize, pos)))
  }

  function ConvNodeConnections(l: nat, layerBase: nat, srcLevel: nat, tgtDepth: nat, ids: seq<int>): (conns: seq<Conn>)
    requires 0 < l && 0 < |ids| && ValidIds(ids)
    ensures |conns| == tgtDepth * |ids|
  {
    seq(tgtDepth * |ids|, s requires 0 <= s < tgtDepth * |ids| => ConvConnection(l, layerBase, srcLevel, tgtDepth, ids, s))
  }

  /** The convolutional wiring, by (target level, filter position): the slot lies
      below the backward-connection count; an in-range position connects to the
      previous layer's node (ids[pos], tgtLevel) through a weight slot inside the
      layer's block that depends on (srcLevel, tgtLevel, pos) only, not on the
      column; an out-of-range position is dead and uses the null weight. */
  lemma ConvWiring(l: nat, layerBase: nat, srcLevel: nat, srcDepth: nat, tgtDepth: nat, ids: seq<int>, tgtLevel: nat, pos: nat)
    requires 0 < l && 0 < |ids| && ValidIds(ids)
    requires srcLevel < srcDepth && tgtLevel < tgtDepth && pos < |ids|
    ensures tgtLevel * |ids| + pos < tgtDepth * |ids|
    ensures
      var c := ConvNodeConnections(l, layerBase, srcLevel, tgtDepth, ids)[tgtLevel * |ids| + pos];
      var w := ConvWeight(srcLevel, tgtLevel, tgtDepth, |ids|, pos);
      && w < srcDepth * tgtDepth * |ids|
      && (ids[pos] == OutOfRange ==> c == Conn(None, NullWeight))
      && (ids[pos] != OutOfRange ==> c == Conn(Some(NodeRef(l - 1, ids[pos] as nat, tgtLevel)), Slot(layerBase + w)))
  {
    var fs := |ids|;
    RowMajor(tgtDepth, fs, tgtLevel, pos);
    RowMajor(srcDepth, tgtDepth * fs, srcLevel, tgtLevel * fs + pos);
    assert srcDepth * (tgtDepth * fs) == srcDepth * tgtDepth * fs;
  }

  /** The convolutional wiring by filter cell. Take filter row y and column x of the
      window of source column srcColId, and level tgtLevel of the target layer. The
      backward slot tgtLevel*filter^2 + y*filter + x is dead when the cell falls
      outside the target node map, and otherwise connects to the cell's column at
      level tgtLevel. Its weight is the cell's position in the weights of the
      source level. */
  lemma ConvCellWiring(l: nat, layerBase: nat, srcWidth: nat, tgtWidth: nat, tgtHeight: nat, filter: nat,
                       srcColId: nat, srcLevel: nat, srcDepth: nat, tgtLevel: nat, tgtDepth: nat, y: nat, x: nat)
    requires 0 < l && 1 < srcWidth && filter < tgtWidth
    requires srcLevel < srcDepth && tgtLevel < tgtDepth && y < filter && x < filter
    ensures
      var ids := FilterColumnIds(srcWidth, tgtWidth, tgtHeight, filter, srcColId);
      && 0 < |ids| && ValidIds(ids)
      && tgtLevel * |ids| + Flat(filter, y, x) < tgtDepth * |ids|
    ensures
      var ids := FilterColumnIds(srcWidth, tgtWidth, tgtHeight, filter, srcColId);
      var conn := ConvNodeConnections(l, layerBase, srcLevel, tgtDepth, ids)[tgtLevel * |ids| + Flat(filter, y, x)];
      var px := WindowStartX(srcWidth, tgtWidth, filter, srcColId) + x;
      var py := WindowStartY(srcWidth, tgtWidth, filter, srcColId) + y;
      var w := ConvWeight(srcLevel, tgtLevel, tgtDepth, |ids|, Flat(filter, y, x));
      && w < srcDepth * tgtDepth * |ids|
      && (px >= tgtWidth || py >= tgtHeight ==> conn == Conn(None, NullWeight))
      && (px < tgtWidth && py < tgtHeight ==> conn == Conn(Some(NodeRef(l - 1, Flat(tgtWidth, py, px), tgtLevel)), Slot(layerBase + w)))
  {
    var ids := FilterColumnIds(srcWidth, tgtWidth, tgtHeight, filter, srcColId);
    FilterWindow(srcWidth, tgtWidth, tgtHeight, filter, srcColId, y, x);
    ConvWiring(l, layerBase, srcLevel, srcDepth, tgtDepth, ids, tgtLevel, y * filter + x);
  }

  /** Every backward connection of a convolutional node is dead with the null weight,
      or reaches a column of the target node map at a level below its depth, over a
      weight of the layer's block. */
  lemma ConvConnectionBounds(l: nat, layerBase: nat, srcWidth: nat, tgtWidth: nat, tgtHeight: nat, filter: nat,
                             srcColId: nat, srcLevel: nat, srcDepth: nat, tgtDepth: nat, j: nat)
    requires 0 < l && 1 < srcWidth && filter < tgtWidth
    requires srcLevel < srcDepth && j < tgtDepth * (filter * filter)
    ensures 0 < filter
    ensures
      var conns := ConvNodeConnections(l, layerBase, srcLevel, tgtDepth,
                                       FilterColumnIds(srcWidth, tgtWidth, tgtHeight, filter, srcColId));
      && j < |conns|
      && (|| conns[j] == Conn(None, NullWeight)
          || (&& conns[j].target.Some?
              && conns[j].target.value.layer == l - 1
              && conns[j].target.value.column < tgtWidth * tgtHeight
              && conns[j].target.value.level < tgtDepth
              && conns[j].weight.Slot?
              && layerBase <= conns[j].weight.index < layerBase + srcDepth * tgtDepth * (filter * filter)))
  {
    var fs := filter * filter;
    RowMajorSplit(tgtDepth, fs, j);
    assert filter != 0;
    MulMonotone(1, filter, filter);
    var ids := FilterColumnIds(srcWidth, tgtWidth, tgtHeight, filter, srcColId);
    ConvWiring(l, layerBase, srcLevel, srcDepth, tgtDepth, ids, j / fs, j % fs);
  }

  /** initNetworkBackwardConnectionsFCNode: connection i goes to the i-th node of the
      previous layer, counting columns first and levels inside a column second, and
      uses the i-th weight of this node's own run of weights. */
  function FCNodeConnections(l: nat, nodeWeightBase: nat, prevColumns: nat, prevDepth: nat): (conns: seq<Conn>)
    requires 0 < l && 0 < prevDepth
    ensures |conns| == prevColumns * prevDepth
  {
    seq(prevColumns * prevDepth, i requires 0 <= i < prevColumns * prevDepth =>
      Conn(Some(NodeRef(l - 1, i / prevDepth, i % prevDepth)), Slot(nodeWeightBase + i)))
  }

  /** The dense wiring, by previous-layer node: the connection to node (col, lvl) of
      the previous layer sits in slot col*prevDepth + lvl and uses that slot's weight. */
  lemma FCWiring(l: nat, nodeWeightBase: nat, prevColumns: nat, prevDepth: nat, col: nat, lvl: nat)
    requires 0 < l && col < prevColumns && lvl < prevDepth
    ensures col * prevDepth + lvl < prevColumns * prevDepth
    ensures FCNodeConnections(l, nodeWeightBase, prevColumns, prevDepth)[col * prevDepth + lvl]
         == Conn(Some(NodeRef(l - 1, col, lvl)), Slot(nodeWeightBase + col * prevDepth + lvl))
  {
    RowMajor(prevColumns, prevDepth, col, lvl);
  }

  /** The dense wiring, by slot: slot i connects to node (i / prevDepth, i % prevDepth)
      of the previous layer, which exists, and uses the i-th weight past the base. */
  lemma FCConnection(l: nat, nodeWeightBase: nat, prevColumns: nat, prevDepth: nat, i: nat)
    requires 0 < l && 0 < prevDepth && i < prevColumns * prevDepth
    ensures i / prevDepth < prevColumns && i % prevDepth < prevDepth
    ensures FCNodeConnections(l, nodeWeightBase, prevColumns, prevDepth)[i]
         == Conn(Some(NodeRef(l - 1, i / prevDepth, i % prevDepth)), Slot(nodeWeightBase + i))
  {
    RowMajorSplit(prevColumns, prevDepth, i);
  }
}
