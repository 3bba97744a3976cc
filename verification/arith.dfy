/** Small facts about integer multiplication and Euclidean division that the
 address and index arithmetic of the network relies on. */
module Arith {

  lemma MulMonotone(a: nat, b: nat, c: nat)
    requires a <= b
    ensures a * c <= b * c
  {
  }

  lemma MulSucc(d: nat, a: nat)
    ensures d * (a + 1) == d * a + d
  {
  }

  /** The row-major index of (row, col) in a grid `cols` wide. */
  function Flat(cols: nat, row: nat, col: nat): nat {
    row * cols + col
  }

  /** Distinct multiples of w lie at least w apart. */
  lemma MulStrictMonotone(a: nat, b: nat, w: nat)
    requires a < b
    ensures a * w + w <= b * w
  {
    var d := b - a;
    assert b * w == a * w + d * w;
    MulMonotone(1, d, w);
  }

  /** Division and remainder are determined by any decomposition a == q*w + r with
      0 <= r < w. */
  lemma DivModUnique(a: nat, w: nat, q: nat, r: nat)
    requires w > 0 && r < w && a == q * w + r
    ensures a / w == q && a % w == r
  {
    var q' := a / w;
    var r' := a % w;
    assert a == q' * w + r';
    if q > q' {
      MulStrictMonotone(q', q, w);
    } else if q < q' {
      MulStrictMonotone(q, q', w);
    }
  }

  /** Row-major indexing: index y*cols + x splits back into (y, x) and stays below
      rows*cols. */
  lemma RowMajor(rows: nat, cols: nat, y: nat, x: nat)
    requires y < rows && x < cols
    ensures y * cols + x < rows * cols
    ensures (y * cols + x) / cols == y && (y * cols + x) % cols == x
  {
    DivModUnique(y * cols + x, cols, y, x);
    MulStrictMonotone(y, rows, cols);
  }

  /** Every index below rows*cols is the row-major index of its quotient and remainder. */
  lemma RowMajorSplit(rows: nat, cols: nat, i: nat)
    requires i < rows * cols
    ensures cols > 0 && i / cols < rows && i == (i / cols) * cols + i % cols
  {
    if cols > 0 && i / cols >= rows {
      MulMonotone(rows, i / cols, cols);
    }
  }

  /** Row-major order: a smaller index lies on an earlier row, or on the same row
      further left. */
  lemma RowMajorOrder(w: nat, a: nat, b: nat)
    requires w > 0 && a < b
    ensures a / w < b / w || (a / w == b / w && a % w < b % w)
  {
    assert a == (a / w) * w + a % w;
    assert b == (b / w) * w + b % w;
    if b / w < a / w {
      MulStrictMonotone(b / w, a / w, w);
    }
  }

  /** a / w is at least k whenever a is at least k*w. */
  lemma DivLowerBound(a: nat, w: nat, k: nat)
    requires w > 0 && a >= k * w
    ensures a / w >= k
  {
    if a / w < k {
      assert a == (a / w) * w + a % w;
      MulStrictMonotone(a / w, k, w);
    }
  }

  /** Dividing n*w by w as reals gives back n exactly. */
  lemma ExactQuotient(n: nat, w: nat)
    requires w > 0
    ensures ((n * w) as real) / (w as real) == n as real
  {
    assert (n * w) as real == (n as real) * (w as real);
  }

  /** The run of `width` items at row-major position (y, x) of a rows-by-cols grid of
      runs ends inside the grid. */
  lemma RunInGrid(rows: nat, cols: nat, width: nat, y: nat, x: nat)
    requires y < rows && x < cols
    ensures (y * cols + x) * width + width <= rows * cols * width
  {
    RowMajor(rows, cols, y, x);
    MulStrictMonotone(y * cols + x, rows * cols, width);
  }

  /** A number below f * f exists only for a positive f. */
  lemma PositiveFactor(p: nat, f: nat)
    requires p < f * f
    ensures f > 0
  {
  }
}
