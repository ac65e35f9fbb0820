/** Two-dimensional integer grids: the part of numpy that the board uses.
    A grid is a non-empty rectangle of rows; `Flatten` is its row-major byte
    image, `GridSum` is `np.sum`, `Reshape` is `np.reshape(c, (-1, cols))` and
    `Pad` is the zero frame that resizing copies the old grid into. */
module Grids {

  type Grid = seq<seq<int>>

  /** A non-empty rectangle: every row as long as the first, which is not empty. */
  predicate IsGrid(m: Grid) {
    |m| > 0 && |m[0]| > 0 && forall i :: 0 <= i < |m| ==> |m[i]| == |m[0]|
  }

  /** Every cell is 0 or 1. */
  predicate IsBinaryGrid(m: Grid) {
    forall i, j :: 0 <= i < |m| && 0 <= j < |m[i]| ==> m[i][j] == 0 || m[i][j] == 1
  }

  function Sum(s: seq<int>): int {
    if s == [] then 0 else s[0] + Sum(s[1..])
  }

  /** Row-major concatenation of the rows: the raw contents, without the shape. */
  function Flatten(m: Grid): seq<int> {
    if m == [] then [] else m[0] + Flatten(m[1..])
  }

  /** The sum of all cells. */
  function GridSum(m: Grid): int {
    Sum(Flatten(m))
  }

  /** The value at (i, j), or 0 off the grid: no wrap-around. */
  function Cell(m: Grid, i: int, j: int): int {
    if 0 <= i < |m| && 0 <= j < |m[i]| then m[i][j] else 0
  }

  /** Sum of `Cell(m, i, j)` for `j0 <= j < j1`. */
  function RowRangeSum(m: Grid, i: int, j0: int, j1: int): int
    decreases j1 - j0
  {
    if j1 <= j0 then 0 else Cell(m, i, j0) + RowRangeSum(m, i, j0 + 1, j1)
  }

  /** Sum of `Cell(m, i, j)` over the rectangle `i0 <= i < i1`, `j0 <= j < j1`. */
  function BoxSum(m: Grid, i0: int, i1: int, j0: int, j1: int): int
    decreases i1 - i0
  {
    if i1 <= i0 then 0 else RowRangeSum(m, i0, j0, j1) + BoxSum(m, i0 + 1, i1, j0, j1)
  }

  /** `np.reshape(c, (-1, cols))`: consecutive runs of `cols` values become rows. */
  function Reshape(c: seq<int>, cols: int): (r: Grid)
    requires cols > 0 && |c| % cols == 0
    decreases |c|
  {
    if |c| == 0 then []
    else
      ModStep(|c|, cols);
      [c[..cols]] + Reshape(c[cols..], cols)
  }

  /** `m` copied into a zero grid `k` cells larger on every side. */
  function Pad(m: Grid, k: nat): (r: Grid)
    requires IsGrid(m)
  {
    seq(|m| + 2 * k, i =>
      seq(|m[0]| + 2 * k, j =>
        if k <= i < |m| + k && k <= j < |m[0]| + k then m[i - k][j - k] else 0))
  }

  lemma ModStep(n: int, k: int)
    requires k > 0 && n > 0 && n % k == 0
    ensures n >= k && (n - k) % k == 0
  {
    var q := n / k;
    assert n == k * q;
    if q <= 0 {
      MulNonPos(k, q);
    }
    assert n - k == k * (q - 1);
    DivisibleMul(k, q - 1);
  }

  lemma MulNonPos(k: int, q: int)
    requires k > 0 && q <= 0
    ensures k * q <= 0
  {
  }

  lemma DivisibleMul(k: int, q: int)
    requires k > 0 && q >= 0
    ensures (k * q) % k == 0
  {
    var n := k * q;
    var r := n % k;
    var d := n / k;
    assert n == k * d + r && 0 <= r < k;
    MulSub(k, q, d);
    MulSmall(k, q - d);
  }

  lemma MulSub(k: int, a: int, b: int)
    ensures k * a - k * b == k * (a - b)
  {
  }

  lemma MulSmall(k: int, t: int)
    requires k > 0 && 0 <= k * t < k
    ensures t == 0
  {
    if t >= 1 {
      MulMono(k, t);
    }
  }

  lemma MulMono(k: int, t: int)
    requires k > 0 && t >= 1
    ensures k * t >= k
  {
    assert k * t == k * (t - 1) + k;
    MulNonNeg(k, t - 1);
  }

  lemma MulNonNeg(k: int, t: int)
    requires k >= 0 && t >= 0
    ensures k * t >= 0
  {
  }

  lemma {:induction false} SumConcat(a: seq<int>, b: seq<int>)
    ensures Sum(a + b) == Sum(a) + Sum(b)
  {
    if a == [] {
      assert a + b == b;
    } else {
      assert (a + b)[1..] == a[1..] + b;
      SumConcat(a[1..], b);
    }
  }

  lemma {:induction false} FlattenConcat(a: Grid, b: Grid)
    ensures Flatten(a + b) == Flatten(a) + Flatten(b)
  {
    if a == [] {
      assert a + b == b;
    } else {
      assert (a + b)[1..] == a[1..] + b;
      FlattenConcat(a[1..], b);
    }
  }

  lemma {:induction false} FlattenLength(m: Grid)
    requires IsGrid(m)
    ensures |Flatten(m)| == |m| * |m[0]|
  {
    var w := |m[0]|;
    if |m| == 1 {
      assert Flatten(m[1..]) == [];
    } else {
      assert IsGrid(m[1..]) && |m[1..][0]| == w;
      FlattenLength(m[1..]);
      assert |Flatten(m)| == w + (|m| - 1) * w;
    }
  }

  lemma {:induction false} ZeroRowSum(s: seq<int>)
    requires forall j :: 0 <= j < |s| ==> s[j] == 0
    ensures Sum(s) == 0
  {
    if s != [] {
      ZeroRowSum(s[1..]);
    }
  }

  /** Reshaping produces rows of exactly `cols` cells, `|c| / cols` of them,
      holding the values of `c` in row-major order, and flattening undoes it. */
  lemma {:induction false} ReshapeShape(c: seq<int>, cols: int)
    requires cols > 0 && |c| % cols == 0
    ensures |Reshape(c, cols)| * cols == |c|
    ensures forall i :: 0 <= i < |Reshape(c, cols)| ==> |Reshape(c, cols)[i]| == cols
    ensures |c| > 0 ==> IsGrid(Reshape(c, cols))
    ensures Flatten(Reshape(c, cols)) == c
    decreases |c|
  {
    if |c| > 0 {
      ModStep(|c|, cols);
      var rest := Reshape(c[cols..], cols);
      ReshapeShape(c[cols..], cols);
      assert Reshape(c, cols) == [c[..cols]] + rest;
      assert Reshape(c, cols)[1..] == rest;
      assert c[..cols] + c[cols..] == c;
    }
  }

  /** Cell (i, j) of the reshaped grid is `c[i * cols + j]`. */
  lemma {:induction false} ReshapeCell(c: seq<int>, cols: int, i: int, j: int)
    requires cols > 0 && |c| % cols == 0
    requires 0 <= i < |Reshape(c, cols)| && 0 <= j < cols
    ensures i * cols + j < |c|
    ensures |Reshape(c, cols)[i]| == cols && Reshape(c, cols)[i][j] == c[i * cols + j]
    decreases |c|
  {
    ModStep(|c|, cols);
    var rest := Reshape(c[cols..], cols);
    assert Reshape(c, cols) == [c[..cols]] + rest;
    if i > 0 {
      ReshapeCell(c[cols..], cols, i - 1, j);
      assert (i - 1) * cols + j + cols == i * cols + j;
    }
  }

  /** Padding by `k` grows each dimension by `2k`, keeps every old cell at
      offset (k, k) and puts zeros in the frame around it. */
  lemma PadShape(m: Grid, k: nat)
    requires IsGrid(m)
    ensures IsGrid(Pad(m, k))
    ensures |Pad(m, k)| == |m| + 2 * k && |Pad(m, k)[0]| == |m[0]| + 2 * k
    ensures forall i, j :: 0 <= i < |m| && 0 <= j < |m[0]| ==> Pad(m, k)[i + k][j + k] == m[i][j]
    ensures forall i, j ::
              0 <= i < |m| + 2 * k && 0 <= j < |m[0]| + 2 * k && !(k <= i < |m| + k && k <= j < |m[0]| + k)
              ==> Pad(m, k)[i][j] == 0
  {
  }

  /** Padding with zeros keeps the cell sum. */
  lemma PadSum(m: Grid, k: nat)
    requires IsGrid(m)
    ensures GridSum(Pad(m, k)) == GridSum(m)
  {
    var w := |m[0]|;
    var top := ZeroRows(k, w + 2 * k);
    var mid := PaddedRows(m, k);
    PadSplit(m, k);
    FlattenConcat(top + mid, top);
    FlattenConcat(top, mid);
    SumConcat(Flatten(top) + Flatten(mid), Flatten(top));
    SumConcat(Flatten(top), Flatten(mid));
    ZeroRowsSum(top, w + 2 * k);
    PaddedRowsSum(m, mid, k);
  }

  function ZeroRows(n: nat, w: nat): Grid {
    seq(n, i => seq(w, j => 0))
  }

  function PaddedRows(m: Grid, k: nat): Grid {
    seq(|m|, i requires 0 <= i < |m| => seq(k, j => 0) + m[i] + seq(k, j => 0))
  }

  lemma PadSplit(m: Grid, k: nat)
    requires IsGrid(m)
    ensures Pad(m, k) == ZeroRows(k, |m[0]| + 2 * k) + PaddedRows(m, k) + ZeroRows(k, |m[0]| + 2 * k)
  {
    var w := |m[0]|;
    var p := Pad(m, k);
    var top := ZeroRows(k, w + 2 * k);
    var mid := PaddedRows(m, k);
    var q := top + mid + top;
    assert |p| == |q|;
    forall i | 0 <= i < |p| ensures p[i] == q[i] {
      if i < k {
        assert q[i] == top[i];
      } else if i < |m| + k {
        assert q[i] == mid[i - k];
        assert |m[i - k]| == w;
      } else {
        assert q[i] == top[i - k - |m|];
      }
    }
  }

  lemma {:induction false} ZeroRowsSum(rows: Grid, w: nat)
    requires forall i :: 0 <= i < |rows| ==> rows[i] == seq(w, j => 0)
    ensures Sum(Flatten(rows)) == 0
  {
    if rows != [] {
      ZeroRowSum(rows[0]);
      ZeroRowsSum(rows[1..], w);
      SumConcat(rows[0], Flatten(rows[1..]));
    }
  }

  lemma {:induction false} PaddedRowsSum(m: Grid, mid: Grid, k: nat)
    requires |mid| == |m|
    requires forall i :: 0 <= i < |m| ==> mid[i] == seq(k, j => 0) + m[i] + seq(k, j => 0)
    ensures Sum(Flatten(mid)) == Sum(Flatten(m))
  {
    if m != [] {
      var z := seq(k, j => 0);
      ZeroRowSum(z);
      SumConcat(z + m[0], z);
      SumConcat(z, m[0]);
      PaddedRowsSum(m[1..], mid[1..], k);
      SumConcat(mid[0], Flatten(mid[1..]));
      SumConcat(m[0], Flatten(m[1..]));
    }
  }
}
