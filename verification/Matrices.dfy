/** Lists of rows, as the numeric code stores its matrices and samples. */
module Matrices {
  import opened Sums

  type Matrix = seq<seq<real>>

  predicate IsSquare(a: Matrix, n: nat) {
    |a| == n && forall i :: 0 <= i < n ==> |a[i]| == n
  }

  /** Entry (i, j); zero outside the matrix. */
  function At(a: Matrix, i: int, j: int): real {
    if 0 <= i < |a| && 0 <= j < |a[i]| then a[i][j] else 0.0
  }

  function RowOf(a: Matrix, i: int): Vec {
    k => At(a, i, k)
  }

  function ColOf(a: Matrix, j: int): Vec {
    k => At(a, k, j)
  }

  predicate Rectangular(x: Matrix) {
    |x| > 0 && forall i :: 0 <= i < |x| ==> |x[i]| == |x[0]|
  }

  function Transpose(a: Matrix): Matrix
    requires |a| > 0 ==> Rectangular(a)
  {
    if |a| == 0 then [] else seq(|a[0]|, c requires 0 <= c < |a[0]| => seq(|a|, r requires 0 <= r < |a| => a[r][c]))
  }

  /** The mean of column j. */
  function Mean(x: Matrix, j: int): real
    requires |x| > 0
  {
    Sum(|x|, ColOf(x, j)) / |x| as real
  }
}
