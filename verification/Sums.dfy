/** Finite real sums over index functions. Vectors are functions from an index
    to a real; `Dot(lo, hi, u, v)` is the inner product over `lo <= k < hi`. */
module Sums {

  type Vec = int -> real

  const ONES: Vec := k => 1.0

  function Dot(lo: int, hi: int, u: Vec, v: Vec): real
    decreases hi - lo
  {
    if hi <= lo then 0.0 else Dot(lo, hi - 1, u, v) + u(hi - 1) * v(hi - 1)
  }

  function Sum(n: int, f: Vec): real
    decreases n
  {
    if n <= 0 then 0.0 else Sum(n - 1, f) + f(n - 1)
  }

  /** Products under a name, so that facts about squares stay usable. */
  function Times(x: real, y: real): real { x * y }

  function Square(x: real): real { x * x }

  /** log turns products into sums. */
  ghost predicate LogProductLaw(log: real -> real) {
    forall x, y {:trigger log(Times(x, y))} :: x > 0.0 && y > 0.0 ==> log(Times(x, y)) == log(x) + log(y)
  }

  /** sqrt gives the nonnegative square root. */
  ghost predicate SqrtLaw(sqrt: real -> real) {
    forall x {:trigger sqrt(x)} :: x >= 0.0 ==> sqrt(x) >= 0.0 && sqrt(x) * sqrt(x) == x
  }

  lemma SameSignTimes(x: real, y: real)
    requires (x > 0.0 && y > 0.0) || (x < 0.0 && y < 0.0)
    ensures Times(x, y) > 0.0
  {}

  lemma SquareSign(x: real)
    ensures Square(x) >= 0.0
    ensures Square(x) == 0.0 <==> x == 0.0
  {
    if x == 0.0 {
      assert Square(x) == 0.0;
    } else {
      SameSignTimes(x, x);
      assert Square(x) == Times(x, x);
    }
  }

  /** The vector a list stands for; zero outside the list. */
  function OfSeq(s: seq<real>): Vec {
    k => if 0 <= k < |s| then s[k] else 0.0
  }

  lemma {:induction false} DotCongruent(lo: int, hi: int, u: Vec, v: Vec, u': Vec, v': Vec)
    requires forall k :: lo <= k < hi ==> u(k) == u'(k) && v(k) == v'(k)
    ensures Dot(lo, hi, u, v) == Dot(lo, hi, u', v')
    decreases hi - lo
  {
    if lo < hi { DotCongruent(lo, hi - 1, u, v, u', v'); }
  }

  lemma {:induction false} DotCommutes(lo: int, hi: int, u: Vec, v: Vec)
    ensures Dot(lo, hi, u, v) == Dot(lo, hi, v, u)
    decreases hi - lo
  {
    if lo < hi { DotCommutes(lo, hi - 1, u, v); }
  }

  lemma {:induction false} DotSplit(lo: int, mid: int, hi: int, u: Vec, v: Vec)
    requires lo <= mid <= hi
    ensures Dot(lo, hi, u, v) == Dot(lo, mid, u, v) + Dot(mid, hi, u, v)
    decreases hi - mid
  {
    if mid < hi { DotSplit(lo, mid, hi - 1, u, v); }
  }

  lemma {:induction false} DotZero(lo: int, hi: int, u: Vec, v: Vec)
    requires forall k :: lo <= k < hi ==> u(k) == 0.0 || v(k) == 0.0
    ensures Dot(lo, hi, u, v) == 0.0
    decreases hi - lo
  {
    if lo < hi { DotZero(lo, hi - 1, u, v); }
  }

  /** Linearity in the second argument: `w = u + c*v` pointwise. */
  lemma {:induction false} DotAddScaled(lo: int, hi: int, t: Vec, u: Vec, c: real, v: Vec, w: Vec)
    requires forall k :: lo <= k < hi ==> w(k) == u(k) + v(k) * c
    ensures Dot(lo, hi, t, w) == Dot(lo, hi, t, u) + Dot(lo, hi, t, v) * c
    decreases hi - lo
  {
    if lo < hi {
      DotAddScaled(lo, hi - 1, t, u, c, v, w);
      Distribute(t(hi - 1), u(hi - 1), v(hi - 1), c, Dot(lo, hi - 1, t, v));
    }
  }

  lemma Distribute(t: real, u: real, v: real, c: real, d: real)
    ensures d * c + t * (u + v * c) == t * u + (d + t * v) * c
  {}

  type Grid = (int, int) -> real

  function GridRow(z: Grid, i: int): Vec { k => z(i, k) }

  function GridCol(z: Grid, k: int): Vec { i => z(i, k) }

  /** z^T u, summing the first m rows. */
  function ColSums(z: Grid, m: int, u: Vec): Vec { k => Dot(0, m, GridCol(z, k), u) }

  /** u . (z w) = (z^T u) . w, with zw standing for z w. */
  lemma {:induction false} MoveTranspose(z: Grid, m: nat, n: nat, u: Vec, w: Vec, zw: Vec)
    requires forall i :: 0 <= i < m ==> zw(i) == Dot(0, n, GridRow(z, i), w)
    ensures Dot(0, m, u, zw) == Dot(0, n, ColSums(z, m, u), w)
  {
    if m == 0 {
      ColSumsNone(z, n, u, w);
    } else {
      MoveTranspose(z, m - 1, n, u, w, zw);
      ColSumsStep(z, m, n, u, w, zw(m - 1));
      DotStep(m, u, zw);
    }
  }

  lemma DotStep(m: nat, u: Vec, v: Vec)
    requires m > 0
    ensures Dot(0, m, u, v) == Dot(0, m - 1, u, v) + Times(u(m - 1), v(m - 1))
  {}

  lemma ColSumsNone(z: Grid, n: nat, u: Vec, w: Vec)
    ensures Dot(0, n, ColSums(z, 0, u), w) == 0.0
  {
    DotZero(0, n, ColSums(z, 0, u), w);
  }

  lemma ColSumsStep(z: Grid, m: nat, n: nat, u: Vec, w: Vec, last: real)
    requires m > 0 && last == Dot(0, n, GridRow(z, m - 1), w)
    ensures Dot(0, n, ColSums(z, m, u), w) == Dot(0, n, ColSums(z, m - 1, u), w) + Times(u(m - 1), last)
  {
    var prev, row, all := ColSums(z, m - 1, u), GridRow(z, m - 1), ColSums(z, m, u);
    DotAddScaled(0, n, w, prev, u(m - 1), row, all);
    DotCommutes(0, n, w, all);
    DotCommutes(0, n, w, prev);
    DotCommutes(0, n, w, row);
  }

  /** Row i of z z^T applied to v: (z z^T v)_i = z_i . (z^T v). */
  lemma {:induction false} GramRowTimes(z: Grid, m: nat, n: nat, i: int, gram: Vec, v: Vec)
    requires forall j :: 0 <= j < m ==> gram(j) == Dot(0, n, GridRow(z, i), GridRow(z, j))
    ensures Dot(0, m, gram, v) == Dot(0, n, GridRow(z, i), ColSums(z, m, v))
  {
    forall j | 0 <= j < m ensures gram(j) == Dot(0, n, GridRow(z, j), GridRow(z, i)) {
      DotCommutes(0, n, GridRow(z, i), GridRow(z, j));
    }
    DotCommutes(0, m, gram, v);
    MoveTranspose(z, m, n, v, GridRow(z, i), gram);
    DotCommutes(0, n, ColSums(z, m, v), GridRow(z, i));
  }

  /** |p - q|^2 expanded. */
  lemma {:induction false} DotDifference(n: int, p: Vec, q: Vec, d: Vec)
    requires forall k :: 0 <= k < n ==> d(k) == p(k) - q(k)
    ensures Dot(0, n, d, d) == Dot(0, n, p, p) - 2.0 * Dot(0, n, p, q) + Dot(0, n, q, q)
  {
    DotAddScaled(0, n, d, p, -1.0, q, d);
    DotCommutes(0, n, d, p);
    DotCommutes(0, n, d, q);
    DotAddScaled(0, n, p, p, -1.0, q, d);
    DotAddScaled(0, n, q, p, -1.0, q, d);
    DotCommutes(0, n, p, q);
  }

  lemma {:induction false} SumCongruent(n: int, f: Vec, g: Vec)
    requires forall k :: 0 <= k < n ==> f(k) == g(k)
    ensures Sum(n, f) == Sum(n, g)
    decreases n
  {
    if n > 0 { SumCongruent(n - 1, f, g); }
  }

  /** A sum of two series, recombined term by term. */
  lemma {:induction false} SumRecombined(n: nat, f: Vec, g: Vec, w: Vec, c: Vec, q: Vec, h: Vec)
    requires forall k :: 0 <= k < n ==> f(k) + g(k) == w(k) * c(k) - 2.0 * (w(k) * q(k)) + h(k)
    ensures Sum(n, f) + Sum(n, g) == Dot(0, n, w, c) - 2.0 * Dot(0, n, w, q) + Sum(n, h)
  {
    if n > 0 { SumRecombined(n - 1, f, g, w, c, q, h); }
  }

  /** Summing z, where z = (x - m) / s. */
  lemma {:induction false} SumStandardised(n: nat, x: Vec, m: real, s: real, z: Vec)
    requires forall k :: 0 <= k < n ==> Times(s, z(k)) == x(k) - m
    ensures Times(s, Sum(n, z)) == Sum(n, x) - Times(n as real, m)
  {
    if n > 0 {
      SumStandardised(n - 1, x, m, s, z);
      TimesDistributes(s, Sum(n - 1, z), z(n - 1));
      assert (n - 1) as real == n as real - 1.0;
      TimesDistributes(m, n as real - 1.0, 1.0);
    }
  }

  lemma TimesDistributes(s: real, x: real, y: real)
    ensures Times(s, x + y) == Times(s, x) + Times(s, y)
    ensures Times(x + y, s) == Times(x, s) + Times(y, s)
    ensures Times(s, x) == Times(x, s) && Times(s, y) == Times(y, s)
  {}

  lemma {:induction false} SumNonneg(n: int, f: Vec)
    requires forall k :: 0 <= k < n ==> f(k) >= 0.0
    ensures Sum(n, f) >= 0.0
    ensures forall k :: 0 <= k < n ==> f(k) <= Sum(n, f)
    decreases n
  {
    if n > 0 { SumNonneg(n - 1, f); }
  }

  lemma {:induction false} DotIsSum(n: int, u: Vec, v: Vec, f: Vec)
    requires forall k :: 0 <= k < n ==> f(k) == u(k) * v(k)
    ensures Dot(0, n, u, v) == Sum(n, f)
    decreases n
  {
    if n > 0 { DotIsSum(n - 1, u, v, f); }
  }

  lemma {:induction false} SumZero(n: int, f: Vec)
    requires forall k :: 0 <= k < n ==> f(k) == 0.0
    ensures Sum(n, f) == 0.0
    decreases n
  {
    if n > 0 { SumZero(n - 1, f); }
  }
}
