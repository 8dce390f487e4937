/** The hand-written Cholesky solver: factorisation with a pivot clamp, then
    forward and backward substitution, every division carrying a small fudge
    term. The fudge terms do not make the answer approximate: the solver
    solves, exactly, a system whose diagonal is shifted by positive amounts. */
module LinearSolver {
  import opened Sums
  import opened Matrices

  /** 1e-15: the pivot floor and the term added to every divisor. */
  const FUDGE: real := 0.000000000000001

  function Max(x: real, y: real): real { if x >= y then x else y }

  /** q is x / d, for a divisor the caller knows to be nonzero. */
  ghost predicate IsQuotient(q: real, x: real, d: real) { q * d == x }

  /** The divisor of row i: its pivot plus the fudge term. */
  function Pivot(l: Matrix, i: int): real { At(l, i, i) + FUDGE }

  /** Entry (i, j), j <= i, is what the factorisation stores there. */
  ghost predicate FactorEntry(a: Matrix, l: Matrix, sqrt: real -> real, i: nat, j: nat) {
    var s := Dot(0, j, RowOf(l, i), RowOf(l, j));
    if i == j then At(l, i, i) == sqrt(Max(At(a, i, i) - s, FUDGE))
    else IsQuotient(At(l, i, j), At(a, i, j) - s, Pivot(l, j))
  }

  ghost predicate FactorRow(a: Matrix, l: Matrix, sqrt: real -> real, i: nat, width: nat) {
    forall j :: 0 <= j < width ==> FactorEntry(a, l, sqrt, i, j)
  }

  ghost predicate FullRow(a: Matrix, l: Matrix, sqrt: real -> real, i: nat) {
    FactorRow(a, l, sqrt, i, i + 1)
  }

  ghost predicate IsFactor(a: Matrix, l: Matrix, sqrt: real -> real) {
    && IsSquare(a, |a|) && IsSquare(l, |a|)
    && (forall i :: 0 <= i < |a| ==> FullRow(a, l, sqrt, i))
    && (forall i, j :: 0 <= i < j < |a| ==> l[i][j] == 0.0)
  }

  // ---- The system that is really solved ------------------------------------

  /** The matrix the solver sees: it reads the lower triangle only. */
  function SymAt(a: Matrix, i: int, j: int): real {
    if j <= i then At(a, i, j) else At(a, j, i)
  }

  /** The amount the fudge terms and the pivot clamp add to diagonal entry i. */
  function Shift(a: Matrix, l: Matrix, i: int): real {
    Pivot(l, i) * Pivot(l, i) - (SymAt(a, i, i) - Dot(0, i, RowOf(l, i), RowOf(l, i)))
  }

  function ShiftedAt(a: Matrix, l: Matrix, i: int, j: int): real {
    SymAt(a, i, j) + (if i == j then Shift(a, l, i) else 0.0)
  }

  function ShiftedRow(a: Matrix, l: Matrix, i: int): Vec {
    j => ShiftedAt(a, l, i, j)
  }

  /** x solves the shifted system, exactly. */
  ghost predicate Solves(a: Matrix, l: Matrix, x: seq<real>, b: seq<real>) {
    |x| == |b| && forall i :: 0 <= i < |b| ==> Dot(0, |b|, ShiftedRow(a, l, i), OfSeq(x)) == b[i]
  }

  ghost predicate ShiftsPositive(a: Matrix, l: Matrix) {
    forall i :: 0 <= i < |a| ==> Shift(a, l, i) > 0.0
  }

  /** x solves the system shifted by the factor the algorithm defines, and every
      shift is positive. */
  ghost predicate SolvesExactly(a: Matrix, b: seq<real>, x: seq<real>, sqrt: real -> real) {
    exists l: Matrix :: IsFactor(a, l, sqrt) && Solves(a, l, x, b) && ShiftsPositive(a, l)
  }

  // ---- The shifted factor M = L + FUDGE * I, with M M^T = A + D -------------

  function MAt(l: Matrix, i: int, k: int): real {
    if k < i then At(l, i, k) else if k == i then Pivot(l, i) else 0.0
  }

  function M(l: Matrix): Grid {
    (i, k) => MAt(l, i, k)
  }

  function MRow(l: Matrix, i: int): Vec { GridRow(M(l), i) }

  function MCol(l: Matrix, k: int): Vec { GridCol(M(l), k) }

  lemma PivotsPositive(a: Matrix, l: Matrix, sqrt: real -> real, i: nat)
    requires FullRow(a, l, sqrt, i) && SqrtLaw(sqrt)
    ensures At(l, i, i) >= 0.0 && Pivot(l, i) > 0.0
    ensures var v := At(a, i, i) - Dot(0, i, RowOf(l, i), RowOf(l, i));
            At(l, i, i) * At(l, i, i) == Max(v, FUDGE)
  {
    assert FactorEntry(a, l, sqrt, i, i);
  }

  /** Every diagonal shift is positive, whether or not the clamp fires: it is the
      clamp's lift of the pivot, if any, plus 2 * FUDGE * L_ii + FUDGE^2. */
  lemma {:induction false} ShiftIsPositive(a: Matrix, l: Matrix, sqrt: real -> real, i: nat)
    requires IsFactor(a, l, sqrt) && SqrtLaw(sqrt) && i < |a|
    ensures Shift(a, l, i) > 0.0
    ensures var pivot := a[i][i] - Dot(0, i, RowOf(l, i), RowOf(l, i));
            Shift(a, l, i) == Max(pivot, FUDGE) - pivot + 2.0 * FUDGE * At(l, i, i) + FUDGE * FUDGE
  {
    PivotsPositive(a, l, sqrt, i);
    SquareOfSum(At(l, i, i), FUDGE);
  }

  lemma SquareOfSum(p: real, e: real)
    ensures (p + e) * (p + e) == p * p + 2.0 * e * p + e * e
  {}

  lemma QuotientTimes(q: real, x: real, d: real)
    requires d != 0.0 && q == x / d
    ensures IsQuotient(q, x, d)
  {}

  /** Row i of M against row j of M, j <= i: only columns up to j matter. */
  lemma {:induction false} GramHead(l: Matrix, n: nat, i: nat, j: nat)
    requires j <= i < n
    ensures Dot(0, n, MRow(l, i), MRow(l, j)) ==
            Dot(0, j, RowOf(l, i), RowOf(l, j)) + MAt(l, i, j) * MAt(l, j, j)
  {
    var u, v := MRow(l, i), MRow(l, j);
    DotSplit(0, j + 1, n, u, v);
    assert Dot(j + 1, n, u, v) == 0.0 by { DotZero(j + 1, n, u, v); }
    DotCongruent(0, j, u, v, RowOf(l, i), RowOf(l, j));
  }

  /** Entry (i, j) of M M^T is entry (i, j) of the shifted system. */
  lemma {:induction false} GramLower(a: Matrix, l: Matrix, sqrt: real -> real, i: nat, j: nat)
    requires IsFactor(a, l, sqrt) && SqrtLaw(sqrt) && j <= i < |a|
    ensures Dot(0, |a|, MRow(l, i), MRow(l, j)) == ShiftedAt(a, l, i, j)
  {
    GramHead(l, |a|, i, j);
    assert FullRow(a, l, sqrt, i);
    assert FactorEntry(a, l, sqrt, i, j);
  }

  lemma GramIsShifted(a: Matrix, l: Matrix, sqrt: real -> real, i: nat, j: nat)
    requires IsFactor(a, l, sqrt) && SqrtLaw(sqrt) && i < |a| && j < |a|
    ensures Dot(0, |a|, MRow(l, i), MRow(l, j)) == ShiftedAt(a, l, i, j)
  {
    if j <= i {
      GramLower(a, l, sqrt, i, j);
    } else {
      GramLower(a, l, sqrt, j, i);
      DotCommutes(0, |a|, MRow(l, i), MRow(l, j));
    }
  }

  /** M^T v. */
  function MtTimes(l: Matrix, v: Vec): Vec { ColSums(M(l), |l|, v) }

  /** (M M^T) v = M (M^T v), row by row. */
  lemma RowAssociates(a: Matrix, l: Matrix, sqrt: real -> real, i: nat, v: Vec)
    requires IsFactor(a, l, sqrt) && SqrtLaw(sqrt) && i < |a|
    ensures Dot(0, |a|, ShiftedRow(a, l, i), v) == Dot(0, |a|, MRow(l, i), MtTimes(l, v))
  {
    var n := |a|;
    forall j | 0 <= j < n ensures ShiftedRow(a, l, i)(j) == Dot(0, n, MRow(l, i), MRow(l, j)) {
      GramIsShifted(a, l, sqrt, i, j);
    }
    GramRowTimes(M(l), n, n, i, ShiftedRow(a, l, i), v);
  }

  ghost predicate ForwardAt(l: Matrix, b: seq<real>, y: seq<real>, i: int) {
    IsQuotient(OfSeq(y)(i), OfSeq(b)(i) - Dot(0, i, RowOf(l, i), OfSeq(y)), Pivot(l, i))
  }

  ghost predicate BackwardAt(l: Matrix, y: seq<real>, x: seq<real>, i: int) {
    IsQuotient(OfSeq(x)(i), OfSeq(y)(i) - Dot(i + 1, |y|, ColOf(l, i), OfSeq(x)), Pivot(l, i))
  }

  /** L y = b with fudged divisors, and L^T x = y likewise. */
  ghost predicate ForwardDone(l: Matrix, b: seq<real>, y: seq<real>, upTo: nat) {
    |y| == |b| && forall i :: 0 <= i < upTo ==> ForwardAt(l, b, y, i)
  }

  ghost predicate BackwardDone(l: Matrix, y: seq<real>, x: seq<real>, from: nat) {
    |x| == |y| && forall i :: from <= i < |y| ==> BackwardAt(l, y, x, i)
  }

  lemma {:induction false} ForwardRow(l: Matrix, b: seq<real>, y: seq<real>, i: nat)
    requires ForwardDone(l, b, y, |b|) && i < |b|
    ensures Dot(0, |b|, MRow(l, i), OfSeq(y)) == b[i]
  {
    var u, v := MRow(l, i), OfSeq(y);
    DotSplit(0, i + 1, |b|, u, v);
    assert Dot(i + 1, |b|, u, v) == 0.0 by { DotZero(i + 1, |b|, u, v); }
    DotCongruent(0, i, u, v, RowOf(l, i), v);
    assert ForwardAt(l, b, y, i);
  }

  lemma {:induction false} BackwardRow(l: Matrix, y: seq<real>, x: seq<real>, k: nat)
    requires BackwardDone(l, y, x, 0) && k < |y|
    ensures Dot(0, |y|, MCol(l, k), OfSeq(x)) == y[k]
  {
    ColumnHead(l, |y|, k, OfSeq(x));
    DotCongruent(k + 1, |y|, MCol(l, k), OfSeq(x), ColOf(l, k), OfSeq(x));
    assert BackwardAt(l, y, x, k);
  }

  /** Column k of M is zero above the diagonal. */
  lemma {:induction false} ColumnHead(l: Matrix, n: nat, k: nat, v: Vec)
    requires k < n
    ensures Dot(0, n, MCol(l, k), v) == MAt(l, k, k) * v(k) + Dot(k + 1, n, MCol(l, k), v)
  {
    var u := MCol(l, k);
    DotSplit(0, k, n, u, v);
    assert Dot(0, k, u, v) == 0.0 by { DotZero(0, k, u, v); }
    DotSplit(k, k + 1, n, u, v);
    assert Dot(k, k, u, v) == 0.0;
  }

  /** The two substitutions together undo M M^T = A + D. */
  lemma {:induction false} SubstitutionsSolve(a: Matrix, l: Matrix, sqrt: real -> real,
                                              b: seq<real>, y: seq<real>, x: seq<real>)
    requires IsFactor(a, l, sqrt) && SqrtLaw(sqrt) && |a| == |b| == |y| == |x|
    requires ForwardDone(l, b, y, |b|) && BackwardDone(l, y, x, 0)
    ensures Solves(a, l, x, b)
  {
    forall i | 0 <= i < |b| ensures Dot(0, |b|, ShiftedRow(a, l, i), OfSeq(x)) == b[i] {
      RowAssociates(a, l, sqrt, i, OfSeq(x));
      forall k | 0 <= k < |b| ensures MtTimes(l, OfSeq(x))(k) == y[k] { BackwardRow(l, y, x, k); }
      DotCongruent(0, |b|, MRow(l, i), MtTimes(l, OfSeq(x)), MRow(l, i), OfSeq(y));
      ForwardRow(l, b, y, i);
    }
  }

  // ---- The quadratic form of the shifted system -----------------------------

  function ShiftedTimes(a: Matrix, l: Matrix, v: Vec): Vec {
    i => Dot(0, |a|, ShiftedRow(a, l, i), v)
  }

  /** u^T (A + D) v. */
  function Form(a: Matrix, l: Matrix, u: Vec, v: Vec): real {
    Dot(0, |a|, u, ShiftedTimes(a, l, v))
  }

  lemma FormIsDot(a: Matrix, l: Matrix, sqrt: real -> real, u: Vec, v: Vec)
    requires IsFactor(a, l, sqrt) && SqrtLaw(sqrt)
    ensures Form(a, l, u, v) == Dot(0, |a|, MtTimes(l, u), MtTimes(l, v))
  {
    var n := |a|;
    forall i | 0 <= i < n ensures ShiftedTimes(a, l, v)(i) == Dot(0, n, MRow(l, i), MtTimes(l, v)) {
      RowAssociates(a, l, sqrt, i, v);
    }
    MoveTranspose(M(l), n, n, u, MtTimes(l, v), ShiftedTimes(a, l, v));
  }

  /** The quadratic form of a difference. */
  lemma FormDifference(a: Matrix, l: Matrix, sqrt: real -> real, u: Vec, v: Vec, d: Vec)
    requires IsFactor(a, l, sqrt) && SqrtLaw(sqrt)
    requires forall k :: 0 <= k < |a| ==> d(k) == u(k) - v(k)
    ensures Form(a, l, d, d) == Form(a, l, u, u) - 2.0 * Form(a, l, u, v) + Form(a, l, v, v)
  {
    var n, p, q, r := |a|, MtTimes(l, u), MtTimes(l, v), MtTimes(l, d);
    forall k | 0 <= k < n ensures r(k) == p(k) - q(k) {
      DotAddScaled(0, n, MCol(l, k), u, -1.0, v, d);
    }
    DotDifference(n, p, q, r);
    FormIsDot(a, l, sqrt, d, d);
    FormIsDot(a, l, sqrt, u, u);
    FormIsDot(a, l, sqrt, u, v);
    FormIsDot(a, l, sqrt, v, v);
  }

  lemma {:induction false} SquareZero(n: nat, z: Vec)
    ensures Dot(0, n, z, z) >= 0.0
    ensures Dot(0, n, z, z) == 0.0 ==> forall k :: 0 <= k < n ==> z(k) == 0.0
  {
    if n > 0 {
      SquareZero(n - 1, z);
      SquareSign(z(n - 1));
      assert Dot(0, n, z, z) == Dot(0, n - 1, z, z) + Square(z(n - 1));
    }
  }

  /** M^T is injective: back substitution from the last row down. */
  lemma {:induction false} TransposeKernel(a: Matrix, l: Matrix, sqrt: real -> real, v: Vec, k: nat)
    requires IsFactor(a, l, sqrt) && SqrtLaw(sqrt) && k < |a|
    requires forall j :: 0 <= j < |a| ==> MtTimes(l, v)(j) == 0.0
    ensures v(k) == 0.0
    decreases |a| - k
  {
    var n := |a|;
    forall j | k < j < n ensures v(j) == 0.0 { TransposeKernel(a, l, sqrt, v, j); }
    ColumnHead(l, n, k, v);
    assert Dot(k + 1, n, MCol(l, k), v) == 0.0 by { DotZero(k + 1, n, MCol(l, k), v); }
    assert FullRow(a, l, sqrt, k);
    PivotsPositive(a, l, sqrt, k);
    assert MtTimes(l, v)(k) == MAt(l, k, k) * v(k);
  }

  /** For every input matrix at all, the shifted system is positive definite. */
  lemma {:induction false} ShiftedIsPositiveDefinite(a: Matrix, l: Matrix, sqrt: real -> real, v: Vec)
    requires IsFactor(a, l, sqrt) && SqrtLaw(sqrt)
    ensures Form(a, l, v, v) >= 0.0
    ensures Form(a, l, v, v) == 0.0 <==> forall k :: 0 <= k < |a| ==> v(k) == 0.0
  {
    var z := MtTimes(l, v);
    FormIsDot(a, l, sqrt, v, v);
    SquareZero(|a|, z);
    if forall k :: 0 <= k < |a| ==> v(k) == 0.0 {
      DotZero(0, |a|, v, ShiftedTimes(a, l, v));
    }
    if Form(a, l, v, v) == 0.0 {
      forall k | 0 <= k < |a| ensures v(k) == 0.0 { TransposeKernel(a, l, sqrt, v, k); }
    }
  }

  /** The returned vector is the only solution of the shifted system. */
  lemma {:induction false} SolutionIsUnique(a: Matrix, l: Matrix, sqrt: real -> real,
                                            b: seq<real>, x: seq<real>, x': seq<real>)
    requires IsFactor(a, l, sqrt) && SqrtLaw(sqrt) && |a| == |b|
    requires Solves(a, l, x, b) && Solves(a, l, x', b)
    ensures x == x'
  {
    var n := |a|;
    var v: Vec := k => OfSeq(x)(k) - OfSeq(x')(k);
    forall i | 0 <= i < n ensures ShiftedTimes(a, l, v)(i) == 0.0 {
      DotAddScaled(0, n, ShiftedRow(a, l, i), OfSeq(x), -1.0, OfSeq(x'), v);
    }
    DotZero(0, n, v, ShiftedTimes(a, l, v));
    ShiftedIsPositiveDefinite(a, l, sqrt, v);
    forall k | 0 <= k < n ensures x[k] == x'[k] { assert v(k) == 0.0; }
  }

  // ---- The solver -----------------------------------------------------------

  /** sum(L[i][k] * L[j][k] for k in range(m)); f mirrors the array's rows. */
  method RowDot(arr: array2<real>, ghost f: Matrix, i: nat, j: nat, m: nat) returns (s: real)
    requires arr.Length0 == arr.Length1 == |f| && Mirrors(arr, f) && i < |f| && j < |f| && m <= |f|
    ensures s == Dot(0, m, RowOf(f, i), RowOf(f, j))
  {
    s := 0.0;
    for k := 0 to m
      invariant s == Dot(0, k, RowOf(f, i), RowOf(f, j))
    {
      s := s + arr[i, k] * arr[j, k];
    }
  }

  ghost predicate Mirrors(arr: array2<real>, f: Matrix)
    reads arr
  {
    && arr.Length0 == arr.Length1 == |f| && IsSquare(f, |f|)
    && forall i, j :: 0 <= i < |f| && 0 <= j < |f| ==> arr[i, j] == f[i][j]
  }

  /** Overwriting row i at column j leaves the finished part of the factor. */
  lemma FactorFramed(a: Matrix, f: Matrix, g: Matrix, sqrt: real -> real, i: nat, j: nat, r: nat, width: nat)
    requires j <= i < |f| && j < |f[i]| && |g| == |f| && |g[i]| == |f[i]|
    requires r <= i && width <= r + 1 && (r == i ==> width <= j)
    requires g == f[i := f[i][j := g[i][j]]]
    requires FactorRow(a, f, sqrt, r, width)
    ensures FactorRow(a, g, sqrt, r, width)
  {
    forall c | 0 <= c < width ensures FactorEntry(a, g, sqrt, r, c) {
      assert FactorEntry(a, f, sqrt, r, c);
      DotCongruent(0, c, RowOf(f, r), RowOf(f, c), RowOf(g, r), RowOf(g, c));
    }
  }

  /** Rows above i are finished, row i up to column j; the rest is still zero. */
  ghost predicate FilledTo(a: Matrix, f: Matrix, sqrt: real -> real, i: nat, j: nat) {
    && IsSquare(f, |a|)
    && (forall r :: 0 <= r < i ==> FullRow(a, f, sqrt, r))
    && FactorRow(a, f, sqrt, i, j)
    && forall r, c :: 0 <= r < |a| && 0 <= c < |a| && (r < c || r > i || (r == i && c >= j)) ==> f[r][c] == 0.0
  }

  method Factorise(a: Matrix, sqrt: real -> real) returns (arr: array2<real>, ghost f: Matrix)
    requires IsSquare(a, |a|) && SqrtLaw(sqrt)
    ensures fresh(arr) && Mirrors(arr, f) && |f| == |a|
    ensures IsFactor(a, f, sqrt)
  {
    var n := |a|;
    arr := new real[n, n]((i, j) => 0.0);
    f := seq(n, i => seq(n, j => 0.0));
    for i := 0 to n
      invariant Mirrors(arr, f) && |f| == n && FilledTo(a, f, sqrt, i, 0)
    {
      for j := 0 to i + 1
        invariant Mirrors(arr, f) && |f| == n && FilledTo(a, f, sqrt, i, j)
      {
        f := FillEntry(a, sqrt, arr, f, i, j);
      }
      assert FullRow(a, f, sqrt, i);
    }
  }

  /** One pass of the inner loop: L[i][j]. */
  method FillEntry(a: Matrix, sqrt: real -> real, arr: array2<real>, ghost f: Matrix, i: nat, j: nat)
      returns (ghost g: Matrix)
    requires IsSquare(a, |a|) && SqrtLaw(sqrt) && j <= i < |a|
    requires Mirrors(arr, f) && FilledTo(a, f, sqrt, i, j)
    modifies arr
    ensures Mirrors(arr, g) && FilledTo(a, g, sqrt, i, j + 1)
  {
    var s := RowDot(arr, f, i, j, j);
    var v;
    if i == j {
      v := sqrt(Max(a[i][i] - s, FUDGE));
    } else {
      PivotsPositive(a, f, sqrt, j);
      var d := arr[j, j] + FUDGE;
      v := (a[i][j] - s) / d;
      QuotientTimes(v, a[i][j] - s, d);
    }
    arr[i, j] := v;
    g := f[i := f[i][j := v]];
    EntryStored(a, f, g, sqrt, i, j, v);
    FilledFurther(a, f, g, sqrt, i, j);
  }

  lemma FilledFurther(a: Matrix, f: Matrix, g: Matrix, sqrt: real -> real, i: nat, j: nat)
    requires j <= i < |a| && FilledTo(a, f, sqrt, i, j) && IsSquare(g, |a|)
    requires g == f[i := f[i][j := g[i][j]]] && FactorEntry(a, g, sqrt, i, j)
    ensures FilledTo(a, g, sqrt, i, j + 1)
  {
    forall r | 0 <= r < i ensures FullRow(a, g, sqrt, r) {
      assert FullRow(a, f, sqrt, r);
      FactorFramed(a, f, g, sqrt, i, j, r, r + 1);
    }
    FactorFramed(a, f, g, sqrt, i, j, i, j);
  }

  /** Storing the computed value completes entry (i, j). */
  lemma EntryStored(a: Matrix, f: Matrix, g: Matrix, sqrt: real -> real, i: nat, j: nat, v: real)
    requires IsSquare(a, |f|) && IsSquare(f, |f|) && j <= i < |f| && g == f[i := f[i][j := v]]
    requires var s := Dot(0, j, RowOf(f, i), RowOf(f, j));
      if i == j then v == sqrt(Max(a[i][i] - s, FUDGE)) else IsQuotient(v, a[i][j] - s, Pivot(f, j))
    ensures FactorEntry(a, g, sqrt, i, j)
  {
    DotCongruent(0, j, RowOf(f, i), RowOf(f, j), RowOf(g, i), RowOf(g, j));
  }

  lemma ForwardStored(l: Matrix, b: seq<real>, was: seq<real>, y: seq<real>, i: nat, v: real)
    requires |was| == |b| && i < |b| && ForwardDone(l, b, was, i) && y == was[i := v]
    requires IsQuotient(v, b[i] - Dot(0, i, RowOf(l, i), OfSeq(was)), Pivot(l, i))
    ensures ForwardDone(l, b, y, i + 1)
  {
    forall r | 0 <= r <= i ensures ForwardAt(l, b, y, r) {
      DotCongruent(0, r, RowOf(l, r), OfSeq(was), RowOf(l, r), OfSeq(y));
      if r < i {
        assert ForwardAt(l, b, was, r) && OfSeq(was)(r) == OfSeq(y)(r);
      } else {
        assert OfSeq(y)(i) == v && OfSeq(b)(i) == b[i];
      }
    }
  }

  lemma BackwardStored(l: Matrix, y: seq<real>, was: seq<real>, x: seq<real>, i: nat, v: real)
    requires |was| == |y| && i < |y| && BackwardDone(l, y, was, i + 1) && x == was[i := v]
    requires IsQuotient(v, y[i] - Dot(i + 1, |y|, ColOf(l, i), OfSeq(was)), Pivot(l, i))
    ensures BackwardDone(l, y, x, i)
  {
    forall r | i <= r < |y| ensures BackwardAt(l, y, x, r) {
      if r > i { BackwardStays(l, y, was, x, i, v, r); } else { BackwardNew(l, y, was, x, i, v); }
    }
  }

  lemma BackwardStays(l: Matrix, y: seq<real>, was: seq<real>, x: seq<real>, i: nat, v: real, r: nat)
    requires |was| == |y| && i < r < |y| && BackwardAt(l, y, was, r) && x == was[i := v]
    ensures BackwardAt(l, y, x, r)
  {
    SuffixFramed(l, was, x, i, v, r);
  }

  lemma BackwardNew(l: Matrix, y: seq<real>, was: seq<real>, x: seq<real>, i: nat, v: real)
    requires |was| == |y| && i < |y| && x == was[i := v]
    requires IsQuotient(v, y[i] - Dot(i + 1, |y|, ColOf(l, i), OfSeq(was)), Pivot(l, i))
    ensures BackwardAt(l, y, x, i)
  {
    SuffixFramed(l, was, x, i, v, i);
    assert OfSeq(y)(i) == y[i];
  }

  lemma SuffixFramed(l: Matrix, was: seq<real>, x: seq<real>, i: nat, v: real, r: nat)
    requires i <= r < |was| && x == was[i := v]
    ensures Dot(r + 1, |x|, ColOf(l, r), OfSeq(x)) == Dot(r + 1, |x|, ColOf(l, r), OfSeq(was))
    ensures OfSeq(x)(r) == if r == i then v else OfSeq(was)(r)
  {
    DotCongruent(r + 1, |x|, ColOf(l, r), OfSeq(was), ColOf(l, r), OfSeq(x));
  }

  /** Forward substitution, L y = b. */
  method ForwardSubstitute(arr: array2<real>, ghost l: Matrix, b: seq<real>) returns (y: array<real>)
    requires Mirrors(arr, l) && |l| == |b|
    requires forall i :: 0 <= i < |b| ==> Pivot(l, i) > 0.0
    ensures fresh(y) && y.Length == |b| && ForwardDone(l, b, y[..], |b|)
  {
    y := new real[|b|](i => 0.0);
    for i := 0 to |b|
      invariant ForwardDone(l, b, y[..], i)
    {
      ghost var was := y[..];
      var s := 0.0;
      for k := 0 to i
        invariant y[..] == was
        invariant s == Dot(0, k, RowOf(l, i), OfSeq(was))
      {
        assert RowOf(l, i)(k) == arr[i, k] && OfSeq(was)(k) == y[k];
        s := s + arr[i, k] * y[k];
      }
      var d := arr[i, i] + FUDGE;
      y[i] := (b[i] - s) / d;
      QuotientTimes(y[i], b[i] - s, d);
      ForwardStored(l, b, was, y[..], i, y[i]);
    }
  }

  /** Backward substitution, L^T x = y. */
  method BackwardSubstitute(arr: array2<real>, ghost l: Matrix, y: array<real>) returns (x: array<real>)
    requires Mirrors(arr, l) && |l| == y.Length
    requires forall i :: 0 <= i < y.Length ==> Pivot(l, i) > 0.0
    ensures fresh(x) && x.Length == y.Length && BackwardDone(l, y[..], x[..], 0)
  {
    var n := y.Length;
    x := new real[n](i => 0.0);
    for i := n downto 0
      invariant BackwardDone(l, y[..], x[..], i)
    {
      ghost var was := x[..];
      var s := 0.0;
      for k := i + 1 to n
        invariant x[..] == was
        invariant s == Dot(i + 1, k, ColOf(l, i), OfSeq(was))
      {
        assert ColOf(l, i)(k) == arr[k, i] && OfSeq(was)(k) == x[k];
        s := s + arr[k, i] * x[k];
      }
      var d := arr[i, i] + FUDGE;
      assert d == Pivot(l, i) > 0.0;
      x[i] := (y[i] - s) / d;
      QuotientTimes(x[i], y[i] - s, d);
      BackwardStored(l, y[..], was, x[..], i, x[i]);
    }
  }

  /** Solve A x = b. The answer satisfies (A + D) x = b exactly, where D is
      diagonal with the positive entries Shift(a, l, i); l is the factor. */
  method CholeskySolve(a: Matrix, b: seq<real>, sqrt: real -> real) returns (x: seq<real>, ghost l: Matrix)
    requires IsSquare(a, |b|) && SqrtLaw(sqrt)
    ensures SolvesExactly(a, b, x, sqrt)
    ensures IsFactor(a, l, sqrt) && Solves(a, l, x, b) && ShiftsPositive(a, l)
  {
    var arr;
    arr, l := Factorise(a, sqrt);
    forall i | 0 <= i < |b| ensures Pivot(l, i) > 0.0 && Shift(a, l, i) > 0.0 {
      assert FullRow(a, l, sqrt, i);
      PivotsPositive(a, l, sqrt, i);
      ShiftIsPositive(a, l, sqrt, i);
    }
    var y := ForwardSubstitute(arr, l, b);
    var xs := BackwardSubstitute(arr, l, y);
    x := xs[..];
    SubstitutionsSolve(a, l, sqrt, b, y[..], x);
  }
}
