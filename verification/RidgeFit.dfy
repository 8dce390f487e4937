/** The momentum model's fit: standardised features, a ridge penalty and an
    elastic-weight-consolidation anchor, solved through LinearSolver. */
module RidgeFit {
  import opened Sums
  import opened Matrices
  import opened LinearSolver
  import opened Options

  /** 1e-9: keeps a constant feature's scale away from zero. */
  const SCALE_FLOOR: real := 0.000000001

  function MatMul(a: Matrix, b: Matrix): Matrix
    requires |b| > 0
  {
    seq(|a|, i => seq(|b[0]|, j => Dot(0, |b|, RowOf(a, i), ColOf(b, j))))
  }

  function Identity(n: nat): Matrix {
    seq(n, i => seq(n, j => if i == j then 1.0 else 0.0))
  }

  // ---- Standardisation --------------------------------------------------------

  function SquaredDeviations(x: Matrix, j: int): Vec
    requires |x| > 0
  {
    i => Square(At(x, i, j) - Mean(x, j))
  }

  function Std(x: Matrix, j: int, sqrt: real -> real): real
    requires |x| > 0
  {
    sqrt(Sum(|x|, SquaredDeviations(x, j)) / (if |x| > 1 then |x| - 1 else 1) as real) + SCALE_FLOOR
  }

  lemma StdPositive(x: Matrix, j: int, sqrt: real -> real)
    requires |x| > 0 && SqrtLaw(sqrt)
    ensures Std(x, j, sqrt) > 0.0
  {
    forall i | 0 <= i < |x| ensures SquaredDeviations(x, j)(i) >= 0.0 { SquareSign(At(x, i, j) - Mean(x, j)); }
    SumNonneg(|x|, SquaredDeviations(x, j));
    QuotientNonneg(Sum(|x|, SquaredDeviations(x, j)), (if |x| > 1 then |x| - 1 else 1) as real);
  }

  function Means(x: Matrix): (m: seq<real>)
    requires |x| > 0
    ensures |m| == |x[0]| && forall j :: 0 <= j < |m| ==> m[j] == Mean(x, j)
  {
    seq(|x[0]|, j => Mean(x, j))
  }

  function Stds(x: Matrix, sqrt: real -> real): (s: seq<real>)
    requires |x| > 0
    ensures |s| == |x[0]| && forall j :: 0 <= j < |s| ==> s[j] == Std(x, j, sqrt)
  {
    seq(|x[0]|, j => Std(x, j, sqrt))
  }

  lemma QuotientNonneg(x: real, d: real)
    requires x >= 0.0 && d > 0.0
    ensures x / d >= 0.0
  {}

  function Scale(x: seq<real>, means: seq<real>, stds: seq<real>): seq<real>
    requires |x| <= |means| && |x| <= |stds| && forall j :: 0 <= j < |stds| ==> stds[j] > 0.0
  {
    seq(|x|, j requires 0 <= j < |x| => (x[j] - means[j]) / stds[j])
  }

  ghost predicate IsScaled(x: Matrix, xs: Matrix, sqrt: real -> real) {
    && Rectangular(x) && |xs| == |x|
    && (forall i :: 0 <= i < |x| ==> |xs[i]| == |x[0]|)
    && forall i, j :: 0 <= i < |x| && 0 <= j < |x[0]| ==> IsQuotient(xs[i][j], x[i][j] - Mean(x, j), Std(x, j, sqrt))
  }

  /** Every standardised column sums to zero. */
  lemma {:induction false} ColumnsCentred(x: Matrix, xs: Matrix, sqrt: real -> real, j: nat)
    requires IsScaled(x, xs, sqrt) && SqrtLaw(sqrt) && j < |x[0]|
    ensures Sum(|xs|, ColOf(xs, j)) == 0.0
  {
    var n, m, s := |x|, Mean(x, j), Std(x, j, sqrt);
    forall i | 0 <= i < n ensures Times(s, ColOf(xs, j)(i)) == ColOf(x, j)(i) - m {
      QuotientAsTimes(xs[i][j], x[i][j] - m, s);
    }
    SumStandardised(n, ColOf(x, j), m, s, ColOf(xs, j));
    QuotientTimes(m, Sum(n, ColOf(x, j)), n as real);
    QuotientAsTimes(m, Sum(n, ColOf(x, j)), n as real);
    StdPositive(x, j, sqrt);
    ZeroFactor(s, Sum(n, ColOf(xs, j)));
  }

  lemma QuotientAsTimes(q: real, x: real, d: real)
    requires IsQuotient(q, x, d)
    ensures Times(d, q) == x
  {}

  lemma {:induction false} SumOfSquares(n: nat, z: Vec, s: real, f: Vec)
    requires forall k :: 0 <= k < n ==> f(k) == Square(Times(s, z(k)))
    ensures Sum(n, f) == Times(Square(s), Sum(n, Squares(z)))
  {
    if n == 0 {
      assert Times(Square(s), 0.0) == 0.0;
    } else {
      SumOfSquares(n - 1, z, s, f);
      SquareOfProduct(s, z(n - 1));
      TimesDistributes(Square(s), Sum(n - 1, Squares(z)), Square(z(n - 1)));
    }
  }

  function Squares(z: Vec): Vec { k => Square(z(k)) }

  lemma SquareOfProduct(s: real, z: real)
    ensures Square(Times(s, z)) == Times(Square(s), Square(z))
  {}

  lemma DeviationIsRoot(x: Matrix, j: int, sqrt: real -> real)
    requires |x| > 1 && SqrtLaw(sqrt)
    ensures Times((|x| - 1) as real, Square(Std(x, j, sqrt) - SCALE_FLOOR)) == Sum(|x|, SquaredDeviations(x, j))
  {
    forall i | 0 <= i < |x| ensures SquaredDeviations(x, j)(i) >= 0.0 { SquareSign(At(x, i, j) - Mean(x, j)); }
    SumNonneg(|x|, SquaredDeviations(x, j));
    var total, d := Sum(|x|, SquaredDeviations(x, j)), (|x| - 1) as real;
    QuotientNonneg(total, d);
    assert Times(d, total / d) == total;
    assert Square(sqrt(total / d)) == total / d;
  }

  /** Every standardised column has unit spread, up to the floor in its scale: with s
      the scale, s^2 times its squares add up to (n - 1) (s - floor)^2. */
  lemma ColumnsHaveUnitSpread(x: Matrix, xs: Matrix, sqrt: real -> real, j: nat)
    requires IsScaled(x, xs, sqrt) && SqrtLaw(sqrt) && |x| > 1 && j < |x[0]|
    ensures var s := Std(x, j, sqrt);
      Times(Square(s), Sum(|xs|, Squares(ColOf(xs, j)))) == Times((|x| - 1) as real, Square(s - SCALE_FLOOR))
  {
    var s := Std(x, j, sqrt);
    forall i | 0 <= i < |x| ensures SquaredDeviations(x, j)(i) == Square(Times(s, ColOf(xs, j)(i))) {
      QuotientAsTimes(xs[i][j], x[i][j] - Mean(x, j), s);
    }
    SumOfSquares(|x|, ColOf(xs, j), s, SquaredDeviations(x, j));
    DeviationIsRoot(x, j, sqrt);
  }

  lemma MeanIsZero(x: Matrix, xs: Matrix, sqrt: real -> real, j: nat)
    requires IsScaled(x, xs, sqrt) && SqrtLaw(sqrt) && j < |x[0]|
    ensures Mean(xs, j) == 0.0
  {
    ColumnsCentred(x, xs, sqrt, j);
    QuotientOfZero(Sum(|xs|, ColOf(xs, j)), |xs| as real);
  }

  lemma QuotientOfZero(x: real, d: real)
    requires x == 0.0 && d > 0.0
    ensures x / d == 0.0
  {}

  lemma ZeroFactor(s: real, t: real)
    requires s > 0.0 && Times(s, t) == 0.0
    ensures t == 0.0
  {
    assert Times(-s, t) == -Times(s, t);
    if t > 0.0 { SameSignTimes(s, t); }
    if t < 0.0 { SameSignTimes(-s, t); }
  }

  // ---- The objective ------------------------------------------------------------

  /** What a call of fit minimises: scaled features, targets, the ridge weight,
      the solver's diagonal shifts, and the consolidation penalty with its anchor. */
  datatype Problem = Problem(xs: Matrix, y: Vec, d: nat, ridge: real, shift: Vec, penalty: Vec, anchor: Vec)

  function FeaturesAsGrid(xs: Matrix): Grid { (j, r) => At(xs, r, j) }

  /** Xs w. */
  function Fitted(xs: Matrix, d: nat, w: Vec): Vec { ColSums(FeaturesAsGrid(xs), d, w) }

  ghost function Residual(p: Problem, w: Vec): Vec { i => Fitted(p.xs, p.d, w)(i) - p.y(i) }

  ghost function SquaredResiduals(p: Problem, w: Vec): Vec { i => Square(Fitted(p.xs, p.d, w)(i) - p.y(i)) }

  ghost function RidgeTerms(p: Problem, w: Vec): Vec { j => (p.ridge + p.shift(j)) * Square(w(j)) }

  ghost function AnchorTerms(p: Problem, w: Vec): Vec { j => p.penalty(j) * Square(w(j) - p.anchor(j)) }

  /** |Xs w - y|^2 + sum_j (ridge + D_j) w_j^2 + sum_j F_j (w_j - anchor_j)^2. */
  ghost function Objective(p: Problem, w: Vec): real {
    Sum(|p.xs|, SquaredResiduals(p, w)) + Sum(p.d, RidgeTerms(p, w)) + Sum(p.d, AnchorTerms(p, w))
  }

  /** a and t are the augmented normal equations of p, and l the factor of a. */
  ghost predicate IsSystem(p: Problem, a: Matrix, t: seq<real>, l: Matrix) {
    && |t| == p.d && IsSquare(a, p.d)
    && (forall i, j :: 0 <= i < p.d && 0 <= j < p.d ==>
          a[i][j] == GramAt(p, i, j) + (if i == j then p.ridge + p.penalty(i) else 0.0))
    && (forall j :: 0 <= j < p.d ==> t[j] == TargetAt(p, j))
    && forall j :: 0 <= j < p.d ==> p.shift(j) == Shift(a, l, j)
  }

  /** The shifts are the ones the factorisation of p's own system gives. */
  ghost predicate ShiftedByFactor(p: Problem, sqrt: real -> real) {
    exists a: Matrix, t: seq<real>, l: Matrix :: IsSystem(p, a, t, l) && IsFactor(a, l, sqrt)
  }

  ghost function GramAt(p: Problem, i: int, j: int): real {
    Dot(0, |p.xs|, ColOf(p.xs, i), ColOf(p.xs, j))
  }

  ghost function GramRow(p: Problem, i: int): Vec { j => GramAt(p, i, j) }

  ghost function TargetAt(p: Problem, j: int): real {
    Dot(0, |p.xs|, ColOf(p.xs, j), p.y) + p.penalty(j) * p.anchor(j)
  }

  ghost function Target(p: Problem): Vec { j => TargetAt(p, j) }

  /** The diagonal weight of coordinate j in the quadratic part. */
  ghost function Weight(p: Problem, j: int): real { p.ridge + p.shift(j) + p.penalty(j) }

  ghost function Weighted(p: Problem, v: Vec): Vec { j => Times(Weight(p, j), v(j)) }

  ghost function Pull(p: Problem): Vec { j => p.penalty(j) * p.anchor(j) }

  ghost function AnchorCost(p: Problem): Vec { j => p.penalty(j) * Square(p.anchor(j)) }

  lemma {:induction false} DotDelta(n: nat, i: nat, c: real, r: Vec, r': Vec, v: Vec)
    requires forall k :: 0 <= k < n ==> r'(k) == r(k) + (if k == i then c else 0.0)
    ensures Dot(0, n, r', v) == Dot(0, n, r, v) + (if i < n then Times(c, v(i)) else 0.0)
  {
    if n > 0 {
      DotDelta(n - 1, i, c, r, r', v);
      if i == n - 1 { TimesSum(r(i), c, v(i)); }
    }
  }

  lemma TimesSum(r: real, c: real, v: real)
    ensures (r + c) * v == r * v + Times(c, v)
  {}

  lemma GramSymmetric(p: Problem, i: int, j: int)
    ensures GramAt(p, i, j) == GramAt(p, j, i)
  {
    DotCommutes(0, |p.xs|, ColOf(p.xs, i), ColOf(p.xs, j));
  }

  lemma ShiftedEntry(p: Problem, a: Matrix, t: seq<real>, l: Matrix, i: nat, j: nat)
    requires IsSystem(p, a, t, l) && i < p.d && j < p.d
    ensures ShiftedAt(a, l, i, j) == GramAt(p, i, j) + (if j == i then Weight(p, i) else 0.0)
  {
    GramSymmetric(p, i, j);
    var r, c := if j <= i then i else j, if j <= i then j else i;
    assert SymAt(a, i, j) == a[r][c];
  }

  lemma ShiftedEntries(p: Problem, a: Matrix, t: seq<real>, l: Matrix, i: nat)
    requires IsSystem(p, a, t, l) && i < p.d
    ensures forall j :: 0 <= j < p.d ==>
              ShiftedRow(a, l, i)(j) == GramRow(p, i)(j) + (if j == i then Weight(p, i) else 0.0)
  {
    forall j | 0 <= j < p.d
      ensures ShiftedRow(a, l, i)(j) == GramRow(p, i)(j) + (if j == i then Weight(p, i) else 0.0)
    {
      ShiftedEntry(p, a, t, l, i, j);
    }
  }

  /** X^T X v, row by row. */
  lemma {:induction false} GramRowSplit(p: Problem, i: nat, v: Vec)
    ensures Dot(0, p.d, GramRow(p, i), v) == Dot(0, |p.xs|, ColOf(p.xs, i), Fitted(p.xs, p.d, v))
  {
    var z, f := FeaturesAsGrid(p.xs), Fitted(p.xs, p.d, v);
    forall j | 0 <= j < p.d ensures GramRow(p, i)(j) == Dot(0, |p.xs|, GridRow(z, i), GridRow(z, j)) {
      DotCongruent(0, |p.xs|, ColOf(p.xs, i), ColOf(p.xs, j), GridRow(z, i), GridRow(z, j));
    }
    GramRowTimes(z, p.d, |p.xs|, i, GramRow(p, i), v);
    DotCongruent(0, |p.xs|, GridRow(z, i), f, ColOf(p.xs, i), f);
  }

  lemma {:induction false} ShiftedRowTimes(p: Problem, a: Matrix, t: seq<real>, l: Matrix, i: nat, v: Vec)
    requires IsSystem(p, a, t, l) && i < p.d
    ensures Dot(0, p.d, ShiftedRow(a, l, i), v) == Dot(0, p.d, GramRow(p, i), v) + Weighted(p, v)(i)
  {
    ShiftedEntries(p, a, t, l, i);
    DotDelta(p.d, i, Weight(p, i), GramRow(p, i), ShiftedRow(a, l, i), v);
  }

  /** A row of the shifted system applied to v, split into its parts. */
  lemma {:induction false} RowSplit(p: Problem, a: Matrix, t: seq<real>, l: Matrix, i: nat, v: Vec)
    requires IsSystem(p, a, t, l) && i < p.d
    ensures ShiftedTimes(a, l, v)(i) ==
            Dot(0, |p.xs|, ColOf(p.xs, i), Fitted(p.xs, p.d, v)) + Weighted(p, v)(i)
  {
    ShiftedRowTimes(p, a, t, l, i, v);
    GramRowSplit(p, i, v);
  }

  /** v . (z u) for the feature grid z. */
  lemma {:induction false} MoveFeatures(p: Problem, v: Vec, u: Vec, zu: Vec)
    requires forall j :: 0 <= j < p.d ==> zu(j) == Dot(0, |p.xs|, ColOf(p.xs, j), u)
    ensures Dot(0, p.d, v, zu) == Dot(0, |p.xs|, Fitted(p.xs, p.d, v), u)
  {
    var z := FeaturesAsGrid(p.xs);
    forall j | 0 <= j < p.d ensures zu(j) == Dot(0, |p.xs|, GridRow(z, j), u) {
      DotCongruent(0, |p.xs|, ColOf(p.xs, j), u, GridRow(z, j), u);
    }
    MoveTranspose(z, p.d, |p.xs|, v, u, zu);
  }

  lemma {:induction false} FormSplit(p: Problem, a: Matrix, t: seq<real>, l: Matrix, v: Vec)
    requires IsSystem(p, a, t, l)
    ensures Form(a, l, v, v) ==
            Dot(0, |p.xs|, Fitted(p.xs, p.d, v), Fitted(p.xs, p.d, v)) + Dot(0, p.d, v, Weighted(p, v))
  {
    var f := Fitted(p.xs, p.d, v);
    var zf: Vec := j => Dot(0, |p.xs|, ColOf(p.xs, j), f);
    forall i | 0 <= i < p.d ensures ShiftedTimes(a, l, v)(i) == zf(i) + Weighted(p, v)(i) * 1.0 {
      RowSplit(p, a, t, l, i, v);
    }
    DotAddScaled(0, p.d, v, zf, 1.0, Weighted(p, v), ShiftedTimes(a, l, v));
    MoveFeatures(p, v, f, zf);
  }

  lemma {:induction false} TargetSplit(p: Problem, v: Vec)
    ensures Dot(0, p.d, v, Target(p)) == Dot(0, |p.xs|, Fitted(p.xs, p.d, v), p.y) + Dot(0, p.d, v, Pull(p))
  {
    var zy: Vec := j => Dot(0, |p.xs|, ColOf(p.xs, j), p.y);
    DotAddScaled(0, p.d, v, zy, 1.0, Pull(p), Target(p));
    MoveFeatures(p, v, p.y, zy);
  }

  lemma PenaltyTerm(c: real, f: real, w: real, a: real)
    ensures c * Square(w) + f * Square(w - a) == w * ((c + f) * w) - 2.0 * (w * (f * a)) + f * Square(a)
  {
    assert Square(w - a) == w * w - 2.0 * (w * a) + a * a;
  }

  lemma PenaltyTermAt(p: Problem, w: Vec, k: nat)
    ensures RidgeTerms(p, w)(k) + AnchorTerms(p, w)(k) ==
            w(k) * Weighted(p, w)(k) - 2.0 * (w(k) * Pull(p)(k)) + AnchorCost(p)(k)
  {
    PenaltyTerm(p.ridge + p.shift(k), p.penalty(k), w(k), p.anchor(k));
    assert Weighted(p, w)(k) == Weight(p, k) * w(k);
  }

  lemma PenaltyExpands(p: Problem, n: nat, w: Vec)
    ensures Sum(n, RidgeTerms(p, w)) + Sum(n, AnchorTerms(p, w)) ==
            Dot(0, n, w, Weighted(p, w)) - 2.0 * Dot(0, n, w, Pull(p)) + Sum(n, AnchorCost(p))
  {
    forall k | 0 <= k < n
      ensures RidgeTerms(p, w)(k) + AnchorTerms(p, w)(k) ==
              w(k) * Weighted(p, w)(k) - 2.0 * (w(k) * Pull(p)(k)) + AnchorCost(p)(k)
    {
      PenaltyTermAt(p, w, k);
    }
    SumRecombined(n, RidgeTerms(p, w), AnchorTerms(p, w), w, Weighted(p, w), Pull(p), AnchorCost(p));
  }

  /** The objective is a quadratic form minus a linear form plus a constant. */
  lemma {:induction false} ObjectiveExpands(p: Problem, a: Matrix, t: seq<real>, l: Matrix, w: Vec)
    requires IsSystem(p, a, t, l)
    ensures Objective(p, w) == Form(a, l, w, w) - 2.0 * Dot(0, p.d, w, Target(p))
                               + (Dot(0, |p.xs|, p.y, p.y) + Sum(p.d, AnchorCost(p)))
  {
    var n, f, r := |p.xs|, Fitted(p.xs, p.d, w), Residual(p, w);
    forall i | 0 <= i < n ensures SquaredResiduals(p, w)(i) == r(i) * r(i) {
      assert SquaredResiduals(p, w)(i) == Square(r(i));
    }
    DotIsSum(n, r, r, SquaredResiduals(p, w));
    DotDifference(n, f, p.y, r);
    PenaltyExpands(p, p.d, w);
    FormSplit(p, a, t, l, w);
    TargetSplit(p, w);
  }

  /** How much worse any other vector is: exactly the quadratic form of the difference. */
  lemma {:induction false} ExcessIsForm(p: Problem, a: Matrix, t: seq<real>, l: Matrix, sqrt: real -> real,
                                        w: seq<real>, v: Vec, diff: Vec)
    requires IsSystem(p, a, t, l) && IsFactor(a, l, sqrt) && SqrtLaw(sqrt) && Solves(a, l, w, t)
    requires forall j :: 0 <= j < p.d ==> diff(j) == v(j) - OfSeq(w)(j)
    ensures Objective(p, v) - Objective(p, OfSeq(w)) == Form(a, l, diff, diff)
  {
    var wv := OfSeq(w);
    forall j | 0 <= j < p.d ensures ShiftedTimes(a, l, wv)(j) == Target(p)(j) {}
    DotCongruent(0, p.d, v, ShiftedTimes(a, l, wv), v, Target(p));
    DotCongruent(0, p.d, wv, ShiftedTimes(a, l, wv), wv, Target(p));
    FormDifference(a, l, sqrt, v, wv, diff);
    ObjectiveExpands(p, a, t, l, v);
    ObjectiveExpands(p, a, t, l, wv);
  }

  /** w beats every other weight vector. */
  ghost predicate IsStrictMinimiser(p: Problem, w: seq<real>) {
    |w| == p.d && forall v: seq<real> :: |v| == p.d && v != w ==> Objective(p, OfSeq(w)) < Objective(p, OfSeq(v))
  }

  /** The solution of the shifted system is the one minimiser of the objective,
      whatever the signs of the ridge weight and the penalties. */
  lemma {:induction false} SolutionMinimises(p: Problem, a: Matrix, t: seq<real>, l: Matrix, sqrt: real -> real,
                                             w: seq<real>)
    requires IsSystem(p, a, t, l) && IsFactor(a, l, sqrt) && SqrtLaw(sqrt) && Solves(a, l, w, t)
    ensures IsStrictMinimiser(p, w)
  {
    forall v: seq<real> | |v| == p.d && v != w ensures Objective(p, OfSeq(w)) < Objective(p, OfSeq(v)) {
      OthersAreWorse(p, a, t, l, sqrt, w, v);
    }
  }

  lemma {:induction false} OthersAreWorse(p: Problem, a: Matrix, t: seq<real>, l: Matrix, sqrt: real -> real,
                                          w: seq<real>, v: seq<real>)
    requires IsSystem(p, a, t, l) && IsFactor(a, l, sqrt) && SqrtLaw(sqrt) && Solves(a, l, w, t)
    requires |v| == p.d && v != w
    ensures Objective(p, OfSeq(w)) < Objective(p, OfSeq(v))
  {
    var diff: Vec := j => OfSeq(v)(j) - OfSeq(w)(j);
    ExcessIsForm(p, a, t, l, sqrt, w, OfSeq(v), diff);
    ShiftedIsPositiveDefinite(a, l, sqrt, diff);
    var j :| 0 <= j < p.d && v[j] != w[j];
    assert diff(j) != 0.0;
  }

  /** The fitted part of the signal has mean zero in sample, for any weights. */
  lemma {:induction false} FittedSumsToZero(p: Problem, w: Vec)
    requires forall j :: 0 <= j < p.d ==> Sum(|p.xs|, ColOf(p.xs, j)) == 0.0
    ensures Sum(|p.xs|, Fitted(p.xs, p.d, w)) == 0.0
  {
    var n := |p.xs|;
    var sums: Vec := j => Dot(0, n, ColOf(p.xs, j), ONES);
    forall j | 0 <= j < p.d ensures sums(j) == 0.0 { DotIsSum(n, ColOf(p.xs, j), ONES, ColOf(p.xs, j)); }
    MoveFeatures(p, w, ONES, sums);
    DotZero(0, p.d, w, sums);
    DotIsSum(n, Fitted(p.xs, p.d, w), ONES, Fitted(p.xs, p.d, w));
  }

  // ---- The model -------------------------------------------------------------

  /** The consolidation penalties: none unless both lists are non-empty and the
      importance list has the right length. */
  function PenaltyOf(ewc: real, fisher: seq<real>, baseline: seq<real>, d: nat): Vec {
    j => if |fisher| > 0 && |baseline| > 0 && |fisher| == d && 0 <= j < d then ewc * fisher[j] else 0.0
  }

  /** Each weight is held to its anchor by the consolidation strength times its own
      importance, if the importances are those of as many features. */
  lemma PenaltyIs(ewc: real, fisher: seq<real>, baseline: seq<real>, d: nat, j: nat)
    requires j < d
    ensures PenaltyOf(ewc, fisher, baseline, d)(j) ==
      if |fisher| == d && baseline != [] then Times(ewc, fisher[j]) else 0.0
  {}

  /** p is the problem of fitting y on the scaled features xs, with a positive
      diagonal shift from the solver. */
  ghost predicate Poses(p: Problem, xs: Matrix, y: seq<real>, ridge: real, ewc: real,
                        fisher: seq<real>, baseline: seq<real>)
    requires |xs| > 0
  {
    && p.xs == xs && p.y == OfSeq(y) && p.d == |xs[0]| && p.ridge == ridge
    && p.penalty == PenaltyOf(ewc, fisher, baseline, p.d) && p.anchor == OfSeq(baseline)
    && forall j :: 0 <= j < p.d ==> p.shift(j) > 0.0
  }

  /** w is the strict minimiser of the problem so posed. */
  ghost predicate Minimises(w: seq<real>, xs: Matrix, y: seq<real>, ridge: real, ewc: real,
                            fisher: seq<real>, baseline: seq<real>, sqrt: real -> real)
    requires |xs| > 0
  {
    exists p: Problem :: Poses(p, xs, y, ridge, ewc, fisher, baseline) && ShiftedByFactor(p, sqrt) &&
      IsStrictMinimiser(p, w)
  }

  class MomentumModel {
    const ridgeLambda: real
    const ewcLambda: real
    var weights: Option<seq<real>>
    var bias: real
    var fisherWeights: seq<real>
    var baselineWeights: seq<real>
    var featureMeans: seq<real>
    var featureStds: seq<real>

    constructor (ridgeLambda: real, fisherWeights: seq<real>, baselineWeights: seq<real>, ewcLambda: real)
      ensures this.ridgeLambda == ridgeLambda && this.ewcLambda == ewcLambda
      ensures this.fisherWeights == fisherWeights && this.baselineWeights == baselineWeights
      ensures weights == None && bias == 0.0
      ensures featureMeans == seq(6, i => 0.0) && featureStds == seq(6, i => 1.0)
    {
      this.ridgeLambda, this.ewcLambda := ridgeLambda, ewcLambda;
      this.fisherWeights, this.baselineWeights := fisherWeights, baselineWeights;
      weights, bias := None, 0.0;
      featureMeans, featureStds := seq(6, i => 0.0), seq(6, i => 1.0);
    }

    method FitScaler(x: Matrix, sqrt: real -> real)
      requires Rectangular(x) && SqrtLaw(sqrt)
      modifies this`featureMeans, this`featureStds
      ensures featureMeans == Means(x)
      ensures featureStds == Stds(x, sqrt)
      ensures forall j :: 0 <= j < |featureStds| ==> featureStds[j] > 0.0
    {
      featureMeans := Means(x);
      featureStds := Stds(x, sqrt);
      forall j | 0 <= j < |x[0]| ensures featureStds[j] > 0.0 { StdPositive(x, j, sqrt); }
    }

    /** Fit the model. p is the problem the call solves: its objective has the
        new weights as its one strict minimiser. */
    method Fit(x: Matrix, y: seq<real>, sqrt: real -> real) returns (ghost p: Problem)
      requires Rectangular(x) && |y| >= |x| && SqrtLaw(sqrt)
      modifies this
      ensures IsScaled(x, p.xs, sqrt)
      ensures Poses(p, p.xs, y, ridgeLambda, ewcLambda, old(fisherWeights), old(baselineWeights))
      ensures ShiftedByFactor(p, sqrt) && weights.Some? && IsStrictMinimiser(p, weights.value)
      ensures bias == Sum(|y|, OfSeq(y)) / |x| as real
      ensures featureMeans == Means(x) && featureStds == Stds(x, sqrt)
      ensures baselineWeights == weights.value
      ensures fisherWeights == InverseVariances(Stds(x, sqrt))
    {
      FitScaler(x, sqrt);
      var stds := featureStds;
      var xs := ScaleRows(x, featureMeans, stds, sqrt);
      var w;
      w, p := SolveWeights(xs, y, ridgeLambda, ewcLambda, fisherWeights, baselineWeights, sqrt);
      weights := Some(w);

      bias := Intercept(x, xs, y, w, sqrt);
      fisherWeights := InverseVariances(stds);
      baselineWeights := w;
    }
  }

  /** The intercept: the feature means it corrects for are all zero. */
  method Intercept(ghost x: Matrix, xs: Matrix, y: seq<real>, w: seq<real>, ghost sqrt: real -> real)
      returns (bias: real)
    requires IsScaled(x, xs, sqrt) && SqrtLaw(sqrt) && |w| == |x[0]|
    ensures bias == Sum(|y|, OfSeq(y)) / |x| as real
  {
    var colMeans := seq(|xs[0]|, j => Mean(xs, j));
    bias := Sum(|y|, OfSeq(y)) / |xs| as real - Dot(0, |w|, OfSeq(w), OfSeq(colMeans));
    forall j | 0 <= j < |w| ensures OfSeq(colMeans)(j) == 0.0 { MeanIsZero(x, xs, sqrt, j); }
    DotZero(0, |w|, OfSeq(w), OfSeq(colMeans));
  }

  /** Inverse variance of a feature with standard deviation s, floored. */
  function InverseVariance(s: real): (f: real)
    ensures IsQuotient(f, 1.0, Max(Square(s), SCALE_FLOOR))
  {
    var d := Max(Square(s), SCALE_FLOOR);
    QuotientTimes(1.0 / d, 1.0, d);
    1.0 / d
  }

  function InverseVariances(stds: seq<real>): (f: seq<real>)
    ensures |f| == |stds| && forall j :: 0 <= j < |f| ==> f[j] == InverseVariance(stds[j])
  {
    seq(|stds|, j requires 0 <= j < |stds| => InverseVariance(stds[j]))
  }

  /** The augmented normal equations, as the entries of their parts. */
  ghost predicate IsAugmented(xs: Matrix, y: seq<real>, ridge: real, penalty: Vec, anchor: Vec, reg: Matrix,
                              diag: seq<real>, a: Matrix, t: seq<real>)
    requires Rectangular(xs)
  {
    var d := |xs[0]|;
    && d == |diag| == |t| && IsSquare(reg, d) && IsSquare(MatMul(Transpose(xs), xs), d)
    && (forall i, j :: 0 <= i < d && 0 <= j < d ==> reg[i][j] == if i == j then ridge else 0.0)
    && (forall j :: 0 <= j < d ==> diag[j] == penalty(j))
    && a == Augment(MatMul(Transpose(xs), xs), reg, diag)
    && IsTarget(xs, OfSeq(y), diag, anchor, t)
  }

  method BuildSystem(xs: Matrix, y: seq<real>, ridge: real, ewc: real, fisher: seq<real>, baseline: seq<real>)
    returns (a: Matrix, t: seq<real>, ghost reg: Matrix, ghost diag: seq<real>)
    requires Rectangular(xs)
    ensures IsAugmented(xs, y, ridge, PenaltyOf(ewc, fisher, baseline, |xs[0]|), OfSeq(baseline), reg, diag, a, t)
  {
    var d := |xs[0]|;
    var ridgeDiag := RidgeDiagonal(d, ridge);
    var fisherDiag := PenaltyDiagonal(d, ewc, fisher, baseline);
    var xtx := MatMul(Transpose(xs), xs);
    a := Augment(xtx, ridgeDiag, fisherDiag);
    t := AnchoredTarget(xs, y, fisherDiag, fisher, baseline);
    reg, diag := ridgeDiag, fisherDiag;
  }

  /** Build the augmented normal equations and solve them. */
  method SolveWeights(xs: Matrix, y: seq<real>, ridge: real, ewc: real, fisher: seq<real>, baseline: seq<real>,
                      sqrt: real -> real)
    returns (w: seq<real>, ghost p: Problem)
    requires Rectangular(xs) && SqrtLaw(sqrt)
    ensures Poses(p, xs, y, ridge, ewc, fisher, baseline) && ShiftedByFactor(p, sqrt) && IsStrictMinimiser(p, w)
    ensures Minimises(w, xs, y, ridge, ewc, fisher, baseline, sqrt)
  {
    var d := |xs[0]|;
    ghost var reg, diag, l;
    var a, t;
    a, t, reg, diag := BuildSystem(xs, y, ridge, ewc, fisher, baseline);
    w, l := CholeskySolve(a, t, sqrt);
    p := Problem(xs, OfSeq(y), d, ridge, j => Shift(a, l, j), PenaltyOf(ewc, fisher, baseline, d), OfSeq(baseline));
    SystemBuilt(p, reg, diag, a, t, l);
    SolutionMinimises(p, a, t, l, sqrt, w);
  }

  function Augment(xtx: Matrix, reg: Matrix, diag: seq<real>): Matrix
    requires IsSquare(xtx, |diag|) && IsSquare(reg, |diag|)
  {
    seq(|diag|, i requires 0 <= i < |diag| => seq(|diag|, j requires 0 <= j < |diag| =>
      xtx[i][j] + reg[i][j] + (if i == j then diag[i] else 0.0)))
  }

  lemma SystemBuilt(p: Problem, reg: Matrix, diag: seq<real>, a: Matrix, t: seq<real>, l: Matrix)
    requires Rectangular(p.xs) && p.d == |p.xs[0]| == |diag| == |t| && IsSquare(reg, p.d)
    requires forall i, j :: 0 <= i < p.d && 0 <= j < p.d ==> reg[i][j] == if i == j then p.ridge else 0.0
    requires forall j :: 0 <= j < p.d ==> diag[j] == p.penalty(j) && p.shift(j) == Shift(a, l, j)
    requires a == Augment(MatMul(Transpose(p.xs), p.xs), reg, diag)
    requires IsTarget(p.xs, p.y, diag, p.anchor, t)
    ensures IsSystem(p, a, t, l)
  {
    forall i, j | 0 <= i < p.d && 0 <= j < p.d
      ensures a[i][j] == GramAt(p, i, j) + (if i == j then p.ridge + p.penalty(i) else 0.0)
    {
      GramEntry(p, i, j);
      AugmentEntry(MatMul(Transpose(p.xs), p.xs), reg, diag, i, j);
    }
  }

  lemma GramEntry(p: Problem, i: nat, j: nat)
    requires Rectangular(p.xs) && p.d == |p.xs[0]| && i < p.d && j < p.d
    ensures IsSquare(MatMul(Transpose(p.xs), p.xs), p.d)
    ensures MatMul(Transpose(p.xs), p.xs)[i][j] == GramAt(p, i, j)
  {
    DotCongruent(0, |p.xs|, RowOf(Transpose(p.xs), i), ColOf(p.xs, j), ColOf(p.xs, i), ColOf(p.xs, j));
  }

  lemma AugmentEntry(xtx: Matrix, reg: Matrix, diag: seq<real>, i: nat, j: nat)
    requires IsSquare(xtx, |diag|) && IsSquare(reg, |diag|) && i < |diag| && j < |diag|
    ensures Augment(xtx, reg, diag)[i][j] == xtx[i][j] + reg[i][j] + (if i == j then diag[i] else 0.0)
  {}

  method PenaltyDiagonal(d: nat, ewc: real, fisher: seq<real>, baseline: seq<real>) returns (diag: seq<real>)
    ensures |diag| == d && forall j :: 0 <= j < d ==> diag[j] == PenaltyOf(ewc, fisher, baseline, d)(j)
  {
    diag := seq(d, j => 0.0);
    if |fisher| > 0 && |baseline| > 0 && |fisher| == d {
      for i := 0 to d
        invariant |diag| == d
        invariant forall k :: 0 <= k < d ==> diag[k] == if k < i then ewc * fisher[k] else 0.0
      {
        diag := diag[i := ewc * fisher[i]];
      }
    }
  }

  method ScaleRows(x: Matrix, means: seq<real>, stds: seq<real>, ghost sqrt: real -> real) returns (xs: Matrix)
    requires Rectangular(x) && SqrtLaw(sqrt) && means == Means(x) && stds == Stds(x, sqrt)
    requires forall j :: 0 <= j < |stds| ==> stds[j] > 0.0
    ensures IsScaled(x, xs, sqrt)
  {
    xs := seq(|x|, i requires 0 <= i < |x| => Scale(x[i], means, stds));
    ScaledByScale(x, xs, means, stds, sqrt);
  }

  lemma ScaledByScale(x: Matrix, xs: Matrix, means: seq<real>, stds: seq<real>, sqrt: real -> real)
    requires Rectangular(x) && |xs| == |x| && SqrtLaw(sqrt)
    requires means == Means(x) && stds == Stds(x, sqrt)
    requires forall j :: 0 <= j < |stds| ==> stds[j] > 0.0
    requires forall i :: 0 <= i < |x| ==> xs[i] == Scale(x[i], means, stds)
    ensures IsScaled(x, xs, sqrt)
  {
    forall i, j | 0 <= i < |x| && 0 <= j < |x[0]| ensures IsQuotient(xs[i][j], x[i][j] - Mean(x, j), Std(x, j, sqrt)) {
      assert xs[i][j] == (x[i][j] - means[j]) / stds[j];
      QuotientTimes(xs[i][j], x[i][j] - means[j], stds[j]);
    }
  }

  /** The identity with every diagonal entry overwritten by the ridge weight. */
  method RidgeDiagonal(d: nat, ridge: real) returns (reg: Matrix)
    ensures IsSquare(reg, d)
    ensures forall i, j :: 0 <= i < d && 0 <= j < d ==> reg[i][j] == if i == j then ridge else 0.0
  {
    reg := Identity(d);
    for i := 0 to d
      invariant IsSquare(reg, d)
      invariant forall r, c :: 0 <= r < d && 0 <= c < d ==>
        reg[r][c] == if r != c then 0.0 else if r < i then ridge else 1.0
    {
      reg := reg[i := reg[i][i := ridge]];
    }
  }

  ghost predicate IsTarget(xs: Matrix, y: Vec, diag: seq<real>, anchor: Vec, t: seq<real>) {
    |t| == |diag| && forall j :: 0 <= j < |t| ==> t[j] == Dot(0, |xs|, ColOf(xs, j), y) + diag[j] * anchor(j)
  }

  /** X^T y, shifted towards the anchor. */
  method AnchoredTarget(xs: Matrix, y: seq<real>, fisherDiag: seq<real>, fisher: seq<real>, baseline: seq<real>)
    returns (t: seq<real>)
    requires Rectangular(xs) && |fisherDiag| == |xs[0]|
    requires |fisher| == 0 || |baseline| == 0 ==> forall j :: 0 <= j < |fisherDiag| ==> fisherDiag[j] == 0.0
    ensures |t| == |xs[0]| && IsTarget(xs, OfSeq(y), fisherDiag, OfSeq(baseline), t)
  {
    var d := |xs[0]|;
    t := seq(d, j => Dot(0, |xs|, ColOf(xs, j), OfSeq(y)));
    if |fisher| > 0 && |baseline| > 0 {
      for j := 0 to d
        invariant |t| == d
        invariant forall k :: 0 <= k < d ==>
                    t[k] == Dot(0, |xs|, ColOf(xs, k), OfSeq(y))
                      + (if k < j then fisherDiag[k] * OfSeq(baseline)(k) else 0.0)
      {
        if j < |baseline| {
          t := t[j := t[j] + fisherDiag[j] * baseline[j]];
        }
      }
    }
  }
}
