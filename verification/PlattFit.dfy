/** Platt calibration: the Newton fit of two parameters and its line search. */
module PlattFit {
  import opened Sums

  const SINGULAR: real := 0.000000000000001
  const TINY: real := 0.000000000000001

  /** exp lives inside the sigmoid; log is called on positive numbers only. */
  datatype Maths = Maths(sigmoid: real -> real, log: real -> real)

  ghost predicate SigmoidLaw(m: Maths) {
    forall z {:trigger m.sigmoid(z)} :: 0.0 <= m.sigmoid(z) <= 1.0
  }

  function Abs(x: real): real { if x < 0.0 then -x else x }

  // ---- The Hessian -------------------------------------------------------------------------

  function Fitted(a: real, b: real, xs: seq<real>, k: int): real {
    Times(a, OfSeq(xs)(k)) + b
  }

  /** p (1 - p), the curvature each sample carries. */
  function Weights(m: Maths, a: real, b: real, xs: seq<real>): Vec {
    k => var p := m.sigmoid(Fitted(a, b, xs, k)); Times(p, 1.0 - p)
  }

  function WeightedX(w: Vec, x: Vec): Vec { k => Times(w(k), x(k)) }

  function WeightedXX(w: Vec, x: Vec): Vec { k => Times(Times(w(k), x(k)), x(k)) }

  /** w_k (u x_k + v)^2 */
  function WeightedSquares(w: Vec, x: Vec, u: real, v: real): Vec {
    k => Times(w(k), Square(Times(u, x(k)) + v))
  }

  lemma WeightsNonneg(m: Maths, a: real, b: real, xs: seq<real>, k: int)
    requires SigmoidLaw(m)
    ensures Weights(m, a, b, xs)(k) >= 0.0
  {
    var p := m.sigmoid(Fitted(a, b, xs, k));
    NonnegTimes(p, 1.0 - p);
  }

  lemma NonnegTimes(x: real, y: real)
    requires x >= 0.0 && y >= 0.0
    ensures Times(x, y) >= 0.0
  {}

  lemma QuadraticTerm(w: real, x: real, u: real, v: real)
    ensures Times(w, Square(Times(u, x) + v)) ==
      Times(Times(u, u), Times(Times(w, x), x)) + Times(2.0 * Times(u, v), Times(w, x)) + Times(Times(v, v), w)
  {}

  /** The quadratic form of the unregularised Hessian is a weighted sum of squares. */
  lemma {:induction false} QuadraticForm(n: nat, w: Vec, x: Vec, u: real, v: real)
    ensures Sum(n, WeightedSquares(w, x, u, v)) ==
      Times(Times(u, u), Sum(n, WeightedXX(w, x))) + Times(2.0 * Times(u, v), Sum(n, WeightedX(w, x)))
        + Times(Times(v, v), Sum(n, w))
  {
    if n == 0 {
      assert Times(Times(u, u), 0.0) == 0.0 && Times(2.0 * Times(u, v), 0.0) == 0.0 && Times(Times(v, v), 0.0) == 0.0;
    } else {
      QuadraticForm(n - 1, w, x, u, v);
      QuadraticTerm(w(n - 1), x(n - 1), u, v);
      TimesDistributes(Times(u, u), Sum(n - 1, WeightedXX(w, x)), WeightedXX(w, x)(n - 1));
      TimesDistributes(2.0 * Times(u, v), Sum(n - 1, WeightedX(w, x)), WeightedX(w, x)(n - 1));
      TimesDistributes(Times(v, v), Sum(n - 1, w), w(n - 1));
    }
  }

  lemma SquaresNonneg(n: nat, w: Vec, x: Vec, u: real, v: real)
    requires forall k :: 0 <= k < n ==> w(k) >= 0.0
    ensures Sum(n, WeightedSquares(w, x, u, v)) >= 0.0
  {
    forall k | 0 <= k < n ensures WeightedSquares(w, x, u, v)(k) >= 0.0 {
      SquareSign(Times(u, x(k)) + v);
      NonnegTimes(w(k), Square(Times(u, x(k)) + v));
    }
    SumNonneg(n, WeightedSquares(w, x, u, v));
  }

  /** Sum(w x^2) Sum(w) >= Sum(w x)^2 for every list of nonnegative weights. */
  lemma {:induction false} CauchySchwarz(n: nat, w: Vec, x: Vec)
    requires forall k :: 0 <= k < n ==> w(k) >= 0.0
    ensures Times(Sum(n, WeightedXX(w, x)), Sum(n, w)) >= Square(Sum(n, WeightedX(w, x)))
  {
    if n == 0 {
      assert Times(0.0, 0.0) == 0.0 && Square(0.0) == 0.0;
    } else {
      CauchySchwarz(n - 1, w, x);
      var c := x(n - 1);
      SquaresNonneg(n - 1, w, x, 1.0, -c);
      QuadraticForm(n - 1, w, x, 1.0, -c);
      GramStep(Sum(n - 1, WeightedXX(w, x)), Sum(n - 1, WeightedX(w, x)), Sum(n - 1, w), w(n - 1), c);
    }
  }

  lemma GramStep(a: real, b: real, c: real, w: real, x: real)
    requires Times(a, c) >= Square(b) && w >= 0.0
    requires Times(Times(1.0, 1.0), a) + Times(2.0 * Times(1.0, -x), b) + Times(Times(-x, -x), c) >= 0.0
    ensures Times(a + Times(Times(w, x), x), c + w) >= Square(b + Times(w, x))
  {
    var spread := a - 2.0 * (x * b) + x * x * c;
    assert spread == Times(Times(1.0, 1.0), a) + Times(2.0 * Times(1.0, -x), b) + Times(Times(-x, -x), c);
    NonnegTimes(w, spread);
    GramIdentity(a, b, c, w, x);
  }

  lemma GramIdentity(a: real, b: real, c: real, w: real, x: real)
    ensures Times(a + Times(Times(w, x), x), c + w) - Square(b + Times(w, x)) ==
      Times(a, c) - Square(b) + Times(w, a - 2.0 * (x * b) + x * x * c)
  {}

  datatype Hessian = Hessian(h11: real, h12: real, h22: real)

  function HessianAt(m: Maths, a: real, b: real, xs: seq<real>, l2: real): Hessian {
    var w, x, n := Weights(m, a, b, xs), OfSeq(xs), |xs|;
    Hessian(Sum(n, WeightedXX(w, x)) + l2, Sum(n, WeightedX(w, x)), Sum(n, w) + l2)
  }

  function Det(h: Hessian): real { Times(h.h11, h.h22) - Times(h.h12, h.h12) }

  /** At every iterate, for every data set: the determinant is at least the square of
      the regularisation strength. */
  lemma DeterminantBound(m: Maths, a: real, b: real, xs: seq<real>, l2: real)
    requires SigmoidLaw(m) && l2 >= 0.0
    ensures Det(HessianAt(m, a, b, xs, l2)) >= Square(l2)
  {
    var w, x, n := Weights(m, a, b, xs), OfSeq(xs), |xs|;
    forall k | 0 <= k < n ensures w(k) >= 0.0 { WeightsNonneg(m, a, b, xs, k); }
    CauchySchwarz(n, w, x);
    SumNonneg(n, w);
    forall k | 0 <= k < n ensures WeightedXX(w, x)(k) >= 0.0 { WeightedSquareTerm(w(k), x(k)); }
    SumNonneg(n, WeightedXX(w, x));
    RegularisedDet(Sum(n, WeightedXX(w, x)), Sum(n, WeightedX(w, x)), Sum(n, w), l2);
  }

  lemma WeightedSquareTerm(w: real, x: real)
    requires w >= 0.0
    ensures Times(Times(w, x), x) >= 0.0
  {
    SquareSign(x);
    NonnegTimes(w, Square(x));
    assert Times(Times(w, x), x) == Times(w, Square(x));
  }

  lemma RegularisedDet(a: real, b: real, c: real, l: real)
    requires a >= 0.0 && c >= 0.0 && l >= 0.0 && Times(a, c) >= Square(b)
    ensures Times(a + l, c + l) - Times(b, b) >= Square(l)
  {
    NonnegTimes(l, a + c);
    assert Times(a + l, c + l) == Times(a, c) + Times(l, a + c) + Square(l);
    assert Times(b, b) == Square(b);
  }

  // ---- The Newton step ------------------------------------------------------------------------

  predicate IsNewtonStep(h: Hessian, g1: real, g2: real, da: real, db: real) {
    Times(h.h11, da) + Times(h.h12, db) == g1 && Times(h.h12, da) + Times(h.h22, db) == g2
  }

  /** The analytic inverse really inverts: the step solves H d = g. */
  method NewtonStep(h: Hessian, g1: real, g2: real) returns (da: real, db: real)
    requires Det(h) != 0.0
    ensures IsNewtonStep(h, g1, g2, da, db)
  {
    var det := Det(h);
    var inv11, inv12, inv22 := h.h22 / det, -h.h12 / det, h.h11 / det;
    da := Times(inv11, g1) + Times(inv12, g2);
    db := Times(inv12, g1) + Times(inv22, g2);
    InverseSolves(h.h11, h.h12, h.h22, det, inv11, inv12, inv22, g1, g2);
  }

  lemma InverseSolves(h11: real, h12: real, h22: real, det: real, i11: real, i12: real, i22: real, g1: real, g2: real)
    requires det != 0.0 && det == Times(h11, h22) - Times(h12, h12)
    requires i11 * det == h22 && i12 * det == -h12 && i22 * det == h11
    ensures var da, db := Times(i11, g1) + Times(i12, g2), Times(i12, g1) + Times(i22, g2);
      Times(h11, da) + Times(h12, db) == g1 && Times(h12, da) + Times(h22, db) == g2
  {
    Inverts(h11, i11, h22, h12, i12, -h12, det, 1.0);
    Inverts(h12, i12, -h12, h22, i22, h11, det, 1.0);
    Inverts(h11, i12, -h12, h12, i22, h11, det, 0.0);
    Inverts(h12, i11, h22, h22, i12, -h12, det, 0.0);
    Combine(h11, h12, i11, i12, i12, i22, g1, g2);
    Combine(h12, h22, i11, i12, i12, i22, g1, g2);
  }

  /** One entry of H times its inverse: row (p, q), column (y, z) / det. */
  lemma Inverts(p: real, i: real, y: real, q: real, j: real, z: real, det: real, unit: real)
    requires det != 0.0 && i * det == y && j * det == z && Times(p, y) + Times(q, z) == Times(unit, det)
    ensures p * i + q * j == unit
  {
    var s := p * i + q * j;
    assert s * det == p * (i * det) + q * (j * det);
    Cancel(s, unit, det);
  }

  lemma Cancel(s: real, t: real, det: real)
    requires det != 0.0 && s * det == t * det
    ensures s == t
  {
    assert (s - t) * det == 0.0;
  }

  lemma Combine(p: real, q: real, i11: real, i12: real, i21: real, i22: real, g1: real, g2: real)
    ensures Times(p, Times(i11, g1) + Times(i12, g2)) + Times(q, Times(i21, g1) + Times(i22, g2)) ==
      Times(p * i11 + q * i21, g1) + Times(p * i12 + q * i22, g2)
  {}

  /** The slope of the loss along the step: g.d is at least l2 |d|^2, so stepping
      against d descends wherever the gradient is not zero. */
  lemma NewtonSlope(m: Maths, a: real, b: real, xs: seq<real>, l2: real, g1: real, g2: real, da: real, db: real)
    requires SigmoidLaw(m) && l2 >= 0.0
    requires IsNewtonStep(HessianAt(m, a, b, xs, l2), g1, g2, da, db)
    ensures Times(g1, da) + Times(g2, db) >= Times(l2, Square(da) + Square(db))
    ensures l2 > 0.0 && (g1 != 0.0 || g2 != 0.0) ==> Times(g1, da) + Times(g2, db) > 0.0
  {
    var w, x, n := Weights(m, a, b, xs), OfSeq(xs), |xs|;
    forall k | 0 <= k < n ensures w(k) >= 0.0 { WeightsNonneg(m, a, b, xs, k); }
    SquaresNonneg(n, w, x, da, db);
    QuadraticForm(n, w, x, da, db);
    SlopeIdentity(Sum(n, WeightedXX(w, x)), Sum(n, WeightedX(w, x)), Sum(n, w), l2, g1, g2, da, db);
    SquareSign(da);
    SquareSign(db);
    NonnegTimes(l2, Square(da) + Square(db));
    if l2 > 0.0 && (g1 != 0.0 || g2 != 0.0) {
      StepNotZero(HessianAt(m, a, b, xs, l2), g1, g2, da, db);
      SameSignTimes(l2, Square(da) + Square(db));
    }
  }

  lemma StepNotZero(h: Hessian, g1: real, g2: real, da: real, db: real)
    requires IsNewtonStep(h, g1, g2, da, db) && (g1 != 0.0 || g2 != 0.0)
    ensures Square(da) + Square(db) > 0.0
  {
    SquareSign(da);
    SquareSign(db);
    TimesZero(h.h11);
    TimesZero(h.h12);
    TimesZero(h.h22);
  }

  lemma TimesZero(x: real)
    ensures Times(x, 0.0) == 0.0
  {}

  lemma SlopeIdentity(p: real, q: real, r: real, l: real, g1: real, g2: real, da: real, db: real)
    requires Times(p + l, da) + Times(q, db) == g1 && Times(q, da) + Times(r + l, db) == g2
    ensures Times(g1, da) + Times(g2, db) ==
      Times(Times(da, da), p) + Times(2.0 * Times(da, db), q) + Times(Times(db, db), r)
        + Times(l, Square(da) + Square(db))
  {}

  // ---- The fit ---------------------------------------------------------------------------------

  /** Platt's smoothed targets. */
  function Smoothed(labels: seq<real>, positive: real, negative: real): (t: seq<real>)
    ensures |t| == |labels|
  {
    seq(|labels|, i requires 0 <= i < |labels| => if labels[i] > 0.5 then positive else negative)
  }

  function Errors(m: Maths, a: real, b: real, xs: seq<real>, ts: seq<real>): Vec {
    k => m.sigmoid(Fitted(a, b, xs, k)) - OfSeq(ts)(k)
  }

  function Clamped(p: real): real {
    var low := if p < 1.0 - TINY then p else 1.0 - TINY;
    if low > TINY then low else TINY
  }

  function AtLeastTiny(p: real): real { if p > TINY then p else TINY }

  function CrossEntropy(m: Maths, p: real, q: real, t: real): real {
    -(Times(t, m.log(p)) + Times(1.0 - t, m.log(q)))
  }

  /** Cross-entropy of one sample; only the pass guards both sides at once. */
  function Entropy(m: Maths, a: real, b: real, xs: seq<real>, ts: seq<real>): Vec {
    k =>
      var p, t := Clamped(m.sigmoid(Fitted(a, b, xs, k))), OfSeq(ts)(k);
      CrossEntropy(m, p, 1.0 - p, t)
  }

  function TrialEntropy(m: Maths, a: real, b: real, xs: seq<real>, ts: seq<real>): Vec {
    k =>
      var p, t := m.sigmoid(Fitted(a, b, xs, k)), OfSeq(ts)(k);
      CrossEntropy(m, AtLeastTiny(p), AtLeastTiny(1.0 - p), t)
  }

  datatype Pass = Pass(g1: real, g2: real, h: Hessian, loss: real)

  /** What one pass over the samples computes. */
  function PassAt(m: Maths, a: real, b: real, xs: seq<real>, ts: seq<real>, l2: real): Pass {
    var e, n := Errors(m, a, b, xs, ts), |xs|;
    Pass(Sum(n, WeightedX(e, OfSeq(xs))) + Times(l2, a), Sum(n, e) + Times(l2, b),
         HessianAt(m, a, b, xs, l2), Sum(n, Entropy(m, a, b, xs, ts)))
  }

  method Accumulate(m: Maths, a: real, b: real, xs: seq<real>, ts: seq<real>, l2: real) returns (pass: Pass)
    requires |ts| == |xs|
    ensures pass == PassAt(m, a, b, xs, ts, l2)
  {
    ghost var e, w, x, c := Errors(m, a, b, xs, ts), Weights(m, a, b, xs), OfSeq(xs), Entropy(m, a, b, xs, ts);
    var g1, g2, h11, h12, h22, loss := 0.0, 0.0, 0.0, 0.0, 0.0, 0.0;
    for k := 0 to |xs|
      invariant g1 == Sum(k, WeightedX(e, x)) && g2 == Sum(k, e)
      invariant h11 == Sum(k, WeightedXX(w, x)) && h12 == Sum(k, WeightedX(w, x)) && h22 == Sum(k, w)
      invariant loss == Sum(k, c)
    {
      var err, weight, entropy := SampleTerms(m, a, b, xs, ts, k);
      g1 := g1 + Times(err, xs[k]);
      g2 := g2 + err;
      h11 := h11 + Times(Times(weight, xs[k]), xs[k]);
      h12 := h12 + Times(weight, xs[k]);
      h22 := h22 + weight;
      loss := loss + entropy;
    }
    pass := Pass(g1 + Times(l2, a), g2 + Times(l2, b), Hessian(h11 + l2, h12, h22 + l2), loss);
  }

  method SampleTerms(m: Maths, a: real, b: real, xs: seq<real>, ts: seq<real>, k: nat)
      returns (err: real, weight: real, entropy: real)
    requires k < |xs| == |ts|
    ensures err == Errors(m, a, b, xs, ts)(k) && weight == Weights(m, a, b, xs)(k) &&
      entropy == Entropy(m, a, b, xs, ts)(k)
  {
    assert OfSeq(xs)(k) == xs[k] && OfSeq(ts)(k) == ts[k];
    var t, p := ts[k], m.sigmoid(Times(a, xs[k]) + b);
    err, weight := p - t, Times(p, 1.0 - p);
    var safe := Clamped(p);
    entropy := CrossEntropy(m, safe, 1.0 - safe, t);
  }

  method TrialLoss(m: Maths, a: real, b: real, xs: seq<real>, ts: seq<real>) returns (loss: real)
    requires |ts| == |xs|
    ensures loss == Sum(|xs|, TrialEntropy(m, a, b, xs, ts))
  {
    loss := 0.0;
    ghost var c := TrialEntropy(m, a, b, xs, ts);
    for k := 0 to |xs|
      invariant loss == Sum(k, c)
    {
      var entropy := TrialTerm(m, a, b, xs, ts, k);
      loss := loss + entropy;
    }
  }

  method TrialTerm(m: Maths, a: real, b: real, xs: seq<real>, ts: seq<real>, k: nat) returns (entropy: real)
    requires k < |xs| == |ts|
    ensures entropy == TrialEntropy(m, a, b, xs, ts)(k)
  {
    assert OfSeq(xs)(k) == xs[k] && OfSeq(ts)(k) == ts[k];
    var p, t := m.sigmoid(Times(a, xs[k]) + b), ts[k];
    entropy := CrossEntropy(m, AtLeastTiny(p), AtLeastTiny(1.0 - p), t);
  }

  predicate Accepted(m: Maths, a: real, b: real, xs: seq<real>, ts: seq<real>, step: real, p: Pass) {
    Sum(|xs|, TrialEntropy(m, a, b, xs, ts)) < p.loss + Times(Times(0.0001, step), Square(p.g1) + Square(p.g2))
  }

  function Halved(j: nat): real { if j == 0 then 1.0 else Halved(j - 1) * 0.5 }

  function Moved(a: real, step: real, d: real): real { a - Times(step, d) }

  /** The first of the ten halvings whose trial loss passes the test. */
  predicate FirstAccepted(m: Maths, a: real, b: real, xs: seq<real>, ts: seq<real>, p: Pass, da: real, db: real,
                          j: nat)
  {
    && j < 10
    && Accepted(m, Moved(a, Halved(j), da), Moved(b, Halved(j), db), xs, ts, Halved(j), p)
    && NoneAccepted(m, a, b, xs, ts, p, da, db, j)
  }

  predicate NoneAccepted(m: Maths, a: real, b: real, xs: seq<real>, ts: seq<real>, p: Pass, da: real, db: real,
                          j: nat)
  {
    forall i :: 0 <= i < j ==> !Accepted(m, Moved(a, Halved(i), da), Moved(b, Halved(i), db), xs, ts, Halved(i), p)
  }

  /** j is what ten rounds of backtracking settle on. */
  predicate Searched(m: Maths, a: real, b: real, xs: seq<real>, ts: seq<real>, p: Pass, da: real, db: real, j: nat) {
    FirstAccepted(m, a, b, xs, ts, p, da, db, j) || (j == 0 && NoneAccepted(m, a, b, xs, ts, p, da, db, 10))
  }

  method TryStep(m: Maths, a: real, b: real, xs: seq<real>, ts: seq<real>, p: Pass, da: real, db: real, step: real)
      returns (a': real, b': real, accepted: bool)
    requires |ts| == |xs|
    ensures a' == Moved(a, step, da) && b' == Moved(b, step, db)
    ensures accepted == Accepted(m, a', b', xs, ts, step, p)
  {
    a', b' := Moved(a, step, da), Moved(b, step, db);
    var loss := TrialLoss(m, a', b', xs, ts);
    accepted := loss < p.loss + Times(Times(0.0001, step), Square(p.g1) + Square(p.g2));
  }

  lemma NoneAcceptedGrows(m: Maths, a: real, b: real, xs: seq<real>, ts: seq<real>, p: Pass, da: real, db: real, i: nat)
    requires NoneAccepted(m, a, b, xs, ts, p, da, db, i)
    requires !Accepted(m, Moved(a, Halved(i), da), Moved(b, Halved(i), db), xs, ts, Halved(i), p)
    ensures NoneAccepted(m, a, b, xs, ts, p, da, db, i + 1)
  {}

  /** Backtracking: the accepted fraction of the Newton step, or all of it when none is. */
  method LineSearch(m: Maths, a: real, b: real, xs: seq<real>, ts: seq<real>, p: Pass, da: real, db: real)
      returns (a': real, b': real, ghost j: nat)
    requires |ts| == |xs|
    ensures a' == Moved(a, Halved(j), da) && b' == Moved(b, Halved(j), db)
    ensures exists i: nat :: i < 10 && a' == Moved(a, Halved(i), da) && b' == Moved(b, Halved(i), db)
    ensures Searched(m, a, b, xs, ts, p, da, db, j)
  {
    var step := 1.0;
    for i := 0 to 10
      invariant step == Halved(i)
      invariant NoneAccepted(m, a, b, xs, ts, p, da, db, i)
    {
      var accepted;
      a', b', accepted := TryStep(m, a, b, xs, ts, p, da, db, step);
      if accepted {
        return a', b', i;
      }
      NoneAcceptedGrows(m, a, b, xs, ts, p, da, db, i);
      step := step * 0.5;
    }
    return Moved(a, 1.0, da), Moved(b, 1.0, db), 0;
  }

  /** One iteration: from (a, b), against the step (da, db), cut in half j times. */
  datatype Move = Move(a: real, b: real, da: real, db: real, j: nat)

  /** The data and settings of one fit. */
  datatype Task = Task(m: Maths, xs: seq<real>, ts: seq<real>, l2: real, tol: real)

  function PassBefore(t: Task, mv: Move): Pass { PassAt(t.m, mv.a, mv.b, t.xs, t.ts, t.l2) }

  predicate SmallStep(mv: Move, tol: real) {
    Abs(Moved(mv.a, 1.0, mv.da) - mv.a) < tol && Abs(Moved(mv.b, 1.0, mv.db) - mv.b) < tol
  }

  /** The step solves H d = g at (a, b), where H is not taken for singular; a small
      step is taken whole, any other as the line search says. */
  predicate IsMove(t: Task, mv: Move) {
    var p := PassBefore(t, mv);
    && Abs(Det(p.h)) >= SINGULAR
    && IsNewtonStep(p.h, p.g1, p.g2, mv.da, mv.db)
    && (if SmallStep(mv, t.tol) then mv.j == 0 else Searched(t.m, mv.a, mv.b, t.xs, t.ts, p, mv.da, mv.db, mv.j))
  }

  /** Moves that lead from (1, 0) to (a, b). */
  predicate IsPath(t: Task, path: seq<Move>, a: real, b: real) {
    if |path| == 0 then a == 1.0 && b == 0.0
    else
      var init, last := path[..|path| - 1], path[|path| - 1];
      (a, b) == Landed(last) && IsMove(t, last) && IsPath(t, init, last.a, last.b)
  }

  function Landed(mv: Move): (real, real) {
    (Moved(mv.a, Halved(mv.j), mv.da), Moved(mv.b, Halved(mv.j), mv.db))
  }

  /** The iteration after which the fit rests: its step was small, or its pass found
      the loss hardly changed since the pass before. */
  predicate Settles(t: Task, path: seq<Move>, i: nat)
    requires i < |path|
  {
    SmallStep(path[i], t.tol) || (i > 0 && Abs(PassBefore(t, path[i]).loss - PassBefore(t, path[i - 1]).loss) < t.tol)
  }

  predicate Unsettled(t: Task, path: seq<Move>, n: nat)
    requires n <= |path|
  {
    forall i :: 0 <= i < n ==> !Settles(t, path, i)
  }

  /** The path stops at its first settling iteration, at maxIter, or at a Hessian
      taken for singular. */
  predicate IsRun(t: Task, path: seq<Move>, maxIter: nat, a: real, b: real, singular: bool) {
    && IsPath(t, path, a, b) && |path| <= maxIter
    && Unsettled(t, path, if |path| == 0 then 0 else |path| - 1)
    && if singular then Unsettled(t, path, |path|) && |path| < maxIter &&
      Abs(Det(HessianAt(t.m, a, b, t.xs, t.l2))) < SINGULAR
       else |path| == maxIter || (|path| > 0 && Settles(t, path, |path| - 1))
  }

  lemma PathGrows(t: Task, path: seq<Move>, mv: Move)
    requires IsPath(t, path, mv.a, mv.b) && IsMove(t, mv)
    ensures IsPath(t, path + [mv], Landed(mv).0, Landed(mv).1)
  {
    assert (path + [mv])[..|path|] == path;
  }

  predicate Close(t: Task, path: seq<Move>, loss: real, prevLoss: real) {
    |path| > 0 && Abs(loss - prevLoss) < t.tol
  }

  /** What one more move makes of an unsettled path. */
  lemma RunGrows(t: Task, path: seq<Move>, mv: Move, prevLoss: real, settled: bool)
    requires IsPath(t, path, mv.a, mv.b) && IsMove(t, mv) && Unsettled(t, path, |path|)
    requires |path| > 0 ==> prevLoss == PassBefore(t, path[|path| - 1]).loss
    requires settled <==> SmallStep(mv, t.tol) || Close(t, path, PassBefore(t, mv).loss, prevLoss)
    ensures IsPath(t, path + [mv], Landed(mv).0, Landed(mv).1)
    ensures Settles(t, path + [mv], |path|) == settled
    ensures Unsettled(t, path + [mv], if settled then |path| else |path| + 1)
  {
    PathGrows(t, path, mv);
    forall i | 0 <= i < |path| ensures !Settles(t, path + [mv], i) { assert !Settles(t, path, i); }
  }

  lemma {:induction false} PathHasMoves(t: Task, path: seq<Move>, a: real, b: real, i: nat)
    requires IsPath(t, path, a, b) && i < |path|
    ensures IsMove(t, path[i])
    decreases |path|
  {
    var last := |path| - 1;
    if i < last { PathHasMoves(t, path[..last], path[last].a, path[last].b, i); }
  }

  datatype Fit = Fit(a: real, b: real, singular: bool)

  function Within(x: real, bound: real): real {
    var low := if x < bound then x else bound;
    if low > -bound then low else -bound
  }

  /** One iteration. singular reports the break that the determinant bound makes
      unreachable whenever l2^2 is at least the threshold, as with the default 0.01. */
  method Iterate(t: Task, a: real, b: real)
      returns (a': real, b': real, singular: bool, converged: bool, loss: real, ghost mv: Move)
    requires |t.ts| == |t.xs| && SigmoidLaw(t.m) && t.l2 >= 0.0
    ensures singular <==> Abs(Det(HessianAt(t.m, a, b, t.xs, t.l2))) < SINGULAR
    ensures Square(t.l2) >= SINGULAR ==> !singular
    ensures singular ==> a' == a && b' == b
    ensures !singular ==> mv.a == a && mv.b == b && IsMove(t, mv) && (a', b') == Landed(mv)
    ensures !singular ==> (converged <==> SmallStep(mv, t.tol)) && loss == PassBefore(t, mv).loss
  {
    var p := Accumulate(t.m, a, b, t.xs, t.ts, t.l2);
    DeterminantBound(t.m, a, b, t.xs, t.l2);
    a', b', loss, converged, mv := a, b, p.loss, false, Move(a, b, 0.0, 0.0, 0);
    singular := Abs(Det(p.h)) < SINGULAR;
    if singular {
      return;
    }
    var da, db := NewtonStep(p.h, p.g1, p.g2);
    a', b' := Moved(a, 1.0, da), Moved(b, 1.0, db);
    mv := Move(a, b, da, db, 0);
    converged := Abs(a' - a) < t.tol && Abs(b' - b) < t.tol;
    if !converged {
      ghost var j;
      a', b', j := LineSearch(t.m, a, b, t.xs, t.ts, p, da, db);
      mv := Move(a, b, da, db, j);
    }
  }

  method Descend(t: Task, maxIter: nat) returns (a: real, b: real, singular: bool, ghost path: seq<Move>)
    requires |t.ts| == |t.xs| && SigmoidLaw(t.m) && t.l2 >= 0.0
    ensures IsRun(t, path, maxIter, a, b, singular)
    ensures Square(t.l2) >= SINGULAR ==> !singular
  {
    a, b, singular, path := 1.0, 0.0, false, [];
    var prevLoss, i, settled := 0.0, 0, false;
    while i < maxIter && !settled && !singular
      invariant i <= maxIter
      invariant IsPath(t, path, a, b) && |path| == i
      invariant settled ==> i > 0 && Settles(t, path, i - 1)
      invariant Unsettled(t, path, if settled then i - 1 else i)
      invariant singular ==> !settled && i < maxIter && Abs(Det(HessianAt(t.m, a, b, t.xs, t.l2))) < SINGULAR
      invariant Square(t.l2) >= SINGULAR ==> !singular
      invariant i > 0 ==> prevLoss == PassBefore(t, path[i - 1]).loss
      decreases maxIter - i, !singular
    {
      var converged, loss;
      ghost var mv;
      a, b, singular, converged, loss, mv := Iterate(t, a, b);
      if !singular {
        settled := converged || (i > 0 && Abs(loss - prevLoss) < t.tol);
        RunGrows(t, path, mv, prevLoss, settled);
        path, prevLoss, i := path + [mv], loss, i + 1;
      }
    }
  }

  /** The fit is the end of a run of Newton moves from (1, 0), with its slope clamped;
      there is no singular stop when l2^2 reaches the threshold. */
  method FitPlatt(m: Maths, xs: seq<real>, labels: seq<real>, maxIter: nat, tol: real, l2: real, aMax: real)
      returns (fit: Fit, ghost a: real, ghost path: seq<Move>)
    requires SigmoidLaw(m) && l2 >= 0.0 && aMax >= 0.0 && Binary(labels)
    ensures |xs| == 0 || |labels| == 0 || |xs| != |labels| ==> fit == Fit(1.0, 0.0, false)
    ensures |xs| > 0 && |xs| == |labels| ==>
      -aMax <= fit.a <= aMax && fit.a == Within(a, aMax)
      && IsRun(Task(m, xs, Targeted(labels), l2, tol), path, maxIter, a, fit.b, fit.singular)
    ensures Square(l2) >= SINGULAR ==> !fit.singular
  {
    if |xs| == 0 || |labels| == 0 || |xs| != |labels| {
      return Fit(1.0, 0.0, false), 1.0, [];
    }
    var ts := Targets(labels);
    var slope, b, singular;
    slope, b, singular, path := Descend(Task(m, xs, ts, l2, tol), maxIter);
    a := slope;
    fit := Fit(Within(slope, aMax), b, singular);
  }

  function Targeted(labels: seq<real>): (ts: seq<real>)
    requires |labels| > 0 && Binary(labels)
    ensures |ts| == |labels|
  {
    PositivesInRange(|labels|, labels);
    var positives := Sum(|labels|, OfSeq(labels));
    var negatives := |labels| as real - positives;
    Smoothed(labels, (positives + 1.0) / (positives + 2.0), 1.0 / (negatives + 2.0))
  }

  predicate Binary(labels: seq<real>) {
    forall k :: 0 <= k < |labels| ==> labels[k] == 0.0 || labels[k] == 1.0
  }

  lemma {:induction false} PositivesInRange(n: nat, labels: seq<real>)
    requires Binary(labels) && n <= |labels|
    ensures 0.0 <= Sum(n, OfSeq(labels)) <= n as real
  {
    if n > 0 { PositivesInRange(n - 1, labels); }
  }

  lemma SmoothedInside(x: real)
    requires x >= 0.0
    ensures 0.5 <= (x + 1.0) / (x + 2.0) < 1.0 && 0.0 < 1.0 / (x + 2.0) <= 0.5
  {}

  /** Smoothed targets: strictly between 0 and 1, on their label's side of one half. */
  method Targets(labels: seq<real>) returns (ts: seq<real>)
    requires |labels| > 0 && Binary(labels)
    ensures ts == Targeted(labels)
    ensures forall k :: 0 <= k < |ts| ==> if labels[k] == 1.0 then 0.5 <= ts[k] < 1.0 else 0.0 < ts[k] <= 0.5
  {
    var n, positives := |labels| as real, Sum(|labels|, OfSeq(labels));
    PositivesInRange(|labels|, labels);
    var negatives := n - positives;
    SmoothedInside(positives);
    SmoothedInside(negatives);
    ts := Smoothed(labels, (positives + 1.0) / (positives + 2.0), 1.0 / (negatives + 2.0));
  }
}
