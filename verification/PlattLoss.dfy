/** The regularised loss behind the Newton fit: its passes compute the gradient, and
    every Newton step is a direction of descent. */
module PlattLoss {
  import opened Sums
  import opened PlattFit

  /** Beyond this the sigmoid is clamped and no longer the logistic function. */
  const CLAMP: real := 500.0

  function PositiveLoss(m: Maths, z: real): real { -m.log(m.sigmoid(z)) }

  function NegativeLoss(m: Maths, z: real): real { -m.log(1.0 - m.sigmoid(z)) }

  predicate Unclamped(z: real) { -CLAMP <= z <= CLAMP }

  /** The two cross-entropies are convex with slopes p - 1 and p, and p moves no faster
      than z: what the logistic function and the natural logarithm satisfy. */
  ghost predicate LogisticLaw(m: Maths) {
    forall y, z {:trigger m.sigmoid(y), m.sigmoid(z)} :: Unclamped(y) && Unclamped(z) ==>
      && PositiveLoss(m, y) >= PositiveLoss(m, z) + Times(m.sigmoid(z) - 1.0, y - z)
      && NegativeLoss(m, y) >= NegativeLoss(m, z) + Times(m.sigmoid(z), y - z)
      && Abs(m.sigmoid(y) - m.sigmoid(z)) <= Abs(y - z)
  }

  function SampleLoss(m: Maths, z: real, t: real): real {
    Times(t, PositiveLoss(m, z)) + Times(1.0 - t, NegativeLoss(m, z))
  }

  function SampleLosses(m: Maths, a: real, b: real, xs: seq<real>, ts: seq<real>): Vec {
    k => SampleLoss(m, Fitted(a, b, xs, k), OfSeq(ts)(k))
  }

  function Penalty(l2: real, a: real, b: real): real { Times(0.5 * l2, Square(a) + Square(b)) }

  function PenaltySlope(l2: real, a: real, b: real, u: real, v: real): real {
    Times(Times(l2, a), u) + Times(Times(l2, b), v)
  }

  /** Cross-entropy of the smoothed targets plus l2/2 (a^2 + b^2). */
  function RegLoss(m: Maths, a: real, b: real, xs: seq<real>, ts: seq<real>, l2: real): real {
    Sum(|xs|, SampleLosses(m, a, b, xs, ts)) + Penalty(l2, a, b)
  }

  predicate AreTargets(ts: seq<real>) { forall k :: 0 <= k < |ts| ==> 0.0 <= ts[k] <= 1.0 }

  predicate InRange(a: real, b: real, xs: seq<real>) {
    forall k :: 0 <= k < |xs| ==> Unclamped(Fitted(a, b, xs, k))
  }

  predicate InsideRange(a: real, b: real, xs: seq<real>) {
    forall k :: 0 <= k < |xs| ==> Abs(Fitted(a, b, xs, k)) < CLAMP
  }

  // ---- The loss lies above its tangents ------------------------------------------------

  lemma SampleTangent(m: Maths, y: real, z: real, t: real)
    requires LogisticLaw(m) && Unclamped(y) && Unclamped(z) && 0.0 <= t <= 1.0
    ensures SampleLoss(m, y, t) >= SampleLoss(m, z, t) + Times(m.sigmoid(z) - t, y - z)
  {
    var p := m.sigmoid(z);
    assert m.sigmoid(y) == m.sigmoid(y);
    MixTangents(t, PositiveLoss(m, y), PositiveLoss(m, z), NegativeLoss(m, y), NegativeLoss(m, z), p, y - z);
  }

  lemma MixTangents(t: real, py: real, pz: real, ny: real, nz: real, p: real, d: real)
    requires 0.0 <= t <= 1.0 && py >= pz + Times(p - 1.0, d) && ny >= nz + Times(p, d)
    ensures Times(t, py) + Times(1.0 - t, ny) >= Times(t, pz) + Times(1.0 - t, nz) + Times(p - t, d)
  {
    NonnegTimes(t, py - pz - Times(p - 1.0, d));
    NonnegTimes(1.0 - t, ny - nz - Times(p, d));
  }

  /** How the fitted value of sample k moves with (u, v). */
  function Shifts(u: real, v: real, xs: seq<real>): Vec { k => Times(u, OfSeq(xs)(k)) + v }

  function Products(f: Vec, g: Vec): Vec { k => Times(f(k), g(k)) }

  lemma {:induction false} ShiftedSum(n: nat, e: Vec, u: real, v: real, xs: seq<real>)
    ensures Sum(n, Products(e, Shifts(u, v, xs))) == Times(u, Sum(n, WeightedX(e, OfSeq(xs)))) + Times(v, Sum(n, e))
  {
    if n == 0 {
      TimesZero(u);
      TimesZero(v);
    } else {
      ShiftedSum(n - 1, e, u, v, xs);
      ShiftedTerm(e(n - 1), u, OfSeq(xs)(n - 1), v);
      TimesDistributes(u, Sum(n - 1, WeightedX(e, OfSeq(xs))), WeightedX(e, OfSeq(xs))(n - 1));
      TimesDistributes(v, Sum(n - 1, e), e(n - 1));
    }
  }

  lemma ShiftedTerm(e: real, u: real, x: real, v: real)
    ensures Times(e, Times(u, x) + v) == Times(u, Times(e, x)) + Times(v, e)
  {}

  lemma {:induction false} SumTangent(n: nat, f: Vec, g: Vec, slope: Vec)
    requires forall k :: 0 <= k < n ==> f(k) >= g(k) + slope(k)
    ensures Sum(n, f) >= Sum(n, g) + Sum(n, slope)
  {
    if n > 0 { SumTangent(n - 1, f, g, slope); }
  }

  lemma SquareTangent(l2: real, a: real, u: real)
    requires l2 >= 0.0
    ensures Times(0.5 * l2, Square(a + u)) >= Times(0.5 * l2, Square(a)) + Times(Times(l2, a), u)
  {
    SquareSign(u);
    NonnegTimes(0.5 * l2, Square(u));
    assert Times(0.5 * l2, Square(a + u)) == Times(0.5 * l2, Square(a)) + Times(Times(l2, a), u)
      + Times(0.5 * l2, Square(u));
  }

  /** The slope of the loss at (a, b) along (u, v), from what the pass computes. */
  function SlopeAlong(p: Pass, u: real, v: real): real { Times(p.g1, u) + Times(p.g2, v) }

  function SlopeAt(m: Maths, a: real, b: real, xs: seq<real>, ts: seq<real>, l2: real, u: real, v: real): real {
    SlopeAlong(PassAt(m, a, b, xs, ts, l2), u, v)
  }

  lemma SlopeParts(m: Maths, a: real, b: real, xs: seq<real>, ts: seq<real>, l2: real, u: real, v: real)
    ensures SlopeAt(m, a, b, xs, ts, l2, u, v) ==
      Sum(|xs|, Products(Errors(m, a, b, xs, ts), Shifts(u, v, xs))) + PenaltySlope(l2, a, b, u, v)
  {
    var e := Errors(m, a, b, xs, ts);
    ShiftedSum(|xs|, e, u, v, xs);
    TimesDistributes(u, Sum(|xs|, WeightedX(e, OfSeq(xs))), Times(l2, a));
    TimesDistributes(v, Sum(|xs|, e), Times(l2, b));
  }

  lemma FittedShifted(a: real, b: real, a': real, b': real, u: real, v: real, xs: seq<real>, k: int)
    requires a' == a + u && b' == b + v
    ensures Fitted(a', b', xs, k) == Fitted(a, b, xs, k) + Shifts(u, v, xs)(k)
  {
    TimesDistributes(OfSeq(xs)(k), a, u);
  }

  /** The samples' part of the loss lies above its tangent. */
  lemma SamplesAboveTangent(m: Maths, a: real, b: real, a': real, b': real, u: real, v: real, xs: seq<real>,
      ts: seq<real>)
    requires LogisticLaw(m) && |ts| == |xs| && AreTargets(ts) && a' == a + u && b' == b + v
    requires InRange(a, b, xs) && InRange(a', b', xs)
    ensures Sum(|xs|, SampleLosses(m, a', b', xs, ts)) >=
      Sum(|xs|, SampleLosses(m, a, b, xs, ts)) + Sum(|xs|, Products(Errors(m, a, b, xs, ts), Shifts(u, v, xs)))
  {
    var slope := Products(Errors(m, a, b, xs, ts), Shifts(u, v, xs));
    var losses, losses' := SampleLosses(m, a, b, xs, ts), SampleLosses(m, a', b', xs, ts);
    forall k | 0 <= k < |xs| ensures losses'(k) >= losses(k) + slope(k) {
      FittedShifted(a, b, a', b', u, v, xs, k);
      SampleTangent(m, Fitted(a', b', xs, k), Fitted(a, b, xs, k), ts[k]);
    }
    SumTangent(|xs|, losses', losses, slope);
  }

  /** The penalty lies above its tangent. */
  lemma PenaltyAboveTangent(l2: real, a: real, b: real, u: real, v: real)
    requires l2 >= 0.0
    ensures Penalty(l2, a + u, b + v) >= Penalty(l2, a, b) + PenaltySlope(l2, a, b, u, v)
  {
    SquareTangent(l2, a, u);
    SquareTangent(l2, b, v);
    TimesDistributes(0.5 * l2, Square(a), Square(b));
    TimesDistributes(0.5 * l2, Square(a + u), Square(b + v));
  }

  /** What a pass calls the gradient is one: the loss lies above the plane it spans. */
  lemma LossAboveTangent(m: Maths, a: real, b: real, a': real, b': real, u: real, v: real,
                         xs: seq<real>, ts: seq<real>, l2: real)
    requires LogisticLaw(m) && l2 >= 0.0 && |ts| == |xs| && AreTargets(ts) && a' == a + u && b' == b + v
    requires InRange(a, b, xs) && InRange(a', b', xs)
    ensures RegLoss(m, a', b', xs, ts, l2) >= RegLoss(m, a, b, xs, ts, l2) + SlopeAt(m, a, b, xs, ts, l2, u, v)
  {
    SamplesAboveTangent(m, a, b, a', b', u, v, xs, ts);
    SlopeParts(m, a, b, xs, ts, l2, u, v);
    PenaltyAboveTangent(l2, a, b, u, v);
  }

  // ---- The slope changes slowly along the step -------------------------------------------------

  /** Bounds how fast the slope along (u, v) can change. */
  function Curvature(u: real, v: real, xs: seq<real>, l2: real): real {
    Sum(|xs|, Products(Shifts(u, v, xs), Shifts(u, v, xs))) + Times(l2, Square(u) + Square(v))
  }

  lemma CurvatureNonneg(u: real, v: real, xs: seq<real>, l2: real)
    requires l2 >= 0.0
    ensures Curvature(u, v, xs, l2) >= 0.0
  {
    var f := Products(Shifts(u, v, xs), Shifts(u, v, xs));
    forall k | 0 <= k < |xs| ensures f(k) >= 0.0 {
      SquareSign(Shifts(u, v, xs)(k));
      assert f(k) == Square(Shifts(u, v, xs)(k));
    }
    SumNonneg(|xs|, f);
    SquareSign(u);
    SquareSign(v);
    NonnegTimes(l2, Square(u) + Square(v));
  }

  /** (p - p') w <= s w^2 when p - p' is at most s |w|. */
  lemma ErrorTerm(p: real, p': real, s: real, w: real)
    requires s >= 0.0 && Abs(p - p') <= Abs(Times(s, w))
    ensures Times(p, w) - Times(p', w) <= Times(s, Times(w, w))
  {
    TimesDistributes(w, p - p', p');
    if w >= 0.0 {
      NonnegTimes(s, w);
      NonnegTimes(Times(s, w) - (p - p'), w);
    } else {
      NonnegTimes(s, -w);
      NonnegTimes(Times(s, -w) - (p' - p), -w);
    }
  }

  lemma {:induction false} SumScaledBelow(n: nat, f: Vec, g: Vec, s: real, h: Vec)
    requires forall k :: 0 <= k < n ==> f(k) - g(k) <= Times(s, h(k))
    ensures Sum(n, f) - Sum(n, g) <= Times(s, Sum(n, h))
  {
    if n == 0 {
      TimesZero(s);
    } else {
      SumScaledBelow(n - 1, f, g, s, h);
      TimesDistributes(s, Sum(n - 1, h), h(n - 1));
    }
  }

  lemma MovedFitted(a: real, b: real, s: real, u: real, v: real, xs: seq<real>, k: int)
    ensures Fitted(Moved(a, s, u), Moved(b, s, v), xs, k) == Fitted(a, b, xs, k) - Times(s, Shifts(u, v, xs)(k))
  {
    MovedTerm(a, b, s, u, v, OfSeq(xs)(k));
  }

  lemma MovedTerm(a: real, b: real, s: real, u: real, v: real, x: real)
    ensures Times(a - Times(s, u), x) + (b - Times(s, v)) == Times(a, x) + b - Times(s, Times(u, x) + v)
  {}

  lemma RegularTerm(l2: real, a: real, s: real, u: real)
    ensures Times(Times(l2, a), u) - Times(Times(l2, a - Times(s, u)), u) == Times(s, Times(l2, Square(u)))
  {}

  /** How far the samples' share of the slope drops in a step of length s. */
  lemma ErrorsAfterStep(m: Maths, a: real, b: real, s: real, u: real, v: real, xs: seq<real>, ts: seq<real>)
    requires LogisticLaw(m) && s >= 0.0
    requires InRange(a, b, xs) && InRange(Moved(a, s, u), Moved(b, s, v), xs)
    ensures var w := Shifts(u, v, xs);
      Sum(|xs|, Products(Errors(m, a, b, xs, ts), w)) -
        Sum(|xs|, Products(Errors(m, Moved(a, s, u), Moved(b, s, v), xs, ts), w))
        <= Times(s, Sum(|xs|, Products(w, w)))
  {
    var a', b', w := Moved(a, s, u), Moved(b, s, v), Shifts(u, v, xs);
    var f, g, h := Products(Errors(m, a, b, xs, ts), w), Products(Errors(m, a', b', xs, ts), w), Products(w, w);
    forall k | 0 <= k < |xs| ensures f(k) - g(k) <= Times(s, h(k)) {
      MovedFitted(a, b, s, u, v, xs, k);
      SigmoidMoves(m, Fitted(a, b, xs, k), Fitted(a', b', xs, k));
      ErrorTerm(Errors(m, a, b, xs, ts)(k), Errors(m, a', b', xs, ts)(k), s, w(k));
    }
    SumScaledBelow(|xs|, f, g, s, h);
  }

  lemma SigmoidMoves(m: Maths, y: real, z: real)
    requires LogisticLaw(m) && Unclamped(y) && Unclamped(z)
    ensures Abs(m.sigmoid(y) - m.sigmoid(z)) <= Abs(y - z)
  {}

  lemma PenaltySlopeDrops(l2: real, a: real, b: real, s: real, u: real, v: real)
    ensures PenaltySlope(l2, a, b, u, v) - PenaltySlope(l2, Moved(a, s, u), Moved(b, s, v), u, v) ==
      Times(s, Times(l2, Square(u) + Square(v)))
  {
    RegularTerm(l2, a, s, u);
    RegularTerm(l2, b, s, v);
    TimesDistributes(l2, Square(u), Square(v));
    TimesDistributes(s, Times(l2, Square(u)), Times(l2, Square(v)));
  }

  /** The slope's drop, sample by sample and through the penalty. */
  lemma SlopeDrop(m: Maths, a: real, b: real, s: real, u: real, v: real, xs: seq<real>, ts: seq<real>, l2: real)
    ensures var a', b', w := Moved(a, s, u), Moved(b, s, v), Shifts(u, v, xs);
      SlopeAt(m, a, b, xs, ts, l2, u, v) - SlopeAt(m, a', b', xs, ts, l2, u, v) ==
        Sum(|xs|, Products(Errors(m, a, b, xs, ts), w)) - Sum(|xs|, Products(Errors(m, a', b', xs, ts), w))
        + Times(s, Times(l2, Square(u) + Square(v)))
  {
    SlopeParts(m, a, b, xs, ts, l2, u, v);
    SlopeParts(m, Moved(a, s, u), Moved(b, s, v), xs, ts, l2, u, v);
    PenaltySlopeDrops(l2, a, b, s, u, v);
  }

  /** After a step of length s the slope has dropped by at most s times the curvature. */
  lemma SlopeAfterStep(m: Maths, a: real, b: real, s: real, u: real, v: real, xs: seq<real>, ts: seq<real>, l2: real)
    requires LogisticLaw(m) && s >= 0.0
    requires InRange(a, b, xs) && InRange(Moved(a, s, u), Moved(b, s, v), xs)
    ensures SlopeAt(m, Moved(a, s, u), Moved(b, s, v), xs, ts, l2, u, v) >=
      SlopeAt(m, a, b, xs, ts, l2, u, v) - Times(s, Curvature(u, v, xs, l2))
  {
    SlopeDrop(m, a, b, s, u, v, xs, ts, l2);
    ErrorsAfterStep(m, a, b, s, u, v, xs, ts);
    CurvatureScales(s, u, v, xs, l2);
  }

  lemma CurvatureScales(s: real, u: real, v: real, xs: seq<real>, l2: real)
    ensures var w := Shifts(u, v, xs);
      Times(s, Curvature(u, v, xs, l2)) == Times(s, Sum(|xs|, Products(w, w)))
        + Times(s, Times(l2, Square(u) + Square(v)))
  {
    var w := Shifts(u, v, xs);
    TimesDistributes(s, Sum(|xs|, Products(w, w)), Times(l2, Square(u) + Square(v)));
  }

  // ---- Descent ------------------------------------------------------------------------------------

  /** Every short enough step against (u, v) lowers the regularised loss. */
  ghost predicate Descends(m: Maths, a: real, b: real, xs: seq<real>, ts: seq<real>, l2: real, u: real, v: real) {
    exists s0: real :: s0 > 0.0 && LowersUpTo(m, a, b, xs, ts, l2, u, v, s0)
  }

  ghost predicate LowersUpTo(m: Maths, a: real, b: real, xs: seq<real>, ts: seq<real>, l2: real, u: real, v: real,
                             s0: real)
  {
    forall s {:trigger Moved(a, s, u)} :: 0.0 < s <= s0 ==>
      RegLoss(m, Moved(a, s, u), Moved(b, s, v), xs, ts, l2) < RegLoss(m, a, b, xs, ts, l2)
  }

  lemma StepLowers(m: Maths, a: real, b: real, s: real, u: real, v: real, xs: seq<real>, ts: seq<real>, l2: real)
    requires LogisticLaw(m) && l2 >= 0.0 && s > 0.0 && |ts| == |xs| && AreTargets(ts)
    requires InRange(a, b, xs) && InRange(Moved(a, s, u), Moved(b, s, v), xs)
    requires SlopeAt(m, a, b, xs, ts, l2, u, v) > Times(s, Curvature(u, v, xs, l2))
    ensures RegLoss(m, Moved(a, s, u), Moved(b, s, v), xs, ts, l2) < RegLoss(m, a, b, xs, ts, l2)
  {
    var a', b', su, sv := Moved(a, s, u), Moved(b, s, v), Times(s, u), Times(s, v);
    SlopeAfterStep(m, a, b, s, u, v, xs, ts, l2);
    LossAboveTangent(m, a', b', a, b, su, sv, xs, ts, l2);
    SlopeScales(m, a', b', xs, ts, l2, s, u, v);
    SameSignTimes(s, SlopeAt(m, a', b', xs, ts, l2, u, v));
  }

  lemma SlopeScales(m: Maths, a: real, b: real, xs: seq<real>, ts: seq<real>, l2: real, s: real, u: real, v: real)
    ensures SlopeAt(m, a, b, xs, ts, l2, Times(s, u), Times(s, v)) == Times(s, SlopeAt(m, a, b, xs, ts, l2, u, v))
  {
    var p := PassAt(m, a, b, xs, ts, l2);
    ScaledSlope(p.g1, p.g2, s, u, v);
  }

  lemma ScaledSlope(g1: real, g2: real, s: real, u: real, v: real)
    ensures Times(g1, Times(s, u)) + Times(g2, Times(s, v)) == Times(s, Times(g1, u) + Times(g2, v))
  {}

  /** Short steps stay where the sigmoid is not clamped. */
  lemma {:induction false} StaysInRange(n: nat, a: real, b: real, u: real, v: real, xs: seq<real>) returns (s0: real)
    requires n <= |xs| && InsideRange(a, b, xs)
    ensures s0 > 0.0
    ensures forall s, k :: 0.0 <= s <= s0 && 0 <= k < n ==> Unclamped(Fitted(Moved(a, s, u), Moved(b, s, v), xs, k))
  {
    if n == 0 {
      s0 := 1.0;
    } else {
      var s1 := StaysInRange(n - 1, a, b, u, v, xs);
      var z, w := Fitted(a, b, xs, n - 1), Shifts(u, v, xs)(n - 1);
      var room := (CLAMP - Abs(z)) / (Abs(w) + 1.0);
      RoomIsEnough(z, w, room);
      s0 := if s1 < room then s1 else room;
      forall s, k | 0.0 <= s <= s0 && 0 <= k < n ensures Unclamped(Fitted(Moved(a, s, u), Moved(b, s, v), xs, k)) {
        if k == n - 1 {
          MovedFitted(a, b, s, u, v, xs, k);
          StepWithin(z, w, room, s);
        }
      }
    }
  }

  lemma RoomIsEnough(z: real, w: real, room: real)
    requires Abs(z) < CLAMP && room == (CLAMP - Abs(z)) / (Abs(w) + 1.0)
    ensures room > 0.0 && Times(room, Abs(w) + 1.0) == CLAMP - Abs(z)
  {}

  lemma StepWithin(z: real, w: real, room: real, s: real)
    requires Times(room, Abs(w) + 1.0) == CLAMP - Abs(z) && 0.0 <= s <= room
    ensures Unclamped(z - Times(s, w))
  {
    NonnegTimes(room - s, Abs(w));
    NonnegTimes(s, Abs(w));
    assert Times(room, Abs(w) + 1.0) == Times(room - s, Abs(w)) + Times(s, Abs(w)) + room;
    assert Abs(Times(s, w)) == Times(s, Abs(w)) by { AbsTimes(s, w); }
  }

  lemma AbsTimes(s: real, w: real)
    requires s >= 0.0
    ensures Abs(Times(s, w)) == Times(s, Abs(w))
  {
    if w >= 0.0 { NonnegTimes(s, w); } else { NonnegTimes(s, -w); }
  }

  lemma PositiveSlopeDescends(m: Maths, a: real, b: real, xs: seq<real>, ts: seq<real>, l2: real, u: real, v: real)
    requires LogisticLaw(m) && l2 >= 0.0 && |ts| == |xs| && AreTargets(ts) && InsideRange(a, b, xs)
    requires SlopeAt(m, a, b, xs, ts, l2, u, v) > 0.0
    ensures Descends(m, a, b, xs, ts, l2, u, v)
  {
    var slope, c := SlopeAt(m, a, b, xs, ts, l2, u, v), Curvature(u, v, xs, l2);
    CurvatureNonneg(u, v, xs, l2);
    var s1 := StaysInRange(|xs|, a, b, u, v, xs);
    var s2 := slope / (c + 1.0);
    ShareOfSlope(slope, c, s2);
    var s0 := if s1 < s2 then s1 else s2;
    forall s {:trigger Moved(a, s, u)} | 0.0 < s <= s0
      ensures RegLoss(m, Moved(a, s, u), Moved(b, s, v), xs, ts, l2) < RegLoss(m, a, b, xs, ts, l2)
    {
      BelowSlope(slope, c, s2, s);
      StepLowers(m, a, b, s, u, v, xs, ts, l2);
    }
    assert LowersUpTo(m, a, b, xs, ts, l2, u, v, s0);
  }

  lemma ShareOfSlope(slope: real, c: real, s2: real)
    requires slope > 0.0 && c >= 0.0 && s2 == slope / (c + 1.0)
    ensures s2 > 0.0 && Times(s2, c + 1.0) == slope
  {}

  lemma BelowSlope(slope: real, c: real, s2: real, s: real)
    requires Times(s2, c + 1.0) == slope && c >= 0.0 && 0.0 < s <= s2
    ensures Times(s, c) < slope
  {
    NonnegTimes(s2 - s, c);
    assert Times(s2, c + 1.0) == Times(s2 - s, c) + Times(s, c) + s2;
  }

  predicate ZeroGradient(p: Pass) { p.g1 == 0.0 && p.g2 == 0.0 }

  /** The Newton step is a direction of descent of the regularised loss exactly where
      the gradient is not zero. */
  lemma NewtonStepDescendsIff(m: Maths, a: real, b: real, xs: seq<real>, ts: seq<real>, l2: real, da: real, db: real)
    requires SigmoidLaw(m) && LogisticLaw(m) && l2 > 0.0 && |ts| == |xs| && AreTargets(ts) && InsideRange(a, b, xs)
    requires var p := PassAt(m, a, b, xs, ts, l2); IsNewtonStep(p.h, p.g1, p.g2, da, db)
    ensures Descends(m, a, b, xs, ts, l2, da, db) <==> !ZeroGradient(PassAt(m, a, b, xs, ts, l2))
  {
    var p := PassAt(m, a, b, xs, ts, l2);
    NewtonSlope(m, a, b, xs, l2, p.g1, p.g2, da, db);
    if ZeroGradient(p) {
      ZeroSlope(l2, da, db);
      forall s0: real | s0 > 0.0 ensures !LowersUpTo(m, a, b, xs, ts, l2, da, db, s0) {
        TimesZero(s0);
        assert Moved(a, s0, da) == a && Moved(b, s0, db) == b;
      }
    } else {
      PositiveSlopeDescends(m, a, b, xs, ts, l2, da, db);
    }
  }

  lemma ZeroSlope(l2: real, da: real, db: real)
    requires l2 > 0.0 && Times(0.0, da) + Times(0.0, db) >= Times(l2, Square(da) + Square(db))
    ensures da == 0.0 && db == 0.0
  {
    TimesZero(da);
    TimesZero(db);
    SquareSign(da);
    SquareSign(db);
    if Square(da) + Square(db) > 0.0 { SameSignTimes(l2, Square(da) + Square(db)); }
  }

  /** And where it is zero the fit has arrived: no parameters do better. */
  lemma StationaryIsMinimum(m: Maths, a: real, b: real, a': real, b': real, xs: seq<real>, ts: seq<real>, l2: real)
    requires LogisticLaw(m) && l2 >= 0.0 && |ts| == |xs| && AreTargets(ts) && InRange(a, b, xs) && InRange(a', b', xs)
    requires ZeroGradient(PassAt(m, a, b, xs, ts, l2))
    ensures RegLoss(m, a', b', xs, ts, l2) >= RegLoss(m, a, b, xs, ts, l2)
  {
    LossAboveTangent(m, a, b, a', b', a' - a, b' - b, xs, ts, l2);
    TimesZero(a' - a);
    TimesZero(b' - b);
  }

  /** So every move of a fit that starts where the sigmoid is not clamped points down
      the loss, unless the fit had already arrived. */
  lemma MovesDescend(t: Task, path: seq<Move>, a: real, b: real, i: nat)
    requires SigmoidLaw(t.m) && LogisticLaw(t.m) && t.l2 > 0.0 && |t.ts| == |t.xs| && AreTargets(t.ts)
    requires IsPath(t, path, a, b) && i < |path| && InsideRange(path[i].a, path[i].b, t.xs)
    ensures var mv := path[i];
      Descends(t.m, mv.a, mv.b, t.xs, t.ts, t.l2, mv.da, mv.db) <==> !ZeroGradient(PassBefore(t, mv))
  {
    PathHasMoves(t, path, a, b, i);
    NewtonStepDescendsIff(t.m, path[i].a, path[i].b, t.xs, t.ts, t.l2, path[i].da, path[i].db);
  }
}
