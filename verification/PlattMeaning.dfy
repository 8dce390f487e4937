/** What the parts of the Platt fit stand for: its targets, its losses, its Hessian
    and the moves its line search accepts. */
module PlattMeaning {
  import opened Sums
  import opened PlattFit
  import opened PlattLoss

  // ---- Targets -----------------------------------------------------------------------------

  function Positives(labels: seq<real>, n: nat): nat
    requires n <= |labels|
  {
    if n == 0 then 0 else Positives(labels, n - 1) + (if labels[n - 1] == 1.0 then 1 else 0)
  }

  lemma {:induction false} SumIsPositives(labels: seq<real>, n: nat)
    requires Binary(labels) && n <= |labels|
    ensures Sum(n, OfSeq(labels)) == Positives(labels, n) as real && Positives(labels, n) <= n
  {
    if n > 0 { SumIsPositives(labels, n - 1); }
  }

  lemma QuotientBack(x: real, d: real)
    requires d > 0.0
    ensures Times(d, x / d) == x
  {}

  /** One positive and one negative example are added: a positive label's target is the
      share of positives among the positives so enlarged, a negative label's the share
      of the added positive among the negatives. */
  lemma TargetsAre(labels: seq<real>, k: nat)
    requires Binary(labels) && k < |labels|
    ensures var p, t := Positives(labels, |labels|), Targeted(labels)[k];
      if labels[k] == 1.0 then Times((p + 2) as real, t) == (p + 1) as real
      else Times((|labels| - p + 2) as real, t) == 1.0
  {
    SumIsPositives(labels, |labels|);
    var p := Positives(labels, |labels|);
    QuotientBack(p as real + 1.0, p as real + 2.0);
    QuotientBack(1.0, (|labels| - p) as real + 2.0);
  }

  // ---- Losses ------------------------------------------------------------------------------

  /** No probability is close enough to 0 or 1 for a guard to change it. */
  predicate Unguarded(m: Maths, a: real, b: real, xs: seq<real>) {
    forall k :: 0 <= k < |xs| ==> TINY <= m.sigmoid(Fitted(a, b, xs, k)) <= 1.0 - TINY
  }

  lemma LossOfSample(m: Maths, z: real, t: real)
    ensures CrossEntropy(m, m.sigmoid(z), 1.0 - m.sigmoid(z), t) == SampleLoss(m, z, t)
  {
    assert Times(t, -m.log(m.sigmoid(z))) == -Times(t, m.log(m.sigmoid(z)));
    assert Times(1.0 - t, -m.log(1.0 - m.sigmoid(z))) == -Times(1.0 - t, m.log(1.0 - m.sigmoid(z)));
  }

  /** The loss of a pass is the cross-entropy of the targets. */
  lemma PassLossIs(m: Maths, a: real, b: real, xs: seq<real>, ts: seq<real>, l2: real)
    requires Unguarded(m, a, b, xs)
    ensures PassAt(m, a, b, xs, ts, l2).loss == Sum(|xs|, SampleLosses(m, a, b, xs, ts))
  {
    forall k | 0 <= k < |xs| ensures Entropy(m, a, b, xs, ts)(k) == SampleLosses(m, a, b, xs, ts)(k) {
      LossOfSample(m, Fitted(a, b, xs, k), OfSeq(ts)(k));
    }
    SumCongruent(|xs|, Entropy(m, a, b, xs, ts), SampleLosses(m, a, b, xs, ts));
  }

  /** So is the loss of a trial, whose guards are written differently. */
  lemma TrialLossIs(m: Maths, a: real, b: real, xs: seq<real>, ts: seq<real>)
    requires Unguarded(m, a, b, xs)
    ensures Sum(|xs|, TrialEntropy(m, a, b, xs, ts)) == Sum(|xs|, SampleLosses(m, a, b, xs, ts))
  {
    forall k | 0 <= k < |xs| ensures TrialEntropy(m, a, b, xs, ts)(k) == SampleLosses(m, a, b, xs, ts)(k) {
      LossOfSample(m, Fitted(a, b, xs, k), OfSeq(ts)(k));
    }
    SumCongruent(|xs|, TrialEntropy(m, a, b, xs, ts), SampleLosses(m, a, b, xs, ts));
  }

  /** A move the search accepts raises the cross-entropy by less than a ten-thousandth
      of its length times the squared gradient. */
  lemma AcceptedIsBounded(m: Maths, a: real, b: real, xs: seq<real>, ts: seq<real>, l2: real,
                          da: real, db: real, j: nat)
    requires var p := PassAt(m, a, b, xs, ts, l2); FirstAccepted(m, a, b, xs, ts, p, da, db, j)
    requires Unguarded(m, a, b, xs) && Unguarded(m, Moved(a, Halved(j), da), Moved(b, Halved(j), db), xs)
    ensures var p := PassAt(m, a, b, xs, ts, l2);
      Sum(|xs|, SampleLosses(m, Moved(a, Halved(j), da), Moved(b, Halved(j), db), xs, ts)) <
      Sum(|xs|, SampleLosses(m, a, b, xs, ts)) + Times(Times(0.0001, Halved(j)), Square(p.g1) + Square(p.g2))
  {
    PassLossIs(m, a, b, xs, ts, l2);
    TrialLossIs(m, Moved(a, Halved(j), da), Moved(b, Halved(j), db), xs, ts);
  }

  // ---- The Hessian -------------------------------------------------------------------------

  /** p (1 - p) is the sigmoid's derivative, up to a second-order error. */
  ghost predicate CurvedLaw(m: Maths) {
    forall y, z {:trigger m.sigmoid(y), m.sigmoid(z)} :: Unclamped(y) && Unclamped(z) ==>
      Abs(m.sigmoid(y) - m.sigmoid(z) - Times(Times(m.sigmoid(z), 1.0 - m.sigmoid(z)), y - z)) <= Square(y - z)
  }

  /** (u, v) H (r, s). */
  function Form(h: Hessian, u: real, v: real, r: real, s: real): real {
    Times(r, Times(h.h11, u) + Times(h.h12, v)) + Times(s, Times(h.h12, u) + Times(h.h22, v))
  }

  lemma FormTerm(w: real, x: real, u: real, v: real, r: real, s: real)
    ensures Times(Times(w, Times(u, x) + v), Times(r, x) + s) ==
      Form(Hessian(Times(Times(w, x), x), Times(w, x), w), u, v, r, s)
  {}

  lemma FormAdds(g: Hessian, h: Hessian, u: real, v: real, r: real, s: real)
    ensures Form(Hessian(g.h11 + h.h11, g.h12 + h.h12, g.h22 + h.h22), u, v, r, s) ==
      Form(g, u, v, r, s) + Form(h, u, v, r, s)
  {}

  function SampleHessian(n: nat, w: Vec, x: Vec): Hessian {
    Hessian(Sum(n, WeightedXX(w, x)), Sum(n, WeightedX(w, x)), Sum(n, w))
  }

  lemma {:induction false} FormOfSamples(n: nat, w: Vec, xs: seq<real>, u: real, v: real, r: real, s: real)
    ensures Sum(n, Products(Products(w, Shifts(u, v, xs)), Shifts(r, s, xs))) ==
      Form(SampleHessian(n, w, OfSeq(xs)), u, v, r, s)
  {
    if n == 0 {
      FormTerm(0.0, 0.0, u, v, r, s);
    } else {
      FormOfSamples(n - 1, w, xs, u, v, r, s);
      FormTerm(w(n - 1), OfSeq(xs)(n - 1), u, v, r, s);
      var x := OfSeq(xs);
      FormAdds(SampleHessian(n - 1, w, x),
               Hessian(WeightedXX(w, x)(n - 1), WeightedX(w, x)(n - 1), w(n - 1)), u, v, r, s);
    }
  }

  lemma {:induction false} SumNearly(n: nat, f: Vec, g: Vec, h: Vec, q: Vec)
    requires forall k :: 0 <= k < n ==> Abs(f(k) - g(k) - h(k)) <= q(k)
    ensures Abs(Sum(n, f) - Sum(n, g) - Sum(n, h)) <= Sum(n, q)
  {
    if n > 0 { SumNearly(n - 1, f, g, h, q); }
  }

  lemma AbsOfProduct(x: real, y: real)
    ensures Abs(Times(x, y)) == Times(Abs(x), Abs(y))
  {
    if x >= 0.0 && y >= 0.0 { NonnegTimes(x, y); }
    if x >= 0.0 && y < 0.0 { NonnegTimes(x, -y); }
    if x < 0.0 && y >= 0.0 { NonnegTimes(-x, y); }
    if x < 0.0 && y < 0.0 { NonnegTimes(-x, -y); }
  }

  lemma ErrorNearly(e': real, e: real, wd: real, q: real, d: real)
    requires Abs(e' - e - wd) <= q
    ensures Abs(Times(e', d) - Times(e, d) - Times(wd, d)) <= Times(q, Abs(d))
  {
    AbsOfProduct(e' - e - wd, d);
    NonnegTimes(q - Abs(e' - e - wd), Abs(d));
    TimesDistributes(Abs(d), q - Abs(e' - e - wd), Abs(e' - e - wd));
    assert Times(e' - e - wd, d) == Times(e', d) - Times(e, d) - Times(wd, d);
  }

  /** What is lost by taking the gradient for linear over (u, v). */
  function Remainder(xs: seq<real>, u: real, v: real, r: real, s: real): Vec {
    k => Times(Square(Shifts(u, v, xs)(k)), Abs(Shifts(r, s, xs)(k)))
  }

  lemma SampleChange(m: Maths, a: real, b: real, a': real, b': real, u: real, v: real, r: real, s: real,
                     xs: seq<real>, ts: seq<real>, k: nat, f: Vec, g: Vec, h: Vec, q: Vec)
    requires CurvedLaw(m) && a' == a + u && b' == b + v && k < |xs| && InRange(a, b, xs) && InRange(a', b', xs)
    requires f == Products(Errors(m, a', b', xs, ts), Shifts(r, s, xs))
    requires g == Products(Errors(m, a, b, xs, ts), Shifts(r, s, xs))
    requires h == Products(Products(Weights(m, a, b, xs), Shifts(u, v, xs)), Shifts(r, s, xs))
    requires q == Remainder(xs, u, v, r, s)
    ensures Abs(f(k) - g(k) - h(k)) <= q(k)
  {
    FittedShifted(a, b, a', b', u, v, xs, k);
    var d, w := Shifts(u, v, xs)(k), Weights(m, a, b, xs)(k);
    ErrorChanges(m, Fitted(a', b', xs, k), Fitted(a, b, xs, k), d, OfSeq(ts)(k));
    ErrorNearly(Errors(m, a', b', xs, ts)(k), Errors(m, a, b, xs, ts)(k), Times(w, d), Square(d), Shifts(r, s, xs)(k));
  }

  lemma ErrorsChange(m: Maths, a: real, b: real, a': real, b': real, u: real, v: real, r: real, s: real,
                     xs: seq<real>, ts: seq<real>, f: Vec, g: Vec, h: Vec, q: Vec)
    requires CurvedLaw(m) && a' == a + u && b' == b + v && InRange(a, b, xs) && InRange(a', b', xs)
    requires f == Products(Errors(m, a', b', xs, ts), Shifts(r, s, xs))
    requires g == Products(Errors(m, a, b, xs, ts), Shifts(r, s, xs))
    requires h == Products(Products(Weights(m, a, b, xs), Shifts(u, v, xs)), Shifts(r, s, xs))
    requires q == Remainder(xs, u, v, r, s)
    ensures Abs(Sum(|xs|, f) - Sum(|xs|, g) - Sum(|xs|, h)) <= Sum(|xs|, q)
  {
    forall k: nat | k < |xs| ensures Abs(f(k) - g(k) - h(k)) <= q(k) {
      SampleChange(m, a, b, a', b', u, v, r, s, xs, ts, k, f, g, h, q);
    }
    SumNearly(|xs|, f, g, h, q);
  }

  lemma ErrorChanges(m: Maths, y: real, z: real, d: real, t: real)
    requires CurvedLaw(m) && Unclamped(y) && Unclamped(z) && y == z + d
    ensures Abs((m.sigmoid(y) - t) - (m.sigmoid(z) - t) - Times(Times(m.sigmoid(z), 1.0 - m.sigmoid(z)), d))
            <= Square(d)
  {
    assert Abs(m.sigmoid(y) - m.sigmoid(z) - Times(Times(m.sigmoid(z), 1.0 - m.sigmoid(z)), y - z)) <= Square(y - z);
  }

  lemma PenaltyChange(l2: real, a: real, b: real, a': real, b': real, u: real, v: real, r: real, s: real)
    requires a' == a + u && b' == b + v
    ensures PenaltySlope(l2, a', b', r, s) ==
      PenaltySlope(l2, a, b, r, s) + Form(Hessian(l2, 0.0, l2), u, v, r, s)
  {}

  /** What a pass calls the Hessian is the derivative of the gradient: moving by (u, v)
      changes the slope along (r, s) by (u, v) H (r, s), up to a second-order error. */
  lemma HessianIsDerivative(m: Maths, a: real, b: real, a': real, b': real, u: real, v: real, r: real, s: real,
                            xs: seq<real>, ts: seq<real>, l2: real)
    requires CurvedLaw(m) && a' == a + u && b' == b + v && InRange(a, b, xs) && InRange(a', b', xs)
    ensures Abs(SlopeAt(m, a', b', xs, ts, l2, r, s) - SlopeAt(m, a, b, xs, ts, l2, r, s)
                - Form(PassAt(m, a, b, xs, ts, l2).h, u, v, r, s))
            <= Sum(|xs|, Remainder(xs, u, v, r, s))
  {
    var f := Products(Errors(m, a', b', xs, ts), Shifts(r, s, xs));
    var g := Products(Errors(m, a, b, xs, ts), Shifts(r, s, xs));
    var h := Products(Products(Weights(m, a, b, xs), Shifts(u, v, xs)), Shifts(r, s, xs));
    ErrorsChange(m, a, b, a', b', u, v, r, s, xs, ts, f, g, h, Remainder(xs, u, v, r, s));
    SlopeParts(m, a', b', xs, ts, l2, r, s);
    SlopeParts(m, a, b, xs, ts, l2, r, s);
    PenaltyChange(l2, a, b, a', b', u, v, r, s);
    FormOfPass(m, a, b, xs, ts, l2, u, v, r, s);
    Combine(Sum(|xs|, f), Sum(|xs|, g), Sum(|xs|, h), PenaltySlope(l2, a', b', r, s), PenaltySlope(l2, a, b, r, s),
            Form(Hessian(l2, 0.0, l2), u, v, r, s), Sum(|xs|, Remainder(xs, u, v, r, s)));
  }

  lemma Combine(e': real, e: real, h: real, q': real, q: real, pen: real, bound: real)
    requires Abs(e' - e - h) <= bound && q' == q + pen
    ensures Abs((e' + q') - (e + q) - (h + pen)) <= bound
  {}

  lemma FormOfPass(m: Maths, a: real, b: real, xs: seq<real>, ts: seq<real>, l2: real,
                   u: real, v: real, r: real, s: real)
    ensures Form(PassAt(m, a, b, xs, ts, l2).h, u, v, r, s) ==
      Sum(|xs|, Products(Products(Weights(m, a, b, xs), Shifts(u, v, xs)), Shifts(r, s, xs)))
      + Form(Hessian(l2, 0.0, l2), u, v, r, s)
  {
    FormOfSamples(|xs|, Weights(m, a, b, xs), xs, u, v, r, s);
    var g := SampleHessian(|xs|, Weights(m, a, b, xs), OfSeq(xs));
    FormAdds(g, Hessian(l2, 0.0, l2), u, v, r, s);
    assert PassAt(m, a, b, xs, ts, l2).h == Hessian(g.h11 + l2, g.h12 + 0.0, g.h22 + l2);
  }

  // ---- The clamp ---------------------------------------------------------------------------

  /** The slope that is kept is the nearest one within the bound. */
  lemma ClampIsNearest(x: real, bound: real, y: real)
    requires bound >= 0.0 && -bound <= y <= bound
    ensures Abs(x - Within(x, bound)) <= Abs(x - y)
    ensures -bound <= x <= bound ==> Within(x, bound) == x
  {}
}
