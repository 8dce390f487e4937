/** What the adversarial score and its AUC say about two windows. */
module AucMeaning {
  import opened Sums
  import opened Matrices
  import opened Counting
  import opened AdversarialAuc

  /** How far feature j of x is from a window's mean, in units of its variance. */
  function FarBy(x: seq<real>, vecs: Matrix): Vec
    requires |vecs| > 0
  {
    j => FarAt(x, vecs, j)
  }

  function FarAt(x: seq<real>, vecs: Matrix, j: int): real
    requires |vecs| > 0
  {
    VariancePositive(vecs, j);
    Far(OfSeq(x)(j), Mean(vecs, j), Variance(vecs, j))
  }

  function Distance(x: seq<real>, vecs: Matrix, d: nat): real
    requires |vecs| > 0
  {
    Sum(d, FarBy(x, vecs))
  }

  /** The windows vary equally in each of the first d features. */
  predicate VaryEqually(base: Matrix, cur: Matrix, d: nat)
    requires |base| > 0 && |cur| > 0
  {
    forall j :: 0 <= j < d ==> Variance(base, j) == Variance(cur, j)
  }

  lemma LikelihoodIs(x: seq<real>, vecs: Matrix, an: Analysis, j: int)
    requires |vecs| > 0
    ensures FeatureLikelihood(x, vecs, an)(j) ==
      -0.5 * FarAt(x, vecs, j) - 0.5 * LogNormaliser(Variance(vecs, j), an)
  {
    VariancePositive(vecs, j);
  }

  /** Between windows that vary equally, the score is half of how much farther the
      item is from the baseline than from the current window, whatever log is. */
  lemma {:induction false} ScoreIsDistance(x: seq<real>, base: Matrix, cur: Matrix, d: nat, an: Analysis)
    requires |base| > 0 && |cur| > 0 && VaryEqually(base, cur, d)
    ensures Score(x, base, cur, d, an) == 0.5 * (Distance(x, base, d) - Distance(x, cur, d))
  {
    if d > 0 {
      ScoreIsDistance(x, base, cur, d - 1, an);
      DistanceStep(x, base, d);
      DistanceStep(x, cur, d);
      ScoreStep(x, base, cur, d, an);
      LikelihoodIs(x, base, an, d - 1);
      LikelihoodIs(x, cur, an, d - 1);
    }
  }

  lemma DistanceStep(x: seq<real>, vecs: Matrix, d: nat)
    requires |vecs| > 0 && d > 0
    ensures Distance(x, vecs, d) == Distance(x, vecs, d - 1) + FarAt(x, vecs, d - 1)
  {}

  lemma ScoreStep(x: seq<real>, base: Matrix, cur: Matrix, d: nat, an: Analysis)
    requires |base| > 0 && |cur| > 0 && d > 0
    ensures Score(x, base, cur, d, an) == Score(x, base, cur, d - 1, an)
      + FeatureLikelihood(x, cur, an)(d - 1) - FeatureLikelihood(x, base, an)(d - 1)
  {}

  /** So the score is positive exactly for items nearer to the current window. */
  lemma PositiveIffNearer(x: seq<real>, base: Matrix, cur: Matrix, d: nat, an: Analysis)
    requires |base| > 0 && |cur| > 0 && VaryEqually(base, cur, d)
    ensures Score(x, base, cur, d, an) > 0.0 <==> Distance(x, cur, d) < Distance(x, base, d)
  {
    ScoreIsDistance(x, base, cur, d, an);
  }

  /** Half the logarithms of the variances, where they differ. */
  function LogSpread(vecs: Matrix, log: real -> real): Vec
    requires |vecs| > 0
  {
    j => log(Variance(vecs, j))
  }

  /** In general the item is also credited for how much more the baseline varies. */
  lemma {:induction false} ScoreIs(x: seq<real>, base: Matrix, cur: Matrix, d: nat, an: Analysis)
    requires |base| > 0 && |cur| > 0 && an.pi > 0.0 && LogProductLaw(an.log)
    ensures Score(x, base, cur, d, an) ==
      0.5 * (Distance(x, base, d) - Distance(x, cur, d))
      + 0.5 * (Sum(d, LogSpread(base, an.log)) - Sum(d, LogSpread(cur, an.log)))
  {
    if d > 0 {
      ScoreIs(x, base, cur, d - 1, an);
      DistanceStep(x, base, d);
      DistanceStep(x, cur, d);
      ScoreStep(x, base, cur, d, an);
      LikelihoodIs(x, base, an, d - 1);
      LikelihoodIs(x, cur, an, d - 1);
      LogOfVariance(base, d - 1, an);
      LogOfVariance(cur, d - 1, an);
    }
  }

  lemma LogOfVariance(vecs: Matrix, j: int, an: Analysis)
    requires |vecs| > 0 && an.pi > 0.0 && LogProductLaw(an.log)
    ensures LogNormaliser(Variance(vecs, j), an) == an.log(2.0 * an.pi) + an.log(Variance(vecs, j))
  {
    VariancePositive(vecs, j);
  }

  // ---- Separated windows -------------------------------------------------------------------

  predicate AllBeat(base: seq<real>, cur: seq<real>) {
    forall i, j :: 0 <= i < |base| && 0 <= j < |cur| ==> cur[j] > base[i]
  }

  lemma {:induction false} CountAll(s: seq<real>, p: real -> bool)
    ensures Count(s, p) == |s| <==> forall i :: 0 <= i < |s| ==> p(s[i])
  {
    if |s| > 0 {
      CountAll(s[..|s| - 1], p);
      CountBounded(s[..|s| - 1], p);
      assert forall i :: 0 <= i < |s| - 1 ==> s[..|s| - 1][i] == s[i];
    }
  }

  lemma {:induction false} WinsAll(base: seq<real>, cur: seq<real>)
    ensures Wins(base, cur) == |base| * |cur| <==> AllBeat(base, cur)
  {
    if |base| > 0 {
      var rest := base[1..];
      WinsAll(rest, cur);
      WinsBounded(rest, cur);
      CountBounded(cur, Above(base[0]));
      CountAll(cur, Above(base[0]));
      MulStep(|base| - 1, |cur|);
      assert forall i :: 0 <= i < |rest| ==> rest[i] == base[i + 1];
      if AllBeat(rest, cur) && Count(cur, Above(base[0])) == |cur| {
        forall i, j | 0 <= i < |base| && 0 <= j < |cur| ensures cur[j] > base[i] {
          if i > 0 { assert base[i] == rest[i - 1]; } else { assert Above(base[0])(cur[j]); }
        }
      }
    }
  }

  lemma WholeFraction(x: nat, n: nat)
    requires n > 0
    ensures x as real / n as real == 1.0 <==> x == n
  {}

  /** The AUC is 1 exactly when every current item scores above every baseline item. */
  lemma AucIsOneIff(base: Matrix, cur: Matrix, an: Analysis)
    requires |base| > 0 && |cur| > 0
    ensures Auc(base, cur, an) == 1.0 <==>
      forall i, j :: 0 <= i < |base| && 0 <= j < |cur| ==>
        Score(cur[j], base, cur, |base[0]|, an) > Score(base[i], base, cur, |base[0]|, an)
  {
    var d := |base[0]|;
    var s0, s1 := Scores(base, base, cur, d, an), Scores(cur, base, cur, d, an);
    WinsAll(s0, s1);
    PairsPositive(|base|, |cur|);
    WholeFraction(Wins(s0, s1), |base| * |cur|);
    ScoresBeat(base, cur, an);
  }

  lemma ScoresBeat(base: Matrix, cur: Matrix, an: Analysis)
    requires |base| > 0 && |cur| > 0
    ensures var d := |base[0]|;
      AllBeat(Scores(base, base, cur, d, an), Scores(cur, base, cur, d, an)) <==>
      forall i, j :: 0 <= i < |base| && 0 <= j < |cur| ==>
        Score(cur[j], base, cur, d, an) > Score(base[i], base, cur, d, an)
  {
    var d := |base[0]|;
    var s0, s1 := Scores(base, base, cur, d, an), Scores(cur, base, cur, d, an);
    assert forall i :: 0 <= i < |base| ==> s0[i] == Score(base[i], base, cur, d, an);
    assert forall j :: 0 <= j < |cur| ==> s1[j] == Score(cur[j], base, cur, d, an);
  }

  /** Windows that vary equally, each of whose items is nearer to its own window, are
      told apart completely. */
  lemma SeparatedAucIsOne(base: Matrix, cur: Matrix, an: Analysis)
    requires |base| > 0 && |cur| > 0 && VaryEqually(base, cur, |base[0]|)
    requires forall x :: x in base ==> Distance(x, base, |base[0]|) <= Distance(x, cur, |base[0]|)
    requires forall x :: x in cur ==> Distance(x, cur, |base[0]|) < Distance(x, base, |base[0]|)
    ensures Auc(base, cur, an) == 1.0
  {
    var d := |base[0]|;
    forall i, j | 0 <= i < |base| && 0 <= j < |cur|
      ensures Score(cur[j], base, cur, d, an) > Score(base[i], base, cur, d, an)
    {
      ScoreIsDistance(base[i], base, cur, d, an);
      ScoreIsDistance(cur[j], base, cur, d, an);
    }
    AucIsOneIff(base, cur, an);
  }

  lemma SingleWindow(p: seq<real>, j: int)
    requires 0 <= j < |p|
    ensures Mean([p], j) == p[j] && Variance([p], j) == 0.000000001
  {
    assert Sum(1, ColOf([p], j)) == Sum(0, ColOf([p], j)) + p[j];
    assert Mean([p], j) == p[j];
    assert Sum(1, Deviations([p], j)) == Sum(0, Deviations([p], j)) + Square(p[j] - p[j]);
    assert Square(p[j] - p[j]) == 0.0;
  }

  lemma FarFromSingle(x: seq<real>, p: seq<real>, j: int)
    requires 0 <= j < |p| == |x|
    ensures FarAt(x, [p], j) >= 0.0 && (FarAt(x, [p], j) == 0.0 <==> x[j] == p[j])
  {
    SingleWindow(p, j);
    SquareSign(x[j] - p[j]);
    ScaledSign(Square(x[j] - p[j]), 0.000000001);
  }

  lemma ScaledSign(x: real, v: real)
    requires x >= 0.0 && v > 0.0
    ensures x / v >= 0.0 && (x / v == 0.0 <==> x == 0.0)
  {
    assert (x / v) * v == x;
  }

  lemma DistanceFromSingle(x: seq<real>, p: seq<real>)
    requires |x| == |p|
    ensures Distance(x, [p], |p|) >= 0.0 && (Distance(x, [p], |p|) == 0.0 <==> x == p)
  {
    forall j | 0 <= j < |p| ensures FarBy(x, [p])(j) >= 0.0 && (FarBy(x, [p])(j) == 0.0 <==> x[j] == p[j]) {
      FarFromSingle(x, p, j);
    }
    SumNonneg(|p|, FarBy(x, [p]));
    if x == p { SumZero(|p|, FarBy(x, [p])); }
  }

  /** Two different single items are always told apart, current above baseline. */
  lemma DifferentItemsScoreOne(p: seq<real>, q: seq<real>, an: Analysis)
    requires |p| == |q| && p != q
    ensures Auc([p], [q], an) == 1.0
  {
    forall j | 0 <= j < |p| ensures Variance([p], j) == Variance([q], j) {
      SingleWindow(p, j);
      SingleWindow(q, j);
    }
    DistanceFromSingle(p, p);
    DistanceFromSingle(q, q);
    DistanceFromSingle(p, q);
    DistanceFromSingle(q, p);
    SeparatedAucIsOne([p], [q], an);
  }
}
