/** What the entries of a feature vector are, in terms of the ticks alone. */
module FeatureMeaning {
  import opened Sums
  import opened Features

  // ---- Deviations ------------------------------------------------------------------------------

  function SquareSum(s: seq<real>): real {
    if |s| == 0 then 0.0 else SquareSum(s[..|s| - 1]) + Square(s[|s| - 1])
  }

  /** The squared differences between x and each element. */
  function SpreadFrom(s: seq<real>, x: real): real {
    if |s| == 0 then 0.0 else SpreadFrom(s[..|s| - 1], x) + Square(s[|s| - 1] - x)
  }

  /** The squared differences of all pairs. */
  function PairSpread(s: seq<real>): real {
    if |s| == 0 then 0.0 else PairSpread(s[..|s| - 1]) + SpreadFrom(s[..|s| - 1], s[|s| - 1])
  }

  lemma SquareOfDifference(a: real, b: real)
    ensures Square(a - b) == Square(a) - 2.0 * Times(b, a) + Square(b)
  {}

  lemma {:induction false} SpreadFromIs(s: seq<real>, x: real)
    ensures SpreadFrom(s, x) == SquareSum(s) - 2.0 * Times(x, SumOf(s)) + Times(|s| as real, Square(x))
  {
    if |s| == 0 {
      assert Times(x, 0.0) == 0.0 && Times(0.0, Square(x)) == 0.0;
    } else {
      var init, y := s[..|s| - 1], s[|s| - 1];
      SpreadFromIs(init, x);
      SquareOfDifference(y, x);
      TimesDistributes(x, SumOf(init), y);
      TimesDistributes(Square(x), |init| as real, 1.0);
      assert Times(1.0, Square(x)) == Square(x);
    }
  }

  lemma {:induction false} DeviationsAreSpread(s: seq<real>, mean: real)
    ensures SquaredDeviations(s, mean) == SpreadFrom(s, mean)
  {
    if |s| > 0 {
      DeviationsAreSpread(s[..|s| - 1], mean);
      assert Square(s[|s| - 1] - mean) == (s[|s| - 1] - mean) * (s[|s| - 1] - mean);
    }
  }

  lemma PairStep(n: real, q: real, s: real, x: real)
    ensures Times(n + 1.0, q + Square(x)) - Square(s + x) ==
            Times(n, q) - Square(s) + (q - 2.0 * Times(x, s) + Times(n, Square(x)))
  {
    assert Square(s + x) == s * s + 2.0 * (x * s) + x * x;
    assert Times(n + 1.0, q + Square(x)) == n * q + n * Square(x) + q + Square(x);
  }

  lemma {:induction false} PairSpreadIs(s: seq<real>)
    ensures PairSpread(s) == Times(|s| as real, SquareSum(s)) - Square(SumOf(s))
  {
    if |s| > 0 {
      var init, x := s[..|s| - 1], s[|s| - 1];
      PairSpreadIs(init);
      SpreadFromIs(init, x);
      PairStep(|init| as real, SquareSum(init), SumOf(init), x);
    }
  }

  lemma MeanTimes(s: seq<real>)
    requires |s| > 0
    ensures Times(|s| as real, MeanOf(s)) == SumOf(s)
  {}

  lemma CentredSpread(n: real, q: real, s: real, mean: real)
    requires Times(n, mean) == s
    ensures Times(n, q - 2.0 * Times(mean, s) + Times(n, Square(mean))) == Times(n, q) - Square(s)
  {
    assert Times(n, Square(mean)) == Times(mean, s);
    assert Times(n, q - Times(mean, s)) == n * q - n * (mean * s);
    assert n * (mean * s) == (n * mean) * s;
  }

  /** n times the squared deviations from the mean is the spread of all pairs. */
  lemma DeviationsArePairs(s: seq<real>)
    requires |s| > 0
    ensures Times(|s| as real, SquaredDeviations(s, MeanOf(s))) == PairSpread(s)
  {
    var mean := MeanOf(s);
    DeviationsAreSpread(s, mean);
    SpreadFromIs(s, mean);
    PairSpreadIs(s);
    MeanTimes(s);
    CentredSpread(|s| as real, SquareSum(s), SumOf(s), mean);
  }

  lemma {:induction false} SpreadNonneg(s: seq<real>, x: real)
    ensures SpreadFrom(s, x) >= 0.0
  {
    if |s| > 0 {
      SpreadNonneg(s[..|s| - 1], x);
      SquareSign(s[|s| - 1] - x);
    }
  }

  lemma RootOfQuotient(sqrt: real -> real, x: real, d: real)
    requires SqrtLaw(sqrt) && x >= 0.0 && d > 0.0
    ensures sqrt(x / d) >= 0.0 && Times(d, Square(sqrt(x / d))) == x
  {
    var q := x / d;
    assert q * d == x;
    assert q >= 0.0;
    assert Square(sqrt(q)) == q;
  }

  /** The sample deviation, squared, is the spread of all pairs over n (n - 1). */
  lemma DeviationIsSpread(s: seq<real>, sqrt: real -> real)
    requires |s| >= 2 && SqrtLaw(sqrt)
    ensures Deviation(s, sqrt) >= 0.0
    ensures Times(|s| as real, Times((|s| - 1) as real, Square(Deviation(s, sqrt)))) == PairSpread(s)
  {
    DeviationsArePairs(s);
    DeviationsAreSpread(s, MeanOf(s));
    SpreadNonneg(s, MeanOf(s));
    RootOfQuotient(sqrt, SquaredDeviations(s, MeanOf(s)), (|s| - 1) as real);
  }

  // ---- Returns, volumes, groups ------------------------------------------------------------------

  /** How much the logarithm of the price grew at each of the last n ticks. */
  function LogGrowths(t: seq<Tick>, n: nat, log: real -> real): (g: seq<real>)
    requires n < |t|
    ensures |g| == n
    ensures forall i :: 0 <= i < n ==> g[i] == log(t[|t| - n + i].price) - log(t[|t| - n + i - 1].price)
  {
    seq(n, i requires 0 <= i < n => log(t[|t| - n + i].price) - log(t[|t| - n + i - 1].price))
  }

  lemma {:induction false} ReturnsAreGrowths(t: seq<Tick>, n: nat, log: real -> real)
    requires AllPositive(t) && n < |t| && LogProductLaw(log)
    ensures Returns(t, |t| - n, LogReturn(log)) == LogGrowths(t, n, log)
    decreases n
  {
    if n > 0 {
      var from := |t| - n;
      ReturnsAreGrowths(t, n - 1, log);
      LogReturnIs(log, t[from - 1].price, t[from].price);
      var g, rest := LogGrowths(t, n, log), LogGrowths(t, n - 1, log);
      assert g == [g[0]] + rest;
    }
  }

  /** The score of the last volume: its distance from the mean in deviations. */
  lemma VolumeScoreIs(v: seq<real>, sqrt: real -> real)
    requires |v| >= 2 && SqrtLaw(sqrt)
    ensures Times(VolumeScore(v, sqrt), Deviation(v, sqrt) + 0.000000001) == v[|v| - 1] - MeanOf(v)
  {
    DeviationIsSpread(v, sqrt);
    QuotientBack(v[|v| - 1] - MeanOf(v), Deviation(v, sqrt) + 0.000000001);
  }

  lemma QuotientBack(x: real, d: real)
    requires d > 0.0
    ensures Times(x / d, d) == x
  {}

  /** How many groups of four fit before the last element. */
  function Groups(n: nat): nat { if n == 0 then 0 else (n - 1) / 4 }

  lemma {:induction false} GroupCount(r: seq<real>, start: nat, sqrt: real -> real)
    requires start <= |r|
    ensures |SubVols(r, start, sqrt)| == Groups(|r| - start)
    decreases |r| - start
  {
    if start + STEP < |r| { GroupCount(r, start + STEP, sqrt); }
  }

  /** Group g is the four returns from index 4 g on. */
  lemma {:induction false} GroupIs(r: seq<real>, start: nat, g: nat, sqrt: real -> real)
    requires g < |SubVols(r, start, sqrt)|
    ensures start + 4 * g + 4 < |r|
    ensures SubVols(r, start, sqrt)[g] == Deviation(r[start + 4 * g..start + 4 * g + 4], sqrt)
    decreases g
  {
    if g > 0 { GroupIs(r, start + STEP, g - 1, sqrt); }
  }

  // ---- The whole vector --------------------------------------------------------------------------

  /** With positive prices and a real square root: how fast prices moved, how unusual
      the last volume is, the decayed imbalance, and how much the movement varied. */
  lemma VectorMeans(t: seq<Tick>, lookBack: nat, m: Maths)
    requires AllPositive(t) && |t| > lookBack >= 5 && LogProductLaw(m.log) && SqrtLaw(m.sqrt)
    ensures var o, r, recent := Build(t, lookBack, m), LogGrowths(t, lookBack, m.log), t[|t| - lookBack..];
      && o.Vector? && |o.values| == 6
      && o.values[2] >= 0.0
      && Times(lookBack as real, Times((lookBack - 1) as real, Square(o.values[2]))) == PairSpread(r)
      && Times(o.values[3], Deviation(Volumes(recent), m.sqrt) + 0.000000001)
         == t[|t| - 1].volume - MeanOf(Volumes(recent))
      && o.values[4] == AgeWeighted(recent)
      && o.values[5] == VolOfVol(r, m.sqrt)
  {
    var r, recent := LogGrowths(t, lookBack, m.log), t[|t| - lookBack..];
    PositiveWindow(t, lookBack, LogReturn(m.log));
    ReturnsAreGrowths(t, lookBack, m.log);
    EntriesInOrder(r, recent, m.sqrt);
    DeviationIsSpread(r, m.sqrt);
    VolumeScoreIs(Volumes(recent), m.sqrt);
    EmaIsAgeWeighted(recent);
  }

  lemma EntriesInOrder(r: seq<real>, recent: seq<Tick>, sqrt: real -> real)
    requires |r| >= 5 && |recent| > 0
    ensures var e := Entries(r, recent, sqrt);
      |e| == 6 && e[2] == Deviation(r, sqrt) && e[3] == VolumeScore(Volumes(recent), sqrt) &&
      e[4] == Ema(recent) && e[5] == VolOfVol(r, sqrt)
  {}

  /** The last entry is the deviation of the deviations of the groups of four. */
  lemma VolOfVolIs(r: seq<real>, sqrt: real -> real)
    requires SqrtLaw(sqrt)
    ensures var subs := SubVols(r, 0, sqrt);
      if Groups(|r|) < 2 then VolOfVol(r, sqrt) == 0.0
      else |subs| == Groups(|r|) && VolOfVol(r, sqrt) >= 0.0 &&
           Times(|subs| as real, Times((|subs| - 1) as real, Square(VolOfVol(r, sqrt)))) == PairSpread(subs)
  {
    GroupCount(r, 0, sqrt);
    if Groups(|r|) >= 2 { DeviationIsSpread(SubVols(r, 0, sqrt), sqrt); }
  }
}
