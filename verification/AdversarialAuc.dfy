/** The adversarial AUC of two windows: a Gaussian score, a stable descending
    sort, and one counting pass. */
module AdversarialAuc {
  import opened Sums
  import opened Counting
  import opened Matrices

  datatype Scored = Scored(score: real, current: bool)

  // ---- Stable descending sort ----------------------------------------------------

  /** Put x before the first element that does not beat it. */
  function InsertDesc(x: Scored, t: seq<Scored>): seq<Scored> {
    if |t| == 0 || t[0].score <= x.score then [x] + t else [t[0]] + InsertDesc(x, t[1..])
  }

  /** sorted(s, key=score, reverse=True): descending, equal scores keep their order. */
  function SortDesc(s: seq<Scored>): seq<Scored> {
    if |s| == 0 then [] else InsertDesc(s[0], SortDesc(s[1..]))
  }

  predicate Descending(t: seq<Scored>) {
    forall i, j :: 0 <= i < j < |t| ==> t[i].score >= t[j].score
  }

  ghost predicate AllAbove(a: seq<Scored>, v: real) { forall i :: 0 <= i < |a| ==> a[i].score > v }

  ghost predicate AllAtMost(b: seq<Scored>, v: real) { forall i :: 0 <= i < |b| ==> b[i].score <= v }

  lemma TailDescends(t: seq<Scored>)
    requires |t| > 0 && Descending(t)
    ensures Descending(t[1..]) && t == [t[0]] + t[1..]
  {}

  lemma HeadAtMost(t: seq<Scored>, v: real)
    requires Descending(t) && (|t| > 0 ==> t[0].score <= v)
    ensures AllAtMost(t, v)
  {
    forall i | 0 <= i < |t| ensures t[i].score <= v {
      assert i > 0 ==> t[0].score >= t[i].score;
    }
  }

  lemma ConsAbove(y: Scored, a: seq<Scored>, v: real)
    requires y.score > v && AllAbove(a, v)
    ensures AllAbove([y] + a, v)
  {}

  /** InsertDesc cuts t where x belongs. */
  lemma {:induction false} InsertSplits(x: Scored, t: seq<Scored>) returns (a: seq<Scored>, b: seq<Scored>)
    requires Descending(t)
    ensures t == a + b && InsertDesc(x, t) == a + [x] + b
    ensures AllAbove(a, x.score) && AllAtMost(b, x.score)
  {
    if |t| == 0 || t[0].score <= x.score {
      a, b := [], t;
      HeadAtMost(t, x.score);
    } else {
      TailDescends(t);
      var a', b' := InsertSplits(x, t[1..]);
      a, b := [t[0]] + a', b';
      ConsAbove(t[0], a', x.score);
      Regroup([t[0]], a', b');
      Regroup([t[0]], a', [x]);
      Regroup([t[0]], a' + [x], b');
    }
  }

  lemma DescendingJoin(a: seq<Scored>, x: Scored, b: seq<Scored>)
    requires Descending(a + b) && AllAbove(a, x.score) && AllAtMost(b, x.score)
    ensures Descending(a + [x] + b)
  {
    var t, u := a + b, a + [x] + b;
    forall i, j | 0 <= i < j < |u| ensures u[i].score >= u[j].score {
      var i', j' := if i < |a| then i else i - 1, if j < |a| then j else j - 1;
      if i < |a| && j != |a| { assert u[i] == t[i'] && u[j] == t[j']; }
      if i > |a| { assert u[i] == t[i'] && u[j] == t[j']; }
    }
  }

  lemma {:induction false} SortIsDescending(s: seq<Scored>)
    ensures Descending(SortDesc(s))
  {
    if |s| > 0 {
      SortIsDescending(s[1..]);
      var a, b := InsertSplits(s[0], SortDesc(s[1..]));
      DescendingJoin(a, s[0], b);
    }
  }

  lemma {:induction false} SortIsPermutation(s: seq<Scored>)
    ensures multiset(SortDesc(s)) == multiset(s)
  {
    if |s| > 0 {
      var x, t := s[0], SortDesc(s[1..]);
      SortIsPermutation(s[1..]);
      SortIsDescending(s[1..]);
      var a, b := InsertSplits(x, t);
      assert s == [x] + s[1..];
      assert multiset(a + [x] + b) == multiset(a) + multiset{x} + multiset(b);
    }
  }

  function WithScore(s: seq<Scored>, v: real): seq<Scored> {
    if |s| == 0 then []
    else if s[0].score == v then [s[0]] + WithScore(s[1..], v)
    else WithScore(s[1..], v)
  }

  lemma {:induction false} WithScoreConcat(s: seq<Scored>, t: seq<Scored>, v: real)
    ensures WithScore(s + t, v) == WithScore(s, v) + WithScore(t, v)
  {
    if |s| == 0 {
      assert s + t == t;
    } else {
      assert (s + t)[1..] == s[1..] + t && (s + t)[0] == s[0];
      WithScoreConcat(s[1..], t, v);
      if s[0].score == v { Regroup([s[0]], WithScore(s[1..], v), WithScore(t, v)); }
    }
  }

  lemma Regroup<T>(a: seq<T>, b: seq<T>, c: seq<T>)
    ensures a + (b + c) == a + b + c
  {}

  lemma {:induction false} NoneWithScore(s: seq<Scored>, v: real)
    requires forall i :: 0 <= i < |s| ==> s[i].score != v
    ensures WithScore(s, v) == []
  {
    if |s| > 0 { NoneWithScore(s[1..], v); }
  }

  /** The sort is stable: elements with equal scores come out in input order. */
  lemma {:induction false} SortIsStable(s: seq<Scored>, v: real)
    ensures WithScore(SortDesc(s), v) == WithScore(s, v)
  {
    if |s| > 0 {
      SortIsDescending(s[1..]);
      SortIsStable(s[1..], v);
      var a, b := InsertSplits(s[0], SortDesc(s[1..]));
      StableJoin(a, s[0], b, v);
    }
  }

  lemma StableJoin(a: seq<Scored>, x: Scored, b: seq<Scored>, v: real)
    requires AllAbove(a, x.score)
    ensures WithScore(a + [x] + b, v) == (if x.score == v then [x] else []) + WithScore(a + b, v)
  {
    WithScoreConcat(a, b, v);
    WithScoreConcat(a + [x], b, v);
    WithScoreConcat(a, [x], v);
    assert WithScore([x], v) == (if x.score == v then [x] else []);
    if x.score == v { NoneWithScore(a, v); }
  }

  // ---- The counting pass ------------------------------------------------------------

  function IsCurrent(): Scored -> bool { (x: Scored) => x.current }
  function IsBaseline(): Scored -> bool { (x: Scored) => !x.current }

  /** What the pass accumulates: each baseline item adds the current items before it. */
  function Credit(t: seq<Scored>): nat {
    if |t| == 0 then 0
    else
      var init, last := t[..|t| - 1], t[|t| - 1];
      Credit(init) + (if last.current then 0 else Count(init, IsCurrent()))
  }

  lemma {:induction false} CreditConcat(a: seq<Scored>, b: seq<Scored>)
    ensures Credit(a + b) == Credit(a) + Credit(b) + Count(a, IsCurrent()) * Count(b, IsBaseline())
  {
    if |b| == 0 {
      assert a + b == a;
    } else {
      var init, last := b[..|b| - 1], b[|b| - 1];
      assert (a + b)[..|a + b| - 1] == a + init && (a + b)[|a + b| - 1] == last;
      CreditConcat(a, init);
      CountConcat(a, init, IsCurrent());
      if !last.current { MulStep(Count(a, IsCurrent()), Count(init, IsBaseline())); }
    }
  }

  lemma MulStep(x: int, y: int)
    ensures x * (y + 1) == x * y + x
    ensures (x + 1) * y == x * y + y
  {}

  /** Inserting one item changes the credit by the pairs it forms. */
  lemma {:induction false} CreditInsert(a: seq<Scored>, x: Scored, b: seq<Scored>)
    ensures Credit(a + [x] + b) == Credit(a + b) +
              (if x.current then Count(b, IsBaseline()) else Count(a, IsCurrent()))
  {
    CreditConcat(a + [x], b);
    CreditConcat(a, b);
    CountConcat(a, [x], IsCurrent());
    assert (a + [x])[..|a|] == a;
    assert Count([x], IsCurrent()) == if x.current then 1 else 0;
    MulStep(Count(a, IsCurrent()), Count(b, IsBaseline()));
  }

  function Beats(v: real): Scored -> bool { (y: Scored) => y.current && y.score > v }
  function BeatenBy(v: real): Scored -> bool { (y: Scored) => !y.current && y.score <= v }

  lemma {:induction false} CountNone<T>(s: seq<T>, p: T -> bool)
    requires forall i :: 0 <= i < |s| ==> !p(s[i])
    ensures Count(s, p) == 0
  {
    if |s| > 0 { CountNone(s[..|s| - 1], p); }
  }

  /** The credit added when x joins the sorted rest. */
  lemma {:induction false} CreditOfSortStep(x: Scored, rest: seq<Scored>)
    ensures Credit(InsertDesc(x, SortDesc(rest))) == Credit(SortDesc(rest)) +
              (if x.current then Count(rest, BeatenBy(x.score)) else Count(rest, Beats(x.score)))
  {
    SortIsDescending(rest);
    SortIsPermutation(rest);
    var a, b := InsertSplits(x, SortDesc(rest));
    CreditInsert(a, x, b);
    CountPermuted(a + b, rest, BeatenBy(x.score));
    CountPermuted(a + b, rest, Beats(x.score));
    PartsCount(a, b, x.score);
  }

  lemma PartsCount(a: seq<Scored>, b: seq<Scored>, v: real)
    requires AllAbove(a, v) && AllAtMost(b, v)
    ensures Count(b, IsBaseline()) == Count(a + b, BeatenBy(v))
    ensures Count(a, IsCurrent()) == Count(a + b, Beats(v))
  {
    CountConcat(a, b, BeatenBy(v));
    CountConcat(a, b, Beats(v));
    CountNone(a, BeatenBy(v));
    CountCongruent(b, b, BeatenBy(v), IsBaseline());
    CountNone(b, Beats(v));
    CountCongruent(a, a, Beats(v), IsCurrent());
  }

  // ---- Winning pairs -------------------------------------------------------------------

  function Above(v: real): real -> bool { y => y > v }

  /** Pairs (current, baseline) in which the current score is strictly greater. */
  function Wins(base: seq<real>, cur: seq<real>): nat {
    if |base| == 0 then 0 else Count(cur, Above(base[0])) + Wins(base[1..], cur)
  }

  function Labelled(s: seq<real>, current: bool): (t: seq<Scored>)
    ensures |t| == |s|
  {
    seq(|s|, i requires 0 <= i < |s| => Scored(s[i], current))
  }

  lemma {:induction false} CreditOfCurrentOnly(cur: seq<real>)
    ensures Credit(SortDesc(Labelled(cur, true))) == 0
  {
    if |cur| > 0 {
      var s := Labelled(cur, true);
      assert s[1..] == Labelled(cur[1..], true);
      CreditOfCurrentOnly(cur[1..]);
      CreditOfSortStep(s[0], s[1..]);
      CountNone(s[1..], BeatenBy(s[0].score));
    }
  }

  /** The pass over the sorted list counts exactly the strictly winning pairs:
      ties count nothing, because the baseline items were listed first. */
  lemma {:induction false} CreditIsWins(base: seq<real>, cur: seq<real>)
    ensures Credit(SortDesc(Labelled(base, false) + Labelled(cur, true))) == Wins(base, cur)
  {
    var zeros, ones := Labelled(base, false), Labelled(cur, true);
    if |base| == 0 {
      assert zeros + ones == ones;
      CreditOfCurrentOnly(cur);
    } else {
      var s := zeros + ones;
      var rest := Labelled(base[1..], false) + ones;
      assert s[1..] == rest && s[0] == Scored(base[0], false);
      CreditIsWins(base[1..], cur);
      CreditOfSortStep(s[0], rest);
      CountConcat(Labelled(base[1..], false), ones, Beats(base[0]));
      CountNone(Labelled(base[1..], false), Beats(base[0]));
      CountCongruent(ones, cur, Beats(base[0]), Above(base[0]));
    }
  }

  lemma {:induction false} WinsBounded(base: seq<real>, cur: seq<real>)
    ensures Wins(base, cur) <= |base| * |cur|
  {
    if |base| > 0 {
      WinsBounded(base[1..], cur);
      CountBounded(cur, Above(base[0]));
      MulStep(|base| - 1, |cur|);
    }
  }

  lemma {:induction false} CountBounded<T>(s: seq<T>, p: T -> bool)
    ensures Count(s, p) <= |s|
  {
    if |s| > 0 { CountBounded(s[..|s| - 1], p); }
  }

  function Negated(s: seq<real>): (t: seq<real>)
    ensures |t| == |s|
  {
    seq(|s|, i requires 0 <= i < |s| => -s[i])
  }

  lemma {:induction false} WinsOfSnoc(base: seq<real>, cur: seq<real>, y: real)
    ensures Wins(base, cur + [y]) == Wins(base, cur) + Count(Negated(base), Above(-y))
  {
    if |base| > 0 {
      WinsOfSnoc(base[1..], cur, y);
      assert (cur + [y])[..|cur|] == cur;
      assert Negated(base) == [-base[0]] + Negated(base[1..]);
      CountConcat([-base[0]], Negated(base[1..]), Above(-y));
      assert Count([-base[0]], Above(-y)) == if y > base[0] then 1 else 0;
    }
  }

  lemma {:induction false} WinsOfNone(base: seq<real>)
    ensures Wins(base, []) == 0
  {
    if |base| > 0 { WinsOfNone(base[1..]); }
  }

  lemma {:induction false} WinsConcat(base: seq<real>, base': seq<real>, cur: seq<real>)
    ensures Wins(base + base', cur) == Wins(base, cur) + Wins(base', cur)
  {
    if |base| == 0 {
      assert base + base' == base';
    } else {
      assert (base + base')[1..] == base[1..] + base';
      WinsConcat(base[1..], base', cur);
    }
  }

  /** Exchanging the two windows and negating every score keeps the pairs. */
  lemma {:induction false} WinsReversed(base: seq<real>, cur: seq<real>)
    ensures Wins(base, cur) == Wins(Negated(cur), Negated(base))
    decreases |cur|
  {
    if |cur| == 0 {
      WinsOfNone(base);
    } else {
      var init, y := cur[..|cur| - 1], cur[|cur| - 1];
      assert cur == init + [y];
      WinsOfSnoc(base, init, y);
      WinsReversed(base, init);
      assert Negated(cur) == Negated(init) + [-y];
      WinsConcat(Negated(init), [-y], Negated(base));
      assert Wins([-y], Negated(base)) == Count(Negated(base), Above(-y)) + Wins([], Negated(base));
    }
  }

  // ---- The score --------------------------------------------------------------------------

  function Deviations(vecs: Matrix, j: int): Vec
    requires |vecs| > 0
  {
    i => Square(At(vecs, i, j) - Mean(vecs, j))
  }

  function Variance(vecs: Matrix, j: int): real
    requires |vecs| > 0
  {
    Sum(|vecs|, Deviations(vecs, j)) / |vecs| as real + 0.000000001
  }

  lemma VariancePositive(vecs: Matrix, j: int)
    requires |vecs| > 0
    ensures Variance(vecs, j) > 0.0
  {
    forall i | 0 <= i < |vecs| ensures Deviations(vecs, j)(i) >= 0.0 { SquareSign(At(vecs, i, j) - Mean(vecs, j)); }
    SumNonneg(|vecs|, Deviations(vecs, j));
    NonnegQuotient(Sum(|vecs|, Deviations(vecs, j)), |vecs| as real);
  }

  lemma NonnegQuotient(x: real, d: real)
    requires x >= 0.0 && d > 0.0
    ensures x / d >= 0.0
  {}

  /** The logarithm and pi the score uses. */
  datatype Analysis = Analysis(log: real -> real, pi: real)

  /** The squared distance from a mean, in units of a variance. */
  function Far(x: real, mean: real, v: real): real
    requires v != 0.0
  {
    Square(x - mean) / v
  }

  function LogNormaliser(v: real, an: Analysis): real { an.log(Times(2.0 * an.pi, v)) }

  /** Feature j's Gaussian log-likelihood under one window's mean and variance. */
  function FeatureLikelihood(x: seq<real>, vecs: Matrix, an: Analysis): Vec
    requires |vecs| > 0
  {
    j =>
      var v := Variance(vecs, j);
      if v == 0.0 then 0.0
      else -0.5 * Far(OfSeq(x)(j), Mean(vecs, j), v) - 0.5 * LogNormaliser(v, an)
  }

  function LogLikelihood(x: seq<real>, vecs: Matrix, d: nat, an: Analysis): real
    requires |vecs| > 0
  {
    Sum(d, FeatureLikelihood(x, vecs, an))
  }

  function Score(x: seq<real>, base: Matrix, cur: Matrix, d: nat, an: Analysis): real
    requires |base| > 0 && |cur| > 0
  {
    LogLikelihood(x, cur, d, an) - LogLikelihood(x, base, d, an)
  }

  function Scores(xs: Matrix, base: Matrix, cur: Matrix, d: nat, an: Analysis): (s: seq<real>)
    requires |base| > 0 && |cur| > 0
    ensures |s| == |xs|
  {
    seq(|xs|, i requires 0 <= i < |xs| => Score(xs[i], base, cur, d, an))
  }

  function Auc(base: Matrix, cur: Matrix, an: Analysis): real {
    if |base| == 0 || |cur| == 0 then 0.5
    else
      var d := |base[0]|;
      Wins(Scores(base, base, cur, d, an), Scores(cur, base, cur, d, an)) as real / (|base| * |cur|) as real
  }

  method CountPass(all: seq<Scored>) returns (auc: nat)
    ensures auc == Credit(all)
  {
    auc := 0;
    var nPos := 0;
    for i := 0 to |all|
      invariant nPos == Count(all[..i], IsCurrent())
      invariant auc == Credit(all[..i])
    {
      assert all[..i + 1][..i] == all[..i];
      if all[i].current {
        nPos := nPos + 1;
      } else {
        auc := auc + nPos;
      }
    }
    assert all[..|all|] == all;
  }

  /** The AUC is the fraction of strictly winning pairs; the final clamp to
      [0, 1] never changes it. */
  method ComputeAdversarialAuc(base: Matrix, cur: Matrix, an: Analysis) returns (auc: real)
    requires |base| > 0 ==> forall x :: x in base || x in cur ==> |x| == |base[0]|
    ensures auc == Auc(base, cur, an)
    ensures 0.0 <= auc <= 1.0
  {
    if |base| == 0 || |cur| == 0 {
      return 0.5;
    }
    var n0, n1, d := |base|, |cur|, |base[0]|;
    var s0, s1 := Scores(base, base, cur, d, an), Scores(cur, base, cur, d, an);
    var all := SortDesc(Labelled(s0, false) + Labelled(s1, true));
    var credit := CountPass(all);
    CreditIsWins(s0, s1);
    WinsBounded(s0, s1);
    PairsPositive(n0, n1);
    var n := if n0 * n1 > 1 then n0 * n1 else 1;
    FractionBounds(credit, n);
    auc := credit as real / n as real;
    auc := if auc < 0.0 then 0.0 else auc;
    auc := if auc > 1.0 then 1.0 else auc;
  }

  lemma PairsPositive(x: int, y: int)
    requires x > 0 && y > 0
    ensures x * y >= 1
  {}

  lemma FractionBounds(x: nat, n: nat)
    requires x <= n && n > 0
    ensures 0.0 <= x as real / n as real <= 1.0
  {}

  /** Swapping baseline and current leaves the AUC unchanged: the score flips
      sign along with the roles. */
  lemma {:induction false} AucSymmetric(base: Matrix, cur: Matrix, an: Analysis)
    requires |base| > 0 && |cur| > 0 ==> |base[0]| == |cur[0]|
    ensures Auc(base, cur, an) == Auc(cur, base, an)
  {
    if |base| > 0 && |cur| > 0 {
      var d := |base[0]|;
      var s0, s1 := Scores(base, base, cur, d, an), Scores(cur, base, cur, d, an);
      assert Scores(base, cur, base, d, an) == Negated(s0);
      assert Scores(cur, cur, base, d, an) == Negated(s1);
      WinsReversed(s0, s1);
      assert |base| * |cur| == |cur| * |base|;
    }
  }

  /** A window compared with itself scores 0: every pair is a tie. The
      documentation's reading of 0.5 for indistinguishable windows does not
      describe this computation. */
  lemma {:induction false} SelfAucIsZero(x: Matrix, an: Analysis)
    requires |x| > 0
    ensures Auc(x, x, an) == 0.0
  {
    var s := Scores(x, x, x, |x[0]|, an);
    assert forall i :: 0 <= i < |s| ==> s[i] == 0.0;
    NoWinsAmongTies(s, s);
    PairsPositive(|x|, |x|);
  }

  lemma {:induction false} NoWinsAmongTies(base: seq<real>, cur: seq<real>)
    requires forall i :: 0 <= i < |base| ==> base[i] == 0.0
    requires forall i :: 0 <= i < |cur| ==> cur[i] == 0.0
    ensures Wins(base, cur) == 0
  {
    if |base| > 0 {
      CountNone(cur, Above(base[0]));
      NoWinsAmongTies(base[1..], cur);
    }
  }
}
