/** The population stability index: the histogram form used by the simulator and
    the worker, and the Laplace-smoothed form for categories. */
module StabilityIndex {
  import opened Sums
  import opened Counting

  /** 1e-8: the stand-in for an empty bin, and the slack of the last edge. */
  const EPSILON: real := 0.00000001

  ghost predicate LogLaw(log: real -> real) {
    && log(1.0) == 0.0
    && (forall x {:trigger log(x)} :: (x > 1.0 ==> log(x) > 0.0) && (0.0 < x < 1.0 ==> log(x) < 0.0))
    && forall x, y {:trigger log(x), log(y)} :: x > 0.0 && y > 0.0 && Times(x, y) == 1.0 ==> log(y) == -log(x)
  }

  // ---- One term ---------------------------------------------------------------

  /** (a - e) * log(a / e). */
  function Term(e: real, a: real, log: real -> real): real
    requires e > 0.0
  {
    Times(a - e, log(a / e))
  }

  lemma RatioAgainstOne(e: real, a: real)
    requires e > 0.0 && a > 0.0
    ensures a / e > 0.0
    ensures a / e > 1.0 <==> a > e
    ensures a / e == 1.0 <==> a == e
    ensures Times(a / e, e / a) == 1.0
  {
    var q, r := a / e, e / a;
    assert q * e == a && r * a == e;
    Reciprocals(q, r, e, a);
  }

  lemma Reciprocals(q: real, r: real, e: real, a: real)
    requires e > 0.0 && q * e == a && r * a == e
    ensures Times(q, r) == 1.0
  {
    assert Times(r, q * e) == Times(r, a) == e;
    var t := Times(q, r);
    assert Times(r, q * e) == Times(e, t);
    TimesDistributes(e, t - 1.0, 1.0);
    ZeroFactor(e, t - 1.0);
  }

  lemma ZeroFactor(e: real, t: real)
    requires e > 0.0 && Times(e, t) == 0.0
    ensures t == 0.0
  {
    assert Times(-e, t) == -Times(e, t);
    if t > 0.0 { SameSignTimes(e, t); }
    if t < 0.0 { SameSignTimes(-e, t); }
  }

  /** The term in logarithms: how much the proportions differ times how much their
      logarithms do. */
  lemma TermInLogs(e: real, a: real, log: real -> real)
    requires LogProductLaw(log) && e > 0.0 && a > 0.0
    ensures Term(e, a, log) == Times(a - e, log(a) - log(e))
  {
    var q := a / e;
    assert Times(q, e) == a;
    assert q > 0.0;
    assert log(Times(q, e)) == log(q) + log(e);
  }

  /** Every term is nonnegative, zero exactly when the two proportions agree, and
      the same read in either direction. */
  lemma TermIsDivergence(e: real, a: real, log: real -> real)
    requires LogLaw(log) && e > 0.0 && a > 0.0
    ensures Term(e, a, log) >= 0.0
    ensures Term(e, a, log) == 0.0 <==> e == a
    ensures Term(e, a, log) == Term(a, e, log)
  {
    RatioAgainstOne(e, a);
    RatioAgainstOne(a, e);
    var l := log(a / e);
    assert log(e / a) == -l;
    if a == e {
      assert Times(a - e, l) == 0.0;
    } else {
      SameSignTimes(a - e, l);
    }
    assert Times(e - a, -l) == Times(a - e, l);
  }

  // ---- The histogram ------------------------------------------------------------

  predicate IsLeast(s: seq<real>, m: real) { m in s && forall x :: x in s ==> m <= x }
  predicate IsGreatest(s: seq<real>, m: real) { m in s && forall x :: x in s ==> x <= m }

  function MinOf(s: seq<real>): (m: real)
    requires |s| > 0
    ensures IsLeast(s, m)
  {
    if |s| == 1 then s[0]
    else
      var m := MinOf(s[..|s| - 1]);
      assert forall x :: x in s ==> x in s[..|s| - 1] || x == s[|s| - 1];
      if s[|s| - 1] < m then s[|s| - 1] else m
  }

  function MaxOf(s: seq<real>): (m: real)
    requires |s| > 0
    ensures IsGreatest(s, m)
  {
    if |s| == 1 then s[0]
    else
      var m := MaxOf(s[..|s| - 1]);
      assert forall x :: x in s ==> x in s[..|s| - 1] || x == s[|s| - 1];
      if s[|s| - 1] > m then s[|s| - 1] else m
  }

  function EdgeAt(lo: real, hi: real, bins: nat, i: nat): real
    requires bins > 0
  {
    if i == bins then hi + EPSILON else lo + Times(i as real, (hi - lo) / bins as real)
  }

  function Edges(lo: real, hi: real, bins: nat): seq<real>
    requires bins > 0
  {
    seq(bins + 1, i requires 0 <= i <= bins => EdgeAt(lo, hi, bins, i))
  }

  predicate InBin(edges: seq<real>, v: real, b: nat)
    requires b + 1 < |edges|
  {
    edges[b] <= v < edges[b + 1]
  }

  /** The first bin from b on that takes v, or the number of bins. */
  function FirstBin(edges: seq<real>, v: real, b: nat): nat
    requires b < |edges|
    decreases |edges| - b
  {
    if b + 1 == |edges| then b else if InBin(edges, v, b) then b else FirstBin(edges, v, b + 1)
  }

  function Falls(edges: seq<real>, b: nat): real -> bool
    requires |edges| > 0
  {
    v => FirstBin(edges, v, 0) == b
  }

  function BinCount(vals: seq<real>, edges: seq<real>, b: nat): nat
    requires |edges| > 0
  {
    Count(vals, Falls(edges, b))
  }

  lemma EdgesIncrease(lo: real, hi: real, bins: nat, i: nat)
    requires lo < hi && i < bins
    ensures EdgeAt(lo, hi, bins, i) < EdgeAt(lo, hi, bins, i + 1)
    ensures i + 1 == bins ==> EdgeAt(lo, hi, bins, i) < hi
    ensures EdgeAt(lo, hi, bins, 0) == lo
  {
    var w := (hi - lo) / bins as real;
    assert w * bins as real == hi - lo;
    PositiveQuotient(hi - lo, bins as real);
    TimesDistributes(w, i as real, 1.0);
    assert (i + 1) as real == i as real + 1.0;
    assert Times(bins as real, w) == hi - lo;
    assert Times(0.0, w) == 0.0;
  }

  lemma PositiveQuotient(x: real, d: real)
    requires x > 0.0 && d > 0.0
    ensures x / d > 0.0
  {}

  lemma {:induction false} EdgesSorted(lo: real, hi: real, bins: nat, i: nat, j: nat)
    requires lo < hi && i <= j <= bins && bins > 0
    ensures EdgeAt(lo, hi, bins, i) <= EdgeAt(lo, hi, bins, j)
    decreases j - i
  {
    if i < j {
      EdgesSorted(lo, hi, bins, i, j - 1);
      EdgesIncrease(lo, hi, bins, j - 1);
    }
  }

  lemma {:induction false} FirstBinFinds(edges: seq<real>, v: real, from: nat)
    requires from < |edges| && edges[from] <= v < edges[|edges| - 1]
    ensures from <= FirstBin(edges, v, from) < |edges| - 1
    ensures InBin(edges, v, FirstBin(edges, v, from))
    decreases |edges| - from
  {
    if !InBin(edges, v, from) { FirstBinFinds(edges, v, from + 1); }
  }

  /** Every value between the extremes falls in one bin and no other. */
  lemma {:induction false} BinsPartition(lo: real, hi: real, bins: nat, v: real, b: nat)
    requires lo < hi && bins > 0 && lo <= v <= hi && b < bins
    ensures FirstBin(Edges(lo, hi, bins), v, 0) < bins
    ensures FirstBin(Edges(lo, hi, bins), v, 0) == b <==> InBin(Edges(lo, hi, bins), v, b)
  {
    var edges := Edges(lo, hi, bins);
    EdgesIncrease(lo, hi, bins, 0);
    FirstBinFinds(edges, v, 0);
    var f := FirstBin(edges, v, 0);
    if f < b { EdgesSorted(lo, hi, bins, f + 1, b); }
    if b < f { EdgesSorted(lo, hi, bins, b + 1, f); }
  }

  lemma EdgeIs(lo: real, hi: real, bins: nat, i: nat, v: real)
    requires bins > 0 && i < bins
    ensures EdgeAt(lo, hi, bins, i) <= v <==> Times(i as real, hi - lo) <= Times(bins as real, v - lo)
  {
    var n, w := bins as real, (hi - lo) / bins as real;
    assert w * n == hi - lo;
    EdgeScaled(n, i as real, w, hi - lo, v - lo);
  }

  lemma EdgeScaled(n: real, i: real, w: real, range: real, x: real)
    requires n > 0.0 && w * n == range
    ensures Times(i, w) <= x <==> Times(i, range) <= Times(n, x)
  {
    assert Times(i, range) == Times(n, Times(i, w));
    var gap := x - Times(i, w);
    TimesDistributes(n, gap, Times(i, w));
    if gap >= 0.0 { assert n * gap >= 0.0; } else { assert n * gap < 0.0; }
  }

  /** The bins have equal widths: bin b takes the values from b to b + 1 bin-ths of
      the range, and the last bin the largest value too. */
  lemma InBinIff(lo: real, hi: real, bins: nat, v: real, b: nat)
    requires lo < hi && lo <= v <= hi && b < bins
    ensures InBin(Edges(lo, hi, bins), v, b) <==>
      Times(b as real, hi - lo) <= Times(bins as real, v - lo) &&
      (b + 1 == bins || Times(bins as real, v - lo) < Times((b + 1) as real, hi - lo))
  {
    EdgeIs(lo, hi, bins, b, v);
    if b + 1 < bins { EdgeIs(lo, hi, bins, b + 1, v); }
  }

  function CountsUpTo(vals: seq<real>, edges: seq<real>, m: nat): nat
    requires |edges| > 0
  {
    if m == 0 then 0 else CountsUpTo(vals, edges, m - 1) + BinCount(vals, edges, m - 1)
  }

  lemma {:induction false} CountsOfSnoc(vals: seq<real>, edges: seq<real>, m: nat)
    requires |edges| > 0 && |vals| > 0
    ensures CountsUpTo(vals, edges, m) == CountsUpTo(vals[..|vals| - 1], edges, m)
            + (if FirstBin(edges, vals[|vals| - 1], 0) < m then 1 else 0)
  {
    if m > 0 { CountsOfSnoc(vals, edges, m - 1); }
  }

  /** The counts of a sample add up to its size: nothing is lost or counted twice. */
  lemma {:induction false} CountsSumToSize(vals: seq<real>, lo: real, hi: real, bins: nat)
    requires lo < hi && bins > 0 && forall v :: v in vals ==> lo <= v <= hi
    ensures CountsUpTo(vals, Edges(lo, hi, bins), bins) == |vals|
    decreases |vals|
  {
    var edges := Edges(lo, hi, bins);
    if |vals| == 0 {
      CountsOfNone(edges, bins);
    } else {
      var init := vals[..|vals| - 1];
      CountsOfSnoc(vals, edges, bins);
      assert vals[|vals| - 1] in vals;
      forall v | v in init ensures lo <= v <= hi { assert v in vals; }
      CountsSumToSize(init, lo, hi, bins);
      BinsPartition(lo, hi, bins, vals[|vals| - 1], 0);
    }
  }

  lemma {:induction false} CountsOfNone(edges: seq<real>, m: nat)
    requires |edges| > 0
    ensures CountsUpTo([], edges, m) == 0
  {
    if m > 0 { CountsOfNone(edges, m - 1); }
  }

  // ---- Histogram PSI --------------------------------------------------------------

  /** A bin's share of the sample, with the stand-in for an empty bin. */
  function Share(count: nat, size: nat): (p: real)
    requires size > 0
    ensures p > 0.0
  {
    if count > 0 then PositiveQuotient(count as real, size as real); count as real / size as real else EPSILON
  }

  /** A share is the bin's fraction of the sample, unless the bin is empty. */
  lemma ShareIs(count: nat, size: nat)
    requires size > 0
    ensures if count > 0 then Times(size as real, Share(count, size)) == count as real
            else Share(count, size) == 0.00000001
  {
    if count > 0 { QuotientBack(count as real, size as real); }
  }

  lemma QuotientBack(x: real, d: real)
    requires d > 0.0
    ensures Times(d, x / d) == x
  {}

  function BinTerm(e: seq<real>, a: seq<real>, edges: seq<real>, log: real -> real): Vec
    requires |e| > 0 && |a| > 0 && |edges| > 0
  {
    b => if b < 0 then 0.0
         else Term(Share(BinCount(e, edges, b), |e|), Share(BinCount(a, edges, b), |a|), log)
  }

  /** The sum before the final clamp. */
  function RawPsi(e: seq<real>, a: seq<real>, bins: nat, log: real -> real): real
    requires |e| > 0 && |a| > 0 && bins > 0
  {
    Sum(bins, BinTerm(e, a, Edges(MinOf(e + a), MaxOf(e + a), bins), log))
  }

  function Psi(e: seq<real>, a: seq<real>, bins: nat, log: real -> real): real
    requires bins > 0
  {
    if |e| == 0 || |a| == 0 then 0.0
    else if MinOf(e + a) == MaxOf(e + a) then 0.0
    else if RawPsi(e, a, bins, log) > 0.0 then RawPsi(e, a, bins, log) else 0.0
  }

  lemma TermsNonneg(e: seq<real>, a: seq<real>, bins: nat, log: real -> real, edges: seq<real>)
    requires |e| > 0 && |a| > 0 && |edges| > 0 && LogLaw(log)
    ensures forall b :: 0 <= b < bins ==> BinTerm(e, a, edges, log)(b) >= 0.0
  {
    forall b | 0 <= b < bins ensures BinTerm(e, a, edges, log)(b) >= 0.0 {
      TermIsDivergence(Share(BinCount(e, edges, b), |e|), Share(BinCount(a, edges, b), |a|), log);
    }
  }

  /** The final max(0, .) never changes anything. */
  lemma ClampIsNoOp(e: seq<real>, a: seq<real>, bins: nat, log: real -> real)
    requires |e| > 0 && |a| > 0 && bins > 0 && LogLaw(log) && MinOf(e + a) != MaxOf(e + a)
    ensures Psi(e, a, bins, log) == RawPsi(e, a, bins, log)
  {
    var edges := Edges(MinOf(e + a), MaxOf(e + a), bins);
    TermsNonneg(e, a, bins, log, edges);
    SumNonneg(bins, BinTerm(e, a, edges, log));
  }

  /** PSI is a divergence: zero exactly when every bin has the same share. */
  lemma {:induction false} ZeroIffSharesAgree(e: seq<real>, a: seq<real>, bins: nat, log: real -> real)
    requires |e| > 0 && |a| > 0 && bins > 0 && LogLaw(log) && MinOf(e + a) != MaxOf(e + a)
    ensures var edges := Edges(MinOf(e + a), MaxOf(e + a), bins);
            Psi(e, a, bins, log) == 0.0 <==> forall b :: 0 <= b < bins ==>
              Share(BinCount(e, edges, b), |e|) == Share(BinCount(a, edges, b), |a|)
  {
    var edges := Edges(MinOf(e + a), MaxOf(e + a), bins);
    var f := BinTerm(e, a, edges, log);
    ClampIsNoOp(e, a, bins, log);
    TermsNonneg(e, a, bins, log, edges);
    SumNonneg(bins, f);
    forall b | 0 <= b < bins
      ensures f(b) == 0.0 <==> Share(BinCount(e, edges, b), |e|) == Share(BinCount(a, edges, b), |a|)
    {
      TermIsDivergence(Share(BinCount(e, edges, b), |e|), Share(BinCount(a, edges, b), |a|), log);
    }
    if forall b :: 0 <= b < bins ==> f(b) == 0.0 {
      SumZero(bins, f);
    } else {
      var b :| 0 <= b < bins && f(b) != 0.0;
      assert f(b) > 0.0;
    }
  }

  lemma SelfPsiIsZero(x: seq<real>, bins: nat, log: real -> real)
    requires bins > 0 && LogLaw(log)
    ensures Psi(x, x, bins, log) == 0.0
  {
    if |x| > 0 && MinOf(x + x) != MaxOf(x + x) { ZeroIffSharesAgree(x, x, bins, log); }
  }

  lemma LeastUnique(s: seq<real>, t: seq<real>)
    requires |s| > 0 && |t| > 0 && forall x :: x in s <==> x in t
    ensures MinOf(s) == MinOf(t) && MaxOf(s) == MaxOf(t)
  {
    assert MinOf(s) in t && MinOf(t) in s && MaxOf(s) in t && MaxOf(t) in s;
  }

  lemma PsiSymmetric(e: seq<real>, a: seq<real>, bins: nat, log: real -> real)
    requires bins > 0 && LogLaw(log)
    ensures Psi(e, a, bins, log) == Psi(a, e, bins, log)
  {
    if |e| > 0 && |a| > 0 {
      LeastUnique(e + a, a + e);
      var edges := Edges(MinOf(e + a), MaxOf(e + a), bins);
      forall b | 0 <= b < bins ensures BinTerm(e, a, edges, log)(b) == BinTerm(a, e, edges, log)(b) {
        TermIsDivergence(Share(BinCount(e, edges, b), |e|), Share(BinCount(a, edges, b), |a|), log);
      }
      SumCongruent(bins, BinTerm(e, a, edges, log), BinTerm(a, e, edges, log));
    }
  }

  lemma PsiIgnoresOrder(e: seq<real>, a: seq<real>, e': seq<real>, a': seq<real>, bins: nat, log: real -> real)
    requires bins > 0 && multiset(e) == multiset(e') && multiset(a) == multiset(a')
    ensures Psi(e, a, bins, log) == Psi(e', a', bins, log)
  {
    assert |e| == |multiset(e)| == |e'| && |a| == |multiset(a)| == |a'|;
    if |e| > 0 && |a| > 0 {
      forall x ensures x in e + a <==> x in e' + a' {
        assert x in e <==> x in multiset(e);
        assert x in a <==> x in multiset(a);
        assert x in e' <==> x in multiset(e');
        assert x in a' <==> x in multiset(a');
      }
      LeastUnique(e + a, e' + a');
      var edges := Edges(MinOf(e + a), MaxOf(e + a), bins);
      forall b | 0 <= b < bins ensures BinTerm(e, a, edges, log)(b) == BinTerm(e', a', edges, log)(b) {
        CountPermuted(e, e', Falls(edges, b));
        CountPermuted(a, a', Falls(edges, b));
      }
      SumCongruent(bins, BinTerm(e, a, edges, log), BinTerm(e', a', edges, log));
    }
  }

  // ---- Affine invariance ------------------------------------------------------------

  function Affine(c: real, d: real, s: seq<real>): (t: seq<real>)
    ensures |t| == |s|
  {
    seq(|s|, i requires 0 <= i < |s| => Times(c, s[i]) + d)
  }

  lemma TimesMonotone(c: real, x: real, y: real)
    requires c > 0.0
    ensures x < y <==> Times(c, x) < Times(c, y)
  {
    assert Times(c, y) - Times(c, x) == Times(c, y - x);
    if x < y { SameSignTimes(c, y - x); }
    if y < x { SameSignTimes(c, x - y); assert Times(c, x - y) == -Times(c, y - x); }
  }

  lemma AffineExtremes(c: real, d: real, s: seq<real>)
    requires c > 0.0 && |s| > 0
    ensures MinOf(Affine(c, d, s)) == Times(c, MinOf(s)) + d
    ensures MaxOf(Affine(c, d, s)) == Times(c, MaxOf(s)) + d
  {
    var t := Affine(c, d, s);
    forall x | x in t ensures Times(c, MinOf(s)) + d <= x <= Times(c, MaxOf(s)) + d {
      var i :| 0 <= i < |t| && t[i] == x;
      assert s[i] in s;
      TimesMonotone(c, s[i], MinOf(s));
      TimesMonotone(c, MaxOf(s), s[i]);
    }
    var i :| 0 <= i < |s| && s[i] == MinOf(s);
    var j :| 0 <= j < |s| && s[j] == MaxOf(s);
    assert t[i] in t && t[j] in t;
  }

  lemma AffineEdge(c: real, d: real, lo: real, hi: real, bins: nat, i: nat)
    requires bins > 0 && i < bins
    ensures EdgeAt(Times(c, lo) + d, Times(c, hi) + d, bins, i) == Times(c, EdgeAt(lo, hi, bins, i)) + d
  {
    var n := bins as real;
    var w, w' := (hi - lo) / n, (Times(c, hi) - Times(c, lo)) / n;
    assert w * n == hi - lo;
    ScaledQuotient(c, hi - lo, n);
    assert w' == Times(c, w);
    assert Times(i as real, Times(c, w)) == Times(c, Times(i as real, w));
    TimesDistributes(c, lo, Times(i as real, w));
  }

  lemma ScaledQuotient(c: real, x: real, n: real)
    requires n > 0.0
    ensures Times(c, x) / n == Times(c, x / n)
  {
    var q := x / n;
    assert q * n == x;
    assert Times(c, x) == Times(c, q) * n;
  }

  /** A common positive rescaling moves no value to another bin. */
  lemma {:induction false} AffineBin(c: real, d: real, lo: real, hi: real, bins: nat, v: real, b: nat)
    requires c > 0.0 && lo < hi && bins > 0 && lo <= v <= hi && b < bins
    ensures Falls(Edges(lo, hi, bins), b)(v) ==
            Falls(Edges(Times(c, lo) + d, Times(c, hi) + d, bins), b)(Times(c, v) + d)
  {
    TimesMonotone(c, lo, hi);
    TimesMonotone(c, v, lo);
    TimesMonotone(c, hi, v);
    BinsPartition(lo, hi, bins, v, b);
    BinsPartition(Times(c, lo) + d, Times(c, hi) + d, bins, Times(c, v) + d, b);
    AffineEdge(c, d, lo, hi, bins, b);
    TimesMonotone(c, v, EdgeAt(lo, hi, bins, b));
    if b + 1 < bins {
      AffineEdge(c, d, lo, hi, bins, b + 1);
      TimesMonotone(c, v, EdgeAt(lo, hi, bins, b + 1));
    }
  }

  lemma AffineCount(c: real, d: real, lo: real, hi: real, bins: nat, s: seq<real>, b: nat)
    requires c > 0.0 && lo < hi && bins > 0 && b < bins && forall v :: v in s ==> lo <= v <= hi
    ensures BinCount(s, Edges(lo, hi, bins), b) ==
            BinCount(Affine(c, d, s), Edges(Times(c, lo) + d, Times(c, hi) + d, bins), b)
  {
    var t := Affine(c, d, s);
    var p, q := Falls(Edges(lo, hi, bins), b), Falls(Edges(Times(c, lo) + d, Times(c, hi) + d, bins), b);
    forall i | 0 <= i < |s| ensures p(s[i]) == q(t[i]) {
      assert s[i] in s;
      AffineBin(c, d, lo, hi, bins, s[i], b);
    }
    CountCongruent(s, t, p, q);
  }

  lemma AffineTerms(c: real, d: real, e: seq<real>, a: seq<real>, lo: real, hi: real, lo': real, hi': real,
                    bins: nat, log: real -> real)
    requires c > 0.0 && bins > 0 && |e| > 0 && |a| > 0 && lo < hi
    requires lo' == Times(c, lo) + d && hi' == Times(c, hi) + d
    requires forall v :: v in e || v in a ==> lo <= v <= hi
    ensures Sum(bins, BinTerm(e, a, Edges(lo, hi, bins), log)) ==
            Sum(bins, BinTerm(Affine(c, d, e), Affine(c, d, a), Edges(lo', hi', bins), log))
  {
    var f := BinTerm(e, a, Edges(lo, hi, bins), log);
    var g := BinTerm(Affine(c, d, e), Affine(c, d, a), Edges(lo', hi', bins), log);
    forall b | 0 <= b < bins ensures f(b) == g(b) {
      AffineCount(c, d, lo, hi, bins, e, b);
      AffineCount(c, d, lo, hi, bins, a, b);
    }
    SumCongruent(bins, f, g);
  }

  lemma AffineConcat(c: real, d: real, e: seq<real>, a: seq<real>)
    ensures Affine(c, d, e) + Affine(c, d, a) == Affine(c, d, e + a)
  {}

  lemma AffineRaw(c: real, d: real, e: seq<real>, a: seq<real>, bins: nat, log: real -> real)
    requires c > 0.0 && bins > 0 && |e| > 0 && |a| > 0 && MinOf(e + a) < MaxOf(e + a)
    ensures RawPsi(Affine(c, d, e), Affine(c, d, a), bins, log) == RawPsi(e, a, bins, log)
  {
    AffineConcat(c, d, e, a);
    AffineExtremes(c, d, e + a);
    forall v | v in e || v in a ensures MinOf(e + a) <= v <= MaxOf(e + a) { assert v in e + a; }
    var t := Affine(c, d, e) + Affine(c, d, a);
    AffineTerms(c, d, e, a, MinOf(e + a), MaxOf(e + a), MinOf(t), MaxOf(t), bins, log);
  }

  /** PSI is unchanged by any common positive affine rescaling, although the
      slack of the last edge is an absolute amount. */
  lemma {:induction false} PsiAffineInvariant(c: real, d: real, e: seq<real>, a: seq<real>, bins: nat,
      log: real -> real)
    requires c > 0.0 && bins > 0
    ensures Psi(Affine(c, d, e), Affine(c, d, a), bins, log) == Psi(e, a, bins, log)
  {
    if |e| > 0 && |a| > 0 {
      var lo, hi := MinOf(e + a), MaxOf(e + a);
      AffineConcat(c, d, e, a);
      AffineExtremes(c, d, e + a);
      TimesMonotone(c, lo, hi);
      assert lo <= hi by { assert (e + a)[0] in e + a; }
      if lo < hi { AffineRaw(c, d, e, a, bins, log); }
    }
  }

  // ---- The loops ----------------------------------------------------------------------

  /** Put every value in its first matching bin. */
  method BinCounts(vals: seq<real>, edges: seq<real>, bins: nat) returns (counts: seq<nat>)
    requires |edges| == bins + 1
    ensures |counts| == bins && forall b :: 0 <= b < bins ==> counts[b] == BinCount(vals, edges, b)
  {
    var c := new nat[bins](i => 0);
    for k := 0 to |vals|
      invariant forall b :: 0 <= b < bins ==> c[b] == BinCount(vals[..k], edges, b)
    {
      var v := vals[k];
      assert vals[..k + 1][..k] == vals[..k];
      ghost var was := c[..];
      ghost var found := FirstBin(edges, v, 0);
      var b := 0;
      while b < bins
        invariant 0 <= b <= bins && c[..] == was
        invariant FirstBin(edges, v, b) == found
      {
        if edges[b] <= v < edges[b + 1] {
          break;
        }
        b := b + 1;
      }
      if b < bins {
        c[b] := c[b] + 1;
      }
    }
    assert vals[..|vals|] == vals;
    counts := c[..];
  }

  method ComputePsi(expected: seq<real>, actual: seq<real>, bins: nat, log: real -> real) returns (psi: real)
    requires bins > 0
    ensures psi == Psi(expected, actual, bins, log)
  {
    if |expected| == 0 || |actual| == 0 {
      return 0.0;
    }
    var combined := expected + actual;
    var lo, hi := MinOf(combined), MaxOf(combined);
    if lo == hi {
      return 0.0;
    }
    var edges := Edges(lo, hi, bins);
    var ec := BinCounts(expected, edges, bins);
    var ac := BinCounts(actual, edges, bins);
    psi := SumTerms(expected, actual, edges, bins, |expected|, |actual|, ec, ac, log);
    psi := if psi > 0.0 then psi else 0.0;
  }

  /** The accumulation over the bins. */
  method SumTerms(ghost e: seq<real>, ghost a: seq<real>, ghost edges: seq<real>, bins: nat,
                  nE: nat, nA: nat, ec: seq<nat>, ac: seq<nat>, log: real -> real) returns (psi: real)
    requires |e| == nE > 0 && |a| == nA > 0 && |edges| > 0 && |ec| == |ac| == bins
    requires forall b :: 0 <= b < bins ==> ec[b] == BinCount(e, edges, b) && ac[b] == BinCount(a, edges, b)
    ensures psi == Sum(bins, BinTerm(e, a, edges, log))
  {
    psi := 0.0;
    for b := 0 to bins
      invariant psi == Sum(b, BinTerm(e, a, edges, log))
    {
      var ep := Share(ec[b], nE);
      var ap := Share(ac[b], nA);
      psi := psi + Times(ap - ep, log(ap / ep));
    }
  }
}
