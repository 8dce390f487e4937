/** The stability index of a categorical feature, with one pseudo-count per category. */
module CategoricalIndex {
  import opened Sums
  import opened Counting
  import opened StabilityIndex

  // ---- Sums over a set, in whatever order it is traversed ------------------------

  ghost function SumSet<T>(s: set<T>, f: T -> real): real {
    if s == {} then 0.0 else var x :| x in s; f(x) + SumSet(s - {x}, f)
  }

  lemma {:induction false} SumSetRemove<T>(s: set<T>, f: T -> real, y: T)
    requires y in s
    ensures SumSet(s, f) == f(y) + SumSet(s - {y}, f)
    decreases |s|
  {
    var x :| x in s && SumSet(s, f) == f(x) + SumSet(s - {x}, f);
    if x != y {
      SumSetRemove(s - {x}, f, y);
      SumSetRemove(s - {y}, f, x);
      assert s - {x} - {y} == s - {y} - {x};
    }
  }

  lemma SumSetInsert<T>(s: set<T>, f: T -> real, y: T)
    requires y !in s
    ensures SumSet(s + {y}, f) == SumSet(s, f) + f(y)
  {
    SumSetRemove(s + {y}, f, y);
    assert s + {y} - {y} == s;
  }

  /** Moving one element from the set still to do to the set already summed. */
  lemma SumSetStep<T>(s: set<T>, todo: set<T>, f: T -> real, y: T)
    requires y in todo && todo <= s
    ensures SumSet(s - (todo - {y}), f) == SumSet(s - todo, f) + f(y)
  {
    SumSetInsert(s - todo, f, y);
    assert s - (todo - {y}) == s - todo + {y};
  }

  lemma SumSetDone<T>(s: set<T>, todo: set<T>, f: T -> real)
    requires todo == {}
    ensures SumSet(s - todo, f) == SumSet(s, f)
  {
    assert s - todo == s;
  }

  lemma {:induction false} SumSetCongruent<T>(s: set<T>, f: T -> real, g: T -> real)
    requires forall x :: x in s ==> f(x) == g(x)
    ensures SumSet(s, f) == SumSet(s, g)
    decreases |s|
  {
    if s != {} {
      var x :| x in s;
      SumSetRemove(s, f, x);
      SumSetRemove(s, g, x);
      SumSetCongruent(s - {x}, f, g);
    }
  }

  lemma {:induction false} SumSetNonneg<T>(s: set<T>, f: T -> real)
    requires forall x :: x in s ==> f(x) >= 0.0
    ensures SumSet(s, f) >= 0.0
    ensures SumSet(s, f) == 0.0 <==> forall x :: x in s ==> f(x) == 0.0
    decreases |s|
  {
    if s != {} {
      var x :| x in s;
      SumSetRemove(s, f, x);
      SumSetNonneg(s - {x}, f);
    }
  }

  // ---- Smoothed proportions ---------------------------------------------------------

  function Is<T(==)>(cat: T): T -> bool { x => x == cat }

  function Categories<T(==)>(e: seq<T>, a: seq<T>): set<T> {
    (set x | x in e) + (set x | x in a)
  }

  /** Laplace smoothing: one pseudo-count for each category. */
  function Smooth(count: nat, size: nat, nCats: nat): (p: real)
    requires nCats > 0
    ensures p > 0.0
  {
    PositiveQuotient((count + 1) as real, (size + nCats) as real);
    (count + 1) as real / (size + nCats) as real
  }

  function Smoothed<T(==)>(list: seq<T>, nCats: nat, cat: T): real
    requires nCats > 0
  {
    Smooth(Count(list, Is(cat)), |list|, nCats)
  }

  ghost function SmoothedOf<T>(list: seq<T>, nCats: nat): T -> real
    requires nCats > 0
  {
    cat => Smoothed(list, nCats, cat)
  }

  ghost function PlusOne<T>(list: seq<T>): T -> real { cat => (Count(list, Is(cat)) + 1) as real }

  lemma {:induction false} CountsPlusOne<T>(list: seq<T>, cats: set<T>)
    requires forall x :: x in list ==> x in cats
    ensures SumSet(cats, PlusOne(list)) == (|list| + |cats|) as real
    decreases |list|
  {
    if |list| == 0 {
      SumOfOnes(cats);
    } else {
      var init, last := list[..|list| - 1], list[|list| - 1];
      CountsPlusOne(init, cats);
      SumSetRemove(cats, PlusOne(list), last);
      SumSetRemove(cats, PlusOne(init), last);
      SumSetCongruent(cats - {last}, PlusOne(list), PlusOne(init));
    }
  }

  lemma {:induction false} SumOfOnes<T>(cats: set<T>)
    ensures SumSet(cats, PlusOne<T>([])) == |cats| as real
    decreases |cats|
  {
    if cats != {} {
      var x :| x in cats;
      SumSetRemove(cats, PlusOne<T>([]), x);
      SumOfOnes(cats - {x});
    }
  }

  lemma {:induction false} SumSetScaled<T>(s: set<T>, f: T -> real, g: T -> real, d: real)
    requires forall x :: x in s ==> Times(d, f(x)) == g(x)
    ensures Times(d, SumSet(s, f)) == SumSet(s, g)
    decreases |s|
  {
    if s == {} {
      assert Times(d, 0.0) == 0.0;
    } else {
      var x :| x in s;
      SumSetRemove(s, f, x);
      SumSetRemove(s, g, x);
      SumSetScaled(s - {x}, f, g, d);
      TimesDistributes(d, f(x), SumSet(s - {x}, f));
    }
  }

  /** Every category gets one pseudo-count: its proportion of the enlarged sample is
      its count and one. */
  lemma SmoothedIs<T>(list: seq<T>, nCats: nat, cat: T)
    requires nCats > 0
    ensures Times((|list| + nCats) as real, Smoothed(list, nCats, cat)) == (Count(list, Is(cat)) + 1) as real
  {
    QuotientBack((Count(list, Is(cat)) + 1) as real, (|list| + nCats) as real);
  }

  lemma SameProportionIff(p: real, q: real, m: real, n: real, c: real, d: real)
    requires m > 0.0 && n > 0.0 && Times(m, p) == c && Times(n, q) == d
    ensures p == q <==> Times(c, n) == Times(d, m)
  {
    assert Times(c, n) == Times(m * n, p);
    assert Times(d, m) == Times(m * n, q);
    TimesDistributes(m * n, p - q, q);
    assert m * n > 0.0;
    if Times(m * n, p - q) == 0.0 { ZeroFactor(m * n, p - q); } else { assert Times(m * n, 0.0) == 0.0; }
  }

  /** The smoothed proportions of either window form a distribution. */
  lemma SmoothedSumToOne<T>(list: seq<T>, cats: set<T>)
    requires cats != {} && forall x :: x in list ==> x in cats
    ensures SumSet(cats, SmoothedOf(list, |cats|)) == 1.0
  {
    var d := (|list| + |cats|) as real;
    forall x | x in cats ensures Times(d, SmoothedOf(list, |cats|)(x)) == PlusOne(list)(x) {
      QuotientBack((Count(list, Is(x)) + 1) as real, d);
    }
    SumSetScaled(cats, SmoothedOf(list, |cats|), PlusOne(list), d);
    CountsPlusOne(list, cats);
    var t := SumSet(cats, SmoothedOf(list, |cats|));
    TimesDistributes(d, t - 1.0, 1.0);
    ZeroFactor(d, t - 1.0);
  }

  // ---- The index ---------------------------------------------------------------------

  ghost function CatTerm<T>(e: seq<T>, a: seq<T>, log: real -> real): T -> real
    requires Categories(e, a) != {}
  {
    cat => Term(Smoothed(e, |Categories(e, a)|, cat), Smoothed(a, |Categories(e, a)|, cat), log)
  }

  ghost function RawCategoricalPsi<T>(e: seq<T>, a: seq<T>, log: real -> real): real
    requires Categories(e, a) != {}
  {
    SumSet(Categories(e, a), CatTerm(e, a, log))
  }

  ghost function CategoricalPsi<T>(e: seq<T>, a: seq<T>, log: real -> real): real {
    if |e| == 0 || |a| == 0 || Categories(e, a) == {} then 0.0
    else if RawCategoricalPsi(e, a, log) > 0.0 then RawCategoricalPsi(e, a, log) else 0.0
  }

  lemma NonEmptyHasCategories<T>(e: seq<T>, a: seq<T>)
    requires |e| > 0
    ensures Categories(e, a) != {}
  {
    assert e[0] in Categories(e, a);
  }

  /** The clamp is a no-op, and the index is zero exactly when every category has
      the same smoothed proportion in both windows. */
  lemma CategoricalIsDivergence<T>(e: seq<T>, a: seq<T>, log: real -> real)
    requires LogLaw(log) && |e| > 0 && |a| > 0
    ensures Categories(e, a) != {}
    ensures CategoricalPsi(e, a, log) == RawCategoricalPsi(e, a, log)
    ensures CategoricalPsi(e, a, log) == 0.0 <==> forall cat :: cat in Categories(e, a) ==>
              SmoothedOf(e, |Categories(e, a)|)(cat) == SmoothedOf(a, |Categories(e, a)|)(cat)
  {
    NonEmptyHasCategories(e, a);
    var cats, f := Categories(e, a), CatTerm(e, a, log);
    forall cat | cat in cats
      ensures f(cat) >= 0.0 && (f(cat) == 0.0 <==> SmoothedOf(e, |cats|)(cat) == SmoothedOf(a, |cats|)(cat))
    {
      TermIsDivergence(Smoothed(e, |cats|, cat), Smoothed(a, |cats|, cat), log);
    }
    SumSetNonneg(cats, f);
  }

  /** The category's count and one is the same fraction of both enlarged samples. */
  predicate SameFraction<T(==)>(e: seq<T>, a: seq<T>, nCats: nat, cat: T) {
    Times((Count(e, Is(cat)) + 1) as real, (|a| + nCats) as real) ==
    Times((Count(a, Is(cat)) + 1) as real, (|e| + nCats) as real)
  }

  lemma SameFractionIff<T>(e: seq<T>, a: seq<T>, nCats: nat, cat: T)
    requires nCats > 0
    ensures Smoothed(e, nCats, cat) == Smoothed(a, nCats, cat) <==> SameFraction(e, a, nCats, cat)
  {
    SmoothedIs(e, nCats, cat);
    SmoothedIs(a, nCats, cat);
    SameProportionIff(Smoothed(e, nCats, cat), Smoothed(a, nCats, cat), (|e| + nCats) as real, (|a| + nCats) as real,
                      (Count(e, Is(cat)) + 1) as real, (Count(a, Is(cat)) + 1) as real);
  }

  /** In counts: the index is zero exactly when that holds of every category. */
  lemma ZeroIffCountsAgree<T>(e: seq<T>, a: seq<T>, log: real -> real)
    requires LogLaw(log) && |e| > 0 && |a| > 0
    ensures CategoricalPsi(e, a, log) == 0.0 <==>
      forall cat :: cat in Categories(e, a) ==> SameFraction(e, a, |Categories(e, a)|, cat)
  {
    CategoricalIsDivergence(e, a, log);
    forall cat | cat in Categories(e, a)
      ensures SmoothedOf(e, |Categories(e, a)|)(cat) == SmoothedOf(a, |Categories(e, a)|)(cat) <==>
        SameFraction(e, a, |Categories(e, a)|, cat)
    {
      SameFractionIff(e, a, |Categories(e, a)|, cat);
    }
  }

  lemma CategoricalSymmetric<T>(e: seq<T>, a: seq<T>, log: real -> real)
    requires LogLaw(log)
    ensures CategoricalPsi(e, a, log) == CategoricalPsi(a, e, log)
  {
    if |e| > 0 && |a| > 0 {
      NonEmptyHasCategories(e, a);
      var cats := Categories(e, a);
      assert Categories(a, e) == cats;
      forall cat | cat in cats ensures CatTerm(e, a, log)(cat) == CatTerm(a, e, log)(cat) {
        TermIsDivergence(Smoothed(e, |cats|, cat), Smoothed(a, |cats|, cat), log);
      }
      SumSetCongruent(cats, CatTerm(e, a, log), CatTerm(a, e, log));
    }
  }

  lemma SameMembers<T>(s: seq<T>, t: seq<T>)
    requires multiset(s) == multiset(t)
    ensures |s| == |t| && (set x | x in s) == (set x | x in t)
  {
    assert |s| == |multiset(s)| == |t|;
    forall x ensures x in s <==> x in t {
      assert x in s <==> x in multiset(s);
      assert x in t <==> x in multiset(t);
    }
  }

  lemma SmoothedIgnoresOrder<T>(s: seq<T>, t: seq<T>, nCats: nat, cat: T)
    requires multiset(s) == multiset(t) && nCats > 0
    ensures Smoothed(s, nCats, cat) == Smoothed(t, nCats, cat)
  {
    SameMembers(s, t);
    CountPermuted(s, t, Is(cat));
  }

  lemma CategoricalIgnoresOrder<T>(e: seq<T>, a: seq<T>, e': seq<T>, a': seq<T>, log: real -> real)
    requires multiset(e) == multiset(e') && multiset(a) == multiset(a')
    ensures CategoricalPsi(e, a, log) == CategoricalPsi(e', a', log)
  {
    SameMembers(e, e');
    SameMembers(a, a');
    if |e| > 0 && |a| > 0 {
      NonEmptyHasCategories(e, a);
      var cats := Categories(e, a);
      assert Categories(e', a') == cats;
      forall cat | cat in cats ensures CatTerm(e, a, log)(cat) == CatTerm(e', a', log)(cat) {
        SmoothedIgnoresOrder(e, e', |cats|, cat);
        SmoothedIgnoresOrder(a, a', |cats|, cat);
      }
      SumSetCongruent(cats, CatTerm(e, a, log), CatTerm(e', a', log));
    }
  }

  // ---- The loops ------------------------------------------------------------------------

  /** The raw frequency of every category, counted into a dictionary. */
  method Frequencies<T(==)>(list: seq<T>, cats: set<T>) returns (counts: map<T, nat>)
    requires forall x :: x in list ==> x in cats
    ensures counts.Keys == cats && forall cat :: cat in cats ==> counts[cat] == Count(list, Is(cat))
  {
    counts := map cat | cat in cats :: 0;
    for k := 0 to |list|
      invariant counts.Keys == cats
      invariant forall cat :: cat in cats ==> counts[cat] == Count(list[..k], Is(cat))
    {
      var v := list[k];
      assert v in list && list[..k + 1][..k] == list[..k];
      counts := counts[v := counts[v] + 1];
    }
    assert list[..|list|] == list;
  }

  method ComputeCategoricalPsi<T(==)>(expected: seq<T>, actual: seq<T>, log: real -> real) returns (psi: real)
    ensures psi == CategoricalPsi(expected, actual, log)
  {
    if |expected| == 0 || |actual| == 0 {
      return 0.0;
    }
    var cats := Categories(expected, actual);
    if cats == {} {
      return 0.0;
    }
    var exp := Frequencies(expected, cats);
    var act := Frequencies(actual, cats);
    var term := CountedTerm(exp, act, |expected|, |actual|, |cats|, log);
    CountedTerms(expected, actual, exp, act, log);
    psi := SumOver(cats, term);
    psi := if psi > 0.0 then psi else 0.0;
  }

  /** One category's contribution, from the two dictionaries of raw counts. */
  function CountedTerm<T(==)>(exp: map<T, nat>, act: map<T, nat>, nExp: nat, nAct: nat, nCats: nat,
      log: real -> real): T -> real
    requires nCats > 0
  {
    cat =>
      if cat in exp && cat in act then Term(Smooth(exp[cat], nExp, nCats), Smooth(act[cat], nAct, nCats), log)
      else 0.0
  }

  lemma CountedTerms<T>(expected: seq<T>, actual: seq<T>, exp: map<T, nat>, act: map<T, nat>, log: real -> real)
    requires Categories(expected, actual) != {}
    requires exp.Keys == act.Keys == Categories(expected, actual)
    requires forall cat :: cat in exp ==> exp[cat] == Count(expected, Is(cat))
    requires forall cat :: cat in act ==> act[cat] == Count(actual, Is(cat))
    ensures var cats := Categories(expected, actual);
      SumSet(cats, CountedTerm(exp, act, |expected|, |actual|, |cats|, log)) == RawCategoricalPsi(expected, actual, log)
  {
    var cats := Categories(expected, actual);
    SumSetCongruent(cats, CountedTerm(exp, act, |expected|, |actual|, |cats|, log), CatTerm(expected, actual, log));
  }

  /** The accumulation over the categories, in arbitrary order. */
  method SumOver<T(==)>(cats: set<T>, f: T -> real) returns (psi: real)
    ensures psi == SumSet(cats, f)
  {
    psi := 0.0;
    var todo := cats;
    assert cats - todo == {};
    while todo != {}
      invariant todo <= cats
      invariant psi == SumSet(cats - todo, f)
      decreases |todo|
    {
      var cat :| cat in todo;
      SumSetStep(cats, todo, f, cat);
      psi := psi + f(cat);
      todo := todo - {cat};
    }
    SumSetDone(cats, todo, f);
  }
}
