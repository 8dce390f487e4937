/** The deepest fall of an equity curve. */
module Drawdowns {
  const PEAK_FLOOR: real := 0.000000001

  function Higher(x: real, y: real): real { if y > x then y else x }

  function Quotient(x: real, d: real): real
    requires d > 0.0
  {
    x / d
  }

  /** The fall from a peak to e, relative to the peak. */
  function Drop(peak: real, e: real): real {
    Quotient(peak - e, Higher(peak, PEAK_FLOOR))
  }

  lemma QuotientAtLeast(x: real, d: real, limit: real)
    requires d > 0.0
    ensures Quotient(x, d) >= limit <==> x >= limit * d
  {
    var q := Quotient(x, d);
    assert q * d == x;
    if q >= limit { assert (q - limit) * d >= 0.0; } else { assert (limit - q) * d > 0.0; }
  }

  /** A fall from a positive peak reaches a limit exactly when the equity is down to
      that share of the peak. */
  lemma DropReachesIff(peak: real, e: real, limit: real)
    requires peak >= PEAK_FLOOR
    ensures Drop(peak, e) >= limit <==> e <= peak - limit * peak
  {
    QuotientAtLeast(peak - e, peak, limit);
  }

  function PeakOf(curve: seq<real>): real
    requires |curve| > 0
  {
    if |curve| == 1 then curve[0] else Higher(PeakOf(curve[..|curve| - 1]), curve[|curve| - 1])
  }

  /** Drop as a value, so that what follows can use its laws alone. */
  function Fall(): (real, real) -> real {
    (peak: real, e: real) => Drop(peak, e)
  }

  function DeepestBelowPeak(curve: seq<real>, fall: (real, real) -> real): real
    requires |curve| > 0
  {
    var now := fall(PeakOf(curve), curve[|curve| - 1]);
    if |curve| == 1 then Higher(0.0, now) else Higher(DeepestBelowPeak(curve[..|curve| - 1], fall), now)
  }

  function Drawdown(curve: seq<real>): real
    requires |curve| > 0
  {
    DeepestBelowPeak(curve, Fall())
  }

  method MaxDrawdown(curve: seq<real>) returns (dd: real)
    requires |curve| > 0
    ensures dd == Drawdown(curve)
  {
    var peak := curve[0];
    dd := 0.0;
    for i := 0 to |curve|
      invariant i == 0 ==> peak == curve[0] && dd == 0.0
      invariant i > 0 ==> peak == PeakOf(curve[..i]) && dd == Drawdown(curve[..i])
    {
      assert i > 0 ==> curve[..i + 1][..i] == curve[..i];
      peak := Higher(peak, curve[i]);
      dd := Higher(dd, Fall()(peak, curve[i]));
    }
    assert curve[..|curve|] == curve;
  }

  lemma {:induction false} PeakIsMax(curve: seq<real>)
    requires |curve| > 0
    ensures forall i :: 0 <= i < |curve| ==> curve[i] <= PeakOf(curve)
    ensures exists i :: 0 <= i < |curve| && curve[i] == PeakOf(curve)
  {
    if |curve| == 1 {
      assert curve[0] == PeakOf(curve);
    } else {
      var init := curve[..|curve| - 1];
      PeakIsMax(init);
      var i :| 0 <= i < |init| && init[i] == PeakOf(init);
      assert curve[i] == init[i];
    }
  }

  /** A higher peak means a deeper fall, as long as the equity is not negative. */
  lemma DropGrows(x: real, y: real, e: real)
    requires x <= y && e >= 0.0
    ensures Drop(x, e) <= Drop(y, e)
  {
    if y <= PEAK_FLOOR {
      SameDivisor(x - e, y - e, PEAK_FLOOR);
    } else if x <= PEAK_FLOOR {
      SameDivisor(x - e, PEAK_FLOOR - e, PEAK_FLOOR);
      ShareOfPeak(PEAK_FLOOR, y, e);
    } else {
      ShareOfPeak(x, y, e);
    }
  }

  lemma SameDivisor(a: real, b: real, d: real)
    requires a <= b && d > 0.0
    ensures Quotient(a, d) <= Quotient(b, d)
  {}

  lemma ShareOfPeak(x: real, y: real, e: real)
    requires 0.0 < x <= y && e >= 0.0
    ensures Quotient(x - e, x) <= Quotient(y - e, y)
  {
    var q, r := Quotient(x - e, x), Quotient(y - e, y);
    assert q * x == x - e && r * y == y - e;
    assert (1.0 - q) * x == e && (1.0 - r) * y == e;
    ShrinkingShare(1.0 - q, 1.0 - r, x, y, e);
  }

  lemma ShrinkingShare(u: real, v: real, x: real, y: real, e: real)
    requires 0.0 < x <= y && e >= 0.0 && u * x == e && v * y == e
    ensures v <= u
  {
    assert u >= 0.0 by { if u < 0.0 { NegativeTimes(u, x); } }
    if u < v { TimesMonotone(u, v, x, y); }
  }

  lemma NegativeTimes(u: real, x: real)
    requires u < 0.0 && x > 0.0
    ensures u * x < 0.0
  {}

  lemma TimesMonotone(u: real, v: real, x: real, y: real)
    requires 0.0 <= u < v && 0.0 < x <= y
    ensures u * x < v * y
  {
    assert (v - u) * y > 0.0;
    assert u * (y - x) >= 0.0;
    assert v * y == (v - u) * y + u * (y - x) + u * x;
  }

  ghost predicate FallLaws(fall: (real, real) -> real) {
    && (forall x, y, e {:trigger fall(x, e), fall(y, e)} :: x <= y && e >= 0.0 ==> fall(x, e) <= fall(y, e))
    && (forall x {:trigger fall(x, x)} :: fall(x, x) == 0.0)
  }

  lemma FallHasLaws()
    ensures FallLaws(Fall())
  {
    forall x, y, e | x <= y && e >= 0.0 ensures Fall()(x, e) <= Fall()(y, e) { DropGrows(x, y, e); }
  }

  lemma {:induction false} NoDeeperFall(curve: seq<real>, fall: (real, real) -> real, i: nat, j: nat)
    requires i <= j < |curve| && FallLaws(fall) && forall k :: 0 <= k < |curve| ==> curve[k] >= 0.0
    ensures fall(curve[i], curve[j]) <= DeepestBelowPeak(curve, fall)
    decreases |curve|
  {
    var last := |curve| - 1;
    if j < last {
      NoDeeperFall(curve[..last], fall, i, j);
    } else {
      PeakIsMax(curve);
      assert fall(curve[i], curve[j]) <= fall(PeakOf(curve), curve[j]);
    }
  }

  lemma {:induction false} FallIsReached(curve: seq<real>, fall: (real, real) -> real)
    requires |curve| > 0 && FallLaws(fall)
    ensures DeepestBelowPeak(curve, fall) >= 0.0
    ensures exists i, j :: 0 <= i <= j < |curve| && fall(curve[i], curve[j]) == DeepestBelowPeak(curve, fall)
  {
    PeakIsMax(curve);
    var last := |curve| - 1;
    var top :| 0 <= top < |curve| && curve[top] == PeakOf(curve);
    if last == 0 {
      assert fall(curve[0], curve[0]) == DeepestBelowPeak(curve, fall);
    } else {
      var init := curve[..last];
      FallIsReached(init, fall);
      var i, j :| 0 <= i <= j < |init| && fall(init[i], init[j]) == DeepestBelowPeak(init, fall);
      if DeepestBelowPeak(curve, fall) == DeepestBelowPeak(init, fall) {
        assert fall(curve[i], curve[j]) == DeepestBelowPeak(curve, fall);
      } else {
        assert fall(curve[top], curve[last]) == DeepestBelowPeak(curve, fall);
      }
    }
  }

  /** For curves that never go negative, exactly the deepest fall from any point to
      any later one. */
  lemma DrawdownIsDeepestFall(curve: seq<real>)
    requires |curve| > 0 && forall i :: 0 <= i < |curve| ==> curve[i] >= 0.0
    ensures forall i, j :: 0 <= i <= j < |curve| ==> Fall()(curve[i], curve[j]) <= Drawdown(curve)
    ensures exists i, j :: 0 <= i <= j < |curve| && Fall()(curve[i], curve[j]) == Drawdown(curve)
  {
    FallHasLaws();
    FallIsReached(curve, Fall());
    forall i, j | 0 <= i <= j < |curve| ensures Fall()(curve[i], curve[j]) <= Drawdown(curve) {
      NoDeeperFall(curve, Fall(), i, j);
    }
  }

  predicate AllAtLeast(curve: seq<real>, lo: real) { forall i :: 0 <= i < |curve| ==> curve[i] >= lo }

  ghost predicate NoFallIsDeeper(curve: seq<real>)
    requires |curve| > 0
  {
    forall i, j :: 0 <= i <= j < |curve| ==> Fall()(curve[i], curve[j]) <= Drawdown(curve)
  }

  /** On a curve that turns negative the running peak hides a deeper fall: from 1 to
      lo is worse, relative to where it starts, than from 2 to lo. */
  lemma NegativeEquityHidesAFall(lo: real)
    requires lo < 0.0
    ensures Drawdown([1.0, 2.0, lo]) == 1.0 - 0.5 * lo && Drop(1.0, lo) == 1.0 - lo
    ensures !NoFallIsDeeper([1.0, 2.0, lo])
  {
    var c := [1.0, 2.0, lo];
    assert c[..2] == [1.0, 2.0] && c[..2][..1] == [1.0];
    assert PeakOf([1.0]) == 1.0;
    assert PeakOf([1.0, 2.0]) == 2.0;
    assert Drawdown([1.0]) == 0.0;
    assert Drawdown([1.0, 2.0]) == 0.0;
    assert Drop(2.0, lo) == 1.0 - 0.5 * lo;
    assert Drop(1.0, lo) == 1.0 - lo;
    assert Fall()(c[0], c[2]) > Drawdown(c);
  }

  /** A floor under the equity guarantees that no fall is deeper than the drawdown, for
      all curves above it, exactly when it is not negative. */
  lemma FloorSufficesIff(lo: real)
    ensures lo >= 0.0 <==> forall curve: seq<real> :: |curve| > 0 && AllAtLeast(curve, lo) ==> NoFallIsDeeper(curve)
  {
    if lo >= 0.0 {
      forall curve: seq<real> | |curve| > 0 && AllAtLeast(curve, lo) ensures NoFallIsDeeper(curve) {
        DrawdownIsDeepestFall(curve);
      }
    } else {
      NegativeEquityHidesAFall(lo);
      assert AllAtLeast([1.0, 2.0, lo], lo);
    }
  }
}
