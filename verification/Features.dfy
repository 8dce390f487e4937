/** The six features of a tick history, and why a bounded tail of it is enough. */
module Features {
  import opened Sums

  datatype Tick = Tick(price: real, volume: real, imbalance: real)

  /** log and sqrt as the host provides them; log is called on positive numbers only. */
  datatype Maths = Maths(log: real -> real, sqrt: real -> real)

  /** A vector, too little history, or a domain error: the logarithm of a price that
      is not positive after one that was. */
  datatype Outcome = Vector(values: seq<real>) | NotReady | Raises

  const DECAY: real := 0.9
  const STEP := 4

  function SumOf(s: seq<real>): real {
    if |s| == 0 then 0.0 else SumOf(s[..|s| - 1]) + s[|s| - 1]
  }

  function MeanOf(s: seq<real>): real
    requires |s| > 0
  {
    SumOf(s) / |s| as real
  }

  function SquaredDeviations(s: seq<real>, mean: real): real {
    if |s| == 0 then 0.0
    else SquaredDeviations(s[..|s| - 1], mean) + (s[|s| - 1] - mean) * (s[|s| - 1] - mean)
  }

  /** Sample standard deviation, dividing by at least one. */
  function Deviation(s: seq<real>, sqrt: real -> real): real
    requires |s| > 0
  {
    sqrt(SquaredDeviations(s, MeanOf(s)) / (if |s| > 1 then |s| - 1 else 1) as real)
  }

  predicate BadReturn(t: seq<Tick>, i: int)
    requires 1 <= i < |t|
  {
    t[i - 1].price > 0.0 && t[i].price <= 0.0
  }

  function Growth(x: real, y: real): real
    requires x != 0.0
  {
    y / x
  }

  /** The log return from one price to the next. */
  function LogReturn(log: real -> real): (real, real) -> real {
    (x: real, y: real) => if x == 0.0 then 0.0 else log(Growth(x, y))
  }

  /** Returns into ticks from.., skipping those after a price that is not positive. */
  function Returns(t: seq<Tick>, from: nat, ret: (real, real) -> real): seq<real>
    requires 1 <= from
    decreases |t| - from
  {
    if from >= |t| then []
    else if t[from - 1].price > 0.0 then [ret(t[from - 1].price, t[from].price)] + Returns(t, from + 1, ret)
    else Returns(t, from + 1, ret)
  }

  function Volumes(t: seq<Tick>): (v: seq<real>)
    ensures |v| == |t|
  {
    seq(|t|, i requires 0 <= i < |t| => t[i].volume)
  }

  /** The running average of the imbalances, started at zero. */
  function Ema(t: seq<Tick>): real {
    if |t| == 0 then 0.0
    else DECAY * Ema(t[..|t| - 1]) + (1.0 - DECAY) * t[|t| - 1].imbalance
  }

  /** The deviations of consecutive groups of four returns, leaving out what a final
      group would need. */
  function SubVols(r: seq<real>, start: nat, sqrt: real -> real): seq<real>
    decreases |r| - start
  {
    if start + STEP >= |r| then [] else [Deviation(r[start..start + STEP], sqrt)] + SubVols(r, start + STEP, sqrt)
  }

  function VolOfVol(r: seq<real>, sqrt: real -> real): real {
    var subs := SubVols(r, 0, sqrt);
    if |subs| > 1 then Deviation(subs, sqrt) else 0.0
  }

  function VolumeScore(recent: seq<real>, sqrt: real -> real): real
    requires |recent| > 0
  {
    var scale := Deviation(recent, sqrt) + 0.000000001;
    if scale == 0.0 then 0.0 else (recent[|recent| - 1] - MeanOf(recent)) / scale
  }

  /** Short and medium momentum, volatility, volume score, imbalance, volatility of volatility. */
  function Entries(r: seq<real>, recent: seq<Tick>, sqrt: real -> real): seq<real>
    requires |r| >= 5 && |recent| > 0
  {
    [SumOf(r[|r| - 5..]), SumOf(r), Deviation(r, sqrt), VolumeScore(Volumes(recent), sqrt), Ema(recent),
      VolOfVol(r, sqrt)]
  }

  predicate AnyBad(t: seq<Tick>, from: nat)
    requires 1 <= from
  {
    exists i :: from <= i < |t| && BadReturn(t, i)
  }

  /** What the features are computed from. */
  datatype Window = Enough(logReturns: seq<real>, recent: seq<Tick>) | TooLittle | DomainError

  function WindowFrom(t: seq<Tick>, from: nat, ret: (real, real) -> real): Window
    requires 1 <= from <= |t|
  {
    if AnyBad(t, from) then DomainError
    else
      var r := Returns(t, from, ret);
      if |r| < 5 then TooLittle else Enough(r, t[from..])
  }

  function WindowOf(t: seq<Tick>, lookBack: nat, ret: (real, real) -> real): Window {
    if |t| < lookBack + 1 then TooLittle else WindowFrom(t, |t| - lookBack, ret)
  }

  lemma WindowSizes(t: seq<Tick>, lookBack: nat, ret: (real, real) -> real)
    ensures var w := WindowOf(t, lookBack, ret); w.Enough? ==> |w.logReturns| >= 5 && |w.recent| == lookBack > 0
  {}

  function Evaluated(w: Window, sqrt: real -> real): Outcome
    requires w.Enough? ==> |w.logReturns| >= 5 && |w.recent| > 0
  {
    match w
    case Enough(r, recent) => Vector(Entries(r, recent, sqrt))
    case TooLittle => NotReady
    case DomainError => Raises
  }

  function Build(t: seq<Tick>, lookBack: nat, m: Maths): Outcome {
    WindowSizes(t, lookBack, LogReturn(m.log));
    Evaluated(WindowOf(t, lookBack, LogReturn(m.log)), m.sqrt)
  }

  // ---- When there are features ---------------------------------------------------------------

  /** The ticks from.. whose predecessor's price is positive. */
  function Usable(t: seq<Tick>, from: nat): nat
    requires 1 <= from
    decreases |t| - from
  {
    if from >= |t| then 0 else Usable(t, from + 1) + (if t[from - 1].price > 0.0 then 1 else 0)
  }

  lemma {:induction false} ReturnsAreUsable(t: seq<Tick>, from: nat, ret: (real, real) -> real)
    requires 1 <= from
    ensures |Returns(t, from, ret)| == Usable(t, from)
    decreases |t| - from
  {
    if from < |t| { ReturnsAreUsable(t, from + 1, ret); }
  }

  /** A price that is not positive right after one that was raises; otherwise there are
      features from lookBack + 1 ticks on, if at least five of the last lookBack follow
      a positive price. */
  lemma OutcomeIs(t: seq<Tick>, lookBack: nat, m: Maths)
    ensures Build(t, lookBack, m).Raises? <==>
      |t| > lookBack && exists i :: |t| - lookBack <= i < |t| && t[i - 1].price > 0.0 && t[i].price <= 0.0
    ensures Build(t, lookBack, m).Vector? <==>
      |t| > lookBack && Usable(t, |t| - lookBack) >= 5 &&
      forall i :: |t| - lookBack <= i < |t| && t[i - 1].price > 0.0 ==> t[i].price > 0.0
  {
    if |t| > lookBack {
      ReturnsAreUsable(t, |t| - lookBack, LogReturn(m.log));
      RaisesIff(t, |t| - lookBack);
    }
  }

  lemma RaisesIff(t: seq<Tick>, from: nat)
    requires 1 <= from
    ensures AnyBad(t, from) <==> exists i :: from <= i < |t| && t[i - 1].price > 0.0 && t[i].price <= 0.0
  {
    if i :| from <= i < |t| && t[i - 1].price > 0.0 && t[i].price <= 0.0 { assert BadReturn(t, i); }
  }

  // ---- Locality ----------------------------------------------------------------------------

  lemma {:induction false} ReturnsOfSuffix(t: seq<Tick>, cut: nat, from: nat, ret: (real, real) -> real)
    requires cut < from
    ensures cut <= |t| ==> Returns(t, from, ret) == Returns(t[cut..], from - cut, ret)
    decreases |t| - from
  {
    if from < |t| { ReturnsOfSuffix(t, cut, from + 1, ret); }
  }

  lemma BadOfSuffix(t: seq<Tick>, cut: nat, from: nat)
    requires cut < from && cut <= |t|
    ensures AnyBad(t, from) <==> AnyBad(t[cut..], from - cut)
  {
    var u := t[cut..];
    if AnyBad(t, from) {
      var i :| from <= i < |t| && BadReturn(t, i);
      assert BadReturn(u, i - cut);
    }
    if AnyBad(u, from - cut) {
      var i :| from - cut <= i < |u| && BadReturn(u, i);
      assert BadReturn(t, i + cut);
    }
  }

  lemma TailHasWindow(t: seq<Tick>, cut: nat, from: nat, ret: (real, real) -> real)
    requires cut < from <= |t|
    ensures WindowFrom(t[cut..], from - cut, ret) == WindowFrom(t, from, ret)
  {
    BadOfSuffix(t, cut, from);
    ReturnsOfSuffix(t, cut, from, ret);
    assert t[cut..][from - cut..] == t[from..];
  }

  lemma TailWindow(t: seq<Tick>, cut: nat, lookBack: nat, ret: (real, real) -> real)
    requires cut + lookBack + 1 <= |t|
    ensures WindowOf(t[cut..], lookBack, ret) == WindowOf(t, lookBack, ret)
  {
    TailHasWindow(t, cut, |t| - lookBack, ret);
  }

  /** Any tail of at least lookBack + 1 ticks gives the features of the whole history. */
  lemma TailSuffices(t: seq<Tick>, cut: nat, lookBack: nat, m: Maths)
    requires cut + lookBack + 1 <= |t|
    ensures Build(t[cut..], lookBack, m) == Build(t, lookBack, m)
  {
    TailWindow(t, cut, lookBack, LogReturn(m.log));
  }

  // ---- Features do not stop once they have begun -------------------------------------------------

  lemma {:induction false} ReturnsOfSnoc(t: seq<Tick>, x: Tick, from: nat, ret: (real, real) -> real)
    requires 1 <= from <= |t|
    ensures Returns(t + [x], from, ret) ==
      if t[|t| - 1].price > 0.0 then Returns(t, from, ret) + [ret(t[|t| - 1].price, x.price)] else Returns(t, from, ret)
    decreases |t| - from
  {
    if from == |t| {
      assert Returns(t + [x], from + 1, ret) == [];
    } else {
      ReturnsOfSnoc(t, x, from + 1, ret);
    }
  }

  /** One positive price in a window without a domain error makes all later ones positive. */
  lemma {:induction false} LastPricePositive(t: seq<Tick>, from: nat, ret: (real, real) -> real)
    requires 1 <= from && !AnyBad(t, from) && |Returns(t, from, ret)| > 0
    ensures |t| > 0 && t[|t| - 1].price > 0.0
    decreases |t| - from
  {
    if t[from - 1].price > 0.0 {
      PositiveFrom(t, from - 1);
    } else {
      LastPricePositive(t, from + 1, ret);
    }
  }

  lemma {:induction false} PositiveFrom(t: seq<Tick>, i: nat)
    requires i < |t| && t[i].price > 0.0 && !AnyBad(t, i + 1)
    ensures t[|t| - 1].price > 0.0
    decreases |t| - i
  {
    if i + 1 < |t| {
      assert !BadReturn(t, i + 1);
      PositiveFrom(t, i + 1);
    }
  }

  lemma NextWindow(t: seq<Tick>, x: Tick, lookBack: nat, ret: (real, real) -> real)
    requires WindowOf(t, lookBack, ret).Enough?
    ensures !WindowOf(t + [x], lookBack, ret).TooLittle?
  {
    var from := |t| - lookBack;
    LastPricePositive(t, from, ret);
    ReturnsOfSnoc(t, x, from + 1, ret);
    assert |Returns(t, from, ret)| <= 1 + |Returns(t, from + 1, ret)|;
  }

  /** After a vector, the next tick gives a vector or a domain error, never too little. */
  lemma NextIsReady(t: seq<Tick>, x: Tick, lookBack: nat, m: Maths)
    requires Build(t, lookBack, m).Vector?
    ensures !Build(t + [x], lookBack, m).NotReady?
  {
    NextWindow(t, x, lookBack, LogReturn(m.log));
  }

  ghost predicate NoErrors(t: seq<Tick>, i: nat, j: nat, lookBack: nat, ret: (real, real) -> real)
    requires j <= |t|
  {
    forall k :: i <= k <= j ==> !WindowOf(t[..k], lookBack, ret).DomainError?
  }

  lemma PrefixSnoc<T>(t: seq<T>, j: nat)
    requires 1 <= j <= |t|
    ensures t[..j] == t[..j - 1] + [t[j - 1]]
  {}

  lemma {:induction false} WindowForEver(t: seq<Tick>, i: nat, j: nat, lookBack: nat, ret: (real, real) -> real)
    requires i <= j <= |t| && WindowOf(t[..i], lookBack, ret).Enough? && NoErrors(t, i, j, lookBack, ret)
    ensures WindowOf(t[..j], lookBack, ret).Enough?
    decreases j
  {
    if i < j {
      WindowForEver(t, i, j - 1, lookBack, ret);
      PrefixSnoc(t, j);
      NextWindow(t[..j - 1], t[j - 1], lookBack, ret);
    }
  }

  /** So over a stream without domain errors the ticks with features are contiguous. */
  lemma ReadyForEver(t: seq<Tick>, i: nat, j: nat, lookBack: nat, m: Maths)
    requires i <= j <= |t| && Build(t[..i], lookBack, m).Vector? && NoErrors(t, i, j, lookBack, LogReturn(m.log))
    ensures Build(t[..j], lookBack, m).Vector?
  {
    WindowForEver(t, i, j, lookBack, LogReturn(m.log));
  }

  predicate AllPositive(t: seq<Tick>) { forall i :: 0 <= i < |t| ==> t[i].price > 0.0 }

  lemma {:induction false} PositiveReturns(t: seq<Tick>, from: nat, ret: (real, real) -> real)
    requires 1 <= from && AllPositive(t)
    ensures |Returns(t, from, ret)| == if from <= |t| then |t| - from else 0
    decreases |t| - from
  {
    if from < |t| { PositiveReturns(t, from + 1, ret); }
  }

  /** With positive prices there are features exactly from tick lookBack + 1 on. */
  lemma PositiveIsReady(t: seq<Tick>, lookBack: nat, m: Maths)
    requires AllPositive(t) && lookBack >= 5
    ensures Build(t, lookBack, m).Vector? <==> |t| >= lookBack + 1
    ensures !Build(t, lookBack, m).Raises?
  {
    if |t| >= lookBack + 1 { PositiveReturns(t, |t| - lookBack, LogReturn(m.log)); }
  }

  // ---- The price unit does not matter ---------------------------------------------------------

  function Rescaled(c: real, x: real): real { c * x }

  function Requoted(x: Tick, c: real): Tick { Tick(Rescaled(c, x.price), x.volume, x.imbalance) }

  function Repriced(t: seq<Tick>, c: real): (u: seq<Tick>)
    ensures |u| == |t| && forall i :: 0 <= i < |t| ==> u[i] == Requoted(t[i], c)
  {
    seq(|t|, i requires 0 <= i < |t| => Requoted(t[i], c))
  }

  lemma SameRatio(c: real, x: real, y: real)
    requires c > 0.0 && y > 0.0
    ensures Rescaled(c, y) > 0.0 && Growth(Rescaled(c, y), Rescaled(c, x)) == Growth(y, x)
  {
    var q := Growth(y, x);
    assert q * y == x;
    assert q * (c * y) == c * x;
  }

  lemma ScaledSign(c: real, x: real)
    requires c > 0.0
    ensures Rescaled(c, x) > 0.0 <==> x > 0.0
  {}

  lemma {:induction false} ReturnsOfRepriced(t: seq<Tick>, c: real, from: nat, log: real -> real)
    requires c > 0.0 && 1 <= from
    ensures Returns(Repriced(t, c), from, LogReturn(log)) == Returns(t, from, LogReturn(log))
    decreases |t| - from
  {
    if from < |t| {
      ReturnsOfRepriced(t, c, from + 1, log);
      ScaledSign(c, t[from - 1].price);
      if t[from - 1].price > 0.0 { SameRatio(c, t[from].price, t[from - 1].price); }
    }
  }

  lemma EmaOfRepriced(t: seq<Tick>, c: real)
    ensures Ema(Repriced(t, c)) == Ema(t)
  {
    if |t| > 0 {
      EmaOfRepriced(t[..|t| - 1], c);
      assert Repriced(t, c)[..|t| - 1] == Repriced(t[..|t| - 1], c);
    }
  }

  lemma WindowOfRepriced(t: seq<Tick>, c: real, lookBack: nat, log: real -> real)
    requires c > 0.0
    ensures var w, w' := WindowOf(t, lookBack, LogReturn(log)), WindowOf(Repriced(t, c), lookBack, LogReturn(log));
      w' == match w case Enough(r, recent) => Enough(r, Repriced(recent, c)) case _ => w
  {
    if |t| >= lookBack + 1 {
      var u, from := Repriced(t, c), |t| - lookBack;
      forall i | from <= i < |t| ensures BadReturn(u, i) <==> BadReturn(t, i) {
        ScaledSign(c, t[i - 1].price);
        ScaledSign(c, t[i].price);
      }
      ReturnsOfRepriced(t, c, from, log);
      assert u[from..] == Repriced(t[from..], c);
    }
  }

  lemma EntriesOfRepriced(r: seq<real>, recent: seq<Tick>, c: real, sqrt: real -> real)
    requires |r| >= 5 && |recent| > 0
    ensures Entries(r, Repriced(recent, c), sqrt) == Entries(r, recent, sqrt)
  {
    assert Volumes(Repriced(recent, c)) == Volumes(recent);
    EmaOfRepriced(recent, c);
  }

  /** Quoting every price in another unit changes no feature. */
  lemma FeaturesIgnorePriceUnit(t: seq<Tick>, c: real, lookBack: nat, m: Maths)
    requires c > 0.0
    ensures Build(Repriced(t, c), lookBack, m) == Build(t, lookBack, m)
  {
    WindowOfRepriced(t, c, lookBack, m.log);
    var w := WindowOf(t, lookBack, LogReturn(m.log));
    WindowSizes(t, lookBack, LogReturn(m.log));
    if w.Enough? { EntriesOfRepriced(w.logReturns, w.recent, c, m.sqrt); }
  }

  // ---- What the entries mean ----------------------------------------------------------------

  /** Returns add up along a path of positive prices. */
  ghost predicate Telescopes(ret: (real, real) -> real) {
    && (forall p {:trigger ret(p, p)} :: p > 0.0 ==> ret(p, p) == 0.0)
    && (forall p, q, r {:trigger ret(p, q), ret(q, r)} :: p > 0.0 && q > 0.0 && r > 0.0 ==>
      ret(p, q) + ret(q, r) == ret(p, r))
  }

  lemma RatioChain(a: real, b: real, c: real)
    requires a > 0.0 && b > 0.0 && c > 0.0
    ensures Growth(a, b) > 0.0 && Growth(b, c) > 0.0 && Times(Growth(a, b), Growth(b, c)) == Growth(a, c)
  {
    var q, r := Growth(a, b), Growth(b, c);
    assert q * a == b && r * b == c;
    assert (q * r) * a == c;
  }

  lemma LogChain(log: real -> real, p: real, q: real, r: real)
    requires LogProductLaw(log) && p > 0.0 && q > 0.0 && r > 0.0
    ensures log(Growth(p, q)) + log(Growth(q, r)) == log(Growth(p, r))
  {
    RatioChain(p, q, r);
    LogOfProduct(log, Growth(p, q), Growth(q, r), Growth(p, r));
  }

  lemma LogOfProduct(log: real -> real, x: real, y: real, z: real)
    requires LogProductLaw(log) && x > 0.0 && y > 0.0 && Times(x, y) == z
    ensures log(x) + log(y) == log(z)
  {
    assert log(Times(x, y)) == log(x) + log(y);
  }

  lemma RetChain(log: real -> real, p: real, q: real, r: real)
    requires LogProductLaw(log) && p > 0.0 && q > 0.0 && r > 0.0
    ensures LogReturn(log)(p, q) + LogReturn(log)(q, r) == LogReturn(log)(p, r)
  {
    LogChain(log, p, q, r);
  }

  lemma LogReturnsTelescope(log: real -> real)
    requires LogProductLaw(log)
    ensures Telescopes(LogReturn(log))
  {
    var ret := LogReturn(log);
    forall p, q, r | p > 0.0 && q > 0.0 && r > 0.0
      ensures ret(p, q) + ret(q, r) == ret(p, r)
    {
      RetChain(log, p, q, r);
    }
    forall p | p > 0.0 ensures ret(p, p) == 0.0 { RetChain(log, p, p, p); }
  }

  lemma {:induction false} ReturnsTelescope(t: seq<Tick>, from: nat, ret: (real, real) -> real)
    requires AllPositive(t) && 1 <= from <= |t| && Telescopes(ret)
    ensures SumOf(Returns(t, from, ret)) == ret(t[from - 1].price, t[|t| - 1].price)
    decreases |t|
  {
    if from < |t| {
      var init, x := t[..|t| - 1], t[|t| - 1];
      assert t == init + [x];
      ReturnsTelescope(init, from, ret);
      ReturnsOfSnoc(init, x, from, ret);
      SumOfSnoc(Returns(init, from, ret), ret(init[|init| - 1].price, x.price));
    }
  }

  lemma SumOfSnoc(s: seq<real>, x: real)
    ensures SumOf(s + [x]) == SumOf(s) + x
  {
    assert (s + [x])[..|s|] == s;
  }

  lemma {:induction false} ReturnsTail(t: seq<Tick>, from: nat, k: nat, ret: (real, real) -> real)
    requires AllPositive(t) && 1 <= from && from + k <= |t|
    ensures k <= |Returns(t, from, ret)| && Returns(t, from, ret)[k..] == Returns(t, from + k, ret)
    decreases k
  {
    if k > 0 { ReturnsTail(t, from + 1, k - 1, ret); }
  }

  lemma MomentumEntries(r: seq<real>, recent: seq<Tick>, sqrt: real -> real)
    requires |r| >= 5 && |recent| > 0
    ensures var e := Entries(r, recent, sqrt); |e| == 6 && e[0] == SumOf(r[|r| - 5..]) && e[1] == SumOf(r)
  {}

  lemma ShortSum(t: seq<Tick>, lookBack: nat, ret: (real, real) -> real)
    requires AllPositive(t) && |t| > lookBack >= 5 && Telescopes(ret)
    ensures var r, last := Returns(t, |t| - lookBack, ret), |t| - 1;
      |r| >= 5 && SumOf(r[|r| - 5..]) == ret(t[last - 5].price, t[last].price)
  {
    var from := |t| - lookBack;
    PositiveReturns(t, from, ret);
    ReturnsTail(t, from, lookBack - 5, ret);
    assert from + (lookBack - 5) == |t| - 5;
    ReturnsTelescope(t, |t| - 5, ret);
  }

  lemma MomentumSums(t: seq<Tick>, lookBack: nat, ret: (real, real) -> real)
    requires AllPositive(t) && |t| > lookBack >= 5 && Telescopes(ret)
    ensures var r, last := Returns(t, |t| - lookBack, ret), |t| - 1;
      |r| == lookBack && SumOf(r) == ret(t[last - lookBack].price, t[last].price)
      && SumOf(r[|r| - 5..]) == ret(t[last - 5].price, t[last].price)
  {
    PositiveReturns(t, |t| - lookBack, ret);
    ReturnsTelescope(t, |t| - lookBack, ret);
    ShortSum(t, lookBack, ret);
  }

  lemma LogReturnIs(log: real -> real, x: real, y: real)
    requires LogProductLaw(log) && x > 0.0 && y > 0.0
    ensures LogReturn(log)(x, y) == log(y) - log(x)
  {
    var g := Growth(x, y);
    assert g * x == y;
    assert g > 0.0;
    LogOfProduct(log, g, x, y);
  }

  lemma MomentaAsReturns(t: seq<Tick>, lookBack: nat, m: Maths)
    requires AllPositive(t) && |t| > lookBack >= 5 && LogProductLaw(m.log)
    ensures var o, last, ret := Build(t, lookBack, m), |t| - 1, LogReturn(m.log);
      o.Vector? && |o.values| == 6
      && o.values[0] == ret(t[last - 5].price, t[last].price) &&
        o.values[1] == ret(t[last - lookBack].price, t[last].price)
  {
    var ret := LogReturn(m.log);
    LogReturnsTelescope(m.log);
    MomentumSums(t, lookBack, ret);
    PositiveWindow(t, lookBack, ret);
    MomentumEntries(Returns(t, |t| - lookBack, ret), t[|t| - lookBack..], m.sqrt);
  }

  lemma MomentaInLogs(values: seq<real>, t: seq<Tick>, lookBack: nat, log: real -> real)
    requires AllPositive(t) && |t| > lookBack >= 5 && LogProductLaw(log) && |values| == 6
    requires values[0] == LogReturn(log)(t[|t| - 6].price, t[|t| - 1].price)
    requires values[1] == LogReturn(log)(t[|t| - 1 - lookBack].price, t[|t| - 1].price)
    ensures values[0] == log(t[|t| - 1].price) - log(t[|t| - 6].price)
    ensures values[1] == log(t[|t| - 1].price) - log(t[|t| - 1 - lookBack].price)
  {
    LogReturnIs(log, t[|t| - 6].price, t[|t| - 1].price);
    LogReturnIs(log, t[|t| - 1 - lookBack].price, t[|t| - 1].price);
  }

  /** The two momenta are how much the logarithm of the price grew over the last 5
      and over the last lookBack ticks. */
  lemma MomentaAreReturns(t: seq<Tick>, lookBack: nat, m: Maths, o: Outcome)
    requires AllPositive(t) && |t| > lookBack >= 5 && LogProductLaw(m.log) && o == Build(t, lookBack, m)
    ensures o.Vector? && |o.values| == 6
    ensures o.values[0] == m.log(t[|t| - 1].price) - m.log(t[|t| - 6].price)
    ensures o.values[1] == m.log(t[|t| - 1].price) - m.log(t[|t| - 1 - lookBack].price)
  {
    MomentaAsReturns(t, lookBack, m);
    MomentaInLogs(o.values, t, lookBack, m.log);
  }

  lemma PositiveWindow(t: seq<Tick>, lookBack: nat, ret: (real, real) -> real)
    requires AllPositive(t) && |t| > lookBack >= 5
    ensures WindowOf(t, lookBack, ret) == Enough(Returns(t, |t| - lookBack, ret), t[|t| - lookBack..])
  {
    PositiveReturns(t, |t| - lookBack, ret);
  }

  function Power(x: real, n: nat): real { if n == 0 then 1.0 else Times(Power(x, n - 1), x) }

  /** Each imbalance with a tenth of 0.9 to the power of its age. */
  function AgeWeighted(t: seq<Tick>): real {
    if |t| == 0 then 0.0
    else Times(Power(DECAY, |t| - 1), (1.0 - DECAY) * t[0].imbalance) + AgeWeighted(t[1..])
  }

  lemma {:induction false} AgeWeightedSnoc(t: seq<Tick>, x: Tick)
    ensures AgeWeighted(t + [x]) == DECAY * AgeWeighted(t) + (1.0 - DECAY) * x.imbalance
  {
    if |t| == 0 {
      assert t + [x] == [x];
      assert AgeWeighted([x]) == Times(1.0, (1.0 - DECAY) * x.imbalance) + AgeWeighted([]);
    } else {
      assert (t + [x])[1..] == t[1..] + [x] && (t + [x])[0] == t[0];
      AgeWeightedSnoc(t[1..], x);
      OlderByOne(Power(DECAY, |t| - 1), (1.0 - DECAY) * t[0].imbalance);
    }
  }

  lemma OlderByOne(p: real, v: real)
    ensures Times(Times(p, DECAY), v) == DECAY * Times(p, v)
  {}

  /** The imbalance entry is the exponentially weighted sum of the recent imbalances. */
  lemma {:induction false} EmaIsAgeWeighted(t: seq<Tick>)
    ensures Ema(t) == AgeWeighted(t)
  {
    if |t| > 0 {
      EmaIsAgeWeighted(t[..|t| - 1]);
      assert t == t[..|t| - 1] + [t[|t| - 1]];
      AgeWeightedSnoc(t[..|t| - 1], t[|t| - 1]);
    }
  }

  // ---- The computation ---------------------------------------------------------------------

  method RunningImbalance(recent: seq<Tick>) returns (ema: real)
    ensures ema == Ema(recent)
  {
    ema := 0.0;
    for i := 0 to |recent|
      invariant ema == Ema(recent[..i])
    {
      assert recent[..i + 1][..i] == recent[..i];
      ema := DECAY * ema + (1.0 - DECAY) * recent[i].imbalance;
    }
    assert recent[..|recent|] == recent;
  }

  method GroupDeviations(r: seq<real>, sqrt: real -> real) returns (subs: seq<real>)
    ensures subs == SubVols(r, 0, sqrt)
  {
    subs := [];
    var start := 0;
    while start + STEP < |r|
      invariant subs + SubVols(r, start, sqrt) == SubVols(r, 0, sqrt)
    {
      subs := subs + [Deviation(r[start..start + STEP], sqrt)];
      start := start + STEP;
    }
  }

  method BuildFeatures(t: seq<Tick>, lookBack: nat, m: Maths) returns (o: Outcome)
    ensures o == Build(t, lookBack, m)
  {
    if |t| < lookBack + 1 {
      return NotReady;
    }
    var from := |t| - lookBack;
    if AnyBad(t, from) {
      return Raises;
    }
    var r := Returns(t, from, LogReturn(m.log));
    if |r| < 5 {
      return NotReady;
    }
    WindowSizes(t, lookBack, LogReturn(m.log));
    var recent := t[from..];
    var ema := RunningImbalance(recent);
    var subs := GroupDeviations(r, m.sqrt);
    var volOfVol := if |subs| > 1 then Deviation(subs, m.sqrt) else 0.0;
    o := Vector([SumOf(r[|r| - 5..]), SumOf(r), Deviation(r, m.sqrt),
                 VolumeScore(Volumes(recent), m.sqrt), ema, volOfVol]);
  }
}
