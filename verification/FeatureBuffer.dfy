/** The live engine's sliding window: features from a bounded buffer of ticks. */
module FeatureBuffers {
  import opened Sums
  import opened Features

  const LOOK_BACK := 20
  const VOL_HISTORY := 50

  datatype Quote = Quote(price: real, bid: real, ask: real, volume: real)

  function Imbalance(q: Quote): real {
    if q.ask > 0.0 && q.bid > 0.0 then (q.bid - q.ask) / (if q.ask > 0.000000001 then q.ask else 0.000000001) else 0.0
  }

  lemma QuotientOf(x: real, d: real)
    requires d > 0.0
    ensures (x / d) * d == x
    ensures x / d > 0.0 <==> x > 0.0
  {
    var q := x / d;
    assert q * d == x;
    if q > 0.0 { assert q * d > 0.0; } else { assert q * d <= 0.0; }
  }

  /** The imbalance is how far the bid is over the ask, as a share of the ask: positive
      exactly when the bid is higher, and zero for quotes without both sides. */
  lemma ImbalanceIs(q: Quote)
    ensures if q.ask > 0.0 && q.bid > 0.0
      then Imbalance(q) * (if q.ask > 0.000000001 then q.ask else 0.000000001) == q.bid - q.ask &&
           (Imbalance(q) > 0.0 <==> q.bid > q.ask)
      else Imbalance(q) == 0.0
  {
    if q.ask > 0.0 && q.bid > 0.0 {
      QuotientOf(q.bid - q.ask, if q.ask > 0.000000001 then q.ask else 0.000000001);
    }
  }

  function TickOf(q: Quote): Tick {
    Tick(q.price, if q.volume > 1.0 then q.volume else 1.0, Imbalance(q))
  }

  function Last<T>(s: seq<T>, n: nat): seq<T> {
    if |s| <= n then s else s[|s| - n..]
  }

  /** deque.append with a maximum length. */
  function Appended<T>(d: seq<T>, x: T, maxlen: nat): seq<T> {
    Last(d + [x], maxlen)
  }

  lemma AppendedLast<T>(h: seq<T>, x: T, n: nat)
    ensures Appended(Last(h, n), x, n) == Last(h + [x], n)
  {}

  /** What a buffer of the given window can know about a history. */
  function Seen(h: seq<Tick>, window: nat, m: Maths): Outcome {
    if |h| < window || window < LOOK_BACK then NotReady else Build(h, LOOK_BACK, m)
  }

  function SeenBy(window: nat, m: Maths): seq<Tick> -> Outcome { (h: seq<Tick>) => Seen(h, window, m) }

  lemma BufferSuffices(h: seq<Tick>, window: nat, m: Maths)
    requires |h| >= window
    ensures Build(Last(h, window + 1), LOOK_BACK, m) == Seen(h, window, m)
  {
    if window >= LOOK_BACK && |h| > window + 1 { TailSuffices(h, |h| - (window + 1), LOOK_BACK, m); }
  }

  function Annualised(vol: real, sqrt: real -> real): real { vol * sqrt(252.0) }

  // ---- The volatilities of a history -------------------------------------------------

  predicate Ready(o: Outcome) { o.Vector? && |o.values| > 2 }

  function VolOf(o: Outcome, sqrt: real -> real): real
    requires Ready(o)
  {
    Annualised(o.values[2], sqrt)
  }

  /** The annualised volatilities of a run of answers, oldest first. */
  function Vols(os: seq<Outcome>, sqrt: real -> real): seq<real> {
    if |os| == 0 then []
    else
      var init, last := Vols(os[..|os| - 1], sqrt), os[|os| - 1];
      if Ready(last) then init + [VolOf(last, sqrt)] else init
  }

  lemma VolsSnoc(os: seq<Outcome>, o: Outcome, sqrt: real -> real)
    ensures Vols(os + [o], sqrt) == if Ready(o) then Vols(os, sqrt) + [VolOf(o, sqrt)] else Vols(os, sqrt)
  {
    assert (os + [o])[..|os|] == os;
  }

  /** The k-th answer is the latest that had features. */
  predicate LatestAt(os: seq<Outcome>, k: int) {
    0 <= k < |os| && Ready(os[k]) && forall j :: k < j < |os| ==> !Ready(os[j])
  }

  /** The volatility of the latest answer that had features, 19% before the first. */
  predicate IsLatestVol(os: seq<Outcome>, vol: real, sqrt: real -> real) {
    || ((forall j :: 0 <= j < |os| ==> !Ready(os[j])) && vol == 0.19)
    || exists k :: 0 <= k < |os| && LatestAt(os, k) && vol == VolOf(os[k], sqrt)
  }

  lemma {:induction false} LastVolIsLatest(os: seq<Outcome>, sqrt: real -> real)
    ensures var all := Vols(os, sqrt);
      if |all| == 0 then forall j :: 0 <= j < |os| ==> !Ready(os[j])
      else exists k :: 0 <= k < |os| && LatestAt(os, k) && all[|all| - 1] == VolOf(os[k], sqrt)
  {
    if |os| > 0 {
      var init, last := os[..|os| - 1], os[|os| - 1];
      if Ready(last) {
        assert LatestAt(os, |os| - 1);
      } else {
        LastVolIsLatest(init, sqrt);
        var all := Vols(init, sqrt);
        if |all| > 0 {
          var k :| 0 <= k < |init| && LatestAt(init, k) && all[|all| - 1] == VolOf(init[k], sqrt);
          assert LatestAt(os, k) && os[k] == init[k];
        }
      }
    }
  }

  /** What is answered to each tick of a history. */
  function Answers(h: seq<Tick>, f: seq<Tick> -> Outcome): (os: seq<Outcome>)
    ensures |os| == |h| && forall k :: 0 <= k < |h| ==> os[k] == f(h[..k + 1])
  {
    seq(|h|, k requires 0 <= k < |h| => f(h[..k + 1]))
  }

  lemma AnswersSnoc(h: seq<Tick>, x: Tick, f: seq<Tick> -> Outcome)
    ensures Answers(h + [x], f) == Answers(h, f) + [f(h + [x])]
  {
    var t := h + [x];
    var os, os' := Answers(h, f), Answers(t, f);
    forall k | 0 <= k < |h| ensures os'[k] == os[k] {
      assert t[..k + 1] == h[..k + 1];
    }
    assert t[..|t|] == t;
  }

  predicate ReadyFrom(os: seq<Outcome>, first: nat) {
    forall i :: 0 <= i < |os| ==> (Ready(os[i]) <==> i >= first)
  }

  /** One volatility for every answer from first on. */
  predicate AllFrom(os: seq<Outcome>, first: nat, vols: seq<real>, sqrt: real -> real)
    requires ReadyFrom(os, first)
  {
    && |vols| == (if |os| < first then 0 else |os| - first)
    && forall i :: 0 <= i < |vols| ==> vols[i] == VolOf(os[first + i], sqrt)
  }

  lemma {:induction false} VolsFrom(os: seq<Outcome>, first: nat, sqrt: real -> real)
    requires ReadyFrom(os, first)
    ensures AllFrom(os, first, Vols(os, sqrt), sqrt)
  {
    if |os| > 0 { VolsFrom(os[..|os| - 1], first, sqrt); }
  }

  /** The tick whose answer is the first that can have features. */
  function FirstReady(window: nat): nat { if window > LOOK_BACK then window else LOOK_BACK + 1 }

  lemma SeenWhenPositive(h: seq<Tick>, window: nat, m: Maths)
    requires AllPositive(h) && window >= LOOK_BACK
    ensures Ready(Seen(h, window, m)) <==> |h| >= FirstReady(window)
  {
    PositiveIsReady(h, LOOK_BACK, m);
  }

  lemma AnswersReadyFrom(h: seq<Tick>, window: nat, m: Maths)
    requires AllPositive(h) && window >= LOOK_BACK
    ensures ReadyFrom(Answers(h, SeenBy(window, m)), FirstReady(window) - 1)
  {
    var os, first := Answers(h, SeenBy(window, m)), FirstReady(window) - 1;
    forall i | 0 <= i < |os| ensures Ready(os[i]) <==> i >= first {
      SeenWhenPositive(h[..i + 1], window, m);
      assert os[i] == Seen(h[..i + 1], window, m);
    }
  }

  /** With positive prices and a window of at least the look-back, every tick from
      the first ready one on adds its volatility. */
  lemma VolsCoverHistory(h: seq<Tick>, window: nat, m: Maths)
    requires AllPositive(h) && window >= LOOK_BACK
    ensures var os, first := Answers(h, SeenBy(window, m)), FirstReady(window) - 1;
      ReadyFrom(os, first) && AllFrom(os, first, Vols(os, m.sqrt), m.sqrt)
  {
    AnswersReadyFrom(h, window, m);
    VolsFrom(Answers(h, SeenBy(window, m)), FirstReady(window) - 1, m.sqrt);
  }

  /** The last fifty volatilities of a run of answers. */
  function Kept(os: seq<Outcome>, sqrt: real -> real): seq<real> { Last(Vols(os, sqrt), VOL_HISTORY) }

  /** A filled buffer whose window is at least the look-back answers with the features
      of the last twenty-one ticks and more of its history. */
  lemma SeenIs(h: seq<Tick>, window: nat, m: Maths)
    requires |h| >= window >= LOOK_BACK
    ensures Seen(h, window, m) == Build(h, 20, m)
  {}

  /** A volatility a year is the root of 252 times the tick's variance. */
  lemma AnnualisedIs(vol: real, sqrt: real -> real)
    requires SqrtLaw(sqrt) && vol >= 0.0
    ensures Annualised(vol, sqrt) >= 0.0 && Square(Annualised(vol, sqrt)) == 252.0 * Square(vol)
  {
    var root := sqrt(252.0);
    assert root >= 0.0 && root * root == 252.0;
    assert (vol * root) * (vol * root) == (vol * vol) * (root * root);
  }

  /** Whether there are any, and the last of them, survive the trimming to fifty. */
  lemma LastKeptIsLatest(os: seq<Outcome>, sqrt: real -> real)
    ensures var kept := Kept(os, sqrt); IsLatestVol(os, if |kept| == 0 then 0.19 else kept[|kept| - 1], sqrt)
  {
    LastVolIsLatest(os, sqrt);
    LastOfLast(Vols(os, sqrt), VOL_HISTORY);
  }

  lemma LastOfLast<T>(s: seq<T>, n: nat)
    requires n > 0
    ensures |Last(s, n)| == 0 <==> |s| == 0
    ensures |s| > 0 ==> Last(s, n)[|Last(s, n)| - 1] == s[|s| - 1]
  {}

  function WithVol(vols: seq<real>, o: Outcome, sqrt: real -> real): seq<real> {
    if Ready(o) then Appended(vols, VolOf(o, sqrt), VOL_HISTORY) else vols
  }

  lemma KeptSnoc(os: seq<Outcome>, o: Outcome, sqrt: real -> real)
    ensures Kept(os + [o], sqrt) == WithVol(Kept(os, sqrt), o, sqrt)
  {
    VolsSnoc(os, o, sqrt);
    if Ready(o) { AppendedLast(Vols(os, sqrt), VolOf(o, sqrt), VOL_HISTORY); }
  }

  /** One more tick: the buffer, its size and its answer. */
  lemma TickArrives(h: seq<Tick>, x: Tick, window: nat, m: Maths)
    ensures Appended(Last(h, window + 1), x, window + 1) == Last(h + [x], window + 1)
    ensures |Last(h + [x], window + 1)| < window <==> |h + [x]| < window
    ensures Seen(h + [x], window, m) == if |h + [x]| < window then NotReady
      else Build(Last(h + [x], window + 1), LOOK_BACK, m)
  {
    AppendedLast(h, x, window + 1);
    if |h + [x]| >= window { BufferSuffices(h + [x], window, m); }
  }

  class FeatureBuffer {
    const window: nat
    const maths: Maths
    var ticks: seq<Tick>
    var tickCount: nat
    var volHistory: seq<real>
    var ready: bool
    ghost var history: seq<Tick>

    ghost predicate Valid()
      reads this
    {
      Filled() && volHistory == Kept(Answers(history, SeenBy(window, maths)), maths.sqrt)
    }

    constructor (window: nat, maths: Maths)
      ensures Valid() && history == [] && this.window == window && this.maths == maths
    {
      this.window, this.maths := window, maths;
      ticks, tickCount, volHistory, ready, history := [], 0, [], false, [];
    }

    /** The buffer forgets old ticks, yet gives the features of the whole history,
        from the window-th tick on; with a window shorter than the look-back it
        never gives any. It keeps the last fifty volatilities of that history. */
    method Push(q: Quote) returns (features: Outcome)
      requires Valid()
      modifies this
      ensures Valid() && history == old(history) + [TickOf(q)]
      ensures features == Seen(history, window, maths)
    {
      features := Take(TickOf(q));
    }

    method Take(x: Tick) returns (features: Outcome)
      requires Valid()
      modifies this
      ensures Valid() && history == old(history) + [x]
      ensures features == Seen(history, window, maths)
    {
      AnswersSnoc(history, x, SeenBy(window, maths));
      KeptSnoc(Answers(history, SeenBy(window, maths)), Seen(history + [x], window, maths), maths.sqrt);
      features := Advance(x);
      Remember(features);
    }

    ghost predicate Filled()
      reads this
    {
      && ticks == Last(history, window + 1)
      && tickCount == |history|
      && (ready <==> |history| > 0 && |history| >= window)
    }

    /** The window slides over the tick. */
    method Advance(x: Tick) returns (features: Outcome)
      requires Filled()
      modifies this`ticks, this`history, this`tickCount, this`ready
      ensures Filled() && history == old(history) + [x]
      ensures features == Seen(history, window, maths)
    {
      TickArrives(history, x, window, maths);
      ticks := Appended(ticks, x, window + 1);
      history := history + [x];
      tickCount := tickCount + 1;
      if |ticks| < window {
        return NotReady;
      }
      if !ready {
        ready := true;
      }
      features := BuildFeatures(ticks, LOOK_BACK, maths);
    }

    method Remember(features: Outcome)
      modifies this`volHistory
      ensures volHistory == WithVol(old(volHistory), features, maths.sqrt)
    {
      if Ready(features) {
        volHistory := Appended(volHistory, VolOf(features, maths.sqrt), VOL_HISTORY);
      }
    }

    method LatestVolAnn() returns (vol: real)
      requires Valid()
      ensures IsLatestVol(Answers(history, SeenBy(window, maths)), vol, maths.sqrt)
    {
      LastKeptIsLatest(Answers(history, SeenBy(window, maths)), maths.sqrt);
      if |volHistory| == 0 {
        return 0.19;
      }
      return volHistory[|volHistory| - 1];
    }
  }

  /** A window of at least the look-back is exactly what agreement with the full
      history takes, once the window has filled. */
  lemma {:induction false} WindowIsBigEnoughIff(window: nat, m: Maths)
    ensures window >= LOOK_BACK <==>
      forall h: seq<Tick> :: |h| >= window ==> Build(Last(h, window + 1), LOOK_BACK, m) == Build(h, LOOK_BACK, m)
  {
    if window >= LOOK_BACK {
      forall h: seq<Tick> | |h| >= window ensures Build(Last(h, window + 1), LOOK_BACK, m) == Build(h, LOOK_BACK, m) {
        BufferSuffices(h, window, m);
      }
    } else {
      var h := seq(LOOK_BACK + 1, i => Tick(1.0, 1.0, 0.0));
      PositiveIsReady(h, LOOK_BACK, m);
      assert |h| >= window && Build(h, LOOK_BACK, m).Vector?;
      assert Build(Last(h, window + 1), LOOK_BACK, m).NotReady?;
    }
  }
}
