/** K-fold collection of out-of-sample signals. */
module KFold {
  type Point = seq<real>

  /** Fitting a fresh model gives its raw signal. */
  type Trainer = (seq<Point>, seq<real>) -> (Point -> real)

  function FoldSize(n: nat, folds: nat): nat
    requires folds > 0
  {
    if n / folds > 1 then n / folds else 1
  }

  function Start(n: nat, folds: nat, k: nat): nat
    requires folds > 0
  {
    k * FoldSize(n, folds)
  }

  /** The last fold takes whatever is left. */
  function End(n: nat, folds: nat, k: nat): nat
    requires folds > 0
  {
    if k < folds - 1 then Start(n, folds, k) + FoldSize(n, folds) else n
  }

  /** All but the indices lo.. up to hi. */
  function Outside<T>(s: seq<T>, lo: nat, hi: nat): seq<T>
    requires lo <= hi <= |s|
  {
    s[..lo] + s[hi..]
  }

  function Centred(y: seq<real>): (c: seq<real>)
    ensures |c| == |y|
  {
    seq(|y|, i requires 0 <= i < |y| => y[i] - 0.5)
  }

  /** The signal at x of a model trained on everything outside [lo, hi). */
  function HeldOut(xs: seq<Point>, y: seq<real>, train: Trainer, lo: nat, hi: nat, x: Point): real
    requires lo <= hi <= |xs| && |y| == |xs|
  {
    train(Outside(xs, lo, hi), Centred(Outside(y, lo, hi)))(x)
  }

  /** What a held-out model is trained on: every point outside the fold, in order,
      with its own label less one half. */
  lemma TrainedOnTheRest(xs: seq<Point>, y: seq<real>, lo: nat, hi: nat, i: nat)
    requires lo <= hi <= |xs| == |y| && i < |xs| - (hi - lo)
    ensures var j := if i < lo then i else i + (hi - lo);
      |Outside(xs, lo, hi)| == |Centred(Outside(y, lo, hi))| == |xs| - (hi - lo) &&
      Outside(xs, lo, hi)[i] == xs[j] && Centred(Outside(y, lo, hi))[i] == y[j] - 0.5
  {}

  /** Out-of-sample throughout: i's signal comes from a model that saw every point
      outside i's own fold and none inside it. */
  ghost predicate OutOfSample(xs: seq<Point>, y: seq<real>, train: Trainer, folds: nat, signals: seq<real>)
    requires folds > 0 && |y| == |xs|
  {
    && |signals| == |xs|
    && forall k, i :: 0 <= k < folds && Start(|xs|, folds, k) <= i < End(|xs|, folds, k) <= |xs| ==>
         signals[i] == HeldOut(xs, y, train, Start(|xs|, folds, k), End(|xs|, folds, k), xs[i])
  }

  lemma SizesFit(n: nat, folds: nat)
    requires folds >= 2 && n >= folds
    ensures (folds - 1) * FoldSize(n, folds) + FoldSize(n, folds) <= n
  {
    var q := n / folds;
    assert folds * q <= n;
    QuotientPositive(n, folds);
    assert (folds - 1) * q + q == folds * q;
  }

  lemma QuotientPositive(n: nat, d: nat)
    requires d >= 1
    ensures n / d >= 1 <==> n >= d
  {
    assert n == d * (n / d) + n % d;
  }

  lemma StartsGrow(k: nat, j: nat, size: nat)
    requires k <= j
    ensures k * size <= j * size
  {}

  lemma StepStart(k: nat, size: nat)
    ensures (k + 1) * size == k * size + size
  {}

  /** With a point for every fold, all but the last hold the same whole share of the
      points; with fewer, they hold one each. The last has what is left. */
  lemma FoldLengths(n: nat, folds: nat, k: nat)
    requires folds >= 2 && k < folds
    ensures k < folds - 1 ==> End(n, folds, k) - Start(n, folds, k) == if n >= folds then n / folds else 1
    ensures k < folds - 1 && n >= folds ==> Start(n, folds, k) == k * (n / folds)
    ensures k == folds - 1 ==> End(n, folds, k) == n
  {
    QuotientPositive(n, folds);
  }

  predicate EnoughPoints(n: nat, folds: nat) { n >= 2 && n >= folds - 1 }

  /** Where fold k lies, when there are enough points. */
  lemma FoldBounds(n: nat, folds: nat, k: nat)
    requires folds >= 2 && EnoughPoints(n, folds) && k < folds
    ensures Start(n, folds, k) <= End(n, folds, k) <= n
    ensures k > 0 ==> Start(n, folds, k) == End(n, folds, k - 1) && Start(n, folds, k) >= 1
    ensures End(n, folds, k) - Start(n, folds, k) < n
  {
    var size := FoldSize(n, folds);
    LastStartFits(n, folds);
    StartsGrow(k, folds - 1, size);
    if k < folds - 1 {
      StartsGrow(k + 1, folds - 1, size);
      StepStart(k, size);
    }
    if k > 0 {
      StepStart(k - 1, size);
      StartsGrow(1, k, size);
    }
  }

  /** Everything before the last fold fits, and is never all there is in one fold. */
  lemma LastStartFits(n: nat, folds: nat)
    requires folds >= 2 && EnoughPoints(n, folds)
    ensures 1 <= FoldSize(n, folds) <= (folds - 1) * FoldSize(n, folds) <= n && FoldSize(n, folds) < n
  {
    var size := FoldSize(n, folds);
    StartsGrow(1, folds - 1, size);
    if n >= folds {
      SizesFit(n, folds);
    } else {
      QuotientPositive(n, folds);
    }
  }

  /** With enough points the folds partition the indices: each lies in exactly one. */
  lemma {:induction false} FoldsPartition(n: nat, folds: nat, i: nat)
    requires folds >= 2 && EnoughPoints(n, folds) && i < n
    ensures exists k :: 0 <= k < folds && Start(n, folds, k) <= i < End(n, folds, k)
    ensures forall j, k :: 0 <= j < k < folds ==> End(n, folds, j) <= Start(n, folds, k)
  {
    assert Start(n, folds, 0) == 0;
    var k := FoldOf(n, folds, i, 0);
    forall j, k | 0 <= j < k < folds ensures End(n, folds, j) <= Start(n, folds, k) { FoldsAscend(n, folds, j, k); }
  }

  lemma {:induction false} FoldOf(n: nat, folds: nat, i: nat, from: nat) returns (k: nat)
    requires folds >= 2 && EnoughPoints(n, folds) && i < n && from < folds && Start(n, folds, from) <= i
    ensures from <= k < folds && Start(n, folds, k) <= i < End(n, folds, k)
    decreases folds - from
  {
    FoldBounds(n, folds, from);
    if i < End(n, folds, from) {
      k := from;
    } else {
      FoldBounds(n, folds, from + 1);
      k := FoldOf(n, folds, i, from + 1);
    }
  }

  lemma {:induction false} FoldsAscend(n: nat, folds: nat, j: nat, k: nat)
    requires folds >= 2 && EnoughPoints(n, folds) && j < k < folds
    ensures End(n, folds, j) <= Start(n, folds, k)
    decreases k
  {
    FoldBounds(n, folds, k);
    if j < k - 1 {
      FoldsAscend(n, folds, j, k - 1);
      FoldBounds(n, folds, k - 1);
    }
  }

  /** A fold is trained and validated only when both of its index lists have members. */
  predicate Runs(n: nat, lo: nat, hi: nat) {
    (lo > 0 || hi < n) && lo < hi
  }

  ghost predicate Collected(xs: seq<Point>, y: seq<real>, train: Trainer, folds: nat, k: nat, signals: seq<real>)
    requires folds > 0 && |y| == |xs|
  {
    && |signals| == |xs|
    && forall j :: 0 <= j < k ==> FoldDone(xs, y, train, Start(|xs|, folds, j), End(|xs|, folds, j), signals)
  }

  ghost predicate FoldDone(xs: seq<Point>, y: seq<real>, train: Trainer, lo: nat, hi: nat, signals: seq<real>)
    requires |y| == |xs|
  {
    lo <= hi <= |xs| == |signals| && forall i :: lo <= i < hi ==> signals[i] == HeldOut(xs, y, train, lo, hi, xs[i])
  }

  lemma CollectedStep(xs: seq<Point>, y: seq<real>, train: Trainer, folds: nat, k: nat, before: seq<real>,
      after: seq<real>)
    requires folds >= 2 && EnoughPoints(|xs|, folds) && k < folds && |y| == |xs|
    requires Collected(xs, y, train, folds, k, before) && |after| == |before|
    requires FoldDone(xs, y, train, Start(|xs|, folds, k), End(|xs|, folds, k), after)
    requires forall i :: 0 <= i < |xs| && !(Start(|xs|, folds, k) <= i < End(|xs|, folds, k)) ==> after[i] == before[i]
    ensures Collected(xs, y, train, folds, k + 1, after)
  {
    forall j | 0 <= j < k ensures FoldDone(xs, y, train, Start(|xs|, folds, j), End(|xs|, folds, j), after) {
      FoldsAscend(|xs|, folds, j, k);
    }
  }

  /** One fold's training and validation. */
  method RunFold(xs: seq<Point>, y: seq<real>, train: Trainer, lo: nat, hi: nat, oos: array<real>)
    requires lo <= hi <= |xs| == |y| == oos.Length
    modifies oos
    ensures FoldDone(xs, y, train, lo, hi, oos[..])
    ensures forall i :: 0 <= i < |xs| && !(lo <= i < hi) ==> oos[i] == old(oos[i])
  {
    var signal := train(Outside(xs, lo, hi), Centred(Outside(y, lo, hi)));
    for i := lo to hi
      invariant forall j :: lo <= j < i ==> oos[j] == signal(xs[j])
      invariant forall j :: 0 <= j < |xs| && !(lo <= j < i) ==> oos[j] == old(oos[j])
    {
      oos[i] := signal(xs[i]);
    }
  }

  /** The collected signals, or how the collection fails: n // 0, or a fold that
      reaches past the data. */
  datatype Outcome = Signals(values: seq<real>) | DivisionError | PastTheData

  predicate Untouched(n: nat, r: Outcome) { r == Signals(seq(n, _ => 0.0)) }

  /** With enough points every signal is out of sample; with one point and two folds,
      one fold, or a negative number of them, none is ever written. */
  method KfoldOosLogits(xs: seq<Point>, y: seq<real>, train: Trainer, folds: int) returns (r: Outcome)
    requires |y| == |xs|
    ensures folds >= 2 && EnoughPoints(|xs|, folds) ==> r.Signals? && OutOfSample(xs, y, train, folds, r.values)
    ensures r.PastTheData? <==> |xs| < folds - 1 && folds >= 3
    ensures r.DivisionError? <==> folds == 0
    ensures folds < 0 || folds == 1 || (|xs| == 1 && folds == 2) ==> Untouched(|xs|, r)
  {
    if folds == 0 {
      return DivisionError;
    }
    var n := |xs|;
    var size := if folds > 0 then FoldSize(n, folds) else 1;
    var oos := new real[n](_ => 0.0);
    if folds > 0 { QuotientPositive(n, folds); }
    var count := if folds > 0 then folds else 0;
    for k := 0 to count
      invariant n < folds - 1 && folds >= 3 ==> k <= n || (n == 0 && k <= 1)
      invariant folds <= 1 || (n == 1 && folds == 2) ==> forall i :: 0 <= i < n ==> oos[i] == 0.0
      invariant folds >= 2 && EnoughPoints(n, folds) ==> Collected(xs, y, train, folds, k, oos[..])
    {
      var lo := k * size;
      var hi := if k < folds - 1 then lo + size else n;
      ghost var before := oos[..];
      if folds >= 2 && EnoughPoints(n, folds) { FoldBounds(n, folds, k); }
      if n < folds { assert lo == k; }
      if Runs(n, lo, hi) {
        if hi > n {
          return PastTheData;
        }
        RunFold(xs, y, train, lo, hi, oos);
      }
      if folds >= 2 && EnoughPoints(n, folds) { CollectedStep(xs, y, train, folds, k, before, oos[..]); }
    }
    return Signals(oos[..]);
  }
}
