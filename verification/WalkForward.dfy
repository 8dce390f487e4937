/** Walk-forward validation: folds cut at regime changes, samples cut from slices of
    the data, and the drawdown of an equity curve. */
module WalkForward {
  import opened Sums
  import opened Features

  const LOOK_BACK := 20

  datatype Row = Row(tick: Tick, regime: string)

  // ---- Folds -----------------------------------------------------------------------------

  datatype Fold = Fold(id: nat, trainEnd: nat, testStart: nat, testEnd: nat, before: string, after: string)

  predicate IsChange(rows: seq<Row>, i: int) {
    0 < i < |rows| && rows[i].regime != rows[i - 1].regime
  }

  predicate NoChange(rows: seq<Row>, lo: int, hi: int) {
    forall i :: lo < i < hi ==> !IsChange(rows, i)
  }

  lemma {:induction false} ConstantRegime(rows: seq<Row>, lo: nat, i: nat, hi: nat)
    requires lo <= i < hi <= |rows| && NoChange(rows, lo, hi)
    ensures rows[i].regime == rows[lo].regime
    decreases i
  {
    if i > lo {
      ConstantRegime(rows, lo, i - 1, hi);
      assert !IsChange(rows, i);
    }
  }

  /** One fold: it trains on everything before its test, and its test is a whole
      stretch of one regime. */
  predicate IsFold(rows: seq<Row>, f: Fold) {
    && f.trainEnd == f.testStart < f.testEnd <= |rows|
    && IsChange(rows, f.testStart)
    && (f.testEnd == |rows| || IsChange(rows, f.testEnd))
    && NoChange(rows, f.testStart, f.testEnd)
    && f.before == rows[f.testStart - 1].regime && f.after == rows[f.testStart].regime
  }

  /** The tests follow one another from the first change of regime to the last row. */
  predicate Tiles(rows: seq<Row>, folds: seq<Fold>) {
    && (forall k :: 0 <= k < |folds| ==> IsFold(rows, folds[k]) && folds[k].id == k + 1)
    && (forall k :: 0 < k < |folds| ==> folds[k - 1].testEnd == folds[k].testStart)
    && (|folds| > 0 ==> folds[|folds| - 1].testEnd == |rows| && NoChange(rows, 0, folds[0].testStart))
    && (|folds| == 0 ==> NoChange(rows, 0, |rows|))
  }

  /** Starts of the regimes among the first i rows, in order. */
  predicate AreStarts(rows: seq<Row>, starts: seq<nat>, i: int) {
    && |starts| > 0 && starts[0] == 0
    && (forall k :: 0 < k < |starts| ==> IsChange(rows, starts[k]) && starts[k] < i)
    && (forall k :: 0 < k < |starts| ==> starts[k - 1] < starts[k] && NoChange(rows, starts[k - 1], starts[k]))
    && NoChange(rows, starts[|starts| - 1], i)
  }

  method RegimeStarts(rows: seq<Row>) returns (starts: seq<nat>)
    ensures AreStarts(rows, starts, |rows|)
  {
    starts := [0];
    var i := 1;
    while i < |rows|
      invariant 1 <= i && (i <= |rows| || |rows| == 0)
      invariant AreStarts(rows, starts, i)
    {
      if rows[i].regime != rows[i - 1].regime {
        starts := starts + [i];
      }
      i := i + 1;
    }
  }

  method BuildFolds(rows: seq<Row>) returns (folds: seq<Fold>)
    ensures Tiles(rows, folds)
  {
    var starts := RegimeStarts(rows);
    var transitions := starts + [|rows|];
    folds := [];
    for i := 1 to |transitions| - 1
      invariant |folds| == i - 1
      invariant forall k :: 0 <= k < |folds| ==> IsFold(rows, folds[k]) && folds[k].id == k + 1
      invariant forall k :: 0 <= k < |folds| ==>
        folds[k].testStart == transitions[k + 1] && folds[k].testEnd == transitions[k + 2]
    {
      assert IsChange(rows, starts[i]);
      ConstantRegime(rows, starts[i - 1], starts[i] - 1, starts[i]);
      folds := folds + [Fold(i, transitions[i], transitions[i], transitions[i + 1],
                             rows[transitions[i - 1]].regime, rows[transitions[i]].regime)];
    }
  }

  /** Every row from the first change on is tested exactly once, and earlier rows never. */
  lemma {:induction false} TestedOnce(rows: seq<Row>, folds: seq<Fold>, r: nat)
    requires Tiles(rows, folds) && r < |rows|
    ensures (exists k :: 0 <= k < |folds| && folds[k].testStart <= r < folds[k].testEnd) <==> !NoChange(rows, 0, r + 1)
    ensures forall j, k :: 0 <= j < k < |folds| ==> folds[j].testEnd <= folds[k].testStart
  {
    forall j, k | 0 <= j < k < |folds| ensures folds[j].testEnd <= folds[k].testStart {
      TestsAscend(rows, folds, j, k);
    }
    if |folds| > 0 {
      if r >= folds[0].testStart {
        assert IsChange(rows, folds[0].testStart);
        var k := CoveringTest(rows, folds, r, 0);
      } else {
        forall k | 0 <= k < |folds| ensures folds[k].testStart > r { if k > 0 { TestsAscend(rows, folds, 0, k); } }
      }
    }
  }

  lemma {:induction false} TestsAscend(rows: seq<Row>, folds: seq<Fold>, j: nat, k: nat)
    requires Tiles(rows, folds) && j < k < |folds|
    ensures folds[j].testEnd <= folds[k].testStart
    decreases k
  {
    assert folds[k - 1].testEnd == folds[k].testStart;
    if j < k - 1 {
      TestsAscend(rows, folds, j, k - 1);
      assert IsFold(rows, folds[k - 1]);
    }
  }

  lemma {:induction false} CoveringTest(rows: seq<Row>, folds: seq<Fold>, r: nat, from: nat) returns (k: nat)
    requires Tiles(rows, folds) && r < |rows| && from < |folds| && folds[from].testStart <= r
    ensures from <= k < |folds| && folds[k].testStart <= r < folds[k].testEnd
    decreases |folds| - from
  {
    if r < folds[from].testEnd {
      k := from;
    } else {
      assert from + 1 < |folds| ==> folds[from].testEnd == folds[from + 1].testStart;
      k := CoveringTest(rows, folds, r, from + 1);
    }
  }

  // ---- Samples ------------------------------------------------------------------------------

  datatype Sample = Sample(x: seq<real>, y: real, regime: string)

  datatype Extraction = Samples(samples: seq<Sample>) | Failed

  function Ticks(rows: seq<Row>): (t: seq<Tick>)
    ensures |t| == |rows|
  {
    seq(|rows|, i requires 0 <= i < |rows| => rows[i].tick)
  }

  function Offset(start: nat): nat { if start > LOOK_BACK then start - LOOK_BACK else 0 }

  /** rows[lo:hi], as a slice that never fails. */
  function Slice(rows: seq<Row>, lo: nat, hi: nat): seq<Row> {
    var top := if hi < |rows| then hi else |rows|;
    if lo < top then rows[lo..top] else []
  }

  /** One row of a slice gives a sample, nothing yet, or a domain error. */
  datatype Contribution = Adds(sample: Sample) | Nothing | Error

  /** The label is the return into the next row; it is computed only beside a feature vector. */
  function Contribute(slice: seq<Row>, i: nat, o: Outcome, ret: (real, real) -> real): Contribution
    requires i + 1 < |slice|
  {
    var now, next := slice[i].tick.price, slice[i + 1].tick.price;
    match o
    case Raises => Error
    case NotReady => Nothing
    case Vector(x) =>
      if now > 0.0 && next <= 0.0 then Error
      else Adds(Sample(x, if now > 0.0 then ret(now, next) else 0.0, slice[i].regime))
  }

  function Extended(e: Extraction, c: Contribution): Extraction {
    if e.Failed? || c.Error? then Failed
    else if c.Adds? then Samples(e.samples + [c.sample])
    else e
  }

  /** The feature vector as a function of a history. */
  function FeaturesOf(m: Maths): seq<Tick> -> Outcome {
    (t: seq<Tick>) => Build(t, LOOK_BACK, m)
  }

  function FeaturesAt(rows: seq<Row>, i: nat, f: seq<Tick> -> Outcome): Outcome
    requires i < |rows|
  {
    f(Ticks(rows[..i + 1]))
  }

  /** Samples of the local rows LOOK_BACK.. up to but excluding k. */
  function Extracted(slice: seq<Row>, k: nat, f: seq<Tick> -> Outcome, ret: (real, real) -> real): Extraction
    requires k < |slice| || k <= LOOK_BACK
  {
    if k <= LOOK_BACK then Samples([])
    else Extended(Extracted(slice, k - 1, f, ret), Contribute(slice, k - 1, FeaturesAt(slice, k - 1, f), ret))
  }

  function ExtractWith(slice: seq<Row>, f: seq<Tick> -> Outcome, ret: (real, real) -> real): Extraction {
    if |slice| == 0 then Samples([]) else Extracted(slice, |slice| - 1, f, ret)
  }

  function Extract(rows: seq<Row>, start: nat, end: nat, m: Maths): Extraction {
    ExtractWith(Slice(rows, Offset(start), end), FeaturesOf(m), LogReturn(m.log))
  }

  method ExtractFeaturesAndLabels(rows: seq<Row>, start: nat, end: nat, m: Maths) returns (e: Extraction)
    ensures e == Extract(rows, start, end, m)
  {
    var slice := Slice(rows, Offset(start), end);
    if |slice| <= LOOK_BACK {
      return Samples([]);
    }
    e := ExtractFromSlice(slice, m);
  }

  /** The first domain error ends the loop. */
  method ExtractFromSlice(slice: seq<Row>, m: Maths) returns (e: Extraction)
    requires |slice| > LOOK_BACK
    ensures e == ExtractedFor(slice, |slice| - 1, m)
  {
    e := Samples([]);
    var i := LOOK_BACK;
    while i < |slice| - 1 && e.Samples?
      invariant LOOK_BACK <= i < |slice|
      invariant e == ExtractedFor(slice, i, m)
    {
      e := ExtractRow(slice, i, e, m);
      i := i + 1;
    }
    if e.Failed? { FailureLasts(slice, i, |slice| - 1, FeaturesOf(m), LogReturn(m.log)); }
  }

  function ExtractedFor(slice: seq<Row>, k: nat, m: Maths): Extraction
    requires k < |slice|
  {
    Extracted(slice, k, FeaturesOf(m), LogReturn(m.log))
  }

  /** The loop body: one more row of the slice. */
  method ExtractRow(slice: seq<Row>, i: nat, e: Extraction, m: Maths) returns (e': Extraction)
    requires LOOK_BACK <= i && i + 1 < |slice| && e == ExtractedFor(slice, i, m)
    ensures e' == ExtractedFor(slice, i + 1, m)
  {
    var feature := FeatureRow(slice, i, m);
    var c := Contribute(slice, i, feature, LogReturn(m.log));
    ExtractedStep(slice, i, FeaturesOf(m), LogReturn(m.log));
    e' := Extended(e, c);
  }

  method FeatureRow(slice: seq<Row>, i: nat, m: Maths) returns (o: Outcome)
    requires i < |slice|
    ensures o == FeaturesAt(slice, i, FeaturesOf(m))
  {
    o := BuildFeatures(Ticks(slice[..i + 1]), LOOK_BACK, m);
  }

  lemma ExtractedStep(slice: seq<Row>, i: nat, f: seq<Tick> -> Outcome, ret: (real, real) -> real)
    requires LOOK_BACK <= i && i + 1 < |slice|
    ensures Extracted(slice, i + 1, f, ret) ==
      Extended(Extracted(slice, i, f, ret), Contribute(slice, i, FeaturesAt(slice, i, f), ret))
  {}

  lemma {:induction false} FailureLasts(slice: seq<Row>, j: nat, k: nat, f: seq<Tick> -> Outcome,
      ret: (real, real) -> real)
    requires j <= k < |slice| && Extracted(slice, j, f, ret).Failed?
    ensures Extracted(slice, k, f, ret).Failed?
    decreases k
  {
    if j < k { FailureLasts(slice, j, k - 1, f, ret); }
  }

  // ---- What a sample depends on --------------------------------------------------------------

  predicate PositivePrices(rows: seq<Row>) { forall i :: 0 <= i < |rows| ==> rows[i].tick.price > 0.0 }

  /** What build_features gives: a function of the last LOOK_BACK + 1 ticks, and a
      vector as soon as there are that many positive prices. */
  ghost predicate LooksBackOnly(f: seq<Tick> -> Outcome) {
    && (forall t: seq<Tick>, cut: nat {:trigger t[cut..]} :: cut + LOOK_BACK + 1 <= |t| ==> f(t[cut..]) == f(t))
    && (forall t: seq<Tick> {:trigger f(t)} :: AllPositive(t) && |t| >= LOOK_BACK + 1 ==> f(t).Vector?)
  }

  lemma FeaturesLookBackOnly(m: Maths)
    ensures LooksBackOnly(FeaturesOf(m))
  {
    var f := FeaturesOf(m);
    forall t: seq<Tick>, cut: nat | cut + LOOK_BACK + 1 <= |t|
      ensures f(t[cut..]) == f(t)
    {
      TailSuffices(t, cut, LOOK_BACK, m);
    }
    forall t: seq<Tick> | AllPositive(t) && |t| >= LOOK_BACK + 1
      ensures f(t).Vector?
    {
      PositiveIsReady(t, LOOK_BACK, m);
    }
  }

  /** The sample of row r, from the full history up to r and the price after it. */
  predicate IsSampleOf(s: Sample, rows: seq<Row>, r: nat, f: seq<Tick> -> Outcome, ret: (real, real) -> real)
    requires r + 1 < |rows|
  {
    && FeaturesAt(rows, r, f) == Vector(s.x)
    && s.y == ret(rows[r].tick.price, rows[r + 1].tick.price)
    && s.regime == rows[r].regime
  }

  lemma SampleOfRow(rows: seq<Row>, off: nat, top: nat, i: nat, f: seq<Tick> -> Outcome, ret: (real, real) -> real)
    requires PositivePrices(rows) && LooksBackOnly(f) && off + i + 1 < top <= |rows| && i >= LOOK_BACK
    ensures var c := Contribute(rows[off..top], i, FeaturesAt(rows[off..top], i, f), ret);
      c.Adds? && IsSampleOf(c.sample, rows, off + i, f, ret)
  {
    var whole := Ticks(rows[..off + i + 1]);
    assert Ticks(rows[off..top][..i + 1]) == whole[off..];
    assert AllPositive(whole);
  }

  lemma {:induction false} ExtractedRows(rows: seq<Row>, off: nat, top: nat, k: nat,
                                         f: seq<Tick> -> Outcome, ret: (real, real) -> real)
    requires PositivePrices(rows) && LooksBackOnly(f) && off + k < top <= |rows| && k >= LOOK_BACK
    ensures var e := Extracted(rows[off..top], k, f, ret);
      e.Samples? && |e.samples| == k - LOOK_BACK &&
      forall i :: 0 <= i < |e.samples| ==> IsSampleOf(e.samples[i], rows, off + LOOK_BACK + i, f, ret)
    decreases k
  {
    if k > LOOK_BACK {
      ExtractedRows(rows, off, top, k - 1, f, ret);
      SampleOfRow(rows, off, top, k - 1, f, ret);
    }
  }

  function FirstRow(start: nat): nat { if start > LOOK_BACK then start else LOOK_BACK }

  ghost predicate SamplesOfRows(e: Extraction, rows: seq<Row>, first: nat, end: nat,
                                f: seq<Tick> -> Outcome, ret: (real, real) -> real)
    requires end <= |rows|
  {
    && e.Samples? && |e.samples| == (if first + 1 < end then end - 1 - first else 0)
    && forall i :: 0 <= i < |e.samples| ==> IsSampleOf(e.samples[i], rows, first + i, f, ret)
  }

  lemma SliceSamples(rows: seq<Row>, start: nat, end: nat, f: seq<Tick> -> Outcome, ret: (real, real) -> real,
                     e: Extraction)
    requires PositivePrices(rows) && LooksBackOnly(f) && start <= end <= |rows|
    requires e == ExtractWith(Slice(rows, Offset(start), end), f, ret)
    ensures SamplesOfRows(e, rows, FirstRow(start), end, f, ret)
  {
    var off := Offset(start);
    assert FirstRow(start) == off + LOOK_BACK;
    if off + LOOK_BACK + 1 < end {
      ExtractedRows(rows, off, end, end - off - 1, f, ret);
    } else {
      FewRowsGiveNone(rows, off, end, f, ret);
    }
  }

  lemma FewRowsGiveNone(rows: seq<Row>, off: nat, end: nat, f: seq<Tick> -> Outcome, ret: (real, real) -> real)
    requires end <= |rows| && end <= off + LOOK_BACK + 1
    ensures ExtractWith(Slice(rows, off, end), f, ret) == Samples([])
  {}

  /** Sample i belongs to row max(start, LOOK_BACK) + i, with the features of the full
      history; every row has one but the slice's last, which has no next price. */
  lemma SamplesMatchRows(rows: seq<Row>, start: nat, end: nat, m: Maths)
    requires PositivePrices(rows) && start <= end <= |rows|
    ensures SamplesOfRows(Extract(rows, start, end, m), rows, FirstRow(start), end, FeaturesOf(m), LogReturn(m.log))
  {
    FeaturesLookBackOnly(m);
    SliceSamples(rows, start, end, FeaturesOf(m), LogReturn(m.log), Extract(rows, start, end, m));
  }

  /** What sample i is, in prices: its label is how much the logarithm of the price
      grows to the next row, its momenta how much it grew over 5 and over 20 rows. */
  ghost predicate IsLabelled(s: Sample, rows: seq<Row>, r: nat, log: real -> real)
    requires LOOK_BACK <= r && r + 1 < |rows|
  {
    && s.y == log(rows[r + 1].tick.price) - log(rows[r].tick.price)
    && |s.x| == 6
    && s.x[0] == log(rows[r].tick.price) - log(rows[r - 5].tick.price)
    && s.x[1] == log(rows[r].tick.price) - log(rows[r - LOOK_BACK].tick.price)
    && s.regime == rows[r].regime
  }

  lemma SampleIsLabelled(s: Sample, rows: seq<Row>, r: nat, m: Maths)
    requires PositivePrices(rows) && LogProductLaw(m.log) && LOOK_BACK <= r && r + 1 < |rows|
    requires IsSampleOf(s, rows, r, FeaturesOf(m), LogReturn(m.log))
    ensures IsLabelled(s, rows, r, m.log)
  {
    var t := Ticks(rows[..r + 1]);
    assert AllPositive(t) && |t| == r + 1;
    MomentaAreReturns(t, LOOK_BACK, m, Build(t, LOOK_BACK, m));
    LogReturnIs(m.log, rows[r].tick.price, rows[r + 1].tick.price);
  }

  lemma SamplesAreLabelled(rows: seq<Row>, start: nat, end: nat, m: Maths, e: Extraction)
    requires PositivePrices(rows) && LogProductLaw(m.log) && start <= end <= |rows|
    requires e == Extract(rows, start, end, m)
    ensures e.Samples? && |e.samples| == if FirstRow(start) + 1 < end then end - 1 - FirstRow(start) else 0
    ensures forall i :: 0 <= i < |e.samples| ==> IsLabelled(e.samples[i], rows, FirstRow(start) + i, m.log)
  {
    SamplesMatchRows(rows, start, end, m);
    forall i | 0 <= i < |e.samples| ensures IsLabelled(e.samples[i], rows, FirstRow(start) + i, m.log) {
      SampleIsLabelled(e.samples[i], rows, FirstRow(start) + i, m);
    }
  }

  /** Two data sets with the same rows before end. */
  predicate SameBefore(rows: seq<Row>, rows': seq<Row>, end: nat) {
    end <= |rows| && end <= |rows'| && rows[..end] == rows'[..end]
  }

  lemma SameRow(rows: seq<Row>, rows': seq<Row>, end: nat, i: nat)
    requires SameBefore(rows, rows', end) && i < end
    ensures rows[i] == rows'[i] && (IsChange(rows, i) <==> IsChange(rows', i))
  {
    assert rows[i] == rows[..end][i] && rows'[i] == rows'[..end][i];
    if i > 0 { assert rows[i - 1] == rows[..end][i - 1] && rows'[i - 1] == rows'[..end][i - 1]; }
  }

  /** A change is where a test starts, when the rows since another one's start show none. */
  lemma NextTestStarts(rows: seq<Row>, folds: seq<Fold>, k: nat, change: nat)
    requires Tiles(rows, folds) && k < |folds| && IsChange(rows, change)
    requires folds[k].testStart < change && NoChange(rows, folds[k].testStart, change)
    ensures k + 1 < |folds| && folds[k + 1].testStart == change
  {
    var f := folds[k];
    assert IsFold(rows, f);
    assert f.testEnd == change;
  }

  lemma FirstTestStarts(rows: seq<Row>, folds: seq<Fold>, change: nat)
    requires Tiles(rows, folds) && IsChange(rows, change) && NoChange(rows, 0, change)
    ensures |folds| > 0 && folds[0].testStart == change
  {
    if |folds| > 0 { assert IsFold(rows, folds[0]); }
  }

  /** Data that agree before a fold's train_end, and change regime there, are cut the
      same way up to that fold. */
  lemma {:induction false} CutsAgree(rows: seq<Row>, rows': seq<Row>, folds: seq<Fold>, folds': seq<Fold>, k: nat)
    requires Tiles(rows, folds) && Tiles(rows', folds') && k < |folds|
    requires SameBefore(rows, rows', folds[k].trainEnd) && IsChange(rows', folds[k].trainEnd)
    ensures k < |folds'| && folds'[k].testStart == folds[k].testStart
    decreases k
  {
    var end := folds[k].trainEnd;
    assert IsFold(rows, folds[k]);
    if k == 0 {
      forall i | 0 < i < end ensures !IsChange(rows', i) { SameRow(rows, rows', end, i); }
      FirstTestStarts(rows', folds', end);
    } else {
      var before := folds[k - 1].trainEnd;
      assert IsFold(rows, folds[k - 1]) && folds[k - 1].testEnd == end;
      SameRow(rows, rows', end, before);
      assert rows[..before] == rows[..end][..before] && rows'[..before] == rows'[..end][..before];
      CutsAgree(rows, rows', folds, folds', k - 1);
      forall i | before < i < end ensures !IsChange(rows', i) { SameRow(rows, rows', end, i); }
      NextTestStarts(rows', folds', k - 1, end);
    }
  }

  /** No look-ahead in training: whatever happens at or after a fold's train_end, so
      long as the regime still changes there, the fold keeps its number, its
      boundary, the regime it trained on and every training sample. */
  lemma TrainingNeverLooksAhead(rows: seq<Row>, rows': seq<Row>, folds: seq<Fold>, folds': seq<Fold>, k: nat, m: Maths)
    requires Tiles(rows, folds) && Tiles(rows', folds') && k < |folds|
    requires SameBefore(rows, rows', folds[k].trainEnd) && IsChange(rows', folds[k].trainEnd)
    ensures k < |folds'| && folds'[k].id == folds[k].id && folds'[k].trainEnd == folds[k].trainEnd
    ensures folds'[k].before == folds[k].before
    ensures Extract(rows', 0, folds'[k].trainEnd, m) == Extract(rows, 0, folds[k].trainEnd, m)
  {
    CutsAgree(rows, rows', folds, folds', k);
    var end := folds[k].trainEnd;
    assert IsFold(rows, folds[k]) && IsFold(rows', folds'[k]);
    SameRow(rows, rows', end, end - 1);
    assert Slice(rows, 0, end) == Slice(rows', 0, end);
  }

  lemma SampleIsDetermined(s: Sample, s': Sample, rows: seq<Row>, rows': seq<Row>, r: nat,
                           f: seq<Tick> -> Outcome, ret: (real, real) -> real)
    requires r + 1 < |rows| && r + 1 < |rows'| && rows[..r + 2] == rows'[..r + 2]
    requires IsSampleOf(s, rows, r, f, ret) && IsSampleOf(s', rows', r, f, ret)
    ensures s == s'
  {
    assert rows[..r + 1] == rows[..r + 2][..r + 1] == rows'[..r + 1];
    assert rows[r] == rows[..r + 2][r] == rows'[r];
    assert rows[r + 1] == rows[..r + 2][r + 1] == rows'[r + 1];
  }

  lemma SampleDependsOnPastWith(rows: seq<Row>, rows': seq<Row>, e: Extraction, e': Extraction,
                                first: nat, end: nat, end': nat, r: nat, f: seq<Tick> -> Outcome,
                                ret: (real, real) -> real)
    requires end <= |rows| && end' <= |rows'| && LOOK_BACK <= first <= r && r + 1 < end && r + 1 < end'
    requires rows[..r + 2] == rows'[..r + 2]
    requires SamplesOfRows(e, rows, first, end, f, ret) && SamplesOfRows(e', rows', LOOK_BACK, end', f, ret)
    ensures e.samples[r - first] == e'.samples[r - LOOK_BACK]
  {
    SampleIsDetermined(e.samples[r - first], e'.samples[r - LOOK_BACK], rows, rows', r, f, ret);
  }

  /** A sample depends on the rows up to its own and the one that follows, whatever
      slice it was cut from: a test sample equals the one training would see later. */
  lemma SampleDependsOnPast(rows: seq<Row>, rows': seq<Row>, start: nat, end: nat, end': nat, r: nat, m: Maths,
                            e: Extraction, e': Extraction)
    requires PositivePrices(rows) && PositivePrices(rows')
    requires start <= end <= |rows| && end' <= |rows'| && FirstRow(start) <= r && r + 1 < end && r + 1 < end'
    requires rows[..r + 2] == rows'[..r + 2]
    requires e == Extract(rows, start, end, m) && e' == Extract(rows', 0, end', m)
    ensures e.Samples? && e'.Samples? && r - FirstRow(start) < |e.samples| && r - LOOK_BACK < |e'.samples|
    ensures e.samples[r - FirstRow(start)] == e'.samples[r - LOOK_BACK]
  {
    SamplesMatchRows(rows, start, end, m);
    SamplesMatchRows(rows', 0, end', m);
    SampleDependsOnPastWith(rows, rows', e, e', FirstRow(start), end, end', r, FeaturesOf(m), LogReturn(m.log));
  }
}
