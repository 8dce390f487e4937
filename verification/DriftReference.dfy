/** What a drift check measures: which window it compares with which, whose
    probabilities they are, and what it then decides. */
module DriftReference {
  import opened Options
  import opened Matrices
  import opened StabilityIndex
  import opened AdversarialAuc
  import opened Hysteresis
  import opened DriftLoop

  // ---- One row -----------------------------------------------------------------------------

  /** The row's probability, if it has one, completes a window at a boundary. */
  predicate ChecksAt(s: Loop, row: Row) {
    && row.feature.Some? && s.settings.window >= 1
    && |s.probs| + 1 >= s.settings.window && s.tick % s.settings.window == 0
  }

  /** The window that check sees: the row's probability and those just before it. */
  function WindowSeen(s: Loop, row: Row): seq<Sample>
    requires ChecksAt(s, row)
  {
    var all := s.probs + [Probability(s.settings, s.controller.active, s.calibrator, row.feature.value)];
    all[|all| - s.settings.window..]
  }

  function Swaps(s: Loop): nat { |s.controller.log| }

  lemma RecordedLog(s: Loop, x: seq<real>)
    ensures var r := Recorded(s, x);
      r.controller.log == s.controller.log && r.reference == s.reference && r.settings == s.settings
  {}

  lemma ActedSwaps(s: Loop, decision: Option<Version>, drift: bool, vol: real)
    ensures var a := Acted(s, decision, drift, vol);
      if decision.Some? then Swaps(a) == Swaps(s) + 1 && a.reference.None?
      else Swaps(a) == Swaps(s) && a.reference == s.reference
  {}

  /** A row leaves the reference alone unless it checks; a check that holds keeps the
      reference there is or stores its own window; a check that swaps clears it. */
  lemma RowReference(s: Loop, row: Row, s': Loop)
    requires s' == AfterRow(s, row)
    ensures !ChecksAt(s, row) ==> Swaps(s') == Swaps(s) && s'.reference == s.reference
    ensures ChecksAt(s, row) && Swaps(s') == Swaps(s) ==>
      s'.reference == if s.reference.Some? then s.reference else Some(WindowSeen(s, row))
    ensures ChecksAt(s, row) && Swaps(s') != Swaps(s) ==> Swaps(s') == Swaps(s) + 1 && s'.reference.None?
  {
    if row.feature.Some? {
      var r := Recorded(s, row.feature.value);
      RecordedLog(s, row.feature.value);
      if IsCheck(r) {
        ActedSwaps(r.(reference := Some(ReferenceAt(r))), Decision(r, row.vol), DriftDetected(r), row.vol);
      }
    }
  }

  // ---- Whole runs --------------------------------------------------------------------------

  lemma {:induction false} AfterRowsSnoc(s: Loop, rows: seq<Row>, row: Row)
    ensures AfterRows(s, rows + [row]) == AfterRow(AfterRows(s, rows), row)
    decreases |rows|
  {
    if |rows| == 0 {
      assert (rows + [row])[1..] == [];
    } else {
      assert (rows + [row])[0] == rows[0] && (rows + [row])[1..] == rows[1..] + [row];
      AfterRowsSnoc(AfterRow(s, rows[0]), rows[1..], row);
    }
  }

  /** The state before row i. */
  function Before(s: Loop, rows: seq<Row>, i: nat): Loop
    requires i <= |rows|
  {
    AfterRows(s, rows[..i])
  }

  lemma NextBefore(s: Loop, rows: seq<Row>, i: nat)
    requires i < |rows|
    ensures Before(s, rows, i + 1) == AfterRow(Before(s, rows, i), rows[i])
  {
    assert rows[..i + 1] == rows[..i] + [rows[i]];
    AfterRowsSnoc(s, rows[..i], rows[i]);
  }

  lemma {:induction false} SwapsGrow(s: Loop, rows: seq<Row>, i: nat, j: nat)
    requires i <= j <= |rows|
    ensures Swaps(Before(s, rows, i)) <= Swaps(Before(s, rows, j))
    decreases j
  {
    if i < j {
      SwapsGrow(s, rows, i, j - 1);
      NextBefore(s, rows, j - 1);
      RowReference(Before(s, rows, j - 1), rows[j - 1], Before(s, rows, j));
    }
  }

  /** While no swap is logged, a stored reference stays. */
  lemma {:induction false} ReferenceStays(s: Loop, rows: seq<Row>)
    requires s.reference.Some? && Swaps(AfterRows(s, rows)) == Swaps(s)
    ensures AfterRows(s, rows).reference == s.reference
    decreases |rows|
  {
    if |rows| > 0 {
      var s1 := AfterRow(s, rows[0]);
      RowReference(s, rows[0], s1);
      assert rows[1..][..|rows| - 1] == rows[1..] && rows[1..][..0] == [];
      SwapsGrow(s1, rows[1..], 0, |rows| - 1);
      ReferenceStays(s1, rows[1..]);
    }
  }

  /** Row i is checked, and neither it nor any row up to the n-th swaps. */
  predicate ChecksSinceSwap(s: Loop, rows: seq<Row>, i: nat, n: nat)
    requires i < n <= |rows|
  {
    ChecksAt(Before(s, rows, i), rows[i]) && Swaps(Before(s, rows, i)) == Swaps(Before(s, rows, n))
  }

  predicate IsFirstCheck(s: Loop, rows: seq<Row>, i: nat, n: nat)
    requires i < n <= |rows|
  {
    ChecksSinceSwap(s, rows, i, n) && forall j :: 0 <= j < i ==> !ChecksSinceSwap(s, rows, j, n)
  }

  predicate NoCheckSinceSwap(s: Loop, rows: seq<Row>, n: nat)
    requires n <= |rows|
  {
    forall i :: 0 <= i < n ==> !ChecksSinceSwap(s, rows, i, n)
  }

  /** What the reference after n rows is. */
  predicate ReferenceIs(s: Loop, rows: seq<Row>, n: nat, reference: Option<seq<Sample>>)
    requires n <= |rows|
  {
    || (NoCheckSinceSwap(s, rows, n) && reference.None?)
    || exists i :: 0 <= i < n && IsFirstCheck(s, rows, i, n) &&
         reference == Some(WindowSeen(Before(s, rows, i), rows[i]))
  }

  lemma SinceSwapStays(s: Loop, rows: seq<Row>, i: nat, n: nat)
    requires i < n < |rows| && Swaps(Before(s, rows, n + 1)) == Swaps(Before(s, rows, n))
    ensures ChecksSinceSwap(s, rows, i, n + 1) <==> ChecksSinceSwap(s, rows, i, n)
  {}

  lemma FirstStaysFirst(s: Loop, rows: seq<Row>, i: nat, n: nat)
    requires i < n < |rows| && Swaps(Before(s, rows, n + 1)) == Swaps(Before(s, rows, n))
    requires IsFirstCheck(s, rows, i, n)
    ensures IsFirstCheck(s, rows, i, n + 1)
  {
    var m := n + 1;
    SinceSwapStays(s, rows, i, n);
    forall j: nat | j < i ensures !ChecksSinceSwap(s, rows, j, m) { SinceSwapStays(s, rows, j, n); }
  }

  lemma NoneUntilNow(s: Loop, rows: seq<Row>, n: nat)
    requires n < |rows| && Swaps(Before(s, rows, n + 1)) == Swaps(Before(s, rows, n)) && NoCheckSinceSwap(s, rows, n)
    ensures if ChecksAt(Before(s, rows, n), rows[n]) then IsFirstCheck(s, rows, n, n + 1)
            else NoCheckSinceSwap(s, rows, n + 1)
  {
    var m := n + 1;
    forall j: nat | j < n ensures !ChecksSinceSwap(s, rows, j, m) { SinceSwapStays(s, rows, j, n); }
  }

  /** The row after n does not swap: a first check stays first, and otherwise the row
      is one itself or there is still none. */
  lemma HoldKeepsReference(s: Loop, rows: seq<Row>, n: nat, now: Loop, later: Loop)
    requires n < |rows| && now == Before(s, rows, n) && later == Before(s, rows, n + 1)
    requires ReferenceIs(s, rows, n, now.reference) && Swaps(later) == Swaps(now)
    ensures ReferenceIs(s, rows, n + 1, later.reference)
  {
    NextBefore(s, rows, n);
    RowReference(now, rows[n], later);
    if now.reference.Some? {
      var i :| 0 <= i < n && IsFirstCheck(s, rows, i, n) &&
               now.reference == Some(WindowSeen(Before(s, rows, i), rows[i]));
      FirstStaysFirst(s, rows, i, n);
    } else {
      NoneUntilNow(s, rows, n);
    }
  }

  /** The row after n swaps: every earlier check is before a swap. */
  lemma SwapForgetsReference(s: Loop, rows: seq<Row>, n: nat, now: Loop, later: Loop)
    requires n < |rows| && now == Before(s, rows, n) && later == Before(s, rows, n + 1)
    requires Swaps(later) != Swaps(now)
    ensures ReferenceIs(s, rows, n + 1, later.reference)
  {
    NextBefore(s, rows, n);
    RowReference(now, rows[n], later);
    var m := n + 1;
    forall i: nat | i < m ensures !ChecksSinceSwap(s, rows, i, m) { SwapsGrow(s, rows, i, n); }
  }

  lemma {:induction false} ReferenceIsFirstWindow(s: Loop, rows: seq<Row>, n: nat)
    requires s.reference.None? && n <= |rows|
    ensures ReferenceIs(s, rows, n, Before(s, rows, n).reference)
    decreases n
  {
    if n > 0 {
      ReferenceIsFirstWindow(s, rows, n - 1);
      var now, later := Before(s, rows, n - 1), Before(s, rows, n);
      if Swaps(later) == Swaps(now) {
        HoldKeepsReference(s, rows, n - 1, now, later);
      } else {
        SwapForgetsReference(s, rows, n - 1, now, later);
      }
    }
  }

  /** Over every run, the reference is the window of the first check since the last
      swap, and there is none exactly when there was no check since. */
  lemma ReferenceOfRun(st: Settings, c: Controller, rows: seq<Row>)
    ensures ReferenceIs(Start(st, c), rows, |rows|, AfterRows(Start(st, c), rows).reference)
  {
    assert rows[..|rows|] == rows;
    ReferenceIsFirstWindow(Start(st, c), rows, |rows|);
  }

  /** A check compares its window with the stored reference, or with itself where
      there is none. */
  lemma CheckMeasures(s: Loop, row: Row, r: Loop)
    requires ChecksAt(s, row) && r == Recorded(s, row.feature.value)
    ensures IsCheck(r)
    ensures var seen := WindowSeen(s, row);
      PsiAt(r) == Psi(Values(if s.reference.Some? then s.reference.value else seen), Values(seen), BINS,
                      s.settings.analysis.log)
  {
    assert LastWindow(r) == WindowSeen(s, row);
  }

  /** The other statistic compares the earlier half of all features with the later. */
  lemma AucCompares(s: Loop, x: seq<real>, r: Loop)
    requires r == Recorded(s, x)
    ensures var all := s.features + [x];
      AucAt(r) == Auc(all[..|all| / 2], all[|all| / 2..], s.settings.analysis)
  {}

  // ---- What is decided ---------------------------------------------------------------------

  /** A check swaps to the candidate exactly when one of the two statistics reaches
      its threshold and the cooldown has passed; it reverts exactly when it does not
      swap, the candidate is active and PSI is under the recovery bound. */
  lemma DecisionIs(r: Loop, vol: real)
    requires IsCheck(r)
    ensures Decision(r, vol) == Some(Candidate) <==>
      (PsiAt(r) >= r.settings.psiThreshold || AucAt(r) >= r.settings.aucThreshold)
      && SwapAllowed(AfterVol(r.controller, vol), r.tick, vol)
    ensures Decision(r, vol) == Some(Baseline) <==>
      Decision(r, vol) != Some(Candidate) && r.controller.active.Candidate?
      && ShouldRevert(r.controller, PsiAt(r), r.settings.psiThreshold, vol)
  {}

  /** A controller reverts while PSI is under its fraction of the threshold. */
  lemma RevertIs(c: Controller, psi: real, threshold: real, vol: real)
    ensures ShouldRevert(c, psi, threshold, vol) <==>
      psi < (if c.Static? then c.recoveryFraction else EffectiveFraction(c.scaling, vol)) * threshold
  {}

  // ---- What a row does to its controller ---------------------------------------------------

  /** The volatility estimate after n more readings of vol. */
  function Updated(s: Scaling, ema: real, vol: real, n: nat): real {
    if n == 0 then ema else NextEma(s, Updated(s, ema, vol, n - 1), vol)
  }

  lemma UpdatedTwice(s: Scaling, ema: real, vol: real)
    ensures Updated(s, ema, vol, 1) == NextEma(s, ema, vol)
    ensures Updated(s, ema, vol, 2) == NextEma(s, NextEma(s, ema, vol), vol)
    ensures Updated(s, ema, vol, 3) == NextEma(s, NextEma(s, NextEma(s, ema, vol), vol), vol)
  {
    assert Updated(s, ema, vol, 0) == ema;
    assert Updated(s, ema, vol, 1) == NextEma(s, Updated(s, ema, vol, 0), vol);
    assert Updated(s, ema, vol, 2) == NextEma(s, Updated(s, ema, vol, 1), vol);
  }

  /** A check reads the volatility into a dynamic controller's estimate once for its
      report, again when it has found drift, and again when it swaps. */
  lemma ActedUpdates(s: Loop, decision: Option<Version>, drift: bool, vol: real)
    requires s.controller.Dynamic?
    ensures var a := Acted(s, decision, drift, vol).controller;
      a.Dynamic? && a.emaVol == Updated(s.controller.scaling, s.controller.emaVol, vol,
        1 + (if drift then 1 else 0) + (if decision.Some? then 1 else 0))
  {
    UpdatedTwice(s.controller.scaling, s.controller.emaVol, vol);
  }

  lemma RowUpdates(s: Loop, row: Row, s': Loop)
    requires s.controller.Dynamic? && s' == AfterRow(s, row)
    ensures s'.controller.Dynamic?
    ensures !ChecksAt(s, row) ==> s'.controller == s.controller
    ensures ChecksAt(s, row) ==>
      s'.controller.emaVol == Updated(s.controller.scaling, s.controller.emaVol, row.vol,
              1 + (if DriftDetected(Recorded(s, row.feature.value)) then 1 else 0)
                + (if Decision(Recorded(s, row.feature.value), row.vol).Some? then 1 else 0))
  {
    if ChecksAt(s, row) {
      var r := Recorded(s, row.feature.value);
      ActedUpdates(r.(reference := Some(ReferenceAt(r))), Decision(r, row.vol), DriftDetected(r), row.vol);
    }
  }

  /** A static controller counts the feature vectors since its last swap. */
  lemma RowTicks(s: Loop, row: Row, s': Loop)
    requires s.controller.Static? && s' == AfterRow(s, row)
    ensures s'.controller.Static?
    ensures s'.controller.ticks ==
      if Swaps(s') != Swaps(s) then 0 else s.controller.ticks + (if row.feature.Some? then 1 else 0)
  {}

  // ---- Whose probabilities -------------------------------------------------------------------

  /** The value is what its source says of the features: its fitted calibrator, or its
      raw model. */
  predicate Explains(st: Settings, p: Sample, x: seq<real>) {
    var c := st.calibration;
    p.p == if p.source.Candidate?
           then if c.Platt? && c.candidateFitted then c.candidate(x) else st.candidate(x)
           else if c.Platt? && c.baselineFitted then c.baseline(x) else st.baseline(x)
  }

  predicate Explained(s: Loop) {
    && s.controller.active == s.calibrator && |s.probs| == |s.features|
    && forall i :: 0 <= i < |s.probs| ==> Explains(s.settings, s.probs[i], s.features[i])
  }

  lemma RecordedIsExplained(s: Loop, x: seq<real>)
    requires Explained(s)
    ensures Explained(Recorded(s, x))
  {
    var r := Recorded(s, x);
    forall i | 0 <= i < |r.probs| ensures Explains(r.settings, r.probs[i], r.features[i]) {
      if i < |s.probs| { assert Explains(s.settings, s.probs[i], s.features[i]); }
    }
  }

  lemma ActedHistory(s: Loop, decision: Option<Version>, drift: bool, vol: real)
    requires s.controller.active == s.calibrator
    ensures var a := Acted(s, decision, drift, vol);
      a.settings == s.settings && a.probs == s.probs && a.features == s.features && a.controller.active == a.calibrator
  {}

  lemma RowKeepsExplained(s: Loop, row: Row, s': Loop)
    requires Explained(s) && s' == AfterRow(s, row)
    ensures Explained(s') && s'.settings == s.settings
  {
    if row.feature.Some? {
      var r := Recorded(s, row.feature.value);
      RecordedIsExplained(s, row.feature.value);
      if IsCheck(r) {
        ActedHistory(r.(reference := Some(ReferenceAt(r))), Decision(r, row.vol), DriftDetected(r), row.vol);
      }
    }
  }

  /** Over every run there is one probability for every feature vector, in order, from
      the model or calibrator of the version it is attributed to. */
  lemma {:induction false} RunIsExplained(s: Loop, rows: seq<Row>)
    requires Explained(s)
    ensures Explained(AfterRows(s, rows)) && AfterRows(s, rows).settings == s.settings
    decreases |rows|
  {
    if |rows| > 0 {
      RowKeepsExplained(s, rows[0], AfterRow(s, rows[0]));
      RunIsExplained(AfterRow(s, rows[0]), rows[1..]);
    }
  }
}
