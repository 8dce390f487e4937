/** The simulator's drift loop: one probability per tick from the active model, a
    drift check every window, and the swap or revert it decides. */
module DriftLoop {
  import opened Options
  import opened Matrices
  import opened StabilityIndex
  import opened AdversarialAuc
  import opened Hysteresis

  /** A probability, with the model that produced it as history. */
  datatype Sample = Sample(p: real, source: Version)

  datatype Calibration =
    | Raw
    | Platt(baselineFitted: bool, candidateFitted: bool, baseline: seq<real> -> real, candidate: seq<real> -> real)

  datatype Settings = Settings(window: nat, psiThreshold: real, aucThreshold: real,
                               baseline: seq<real> -> real, candidate: seq<real> -> real,
                               calibration: Calibration, analysis: Analysis)

  const BINS := 10

  /** One CSV row: its feature vector, once there is enough history for one, and the
      annualised volatility. */
  datatype Row = Row(feature: Option<seq<real>>, vol: real)

  datatype Loop = Loop(settings: Settings, controller: Controller, calibrator: Version, reference: Option<seq<Sample>>,
                       probs: seq<Sample>, features: Matrix, tick: nat)

  function RawProbability(st: Settings, active: Version, x: seq<real>): Sample {
    Sample(if active.Candidate? then st.candidate(x) else st.baseline(x), active)
  }

  /** The calibrator follows its own idea of the active model; an unfitted candidate
      falls back to the baseline, and with neither fitted the raw model answers. */
  function Probability(st: Settings, active: Version, calibrator: Version, x: seq<real>): Sample {
    match st.calibration
    case Raw => RawProbability(st, active, x)
    case Platt(bf, cf, b, c) =>
      if calibrator.Candidate? && cf then Sample(c(x), Candidate)
      else if bf then Sample(b(x), Baseline)
      else RawProbability(st, active, x)
  }

  function Values(s: seq<Sample>): (v: seq<real>)
    ensures |v| == |s|
  {
    seq(|s|, i requires 0 <= i < |s| => s[i].p)
  }

  function LastWindow(s: Loop): seq<Sample>
    requires |s.probs| >= s.settings.window
  {
    s.probs[|s.probs| - s.settings.window..]
  }

  /** A feature vector arrives: the probability joins the history, the static
      controller counts the tick. */
  function Recorded(s: Loop, x: seq<real>): Loop {
    s.(features := s.features + [x],
       probs := s.probs + [Probability(s.settings, s.controller.active, s.calibrator, x)],
       controller := if s.controller.Static? then s.controller.(ticks := s.controller.ticks + 1) else s.controller)
  }

  predicate IsCheck(s: Loop) {
    s.settings.window >= 1 && |s.probs| >= s.settings.window && s.tick % s.settings.window == 0
  }

  function ReferenceAt(s: Loop): seq<Sample>
    requires IsCheck(s)
  {
    if s.reference.Some? then s.reference.value else LastWindow(s)
  }

  function PsiAt(s: Loop): real
    requires IsCheck(s)
  {
    Psi(Values(ReferenceAt(s)), Values(LastWindow(s)), BINS, s.settings.analysis.log)
  }

  function AucAt(s: Loop): real {
    var mid := |s.features| / 2;
    Auc(s.features[..mid], s.features[mid..], s.settings.analysis)
  }

  predicate DriftDetected(s: Loop)
    requires IsCheck(s)
  {
    PsiAt(s) >= s.settings.psiThreshold || AucAt(s) >= s.settings.aucThreshold
  }

  /** What a check does, given what it measured: nothing, or a swap to the named
      model. Building the report already updates a dynamic controller's volatility
      estimate. */
  function Decide(c: Controller, drift: bool, psi: real, threshold: real, tick: int, vol: real): Option<Version> {
    if drift && SwapAllowed(AfterVol(c, vol), tick, vol) then Some(Candidate)
    else if c.active.Candidate? && ShouldRevert(c, psi, threshold, vol) then Some(Baseline)
    else None
  }

  function Judged(c: Controller, drift: bool, vol: real): Controller {
    if drift then AfterVol(AfterVol(c, vol), vol) else AfterVol(c, vol)
  }

  function Acted(s: Loop, decision: Option<Version>, drift: bool, vol: real): Loop {
    var c := Judged(s.controller, drift, vol);
    match decision
    case Some(v) => s.(controller := Swapped(c, v, s.tick, vol), calibrator := v, reference := None)
    case None => s.(controller := c)
  }

  function Decision(s: Loop, vol: real): Option<Version>
    requires IsCheck(s)
  {
    Decide(s.controller, DriftDetected(s), PsiAt(s), s.settings.psiThreshold, s.tick, vol)
  }

  function Checked(s: Loop, vol: real): Loop
    requires IsCheck(s)
  {
    Acted(s.(reference := Some(ReferenceAt(s))), Decision(s, vol), DriftDetected(s), vol)
  }

  /** A check in terms of what it measured. */
  lemma CheckedAs(s: Loop, psi: real, auc: real, vol: real)
    requires IsCheck(s) && psi == PsiAt(s) && auc == AucAt(s)
    ensures var drift := psi >= s.settings.psiThreshold || auc >= s.settings.aucThreshold;
      var d := Decide(s.controller, drift, psi, s.settings.psiThreshold, s.tick, vol);
      Decision(s, vol) == d && Checked(s, vol) == Acted(s.(reference := Some(ReferenceAt(s))), d, drift, vol)
  {}

  function AfterRow(s: Loop, row: Row): Loop {
    if row.feature.None? then s.(tick := s.tick + 1)
    else
      var r := Recorded(s, row.feature.value);
      (if IsCheck(r) then Checked(r, row.vol) else r).(tick := s.tick + 1)
  }

  function AfterRows(s: Loop, rows: seq<Row>): Loop
    decreases |rows|
  {
    if |rows| == 0 then s else AfterRows(AfterRow(s, rows[0]), rows[1..])
  }

  /** As the constructors leave them; the static one's cooldown is half a window. */
  predicate IsNew(c: Controller, window: nat) {
    c.active.Baseline? && c.log == [] &&
    if c.Static? then c.ticks == 0 && c.cooldown == window / 2
    else c.lastSwap == -c.scaling.maxCooldown && c.emaVol == c.scaling.volRef
  }

  function Start(st: Settings, c: Controller): Loop {
    Loop(st, c, Baseline, None, [], [], 0)
  }

  // ---- The invariant -----------------------------------------------------------------------

  /** The candidate's calibrator is not fitted but the baseline's is. */
  predicate FallsBack(st: Settings) {
    st.calibration.Platt? && !st.calibration.candidateFitted && st.calibration.baselineFitted
  }

  /** Whose probabilities an active version yields. */
  function Producer(st: Settings, active: Version): Version {
    if FallsBack(st) then Baseline else active
  }

  predicate AllFrom(s: seq<Sample>, v: Version) { forall j :: 0 <= j < |s| ==> s[j].source == v }

  /** Ticks processed since the last tick at which a check could fall. */
  function SinceBoundary(s: Loop): nat
    requires s.settings.window >= 1
  {
    if s.tick == 0 then 0 else (s.tick - 1) % s.settings.window
  }

  /** The samples no swap can have preceded. */
  function OwnSuffix(s: Loop, n: nat): seq<Sample> {
    if |s.probs| <= n then s.probs else s.probs[|s.probs| - n..]
  }

  predicate Consistent(s: Loop) {
    && s.settings.window >= 1
    && (s.tick == 0 ==> |s.probs| == 0)
    && s.controller.active == s.calibrator
    && (s.controller.Static? ==> s.controller.cooldown <= s.settings.window)
    && (s.controller.active.Candidate? ==> s.reference.None?)
    && (s.reference.Some? ==> |s.reference.value| == s.settings.window && AllFrom(s.reference.value, Baseline))
    && AllFrom(OwnSuffix(s, SinceBoundary(s)), Producer(s.settings, s.controller.active))
    && (s.controller.Static? ==> s.controller.ticks >= |OwnSuffix(s, SinceBoundary(s))|)
  }

  lemma ModStep(t: nat, w: nat)
    requires w >= 1
    ensures (t + 1) % w == if t % w == w - 1 then 0 else t % w + 1
  {
    var q := t / w;
    if t % w == w - 1 {
      assert (q + 1) * w == q * w + w;
      ModOf(t + 1, q + 1, 0, w);
    } else {
      ModOf(t + 1, q, t % w + 1, w);
    }
  }

  lemma ModOf(t: nat, q: int, r: nat, w: nat)
    requires r < w && t == q * w + r
    ensures t % w == r
  {
    var q' := t / w;
    assert (q - q') * w == q * w - q' * w;
    MultipleIsLarge(q - q', w);
  }

  lemma MultipleIsLarge(k: int, w: int)
    requires w >= 0
    ensures k >= 1 ==> k * w >= w
    ensures k <= -1 ==> k * w <= -w
  {}

  /** One more sample of its own: up to a whole window at a check. */
  lemma RecordedOwn(s: Loop, x: seq<real>)
    requires Consistent(s)
    ensures var r := Recorded(s, x);
      AllFrom(OwnSuffix(r, SinceBoundary(s) + 1), Producer(s.settings, s.controller.active)) &&
      (r.controller.Static? ==> r.controller.ticks >= |OwnSuffix(r, SinceBoundary(s) + 1)|)
  {
    var r := Recorded(s, x);
    var n := SinceBoundary(s);
    assert OwnSuffix(r, n + 1) == OwnSuffix(s, n) + [r.probs[|s.probs|]];
  }

  /** At a check the whole window is the active model's own. */
  lemma CheckSeesOwnWindow(s: Loop, x: seq<real>)
    requires Consistent(s) && IsCheck(Recorded(s, x))
    ensures var r := Recorded(s, x);
      |LastWindow(r)| == s.settings.window && AllFrom(LastWindow(r), Producer(s.settings, s.controller.active)) &&
      (r.controller.Static? ==> r.controller.ticks >= s.settings.window) &&
      AllFrom(ReferenceAt(r), Producer(s.settings, s.controller.active))
  {
    var r := Recorded(s, x);
    RecordedOwn(s, x);
    var w := s.settings.window;
    if s.tick > 0 {
      ModStep(s.tick - 1, w);
      assert SinceBoundary(s) + 1 == w;
    } else {
      assert |s.probs| + 1 >= w;
    }
    assert OwnSuffix(r, SinceBoundary(s) + 1) == LastWindow(r);
  }

  /** Thresholds and fractions are positive and log is a logarithm. */
  ghost predicate Sensible(s: Loop) {
    && s.settings.psiThreshold > 0.0
    && (s.controller.Static? ==> s.controller.recoveryFraction > 0.0)
    && LogLaw(s.settings.analysis.log)
  }

  lemma FractionPositive(c: Controller, vol: real, threshold: real)
    requires threshold > 0.0 && (c.Static? ==> c.recoveryFraction > 0.0)
    ensures ShouldRevert(c, 0.0, threshold, vol)
  {
    ProductSign(threshold, if c.Static? then c.recoveryFraction else EffectiveFraction(c.scaling, vol));
  }

  /** With no reference stored, the check compares the window with itself: PSI is 0,
      and a check that finds the candidate active swaps, whatever else it sees. */
  lemma CandidateAlwaysSwaps(r: Loop, vol: real)
    requires IsCheck(r) && Sensible(r) && r.controller.active.Candidate? && r.reference.None?
    ensures PsiAt(r) == 0.0
    ensures Decision(r, vol) ==
      Some(if AucAt(r) >= r.settings.aucThreshold && SwapAllowed(AfterVol(r.controller, vol), r.tick, vol)
        then Candidate else Baseline)
  {
    SelfPsiIsZero(Values(LastWindow(r)), BINS, r.settings.analysis.log);
    FractionPositive(r.controller, vol, r.settings.psiThreshold);
  }

  predicate RowContinues(s: Loop, row: Row) { |s.probs| > 0 ==> row.feature.Some? }

  /** What acting on a decision leaves alone, and that a standing reference is the
      one measured against, under the baseline. */
  lemma ActedParts(s: Loop, decision: Option<Version>, drift: bool, vol: real)
    requires s.controller.active == s.calibrator && (s.controller.active.Candidate? ==> decision.Some?)
    ensures var a := Acted(s, decision, drift, vol);
      a.settings == s.settings && a.probs == s.probs && a.controller.active == a.calibrator &&
      (a.reference.Some? ==>
        a.reference == s.reference && s.controller.active.Baseline? && a.controller.active.Baseline?)
  {}

  lemma ActedLimits(s: Loop, decision: Option<Version>, drift: bool, vol: real)
    ensures var c := Acted(s, decision, drift, vol).controller;
      (c.Static? <==> s.controller.Static?) &&
      (c.Static? ==> c.cooldown == s.controller.cooldown && c.recoveryFraction == s.controller.recoveryFraction)
  {}

  /** Right after a check, nothing is asked of the samples. */
  lemma BoundaryIsConsistent(s: Loop)
    requires s.settings.window >= 1 && s.tick > 0 && SinceBoundary(s) == 0
    requires s.controller.active == s.calibrator
    requires s.controller.Static? ==> s.controller.cooldown <= s.settings.window
    requires s.controller.active.Candidate? ==> s.reference.None?
    requires s.reference.Some? ==> |s.reference.value| == s.settings.window && AllFrom(s.reference.value, Baseline)
    ensures Consistent(s)
  {
    assert OwnSuffix(s, 0) == [];
  }

  /** A state whose check keeps it consistent. */
  ghost predicate AtBoundary(s: Loop) {
    && s.settings.window >= 1 && s.tick % s.settings.window == 0
    && s.controller.active == s.calibrator
    && (s.controller.Static? ==> s.controller.cooldown <= s.settings.window)
    && s.reference.Some? && |s.reference.value| == s.settings.window
    && (s.controller.active.Baseline? ==> AllFrom(s.reference.value, Baseline))
  }

  lemma ActedIsConsistent(s: Loop, decision: Option<Version>, drift: bool, vol: real)
    requires AtBoundary(s) && (s.controller.active.Candidate? ==> decision.Some?)
    ensures Consistent(Acted(s, decision, drift, vol).(tick := s.tick + 1))
  {
    ActedParts(s, decision, drift, vol);
    ActedLimits(s, decision, drift, vol);
    BoundaryIsConsistent(Acted(s, decision, drift, vol).(tick := s.tick + 1));
  }

  lemma MeasuredAtBoundary(s: Loop, x: seq<real>)
    requires Consistent(s) && IsCheck(Recorded(s, x))
    ensures var r := Recorded(s, x); AtBoundary(r.(reference := Some(ReferenceAt(r))))
  {
    CheckSeesOwnWindow(s, x);
  }

  /** A check acts on its measurements, and never holds a candidate. */
  lemma CheckActs(s: Loop, x: seq<real>, vol: real) returns (decision: Option<Version>, drift: bool)
    requires Consistent(s) && Sensible(s) && IsCheck(Recorded(s, x))
    ensures var r := Recorded(s, x);
      Checked(r, vol) == Acted(r.(reference := Some(ReferenceAt(r))), decision, drift, vol) &&
      (r.controller.active.Candidate? ==> decision.Some?)
  {
    var r := Recorded(s, x);
    decision, drift := Decision(r, vol), DriftDetected(r);
    if r.controller.active.Candidate? { CandidateAlwaysSwaps(r, vol); }
  }

  lemma CheckKeepsConsistent(s: Loop, x: seq<real>, vol: real, s': Loop)
    requires Consistent(s) && Sensible(s) && IsCheck(Recorded(s, x))
    requires s' == Checked(Recorded(s, x), vol).(tick := s.tick + 1)
    ensures Consistent(s')
  {
    var r := Recorded(s, x);
    var decision, drift := CheckActs(s, x, vol);
    MeasuredAtBoundary(s, x);
    ActedIsConsistent(r.(reference := Some(ReferenceAt(r))), decision, drift, vol);
  }

  lemma CheckKeepsSensible(s: Loop, x: seq<real>, vol: real)
    requires Sensible(s) && IsCheck(Recorded(s, x))
    ensures Sensible(Checked(Recorded(s, x), vol).(tick := s.tick + 1))
  {
    var r := Recorded(s, x);
    ActedLimits(r.(reference := Some(ReferenceAt(r))), Decision(r, vol), DriftDetected(r), vol);
  }

  lemma BoundaryStep(s: Loop, s': Loop)
    requires s.settings.window >= 1 && s'.settings.window == s.settings.window && s'.tick == s.tick + 1
    ensures SinceBoundary(s') <= SinceBoundary(s) + 1
  {
    var t, w := s.tick, s.settings.window;
    assert SinceBoundary(s') == t % w;
    if t > 0 { ModStep(t - 1, w); } else { ModOf(t, 0, 0, w); }
  }

  lemma RecordKeepsConsistent(s: Loop, x: seq<real>)
    requires Consistent(s) && Sensible(s) && !IsCheck(Recorded(s, x))
    ensures var s' := Recorded(s, x).(tick := s.tick + 1); Consistent(s') && Sensible(s')
  {
    var r := Recorded(s, x);
    var s' := r.(tick := s.tick + 1);
    BoundaryStep(s, s');
    RecordedOwn(s, x);
    SuffixOfSuffix(r, SinceBoundary(s'), SinceBoundary(s) + 1);
    assert OwnSuffix(s', SinceBoundary(s')) == OwnSuffix(r, SinceBoundary(s'));
  }

  lemma SkipKeepsConsistent(s: Loop)
    requires Consistent(s) && Sensible(s) && |s.probs| == 0
    ensures var s' := s.(tick := s.tick + 1); Consistent(s') && Sensible(s')
  {
    var s' := s.(tick := s.tick + 1);
    assert OwnSuffix(s', SinceBoundary(s')) == [];
  }

  ghost predicate Settled(s: Loop) { Consistent(s) && Sensible(s) }

  lemma StepKeepsConsistent(s: Loop, row: Row)
    requires Settled(s) && RowContinues(s, row)
    ensures Settled(AfterRow(s, row))
  {
    if row.feature.None? {
      SkipKeepsConsistent(s);
    } else {
      var x := row.feature.value;
      if IsCheck(Recorded(s, x)) {
        CheckKeepsConsistent(s, x, row.vol, AfterRow(s, row));
        CheckKeepsSensible(s, x, row.vol);
        assert AfterRow(s, row) == Checked(Recorded(s, x), row.vol).(tick := s.tick + 1);
      } else {
        RecordKeepsConsistent(s, x);
        assert AfterRow(s, row) == Recorded(s, x).(tick := s.tick + 1);
      }
    }
  }

  lemma SuffixOfSuffix(s: Loop, m: nat, n: nat)
    requires m <= n
    ensures |OwnSuffix(s, m)| <= |OwnSuffix(s, n)|
    ensures forall v :: AllFrom(OwnSuffix(s, n), v) ==> AllFrom(OwnSuffix(s, m), v)
  {
    var a, b := OwnSuffix(s, m), OwnSuffix(s, n);
    assert a == b[|b| - |a|..];
  }

  // ---- Every run ----------------------------------------------------------------------------

  /** Features never stop once they have begun. */
  predicate Contiguous(rows: seq<Row>) {
    forall i, j :: 0 <= i < j < |rows| && rows[i].feature.Some? ==> rows[j].feature.Some?
  }

  lemma {:induction false} RunIsConsistent(s: Loop, rows: seq<Row>)
    requires Settled(s) && Contiguous(rows)
    requires |s.probs| > 0 && |rows| > 0 ==> rows[0].feature.Some?
    ensures Settled(AfterRows(s, rows))
    ensures AfterRows(s, rows).settings == s.settings
    ensures |AfterRows(s, rows).probs| > 0 ==> |s.probs| > 0 || exists i :: 0 <= i < |rows| && rows[i].feature.Some?
    decreases |rows|
  {
    if |rows| > 0 {
      StepKeepsConsistent(s, rows[0]);
      var s' := AfterRow(s, rows[0]);
      var rest := rows[1..];
      if |s'.probs| > 0 && |rest| > 0 {
        assert rows[0].feature.Some?;
        assert rest[0] == rows[1];
      }
      RunIsConsistent(s', rest);
      if |AfterRows(s', rest).probs| > 0 && |s.probs| == 0 && rows[0].feature.None? {
        var i :| 0 <= i < |rest| && rest[i].feature.Some?;
        assert rows[i + 1] == rest[i];
      }
    }
  }

  /** The state in which a check is about to be made, reached from the start. */
  ghost predicate CheckReached(st: Settings, c: Controller, rows: seq<Row>, x: seq<real>, r: Loop) {
    && st.window >= 1 && IsNew(c, st.window) && Sensible(Start(st, c))
    && Contiguous(rows)
    && r == Recorded(AfterRows(Start(st, c), rows), x)
    && IsCheck(r)
  }

  lemma ReachedIsConsistent(st: Settings, c: Controller, rows: seq<Row>)
    requires st.window >= 1 && IsNew(c, st.window) && Sensible(Start(st, c)) && Contiguous(rows)
    ensures var s := AfterRows(Start(st, c), rows); Settled(s) && s.settings == st
  {
    assert OwnSuffix(Start(st, c), 0) == [];
    RunIsConsistent(Start(st, c), rows);
  }

  /** A check that finds the candidate active never holds. Its PSI is 0 because the
      last swap cleared the reference; it swaps to the candidate again when the AUC
      is over its threshold and the cooldown has passed, and reverts otherwise. The
      cooldown does not gate the revert. */
  lemma CandidateIsNeverHeld(st: Settings, c: Controller, rows: seq<Row>, x: seq<real>, vol: real, r: Loop)
    requires CheckReached(st, c, rows, x, r) && r.controller.active.Candidate?
    ensures r.reference.None? && PsiAt(r) == 0.0
    ensures Decision(r, vol) ==
      Some(if AucAt(r) >= st.aucThreshold && SwapAllowed(AfterVol(r.controller, vol), r.tick, vol)
        then Candidate else Baseline)
  {
    ReachedIsConsistent(st, c, rows);
    CandidateAlwaysSwaps(r, vol);
  }

  /** At every check the reference and the current window hold only probabilities of
      one producer, and controller and calibrator agree; the producer is the active
      model unless an unfitted candidate fell back to the baseline. */
  lemma WindowsAreOneModels(st: Settings, c: Controller, rows: seq<Row>, x: seq<real>, r: Loop)
    requires CheckReached(st, c, rows, x, r)
    ensures r.controller.active == r.calibrator
    ensures AllFrom(ReferenceAt(r), Producer(st, r.controller.active))
    ensures AllFrom(LastWindow(r), r.controller.active) <==> !(FallsBack(st) && r.controller.active.Candidate?)
  {
    ReachedIsConsistent(st, c, rows);
    CheckSeesOwnWindow(AfterRows(Start(st, c), rows), x);
    assert LastWindow(r)[0].source == Producer(st, r.controller.active);
  }

  /** The static cooldown, half a window, has always passed by the next check: any
      detected drift swaps to the candidate at once. */
  lemma StaticCooldownNeverBinds(st: Settings, c: Controller, rows: seq<Row>, x: seq<real>, vol: real, r: Loop)
    requires CheckReached(st, c, rows, x, r) && r.controller.Static?
    ensures SwapAllowed(r.controller, r.tick, vol)
    ensures DriftDetected(r) ==> Decision(r, vol) == Some(Candidate)
  {
    ReachedIsConsistent(st, c, rows);
    CheckSeesOwnWindow(AfterRows(Start(st, c), rows), x);
  }
}
