/** The simulator object that runs the drift loop, over its controller and calibrator. */
module DriftSimulator {
  import opened Options
  import opened Matrices
  import opened StabilityIndex
  import opened AdversarialAuc
  import opened Hysteresis
  import opened DriftLoop

  /** Entries in a feature vector. */
  const FEATURES := 6

  class ActiveModelCalibrator {
    var active: Version

    constructor ()
      ensures active == Baseline
    {
      active := Baseline;
    }

    method NotifySwap(version: Version)
      modifies this
      ensures active == version
    {
      active := version;
    }
  }

  class HistoricalDriftSimulator {
    const settings: Settings
    const hysteresis: SwapHysteresisController
    const dynamicCooldown: VolatilityScaledCooldown?
    const calibrator: ActiveModelCalibrator?
    var referenceProbs: Option<seq<Sample>>
    var probHistory: seq<Sample>
    var featureHistory: Matrix
    var idx: nat

    constructor (settings: Settings, dynamicCooldown: VolatilityScaledCooldown?, calibrator: ActiveModelCalibrator?)
      requires settings.window >= 1 && (calibrator == null <==> settings.calibration.Raw?)
      ensures Valid() && this.settings == settings && this.dynamicCooldown == dynamicCooldown &&
        this.calibrator == calibrator
      ensures fresh(hysteresis) && hysteresis.Model() == Static(settings.window / 2, 0.85, 0, Baseline, [])
      ensures referenceProbs == None && probHistory == [] && featureHistory == [] && idx == 0
    {
      this.settings, this.dynamicCooldown, this.calibrator := settings, dynamicCooldown, calibrator;
      hysteresis := new SwapHysteresisController(settings.window / 2, 0.85);
      referenceProbs, probHistory, featureHistory, idx := None, [], [], 0;
    }

    predicate Valid()
      reads this
    {
      && settings.window >= 1
      && (calibrator == null <==> settings.calibration.Raw?)
      && forall x :: x in featureHistory ==> |x| == FEATURES
    }

    function Parts(): set<object> {
      {this, hysteresis} + (if dynamicCooldown == null then {} else {dynamicCooldown})
      + (if calibrator == null then {} else {calibrator})
    }

    function Ruling(): Controller
      reads hysteresis, dynamicCooldown
    {
      if dynamicCooldown == null then hysteresis.Model() else dynamicCooldown.Model()
    }

    /** Without a calibrator object the raw model speaks for whichever version rules. */
    function Model(): Loop
      reads this, hysteresis, dynamicCooldown, calibrator
    {
      Loop(settings, Ruling(), if calibrator == null then Ruling().active else calibrator.active,
           referenceProbs, probHistory, featureHistory, idx)
    }

    method IsSwapAllowed(tick: int, vol: real) returns (allowed: bool)
      modifies dynamicCooldown
      ensures allowed == SwapAllowed(old(Ruling()), tick, vol)
      ensures Ruling() == AfterVol(old(Ruling()), vol)
    {
      if dynamicCooldown != null {
        allowed := dynamicCooldown.IsSwapPermitted(tick, vol);
      } else {
        allowed := hysteresis.IsSwapAllowed();
        assert allowed == SwapAllowed(hysteresis.Model(), tick, vol);
      }
    }

    method ShouldRevert(psi: real, vol: real) returns (revert: bool)
      ensures revert == Hysteresis.ShouldRevert(Ruling(), psi, settings.psiThreshold, vol)
    {
      if dynamicCooldown != null {
        revert := dynamicCooldown.ShouldRevertToBaseline(psi, settings.psiThreshold, vol);
      } else {
        revert := hysteresis.ShouldRevertToBaseline(psi, settings.psiThreshold);
        assert revert == Hysteresis.ShouldRevert(hysteresis.Model(), psi, settings.psiThreshold, vol);
      }
    }

    method DoSwap(version: Version, tick: int, vol: real)
      modifies Parts()
      ensures Model() == old(Model()).(controller := Swapped(old(Ruling()), version, tick, vol),
                                       calibrator := version, reference := None)
    {
      if dynamicCooldown != null {
        dynamicCooldown.ExecuteSwap(version, tick, vol);
      } else {
        hysteresis.ExecuteSwap(version, tick);
        assert hysteresis.Model() == Swapped(old(hysteresis.Model()), version, tick, vol);
      }
      if calibrator != null {
        calibrator.NotifySwap(version);
      }
      referenceProbs := None;
    }

    /** The reference is stored if there is none; then both statistics. */
    method Measure() returns (psi: real, auc: real)
      requires Valid() && IsCheck(Model())
      modifies this`referenceProbs
      ensures Model() == old(Model()).(reference := Some(ReferenceAt(old(Model())))) && Valid()
      ensures psi == PsiAt(old(Model())) && auc == AucAt(old(Model()))
    {
      ghost var was := Model();
      var w := probHistory[|probHistory| - settings.window..];
      if referenceProbs.None? {
        referenceProbs := Some(w);
      }
      assert w == LastWindow(was) && referenceProbs.value == ReferenceAt(was);
      psi := ComputePsi(Values(referenceProbs.value), Values(w), BINS, settings.analysis.log);
      var mid := |featureHistory| / 2;
      HalvesUniform(featureHistory, mid);
      auc := ComputeAdversarialAuc(featureHistory[..mid], featureHistory[mid..], settings.analysis);
    }

    /** Swap, revert or hold. */
    method Act(drift: bool, psi: real, vol: real) returns (swapped: Option<Version>)
      modifies Parts()
      ensures swapped == Decide(old(Ruling()), drift, psi, settings.psiThreshold, old(idx), vol)
      ensures Model() == Acted(old(Model()), swapped, drift, vol)
    {
      if dynamicCooldown != null {
        var _ := dynamicCooldown.CalculateCooldown(vol);
      }
      var allowed := false;
      if drift {
        allowed := IsSwapAllowed(idx, vol);
      }
      if drift && allowed {
        DoSwap(Candidate, idx, vol);
        return Some(Candidate);
      }
      if ActiveVersion() == Candidate {
        var revert := ShouldRevert(psi, vol);
        if revert {
          DoSwap(Baseline, idx, vol);
          return Some(Baseline);
        }
      }
      return None;
    }

    /** The drift check of one tick. */
    method DriftCheck(vol: real) returns (swapped: Option<Version>)
      requires Valid() && IsCheck(Model())
      modifies Parts()
      ensures Model() == Checked(old(Model()), vol) && Valid()
      ensures swapped == Decision(old(Model()), vol)
    {
      ghost var was := Model();
      var psi, auc := Measure();
      CheckedAs(was, psi, auc, vol);
      var drift := psi >= settings.psiThreshold || auc >= settings.aucThreshold;
      swapped := Act(drift, psi, vol);
    }

    function ActiveVersion(): Version
      reads hysteresis, dynamicCooldown
    {
      Ruling().active
    }

    /** The probability of one feature vector joins the history. */
    method Record(x: seq<real>)
      requires Valid() && |x| == FEATURES
      modifies Parts()
      ensures Model() == Recorded(old(Model()), x) && Valid()
    {
      featureHistory := featureHistory + [x];
      var follows := if calibrator == null then ActiveVersion() else calibrator.active;
      probHistory := probHistory + [Probability(settings, ActiveVersion(), follows, x)];
      if dynamicCooldown == null {
        hysteresis.Tick();
      }
    }

    /** One row of the simulation loop, as far as drift is concerned. */
    method Tick(row: Row)
      requires Valid() && (row.feature.Some? ==> |row.feature.value| == FEATURES)
      modifies Parts()
      ensures Model() == AfterRow(old(Model()), row) && Valid()
    {
      if row.feature.None? {
        idx := idx + 1;
        return;
      }
      Record(row.feature.value);
      CheckIfDue(row.vol);
      idx := idx + 1;
    }

    method CheckIfDue(vol: real)
      requires Valid()
      modifies Parts()
      ensures Model() == (if IsCheck(old(Model())) then Checked(old(Model()), vol) else old(Model())) && Valid()
    {
      if |probHistory| >= settings.window && idx % settings.window == 0 {
        var _ := DriftCheck(vol);
      }
    }
  }

  lemma HalvesUniform(m: Matrix, mid: nat)
    requires mid <= |m| && forall x :: x in m ==> |x| == FEATURES
    ensures forall x :: x in m[..mid] || x in m[mid..] ==> |x| == FEATURES
    ensures mid > 0 ==> |m[..mid][0]| == FEATURES
  {
    assert mid > 0 ==> m[0] in m;
  }
}
