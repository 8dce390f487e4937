/** The two swap controllers of the drift loop and the calibrator that follows them. */
module Hysteresis {
  datatype Version = Baseline | Candidate

  datatype SwapRecord = SwapRecord(tick: int, from: Version, to: Version)

  /** The settings of a volatility-scaled cooldown. */
  datatype Scaling = Scaling(baseCooldown: int, volRef: real, minCooldown: int, maxCooldown: int,
                             recoveryFraction: real, decay: real)

  /** A controller's whole state: a fixed cooldown counted in ticks, or one that
      shrinks as volatility rises. */
  datatype Controller =
    | Static(cooldown: int, recoveryFraction: real, ticks: nat, active: Version, log: seq<SwapRecord>)
    | Dynamic(scaling: Scaling, lastSwap: int, emaVol: real, active: Version, log: seq<SwapRecord>)

  const VOL_FLOOR: real := 0.000001

  /** int(x): towards zero. */
  function Truncated(x: real): int {
    if x >= 0.0 then x.Floor else -((-x).Floor)
  }

  function Max(x: int, y: int): int { if x >= y then x else y }

  function Min(x: int, y: int): int { if x <= y then x else y }

  function AtLeast(x: real, floor: real): real { if x > floor then x else floor }

  predicate TracksVol(s: Scaling, vol: real) { s.decay > 0.0 && vol > 0.0 }

  function Mixed(decay: real, ema: real, vol: real): real { decay * ema + (1.0 - decay) * vol }

  /** The running volatility after one more observation, where one is kept. */
  function NextEma(s: Scaling, ema: real, vol: real): real {
    if TracksVol(s, vol) then Mixed(s.decay, ema, vol) else ema
  }

  function EffectiveVol(s: Scaling, ema: real, vol: real): real {
    if TracksVol(s, vol) then NextEma(s, ema, vol) else AtLeast(vol, VOL_FLOOR)
  }

  function RawCooldown(base: int, volRef: real, eff: real): int
    requires eff != 0.0
  {
    Truncated(base as real * (volRef / eff))
  }

  function Cooldown(s: Scaling, ema: real, vol: real): int {
    var eff := EffectiveVol(s, ema, vol);
    if eff <= 0.0 then s.baseCooldown
    else Max(s.minCooldown, Min(s.maxCooldown, RawCooldown(s.baseCooldown, s.volRef, eff)))
  }

  /** A positive volatility estimate stays positive, and the cooldown in range. */
  lemma CooldownInRange(s: Scaling, ema: real, vol: real)
    requires s.minCooldown <= s.maxCooldown && ema > 0.0 && s.decay <= 1.0
    ensures s.minCooldown <= Cooldown(s, ema, vol) <= s.maxCooldown
    ensures NextEma(s, ema, vol) > 0.0
  {
    if TracksVol(s, vol) { MixPositive(s.decay, ema, vol); }
  }

  lemma MixPositive(decay: real, ema: real, vol: real)
    requires 0.0 < decay <= 1.0 && ema > 0.0 && vol > 0.0
    ensures Mixed(decay, ema, vol) > 0.0
  {
    ProductSign(decay, ema);
    ProductSign(1.0 - decay, vol);
  }

  lemma MixGrows(decay: real, ema: real, low: real, high: real)
    requires decay <= 1.0 && low <= high
    ensures Mixed(decay, ema, low) <= Mixed(decay, ema, high)
  {
    ProductGrows(1.0 - decay, low, high);
  }

  /** What a comparison of two readings takes: both feed the moving average, or
      neither does, or the average they reach is over the floor. */
  predicate Comparable(decay: real, ema: real, low: real, high: real) {
    || decay <= 0.0
    || high <= 0.0
    || (decay <= 1.0 && ema > 0.0 && (low > 0.0 || Mixed(decay, ema, high) >= VOL_FLOOR))
  }

  lemma EffectiveGrows(s: Scaling, ema: real, low: real, high: real)
    requires low <= high && Comparable(s.decay, ema, low, high)
    ensures 0.0 < EffectiveVol(s, ema, low) <= EffectiveVol(s, ema, high)
  {
    if TracksVol(s, low) {
      MixPositive(s.decay, ema, low);
      MixGrows(s.decay, ema, low, high);
    }
  }

  /** Higher volatility never lengthens the cooldown. */
  lemma CooldownShrinksWithVol(s: Scaling, ema: real, low: real, high: real)
    requires s.baseCooldown >= 0 && s.volRef >= 0.0
    requires low <= high && Comparable(s.decay, ema, low, high)
    ensures Cooldown(s, ema, high) <= Cooldown(s, ema, low)
  {
    EffectiveGrows(s, ema, low, high);
    RawShrinks(s.baseCooldown, s.volRef, EffectiveVol(s, ema, low), EffectiveVol(s, ema, high));
  }

  /** Two readings that are not comparable can lengthen it. */
  lemma IncomparableLengthens(s: Scaling, ema: real, low: real, high: real)
    requires s.decay <= 1.0 && ema > 0.0 && low <= high && !Comparable(s.decay, ema, low, high)
    requires s.baseCooldown == 1 && s.volRef == Mixed(s.decay, ema, high)
    requires s.minCooldown == 0 && s.maxCooldown == 1
    ensures s.volRef > 0.0 && Cooldown(s, ema, high) > Cooldown(s, ema, low)
  {
    MixPositive(s.decay, ema, high);
    assert s.volRef / s.volRef == 1.0;
    assert RawCooldown(1, s.volRef, s.volRef) == 1;
    QuotientBelowOne(s.volRef, VOL_FLOOR);
    assert RawCooldown(1, s.volRef, VOL_FLOOR) == 0;
  }

  lemma QuotientBelowOne(x: real, y: real)
    requires 0.0 <= x < y
    ensures 0.0 <= x / y < 1.0
  {}

  /** For an average that can be trusted, comparable readings are exactly those
      whose rise lengthens no cooldown of any setting. */
  lemma CooldownShrinksIff(decay: real, ema: real, low: real, high: real)
    requires decay <= 1.0 && ema > 0.0 && low <= high
    ensures Comparable(decay, ema, low, high) <==>
      forall s: Scaling :: s.decay == decay && s.baseCooldown >= 0 && s.volRef >= 0.0 ==>
        Cooldown(s, ema, high) <= Cooldown(s, ema, low)
  {
    if Comparable(decay, ema, low, high) {
      forall s: Scaling | s.decay == decay && s.baseCooldown >= 0 && s.volRef >= 0.0
        ensures Cooldown(s, ema, high) <= Cooldown(s, ema, low)
      {
        CooldownShrinksWithVol(s, ema, low, high);
      }
    } else {
      var s := Scaling(1, Mixed(decay, ema, high), 0, 1, 0.0, decay);
      IncomparableLengthens(s, ema, low, high);
    }
  }

  lemma RawShrinks(base: int, volRef: real, low: real, high: real)
    requires base >= 0 && volRef >= 0.0 && 0.0 < low <= high
    ensures RawCooldown(base, volRef, high) <= RawCooldown(base, volRef, low)
  {
    QuotientShrinks(volRef, low, high);
    ScaledFloors(base as real, volRef / high, volRef / low);
  }

  lemma ScaledFloors(b: real, q: real, r: real)
    requires b >= 0.0 && 0.0 <= q <= r
    ensures Truncated(b * q) <= Truncated(b * r)
  {
    ProductGrows(b, q, r);
    ProductSign(b, q);
    FloorGrows(b * q, b * r);
  }

  lemma QuotientShrinks(a: real, x: real, y: real)
    requires a >= 0.0 && 0.0 < x <= y
    ensures 0.0 <= a / y <= a / x
  {
    var q, r := a / y, a / x;
    assert q * y == a && r * x == a;
    ProductGrows(r, x, y);
    if q > r { ProductGrows(y, r, q); }
  }

  lemma ProductGrows(a: real, x: real, y: real)
    requires a >= 0.0 && x <= y
    ensures a * x <= a * y
    ensures a > 0.0 && x < y ==> a * x < a * y
  {
    ProductSign(a, y - x);
    assert a * y - a * x == a * (y - x);
  }

  lemma ProductSign(a: real, b: real)
    requires a >= 0.0 && b >= 0.0
    ensures a * b >= 0.0
    ensures a > 0.0 && b > 0.0 ==> a * b > 0.0
  {}

  lemma FloorGrows(x: real, y: real)
    requires x <= y
    ensures x.Floor <= y.Floor
  {}

  /** A scale that equals the volatility it is compared with leaves the base cooldown,
      within its bounds. */
  lemma CooldownAtReference(s: Scaling, ema: real)
    requires s.decay <= 0.0 && s.volRef > VOL_FLOOR
    ensures Cooldown(s, ema, s.volRef) == Max(s.minCooldown, Min(s.maxCooldown, s.baseCooldown))
  {
    assert s.volRef / s.volRef == 1.0;
    assert s.baseCooldown as real * 1.0 == s.baseCooldown as real;
  }

  lemma RawIs(base: int, volRef: real, eff: real, cooldown: int)
    requires eff > 0.0 && cooldown >= 0
    requires cooldown as real * eff <= base as real * volRef < (cooldown + 1) as real * eff
    ensures RawCooldown(base, volRef, eff) == cooldown
  {
    var q := volRef / eff;
    assert q * eff == volRef;
    var x := base as real * q;
    assert eff * x == base as real * (q * eff);
    Between(eff, x, cooldown as real, (cooldown + 1) as real);
    FloorIs(x, cooldown);
  }

  lemma Between(d: real, x: real, low: real, high: real)
    requires d > 0.0 && low * d <= d * x < high * d
    ensures low <= x < high
  {
    if x < low { ProductGrows(d, x, low); }
    if x >= high { ProductGrows(d, high, x); }
  }

  lemma FloorIs(x: real, n: int)
    requires n as real <= x < (n + 1) as real && n >= 0
    ensures Truncated(x) == n
  {}

  /** The documented regimes at the default settings: quiet, stress, crash, recovery. */
  lemma DefaultCooldowns(fraction: real, ema: real)
    ensures var s := Scaling(50, 0.19, 5, 200, fraction, 0.0);
      Cooldown(s, ema, 0.19) == 50 && Cooldown(s, ema, 0.44) == 21 && Cooldown(s, ema, 0.95) == 10 &&
      Cooldown(s, ema, 0.56) == 16
  {
    RawIs(50, 0.19, 0.19, 50);
    RawIs(50, 0.19, 0.44, 21);
    RawIs(50, 0.19, 0.95, 10);
    RawIs(50, 0.19, 0.56, 16);
  }

  function AfterVol(c: Controller, vol: real): Controller {
    if c.Static? then c else c.(emaVol := NextEma(c.scaling, c.emaVol, vol))
  }

  predicate SwapAllowed(c: Controller, tick: int, vol: real) {
    if c.Static? then c.ticks >= c.cooldown
    else tick - c.lastSwap >= Cooldown(c.scaling, c.emaVol, vol)
  }

  function EffectiveFraction(s: Scaling, vol: real): real {
    var ratio := s.volRef / AtLeast(vol, VOL_FLOOR);
    AtLeast(s.recoveryFraction * (if ratio < 1.0 then ratio else 1.0), 0.5)
  }

  /** Up to the reference volatility the recovery fraction is the configured one;
      above it, it shrinks with the volatility, and never below one half. */
  lemma FractionIs(s: Scaling, vol: real)
    requires s.volRef > VOL_FLOOR && s.recoveryFraction >= 0.0
    ensures vol <= s.volRef ==> EffectiveFraction(s, vol) == AtLeast(s.recoveryFraction, 0.5)
    ensures vol > s.volRef ==> 0.5 <= EffectiveFraction(s, vol) <= AtLeast(s.recoveryFraction, 0.5)
    ensures vol > s.volRef && EffectiveFraction(s, vol) > 0.5 ==>
      EffectiveFraction(s, vol) * vol == s.recoveryFraction * s.volRef
  {
    var v := AtLeast(vol, VOL_FLOOR);
    var ratio := s.volRef / v;
    assert ratio * v == s.volRef;
    if vol <= s.volRef {
      if ratio < 1.0 { ProductGrows(v, ratio, 1.0); }
    } else {
      if ratio >= 1.0 { ProductGrows(v, 1.0, ratio); }
      ProductGrows(s.recoveryFraction, ratio, 1.0);
      assert (s.recoveryFraction * ratio) * vol == s.recoveryFraction * (ratio * vol);
    }
  }

  predicate ShouldRevert(c: Controller, psi: real, threshold: real, vol: real) {
    psi < threshold * (if c.Static? then c.recoveryFraction else EffectiveFraction(c.scaling, vol))
  }

  function Swapped(c: Controller, to: Version, tick: int, vol: real): Controller {
    var log := c.log + [SwapRecord(tick, c.active, to)];
    if c.Static? then c.(active := to, ticks := 0, log := log)
    else AfterVol(c, vol).(active := to, lastSwap := tick, log := log)
  }

  class SwapHysteresisController {
    const cooldownTicks: int
    const recoveryPsiFraction: real
    var ticksSinceSwap: nat
    var activeVersion: Version
    var swapLog: seq<SwapRecord>

    constructor (cooldown: int, fraction: real)
      ensures Model() == Static(cooldown, fraction, 0, Baseline, [])
    {
      cooldownTicks, recoveryPsiFraction := cooldown, fraction;
      ticksSinceSwap, activeVersion, swapLog := 0, Baseline, [];
    }

    function Model(): Controller
      reads this
    {
      Static(cooldownTicks, recoveryPsiFraction, ticksSinceSwap, activeVersion, swapLog)
    }

    method Tick()
      modifies this
      ensures Model() == Static(cooldownTicks, recoveryPsiFraction, old(ticksSinceSwap) + 1, old(activeVersion),
        old(swapLog))
    {
      ticksSinceSwap := ticksSinceSwap + 1;
    }

    method IsSwapAllowed() returns (allowed: bool)
      ensures forall tick, vol :: allowed == SwapAllowed(Model(), tick, vol)
    {
      return ticksSinceSwap >= cooldownTicks;
    }

    method ShouldRevertToBaseline(psi: real, threshold: real) returns (revert: bool)
      ensures forall vol :: revert == ShouldRevert(Model(), psi, threshold, vol)
    {
      return psi < threshold * recoveryPsiFraction;
    }

    method ExecuteSwap(to: Version, tick: int)
      modifies this
      ensures forall vol :: Model() == Swapped(old(Model()), to, tick, vol)
    {
      var from := activeVersion;
      activeVersion := to;
      ticksSinceSwap := 0;
      swapLog := swapLog + [SwapRecord(tick, from, to)];
    }
  }

  class VolatilityScaledCooldown {
    const scaling: Scaling
    var lastSwapTick: int
    var activeVersion: Version
    var emaVol: real
    var swapLog: seq<SwapRecord>

    constructor (scaling: Scaling)
      ensures Model() == Dynamic(scaling, -scaling.maxCooldown, scaling.volRef, Baseline, [])
    {
      this.scaling := scaling;
      lastSwapTick, activeVersion, emaVol, swapLog := -scaling.maxCooldown, Baseline, scaling.volRef, [];
    }

    function Model(): Controller
      reads this
    {
      Dynamic(scaling, lastSwapTick, emaVol, activeVersion, swapLog)
    }

    method UpdateEmaVol(vol: real) returns (effective: real)
      modifies this`emaVol
      ensures effective == EffectiveVol(scaling, old(emaVol), vol)
      ensures Model() == AfterVol(old(Model()), vol)
    {
      if scaling.decay <= 0.0 || vol <= 0.0 {
        return AtLeast(vol, VOL_FLOOR);
      }
      emaVol := Mixed(scaling.decay, emaVol, vol);
      return emaVol;
    }

    method CalculateCooldown(vol: real) returns (cooldown: int)
      modifies this`emaVol
      ensures cooldown == Cooldown(scaling, old(emaVol), vol)
      ensures Model() == AfterVol(old(Model()), vol)
    {
      var effective := UpdateEmaVol(vol);
      if effective <= 0.0 {
        return scaling.baseCooldown;
      }
      var raw := RawCooldown(scaling.baseCooldown, scaling.volRef, effective);
      return Max(scaling.minCooldown, Min(scaling.maxCooldown, raw));
    }

    method IsSwapPermitted(tick: int, vol: real) returns (permitted: bool)
      modifies this`emaVol
      ensures permitted == SwapAllowed(old(Model()), tick, vol)
      ensures Model() == AfterVol(old(Model()), vol)
    {
      var cooldown := CalculateCooldown(vol);
      var elapsed := tick - lastSwapTick;
      return elapsed >= cooldown;
    }

    method ShouldRevertToBaseline(psi: real, threshold: real, vol: real) returns (revert: bool)
      ensures revert == ShouldRevert(Model(), psi, threshold, vol)
    {
      var ratio := scaling.volRef / AtLeast(vol, VOL_FLOOR);
      ratio := if ratio < 1.0 then ratio else 1.0;
      var fraction := scaling.recoveryFraction * ratio;
      fraction := AtLeast(fraction, 0.5);
      return psi < threshold * fraction;
    }

    method ExecuteSwap(to: Version, tick: int, vol: real)
      modifies this
      ensures Model() == Swapped(old(Model()), to, tick, vol)
    {
      var _ := CalculateCooldown(vol);
      swapLog := swapLog + [SwapRecord(tick, activeVersion, to)];
      activeVersion := to;
      lastSwapTick := tick;
    }
  }
}
