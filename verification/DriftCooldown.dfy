/** What the cooldown is for: how far apart the swaps of a run are, and exactly when
    a swap waits for the cooldown. */
module DriftCooldown {
  import opened Options
  import opened Matrices
  import opened AdversarialAuc
  import opened Hysteresis
  import opened DriftLoop

  // ---- At one check ------------------------------------------------------------------------

  /** If the check swaps, the cooldown has passed. */
  predicate KeepsCooldown(r: Loop, vol: real)
    requires IsCheck(r)
  {
    Decision(r, vol).Some? ==> SwapAllowed(AfterVol(r.controller, vol), r.tick, vol)
  }

  /** A check breaks the cooldown exactly when it finds the candidate active too
      early: it then reverts, whatever the cooldown says. */
  lemma SwapRespectsCooldownIff(st: Settings, c: Controller, rows: seq<Row>, x: seq<real>, vol: real, r: Loop)
    requires CheckReached(st, c, rows, x, r)
    ensures KeepsCooldown(r, vol) <==>
      r.controller.active.Baseline? || SwapAllowed(AfterVol(r.controller, vol), r.tick, vol)
  {
    if r.controller.active.Candidate? { CandidateIsNeverHeld(st, c, rows, x, vol, r); }
  }

  /** The static controller always keeps its cooldown, reverts included. */
  lemma StaticSwapsKeepCooldown(st: Settings, c: Controller, rows: seq<Row>, x: seq<real>, vol: real, r: Loop)
    requires CheckReached(st, c, rows, x, r) && r.controller.Static?
    ensures KeepsCooldown(r, vol)
  {
    StaticCooldownNeverBinds(st, c, rows, x, vol, r);
  }

  // ---- Over whole runs ---------------------------------------------------------------------

  /** Swaps happen at boundaries, in the past, a window or more apart. */
  predicate Spaced(log: seq<SwapRecord>, tick: int, window: nat)
    requires window >= 1
  {
    && (forall i :: 0 <= i < |log| ==> 0 <= log[i].tick < tick && log[i].tick % window == 0)
    && forall i, j :: 0 <= i < j < |log| ==> log[i].tick + window <= log[j].tick
  }

  /** Each swap leaves the version the one before it installed. */
  predicate Chained(log: seq<SwapRecord>, active: Version) {
    if |log| == 0 then active.Baseline?
    else
      var last := log[|log| - 1];
      active == last.to && Chained(log[..|log| - 1], last.from)
  }

  predicate Dated(c: Controller) {
    c.Dynamic? ==> c.lastSwap == if |c.log| == 0 then -c.scaling.maxCooldown else c.log[|c.log| - 1].tick
  }

  predicate Logged(s: Loop) {
    && s.settings.window >= 1
    && Spaced(s.controller.log, s.tick, s.settings.window)
    && Chained(s.controller.log, s.controller.active)
    && Dated(s.controller)
  }

  lemma MultiplesApart(a: nat, b: nat, w: nat)
    requires w >= 1 && a < b && a % w == 0 && b % w == 0
    ensures a + w <= b
  {
    var p, q := a / w, b / w;
    assert a == p * w && b == q * w;
    if q <= p {
      assert p * w - q * w == (p - q) * w;
      MultipleIsLarge(p - q, w);
      assert false;
    }
    assert q * w - p * w == (q - p) * w;
    MultipleIsLarge(q - p, w);
  }

  lemma SpacedSnoc(log: seq<SwapRecord>, e: SwapRecord, tick: nat, window: nat)
    requires window >= 1 && Spaced(log, tick, window) && e.tick == tick && tick % window == 0
    ensures Spaced(log + [e], tick + 1, window)
  {
    forall i | 0 <= i < |log| ensures log[i].tick + window <= tick { MultiplesApart(log[i].tick, tick, window); }
  }

  lemma SwapIsLogged(c: Controller, to: Version, tick: nat, vol: real, window: nat)
    requires window >= 1 && tick % window == 0
    requires Spaced(c.log, tick, window) && Chained(c.log, c.active)
    ensures var d := Swapped(c, to, tick, vol);
      Spaced(d.log, tick + 1, window) && Chained(d.log, d.active) && Dated(d)
  {
    var e := SwapRecord(tick, c.active, to);
    SpacedSnoc(c.log, e, tick, window);
    assert (c.log + [e])[..|c.log|] == c.log;
  }

  lemma JudgedLog(c: Controller, drift: bool, vol: real)
    ensures var d := Judged(c, drift, vol);
      d.log == c.log && d.active == c.active && (Dated(c) ==> Dated(d)) && (d.Static? <==> c.Static?)
  {}

  lemma ActedIsLogged(s: Loop, decision: Option<Version>, drift: bool, vol: real, s': Loop)
    requires Logged(s) && s.tick % s.settings.window == 0
    requires s' == Acted(s, decision, drift, vol).(tick := s.tick + 1)
    ensures Logged(s')
  {
    var d := Judged(s.controller, drift, vol);
    JudgedLog(s.controller, drift, vol);
    if decision.Some? { SwapIsLogged(d, decision.value, s.tick, vol, s.settings.window); }
  }

  lemma StepKeepsLogged(s: Loop, row: Row, s': Loop)
    requires Logged(s) && s' == AfterRow(s, row)
    ensures Logged(s') && s'.settings == s.settings
  {
    if row.feature.Some? {
      var r := Recorded(s, row.feature.value);
      if IsCheck(r) {
        ActedIsLogged(r.(reference := Some(ReferenceAt(r))), Decision(r, row.vol), DriftDetected(r), row.vol, s');
      }
    }
  }

  lemma {:induction false} RunKeepsLogged(s: Loop, rows: seq<Row>)
    requires Logged(s)
    ensures Logged(AfterRows(s, rows)) && AfterRows(s, rows).settings == s.settings
    decreases |rows|
  {
    if |rows| > 0 {
      StepKeepsLogged(s, rows[0], AfterRow(s, rows[0]));
      RunKeepsLogged(AfterRow(s, rows[0]), rows[1..]);
    }
  }

  /** On every run, whichever controller rules, two swaps are at least a window apart,
      and each leaves the version that the one before it installed. */
  lemma SwapsAreSpaced(st: Settings, c: Controller, rows: seq<Row>)
    requires st.window >= 1 && IsNew(c, st.window)
    ensures Logged(AfterRows(Start(st, c), rows)) && AfterRows(Start(st, c), rows).settings == st
  {
    RunKeepsLogged(Start(st, c), rows);
  }

  /** So the log of a static run keeps the documented distance. */
  lemma StaticLogKeepsCooldown(st: Settings, c: Controller, rows: seq<Row>, i: nat, j: nat)
    requires st.window >= 1 && IsNew(c, st.window) && c.Static?
    requires i < j < |AfterRows(Start(st, c), rows).controller.log|
    ensures var log := AfterRows(Start(st, c), rows).controller.log; log[i].tick + c.cooldown <= log[j].tick
  {
    SwapsAreSpaced(st, c, rows);
  }

  // ---- The volatility-scaled cooldown ------------------------------------------------------

  /** A boundary that finds the candidate active is a window or more after the swap
      that installed it. */
  lemma CandidateIsOld(s: Loop)
    requires Logged(s) && s.tick % s.settings.window == 0
    requires s.controller.Dynamic? && s.controller.active.Candidate?
    ensures s.tick - s.controller.lastSwap >= s.settings.window
  {
    var log := s.controller.log;
    MultiplesApart(log[|log| - 1].tick, s.tick, s.settings.window);
  }

  /** The cooldown a swap at a check would be asked to wait for. */
  function AskedCooldown(c: Controller, vol: real): int
    requires c.Dynamic?
  {
    Cooldown(c.scaling, AfterVol(c, vol).emaVol, vol)
  }

  /** A cooldown of at most a window has passed by the next check. */
  lemma WindowCoversCooldown(st: Settings, c: Controller, rows: seq<Row>, x: seq<real>, vol: real, r: Loop)
    requires CheckReached(st, c, rows, x, r)
    requires r.controller.Dynamic? && AskedCooldown(r.controller, vol) <= st.window
    ensures KeepsCooldown(r, vol)
  {
    var s := AfterRows(Start(st, c), rows);
    SwapsAreSpaced(st, c, rows);
    if s.controller.active.Candidate? { CandidateIsOld(s); }
    SwapRespectsCooldownIff(st, c, rows, x, vol, r);
  }

  /** Every check of every run keeps the cooldown, whatever the AUC threshold. */
  ghost predicate AlwaysKeepsCooldown(st: Settings, c: Controller) {
    forall auc: real, rows, x, vol, r ::
      CheckReached(st.(aucThreshold := auc), c, rows, x, r) ==> KeepsCooldown(r, vol)
  }

  ghost predicate CooldownsFit(s: Scaling, window: nat) {
    forall vol: real :: Cooldown(s, s.volRef, vol) <= window
  }

  /** n rows with features and the same volatility. */
  function Steady(n: nat, x: seq<real>, vol: real): (rows: seq<Row>)
    ensures |rows| == n
  {
    seq(n, _ => Row(Some(x), vol))
  }

  /** With features from the first row on, no check falls at this tick. */
  predicate NoCheckAt(tick: nat, window: nat)
    requires window >= 1
  {
    tick % window != 0 || tick + 1 < window
  }

  predicate NoCheckWithin(from: nat, to: nat, window: nat)
    requires window >= 1
  {
    forall tick :: from <= tick < to ==> NoCheckAt(tick, window)
  }

  /** What the drift loop keeps while no check falls; it has a sample a tick. */
  ghost predicate Untouched(s: Loop, s': Loop) {
    s'.settings == s.settings && s'.controller == s.controller && |s'.probs| == s'.tick
  }

  lemma QuietRow(s: Loop, row: Row, s': Loop)
    requires s.settings.window >= 1 && s.controller.Dynamic? && row.feature.Some? && |s.probs| == s.tick
    requires NoCheckAt(s.tick, s.settings.window) && s' == AfterRow(s, row)
    ensures Untouched(s, s') && s'.tick == s.tick + 1
  {}

  lemma {:induction false} QuietRun(s: Loop, n: nat, x: seq<real>, vol: real, s': Loop)
    requires s.settings.window >= 1 && s.controller.Dynamic? && |s.probs| == s.tick
    requires NoCheckWithin(s.tick, s.tick + n, s.settings.window)
    requires s' == AfterRows(s, Steady(n, x, vol))
    ensures Untouched(s, s') && s'.tick == s.tick + n
    decreases n
  {
    if n > 0 {
      var rows := Steady(n, x, vol);
      var s1 := AfterRow(s, rows[0]);
      QuietRow(s, rows[0], s1);
      assert rows[1..] == Steady(n - 1, x, vol);
      QuietRun(s1, n - 1, x, vol, s');
    }
  }

  lemma {:induction false} AfterRowsConcat(s: Loop, a: seq<Row>, b: seq<Row>)
    ensures AfterRows(s, a + b) == AfterRows(AfterRows(s, a), b)
    decreases |a|
  {
    if |a| == 0 {
      assert a + b == b;
    } else {
      assert (a + b)[0] == a[0] && (a + b)[1..] == a[1..] + b;
      AfterRowsConcat(AfterRow(s, a[0]), a[1..], b);
    }
  }

  lemma AucNonneg(base: Matrix, cur: Matrix, an: Analysis)
    ensures Auc(base, cur, an) >= 0.0
  {
    if |base| > 0 && |cur| > 0 {
      var d := |base[0]|;
      PairsPositive(|base|, |cur|);
      NonnegQuotient(Wins(Scores(base, base, cur, d, an), Scores(cur, base, cur, d, an)) as real,
                     (|base| * |cur|) as real);
    }
  }

  /** The ticks before the first check: none for a window of one, else a window. */
  function Lead(window: nat): nat { if window == 1 then 0 else window }

  lemma QuietUpTo(boundary: nat, window: nat)
    requires window >= 1 && boundary % window == 0
    ensures NoCheckWithin(boundary + 1, boundary + window, window)
  {
    forall tick | boundary + 1 <= tick < boundary + window ensures NoCheckAt(tick, window) {
      ModOf(tick, boundary / window, tick - boundary, window);
    }
  }

  lemma QuietLead(window: nat)
    requires window >= 1
    ensures NoCheckWithin(0, Lead(window), window) && Lead(window) % window == 0
  {
    ModOf(0, 0, 0, window);
    QuietUpTo(0, window);
    assert window > 1 ==> NoCheckAt(0, window);
    ModOf(window, 1, 0, window);
  }

  lemma CooldownAtMost(s: Scaling, ema: real, vol: real)
    requires s.decay <= 0.0 && s.minCooldown <= s.maxCooldown
    ensures Cooldown(s, ema, vol) <= s.maxCooldown
  {}

  /** The rows of the counterexample: quiet up to the first check, the swap to the
      candidate there, and quiet up to the next. */
  function TooEarly(window: nat, x: seq<real>, vol: real): seq<Row>
    requires window >= 1
  {
    Steady(Lead(window), x, vol) + ([Row(Some(x), vol)] + Steady(window - 1, x, vol))
  }

  lemma TooEarlyContiguous(window: nat, x: seq<real>, vol: real)
    requires window >= 1
    ensures Contiguous(TooEarly(window, x, vol))
  {}

  /** The candidate, installed at the given tick. */
  ghost predicate Installed(s: Loop, st: Settings, scaling: Scaling, tick: nat) {
    && s.settings == st && |s.probs| == s.tick
    && s.controller.Dynamic? && s.controller.scaling == scaling
    && s.controller.active.Candidate? && s.controller.lastSwap == tick
  }

  /** A boundary where the candidate can be installed. */
  ghost predicate Ripe(s: Loop, vol: real) {
    && s.settings.window >= 1 && s.settings.aucThreshold == 0.0
    && |s.probs| == s.tick && s.tick % s.settings.window == 0 && s.tick + 1 >= s.settings.window
    && s.controller.Dynamic? && s.controller.scaling.decay <= 0.0 && SwapAllowed(s.controller, s.tick, vol)
  }

  /** With drift detected and the cooldown past, the check installs the candidate. */
  lemma FirstSwap(s: Loop, x: seq<real>, vol: real, s': Loop)
    requires Ripe(s, vol) && s' == AfterRow(s, Row(Some(x), vol))
    ensures Installed(s', s.settings, s.controller.scaling, s.tick) && s'.tick == s.tick + 1
  {
    var r := Recorded(s, x);
    var mid := |r.features| / 2;
    AucNonneg(r.features[..mid], r.features[mid..], r.settings.analysis);
    assert IsCheck(r) && DriftDetected(r);
  }

  /** One window later it is still there. */
  lemma SecondCheck(s: Loop, x: seq<real>, vol: real, s': Loop)
    requires Ripe(s, vol)
    requires s' == AfterRows(s, [Row(Some(x), vol)] + Steady(s.settings.window - 1, x, vol))
    ensures Installed(s', s.settings, s.controller.scaling, s.tick) && s'.tick == s.tick + s.settings.window
  {
    var w, row := s.settings.window, Row(Some(x), vol);
    var s1 := AfterRow(s, row);
    FirstSwap(s, x, vol, s1);
    FirstRow(s, row, Steady(w - 1, x, vol));
    QuietUpTo(s.tick, w);
    QuietRun(s1, w - 1, x, vol, s');
  }

  lemma FirstRow(s: Loop, row: Row, rows: seq<Row>)
    ensures AfterRows(s, [row] + rows) == AfterRows(AfterRow(s, row), rows)
  {
    assert ([row] + rows)[1..] == rows;
  }

  lemma FirstCheck(st: Settings, c: Controller, x: seq<real>, vol: real, s: Loop)
    requires st.window >= 1 && IsNew(c, st.window) && st.aucThreshold == 0.0
    requires c.Dynamic? && c.scaling.decay <= 0.0 && c.scaling.minCooldown <= c.scaling.maxCooldown
    requires s == AfterRows(Start(st, c), Steady(Lead(st.window), x, vol))
    ensures Ripe(s, vol) && s.settings == st && s.controller == c
  {
    QuietLead(st.window);
    QuietRun(Start(st, c), Lead(st.window), x, vol, s);
    CooldownAtMost(c.scaling, c.emaVol, vol);
  }

  lemma NextBoundary(tick: nat, window: nat, next: nat)
    requires window >= 1 && tick % window == 0 && next == tick + window
    ensures next % window == 0
  {
    var q := tick / window;
    assert (q + 1) * window == q * window + window;
    ModOf(next, q + 1, 0, window);
  }

  lemma NotYetAllowed(c: Controller, tick: nat, vol: real)
    requires c.Dynamic? && c.scaling.decay <= 0.0 && tick - c.lastSwap < Cooldown(c.scaling, c.scaling.volRef, vol)
    ensures !SwapAllowed(AfterVol(c, vol), tick, vol)
  {
    CooldownIgnoresAverage(c.scaling, c.emaVol, c.scaling.volRef, vol);
  }

  lemma TooEarlyInstalls(st: Settings, c: Controller, x: seq<real>, vol: real, s: Loop) returns (tick: nat)
    requires st.window >= 1 && IsNew(c, st.window) && st.aucThreshold == 0.0
    requires c.Dynamic? && c.scaling.decay <= 0.0 && c.scaling.minCooldown <= c.scaling.maxCooldown
    requires s == AfterRows(Start(st, c), TooEarly(st.window, x, vol))
    ensures Installed(s, st, c.scaling, tick) && s.tick == tick + st.window && tick % st.window == 0
  {
    var lead, rest := Steady(Lead(st.window), x, vol), [Row(Some(x), vol)] + Steady(st.window - 1, x, vol);
    var s1 := AfterRows(Start(st, c), lead);
    FirstCheck(st, c, x, vol, s1);
    AfterRowsConcat(Start(st, c), lead, rest);
    SecondCheck(s1, x, vol, s);
    tick := s1.tick;
  }

  /** A volatility whose cooldown is longer than a window: the candidate installed at
      the first check is reverted at the second, inside its cooldown. */
  lemma LongCooldownBreaks(st: Settings, c: Controller, x: seq<real>, vol: real) returns (r: Loop)
    requires st.window >= 1 && IsNew(c, st.window) && Sensible(Start(st, c)) && st.aucThreshold == 0.0
    requires c.Dynamic? && c.scaling.decay <= 0.0 && c.scaling.minCooldown <= c.scaling.maxCooldown
    requires Cooldown(c.scaling, c.scaling.volRef, vol) > st.window
    ensures CheckReached(st, c, TooEarly(st.window, x, vol), x, r)
    ensures r.controller.active.Candidate? && Decision(r, vol) == Some(Baseline) && !KeepsCooldown(r, vol)
  {
    var rows := TooEarly(st.window, x, vol);
    var s := AfterRows(Start(st, c), rows);
    var tick := TooEarlyInstalls(st, c, x, vol, s);
    NextBoundary(tick, st.window, s.tick);
    TooEarlyContiguous(st.window, x, vol);
    r := Recorded(s, x);
    assert CheckReached(st, c, rows, x, r);
    RevertsTooEarly(st, c, rows, x, vol, r);
  }

  lemma RevertsTooEarly(st: Settings, c: Controller, rows: seq<Row>, x: seq<real>, vol: real, r: Loop)
    requires CheckReached(st, c, rows, x, r) && r.controller.active.Candidate?
    requires r.controller.Dynamic? && r.controller.scaling.decay <= 0.0
    requires r.tick - r.controller.lastSwap < Cooldown(r.controller.scaling, r.controller.scaling.volRef, vol)
    ensures Decision(r, vol) == Some(Baseline) && !KeepsCooldown(r, vol)
  {
    NotYetAllowed(r.controller, r.tick, vol);
    CandidateIsNeverHeld(st, c, rows, x, vol, r);
  }

  /** Without a moving average, the documented distance is kept on all runs if and
      only if no volatility asks for more than a window. */
  lemma CooldownKeptIff(st: Settings, c: Controller)
    requires st.window >= 1 && IsNew(c, st.window) && Sensible(Start(st, c))
    requires c.Dynamic? && c.scaling.decay <= 0.0 && c.scaling.minCooldown <= c.scaling.maxCooldown
    ensures AlwaysKeepsCooldown(st, c) <==> CooldownsFit(c.scaling, st.window)
  {
    if CooldownsFit(c.scaling, st.window) {
      FittingCooldownsAreKept(st, c);
    } else {
      var vol: real :| Cooldown(c.scaling, c.scaling.volRef, vol) > st.window;
      var r := LongCooldownBreaks(st.(aucThreshold := 0.0), c, [], vol);
    }
  }

  /** For the default settings that is a window of at least the ceiling. */
  lemma DefaultsFitIff(window: nat, fraction: real)
    ensures CooldownsFit(Scaling(50, 0.19, 5, 200, fraction, 0.0), window) <==> window >= 200
  {
    var s := Scaling(50, 0.19, 5, 200, fraction, 0.0);
    assert 0.19 / 0.01 == 19.0;
    assert RawCooldown(50, 0.19, 0.01) == 950;
    assert Cooldown(s, s.volRef, 0.01) == 200;
  }

  lemma ScalingStays(st: Settings, c: Controller, rows: seq<Row>)
    requires st.window >= 1 && IsNew(c, st.window) && c.Dynamic?
    ensures var d := AfterRows(Start(st, c), rows).controller; d.Dynamic? && d.scaling == c.scaling
  {
    RunKeepsScaling(Start(st, c), rows);
  }

  lemma StepKeepsScaling(s: Loop, row: Row, s': Loop)
    requires s.controller.Dynamic? && s' == AfterRow(s, row)
    ensures s'.controller.Dynamic? && s'.controller.scaling == s.controller.scaling
  {}

  lemma {:induction false} RunKeepsScaling(s: Loop, rows: seq<Row>)
    requires s.controller.Dynamic?
    ensures var d := AfterRows(s, rows).controller; d.Dynamic? && d.scaling == s.controller.scaling
    decreases |rows|
  {
    if |rows| > 0 {
      StepKeepsScaling(s, rows[0], AfterRow(s, rows[0]));
      RunKeepsScaling(AfterRow(s, rows[0]), rows[1..]);
    }
  }

  lemma CooldownIgnoresAverage(s: Scaling, ema: real, other: real, vol: real)
    requires s.decay <= 0.0
    ensures Cooldown(s, ema, vol) == Cooldown(s, other, vol)
  {}

  lemma FittingCooldownsAreKept(st: Settings, c: Controller)
    requires st.window >= 1 && IsNew(c, st.window) && c.Dynamic? && c.scaling.decay <= 0.0
    requires CooldownsFit(c.scaling, st.window)
    ensures AlwaysKeepsCooldown(st, c)
  {
    forall auc: real, rows, x, vol, r | CheckReached(st.(aucThreshold := auc), c, rows, x, r)
      ensures KeepsCooldown(r, vol)
    {
      ScalingStays(st.(aucThreshold := auc), c, rows);
      CooldownIgnoresAverage(c.scaling, AfterVol(r.controller, vol).emaVol, c.scaling.volRef, vol);
      WindowCoversCooldown(st.(aucThreshold := auc), c, rows, x, vol, r);
    }
  }
}
