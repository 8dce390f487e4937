# Verified models of the adaptive-quant and multi-tenant inference stack

This project models, in Dafny, the parts of the repository whose correctness is an
argument rather than a look at one function: the hand-written ridge solver, the
asynchronous model cache and its hot swaps, the S3 disk cache, the drift loop and its
statistics, the rate limiter, feature extraction and validation splits, the Platt
calibration, and the risk and registry state machines. Everything is proved for all
inputs, all runs or all reachable states; nothing here runs the original program.

## How to read it

Python floats are `real`. `sqrt`, `log`, `sigmoid` and the model trainer are parameters
with the laws they need written as predicates (`SqrtLaw`, `LogLaw`, `LogProductLaw`,
`SigmoidLaw`, `LogisticLaw`, `CurvedLaw`). Clocks, calendar days, S3's answers and loader outcomes are
parameters or nondeterministic steps. Objects the source updates in place are classes whose methods are
proved against a specification on values; the theorems are about that specification.

| part | files |
|---|---|
| Ridge solver and fit | `LinearSolver.dfy`, `RidgeFit.dfy` over `Sums.dfy`, `Matrices.dfy` |
| Model cache, hot swap, LRU order | `ModelCache.dfy`, `CacheProtocol.dfy`, `CacheGuarantees.dfy`, `Recency.dfy`, `OrderedDicts.dfy` |
| S3 disk cache | `StorageBackend.dfy`, `StorageProtocol.dfy` |
| Drift statistics | `Psi.dfy`, `CategoricalPsi.dfy`, `AdversarialAuc.dfy`, `AucMeaning.dfy`, `Counting.dfy` |
| Drift loop | `Hysteresis.dfy`, `DriftLoop.dfy`, `DriftSimulator.dfy`, `DriftReplay.dfy`, `DriftReference.dfy`, `DriftCooldown.dfy` |
| Rate limiter | `TokenBucket.dfy` |
| Features, buffer, validation | `Features.dfy`, `FeatureMeaning.dfy`, `FeatureBuffer.dfy`, `WalkForward.dfy`, `Drawdown.dfy` |
| Calibration | `PlattFit.dfy`, `PlattLoss.dfy`, `PlattMeaning.dfy`, `KFold.dfy` |
| Risk and registry | `Risk.dfy`, `Registry.dfy`, `SharedThresholds.dfy` |

Hypotheses that carry weight, and why each is needed:

- Cache protocol: a load is never abandoned without clean-up (the memory check raises
  outside the `try`, and cancellation skips the `except`), a key in flight is never evicted
  outside the writer's section, and a waiter is not cancelled while its load runs, because it
  awaits the shared future itself (inference/model_lru_cache.py:112).
  `CacheProtocol.StepKeepsSoundIff` shows that these are exactly the steps that break the
  invariant. `CacheGuarantees.AbandonedLoadWedges` and `CacheGuarantees.AbandonedSwapWedges` show
  what abandoning does: the waiter waits, and no swap starts, until a waiter of that load is
  cancelled. `CacheGuarantees.BareEvictMisdelivers` and `CacheGuarantees.CancelSpreads` show what
  the other two do. The recency theorems also exclude manual evictions, which leave fewer models
  resident. A cancelled waiter leaves in the step that cancels it.
  `callers`, `clock`, `swapped`, `touches` and `Entry.begun` are history variables. Entering
  the fast path and taking the reader lock are one step, because the cache's lock is never
  held across a suspension; an owner's cleanup of an evicted entry is folded into its last
  step, which only lets the writer in earlier than the program does.
- Disk cache: GET is atomic, different versions have different ETags, and a torn sidecar is
  not a valid ETag. `StorageProtocol.RepeatedEtagLies` shows why the second is assumed.
  File removals are free steps, which covers the unlocked `evict_cache` in every interleaving.
- Drift loop: the PSI threshold is positive, the static recovery fraction is positive, and
  features never stop once they have begun; `DriftReplay.ReplayIsContiguous` proves the last
  for every price file that replays without a domain error.
- Ledger against breaker: the calendar does not come back to a day it left
  (`Risk.AlignedAlwaysIff` gives the exact condition, `Risk.BackwardDaysDisagree` a failure).
- Platt loss: the fitted values lie strictly inside the 500 at which the sigmoid's argument is
  clamped. The derivative facts about -log of the sigmoid and the sigmoid's growth are the law
  `LogisticLaw`; that p (1 - p) is the sigmoid's derivative is the law `CurvedLaw`.
- Cooldown against volatility: a reading that is not positive is not averaged but floored, so
  `Hysteresis.CooldownShrinksIff` says which pairs of readings compare.
- Registry: the transaction clock is strictly increasing, and no update finds its thresholds
  dictionary held by another entry. In memory an entry keeps the caller's dictionary
  (inference/tenant_model_registry.py:178) and an update changes it in place (line 223);
  `SharedThresholds.UpdateIsOwnIff` and `SharedThresholds.UpdateIsIsolatedIff` show that the second
  is exactly what agreement and isolation need, and `SharedThresholds.FreshDictsAreOwn` that callers
  who pass fresh dictionaries meet it.

## Where the code and its documentation disagree

The code is what is modelled.

- `compute_adversarial_auc` is documented to give about 0.5 for indistinguishable
  distributions (quant_finance/ingress_sim.py:168). Ties earn no credit, so a window against
  itself scores exactly 0 (`AdversarialAuc.SelfAucIsZero`).
- The cooldown is documented as the minimum distance between swaps
  (quant_finance/ingress_sim.py:53, quant_finance/hysteresis.py:110). The static controller keeps
  it, reverts included, but never needs it: swaps are a window apart and the cooldown is half a
  window (`DriftCooldown.StaticLogKeepsCooldown`, `DriftLoop.StaticCooldownNeverBinds`). The
  volatility-scaled one does not keep it, because reverts are not gated: it is broken exactly at a
  check that finds the candidate active inside its cooldown (`DriftCooldown.SwapRespectsCooldownIff`),
  and without a moving average it is kept on all runs if and only if no volatility asks for more
  than a window (`DriftCooldown.CooldownKeptIff`), which the default settings, with a window of 100
  and a ceiling of 200, do not meet (`DriftCooldown.DefaultsFitIff`).
- The volatility-scaled cooldown is documented to be 17 ticks in the recovery regime
  (quant_finance/hysteresis.py:31). The conversion to an integer makes it 16
  (`Hysteresis.DefaultCooldowns`).
- The k-fold collector promises out-of-sample signals for every point. With two or more folds
  it delivers exactly from `max(2, n_folds - 1)` points on; below that it raises an `IndexError`,
  or, for one point and two folds, returns a zero nobody computed. One fold gives all zeros
  (`KFold.KfoldOosLogits`).
- The solver asks for a symmetric positive definite matrix. Through its pivot clamp and
  fudge terms it solves a positive definite system for every matrix
  (`LinearSolver.ShiftedIsPositiveDefinite`).
- A save is documented to update S3 and the local cache atomically
  (inference/storage_backend.py:356). It can leave the cache lying in exactly two ways
  (`StorageProtocol.StepKeepsOrderedIff`, `StorageProtocol.LostSaveLies`, `StorageProtocol.RacedSaveLies`).

## Model

| member | source | states |
|---|---|---|
| LinearSolver.CholeskySolve | quant_finance/quant_model.py:154-182 | for every matrix and right-hand side the returned x satisfies (A+D)x=b exactly, with D diagonal and every entry of D positive, clamp or no clamp |
| LinearSolver.Factorise | quant_finance/quant_model.py:160-169 | the in-place loops fill L with the clamped square roots and fudged quotients the factorisation prescribes, row by row |
| LinearSolver.ForwardSubstitute | quant_finance/quant_model.py:171-174 | y solves the lower triangular system with the fudged pivots |
| LinearSolver.BackwardSubstitute | quant_finance/quant_model.py:176-180 | x solves the transposed system with the fudged pivots |
| LinearSolver.GramIsShifted | quant_finance/quant_model.py:160-169 | with fudged pivots M, M M^T equals the lower triangle of A mirrored, plus D on the diagonal |
| LinearSolver.ShiftIsPositive | quant_finance/quant_model.py:165-167 | every diagonal entry (L_ii+e)^2-(A_ii-sum L_ik^2) is positive whichever branch of the clamp was taken: the clamp's lift of the pivot plus 2e L_ii + e^2 |
| LinearSolver.SubstitutionsSolve | quant_finance/quant_model.py:171-182 | the two substitutions compose to a solution of the shifted system |
| LinearSolver.ShiftedIsPositiveDefinite | quant_finance/quant_model.py:154-182 | A+D is positive definite for every input matrix |
| LinearSolver.SolutionIsUnique | quant_finance/quant_model.py:154-182 | the shifted system has no other solution |
| RidgeFit.MomentumModel.FitScaler | quant_finance/quant_model.py:223-231 | means and positive scales of every column |
| RidgeFit.MomentumModel.Fit | quant_finance/quant_model.py:238-284 | the new weights are the one strict minimiser of the penalised least-squares objective over the old anchor and Fisher weights, for any signs of the penalties; the bias is the label sum over the row count, the label mean when the lengths are equal; the new anchor and Fisher weights are those of this fit |
| RidgeFit.SolutionMinimises | quant_finance/quant_model.py:264-275 | the solution of the shifted normal equations beats every other vector strictly |
| RidgeFit.ExcessIsForm | quant_finance/quant_model.py:264-275 | the objective of any vector exceeds the minimum by exactly the quadratic form of the difference |
| RidgeFit.BuildSystem | quant_finance/quant_model.py:250-273 | the augmented matrix is the Gram matrix plus both diagonals, the target X^T y plus the anchor's pull |
| RidgeFit.SolveWeights | quant_finance/quant_model.py:250-275 | solving it gives the strict minimiser of the objective whose extra diagonal is the one the factorisation defines |
| RidgeFit.PenaltyDiagonal | quant_finance/quant_model.py:258-262 | the consolidation diagonal is zero unless both lists are there and the lengths fit |
| RidgeFit.AnchoredTarget | quant_finance/quant_model.py:267-273 | the right-hand side is X^T y shifted towards the anchor |
| RidgeFit.ColumnsCentred | quant_finance/quant_model.py:233-234 | every scaled column sums to zero |
| RidgeFit.ColumnsHaveUnitSpread | quant_finance/quant_model.py:223-234 | every scaled column has unit sample variance, up to the floor added to its scale |
| RidgeFit.FittedSumsToZero | quant_finance/quant_model.py:276 | so the fitted part has mean zero for any weights |
| RidgeFit.Intercept | quant_finance/quant_model.py:276 | the bias equals the label sum over the row count, whatever the weights |
| ModelCache.AsyncLRUModelCache.FastPath | inference/model_lru_cache.py:79-104 | hit, soft promotion, join or ownership, with the exact new state of all four tables |
| ModelCache.AsyncLRUModelCache.MaybeEvictLru | inference/model_lru_cache.py:219-238 | only over capacity, the oldest entry leaves the hard cache and stays weakly referenced |
| ModelCache.AsyncLRUModelCache.PopInflight | inference/model_lru_cache.py:206-209 | the key's future leaves the in-flight table and is resolved if still pending |
| ModelCache.AsyncLRUModelCache.FinishLoad | inference/model_lru_cache.py:198-209 | the entry is installed most recently used, capacity restored, waiters resolved |
| ModelCache.AsyncLRUModelCache.FailLoad | inference/model_lru_cache.py:189-196 | the waiters' future carries the error and the key is free again |
| ModelCache.AsyncLRUModelCache.Evict | inference/model_lru_cache.py:114-131 | the key leaves all three tables; true exactly when it was resident |
| ModelCache.JustTouchedSurvives | inference/model_lru_cache.py:80-95 | what was just looked up, promoted or loaded is never the victim, and the size stays within bounds |
| ModelCache.TouchedServes | inference/model_lru_cache.py:219-238 | capacity takes no answer away: what leaves the hard cache is still answered as before |
| CacheGuarantees.StepServes | inference/model_lru_cache.py:79-238 | each step's effect on what a lookup of any key answers: the loaded runtime when its load or swap ends, nothing when it is dropped, unchanged otherwise |
| CacheGuarantees.RunServes | inference/model_lru_cache.py:79-238 | so over every run an answer stays as long as its key is neither loaded again nor dropped |
| CacheProtocol.StepKeepsSoundIff | inference/model_lru_cache.py:79-217 | a step of requests, loads, failures, wake-ups, cancellations, weak deaths, evictions or the three-step swap keeps the protocol invariant if and only if it neither abandons a load, nor evicts a key in flight outside the writer's section, nor cancels a waiter whose load is running |
| CacheProtocol.RunKeepsSound | inference/model_lru_cache.py:67-217 | hence every disciplined run does |
| CacheGuarantees.OneLoaderPerKey | inference/model_lru_cache.py:97-108 | no key ever has two active loaders, and none runs during a swap's load |
| CacheGuarantees.PendingHasLiveOwner | inference/model_lru_cache.py:98-104 | a pending future is its key's in-flight one and its owner is loading |
| CacheGuarantees.WaiterGetsOwnersOutcome | inference/model_lru_cache.py:110-112 | a coalesced waiter ends with exactly the runtime or exception that the task owning the future it joined ended with, and for its own key |
| CacheGuarantees.WaiterIsNeverStranded | inference/model_lru_cache.py:189-209 | a waiter can wake, or its owner can still finish |
| CacheGuarantees.NothingStaleAfterSwap | inference/app_multitenant.py:332-339 | after a swap every entry, hard or soft, and every running load of the key began at or after it |
| CacheGuarantees.SwapInstalls | inference/app_multitenant.py:332-339 | when the writer leaves, the key maps to the new runtime with no soft entry; a resident key's swap evicts no other model and keeps the others' entries and order |
| CacheGuarantees.RunKeepsRecent | inference/model_lru_cache.py:80-95 | on every disciplined run the hard cache is the last maxsize distinct keys used, in order, swaps included |
| CacheGuarantees.ResidentIffRecentlyUsed | inference/model_lru_cache.py:219-238 | a model is resident if and only if fewer than maxsize distinct models were used since some use of it |
| CacheGuarantees.NeverOverCapacity | inference/model_lru_cache.py:198-203 | the hard cache never exceeds maxsize, on undisciplined runs too |
| CacheGuarantees.AbandonedLoadWedges | inference/model_lru_cache.py:177-179 | from any sound state, if an owner with a waiter dies without clean-up, the waiter stays and the writer stays out along any run if and only if no step of it cancels a waiter of that load |
| CacheGuarantees.AbandonedSwapWedges | inference/app_multitenant.py:332-339 | likewise for the next request of the key when a swap's own load dies |
| CacheGuarantees.BareEvictMakesTwoLoaders | inference/app_multitenant.py:346-348 | from any sound state, an eviction outside the writer's section of a key in flight gives it two loaders at its next request |
| CacheGuarantees.BareEvictMisdelivers | inference/app_multitenant.py:346-348 | and then, for any such state, a waiter can be handed another loader's runtime while the owner it joined is still loading |
| CacheGuarantees.CancelSpreads | inference/model_lru_cache.py:110-112 | from any sound state, cancelling one waiter of a running load fails every other waiter of it while its owner goes on loading |
| CacheGuarantees.CancelFailsNewcomers | inference/model_lru_cache.py:97-104 | and a later request that joins the load is handed the cancelled future |
| Recency.RecentStep | inference/model_lru_cache.py:219-238 | a bounded cache that sees only its own keys keeps the last n distinct keys of the whole history |
| Recency.ResidentIff | inference/model_lru_cache.py:219-238 | membership of the last n distinct keys, characterised by distinct keys used since |
| StorageBackend.S3StorageBackend.IsCacheValid | inference/storage_backend.py:295-316 | valid exactly when both files exist and S3 agrees or cannot be reached |
| StorageBackend.S3StorageBackend.DownloadToCache | inference/storage_backend.py:239-293 | a failed GET changes nothing; otherwise the file is replaced and a sidecar written only for an ETag |
| StorageBackend.S3StorageBackend.WarmCache | inference/storage_backend.py:320-341 | the new files, success exactly for a valid cache or a completed GET, and a file on disk on success; other keys untouched |
| StorageBackend.S3StorageBackend.LoadModelBytes | inference/storage_backend.py:343-352 | the cached bytes when valid, else the downloaded ones, else the failure |
| StorageBackend.S3StorageBackend.SaveModelBytes | inference/storage_backend.py:354-385 | the local bytes are the new ones in every case; after PUT and a nonempty HEAD the cache is valid for that ETag, otherwise the old sidecar stays |
| StorageBackend.SaveMeans | inference/storage_backend.py:354-385 | after a completed save the cache is valid for exactly the ETag S3 answered |
| StorageBackend.S3StorageBackend.EvictCache | inference/storage_backend.py:394-402 | both files of the key are gone, no other key changes |
| StorageProtocol.StepKeepsOrderedIff | inference/storage_backend.py:239-402 | sidecar version <= local version <= current version is kept by a step if and only if it is not one of two hazards of save |
| StorageProtocol.RunKeepsOrdered | inference/storage_backend.py:239-402 | so by every hazard-free run with foreign uploads, failed requests, removals and crashes anywhere |
| StorageProtocol.DownloadsAreHazardFree | inference/storage_backend.py:320-341 | runs without saves have no hazards |
| StorageProtocol.MatchMeansCurrent | inference/storage_backend.py:295-316 | on those runs a matching ETag means the local bytes are S3's current bytes |
| StorageProtocol.WarmReturnsFresh | inference/storage_backend.py:320-341 | warm_cache never returns a version older than the one current at its call, unless S3 is unreachable |
| StorageProtocol.CleanSaveRestores | inference/storage_backend.py:354-385 | a save whose own requests succeed and that sees no foreign upload between its PUT and HEAD leaves file, sidecar and S3 on one version, from any idle state and among any foreign uploads and file removals elsewhere |
| StorageProtocol.SaveCompletes | inference/storage_backend.py:354-385 | such a save exists from every idle state |
| StorageProtocol.LostSaveLies | inference/storage_backend.py:366-380 | a refused or crashed save beside a current sidecar makes warm_cache serve bytes that were never uploaded |
| StorageProtocol.RacedSaveLies | inference/storage_backend.py:374-385 | a foreign upload between PUT and HEAD makes warm_cache serve outdated bytes as current |
| StorageProtocol.RepeatedEtagLies | inference/storage_backend.py:154-159 | with repeating ETags the order holds and the cache still serves wrong bytes |
| StorageProtocol.WarmRefines | inference/storage_backend.py:320-341 | the fine-grained steps, uninterrupted, have exactly the effect of WarmCache |
| StorageProtocol.SaveRefines | inference/storage_backend.py:354-385 | the steps of a save, uninterrupted, have exactly the effect of SaveModelBytes, whether the PUT is applied, lost or applied without an answer and whether the HEAD is answered |
| StabilityIndex.TermIsDivergence | quant_finance/ingress_sim.py:153-156 | a PSI term is nonnegative, zero exactly for equal shares, and symmetric |
| StabilityIndex.TermInLogs | quant_finance/ingress_sim.py:153-156 | a term is the difference of the two shares times the difference of their logarithms |
| StabilityIndex.ShareIs | quant_finance/ingress_sim.py:154-155 | a share is the bin's fraction of the sample, or 1e-8 for an empty bin |
| StabilityIndex.InBinIff | quant_finance/ingress_sim.py:135-147 | the bins are equally wide: bin b takes the values from b to b + 1 bin-ths of the range, and the last one the largest value too |
| StabilityIndex.BinsPartition | quant_finance/ingress_sim.py:135-147 | every value of the range lies in exactly one bin, the one the scan finds |
| StabilityIndex.CountsSumToSize | worker/metrics.py:123-133 | the bin counts add up to the sample size |
| StabilityIndex.ClampIsNoOp | quant_finance/ingress_sim.py:157 | the final max(0, .) never changes the sum |
| StabilityIndex.ZeroIffSharesAgree | worker/metrics.py:138-144 | PSI is zero exactly when every bin has equal shares |
| StabilityIndex.SelfPsiIsZero | quant_finance/ingress_sim.py:122-157 | a window against itself has PSI 0 |
| StabilityIndex.PsiSymmetric | worker/metrics.py:78-144 | PSI is symmetric |
| StabilityIndex.PsiIgnoresOrder | worker/metrics.py:78-144 | PSI depends on the two samples as multisets only |
| StabilityIndex.PsiAffineInvariant | worker/metrics.py:111-144 | a common positive affine rescaling leaves PSI unchanged |
| StabilityIndex.BinCounts | quant_finance/ingress_sim.py:140-147 | the counting loops put each value in the first bin that holds it |
| StabilityIndex.ComputePsi | quant_finance/ingress_sim.py:122-157 | the loop computes the PSI the lemmas are about |
| CategoricalIndex.SmoothedSumToOne | worker/metrics.py:200-205 | the Laplace-smoothed proportions are a distribution |
| CategoricalIndex.SmoothedIs | worker/metrics.py:200-205 | a category's proportion of the sample enlarged by one per category is its count and one |
| CategoricalIndex.ZeroIffCountsAgree | worker/metrics.py:200-208 | the index is zero exactly when every category's count and one is the same fraction of both enlarged samples |
| CategoricalIndex.CategoricalIsDivergence | worker/metrics.py:200-208 | categorical PSI is nonnegative and the clamp is a no-op |
| CategoricalIndex.CategoricalSymmetric | worker/metrics.py:147-208 | it is symmetric |
| CategoricalIndex.CategoricalIgnoresOrder | worker/metrics.py:147-208 | it depends on the two samples as multisets only |
| CategoricalIndex.Frequencies | worker/metrics.py:192-198 | the counting loop gives each category its frequency |
| CategoricalIndex.ComputeCategoricalPsi | worker/metrics.py:147-208 | the loops compute the categorical PSI the lemmas are about, in any iteration order |
| AdversarialAuc.SortIsDescending | quant_finance/ingress_sim.py:197 | the sort is descending |
| AdversarialAuc.SortIsPermutation | quant_finance/ingress_sim.py:197 | it permutes its input |
| AdversarialAuc.SortIsStable | quant_finance/ingress_sim.py:197 | equal scores keep their input order |
| AdversarialAuc.CountPass | quant_finance/ingress_sim.py:199-205 | the pass adds, for each baseline item, the current items before it |
| AdversarialAuc.CreditIsWins | quant_finance/ingress_sim.py:195-205 | over the stable sort that total is exactly the number of strictly winning pairs, ties earning nothing |
| AdversarialAuc.WinsBounded | quant_finance/ingress_sim.py:206-207 | at most n0 n1 pairs win, so the clamp is a no-op |
| AdversarialAuc.VariancePositive | quant_finance/ingress_sim.py:184-188 | no variance the score divides by is zero |
| AdversarialAuc.ComputeAdversarialAuc | quant_finance/ingress_sim.py:162-207 | the AUC is the fraction of pairs in which the current item scores strictly higher and lies in [0, 1] before any clamp |
| AdversarialAuc.AucSymmetric | quant_finance/ingress_sim.py:162-207 | exchanging the windows leaves the AUC unchanged |
| AdversarialAuc.SelfAucIsZero | quant_finance/ingress_sim.py:162-207 | a window against itself scores 0 |
| AucMeaning.ScoreIs | quant_finance/ingress_sim.py:190-193 | the score is half of how much farther the item is from the baseline mean than from the current one, in variances, plus half the difference of the log variances |
| AucMeaning.PositiveIffNearer | quant_finance/ingress_sim.py:190-193 | between windows that vary equally it is positive exactly for items nearer to the current window, whatever log is |
| AucMeaning.AucIsOneIff | quant_finance/ingress_sim.py:162-207 | the AUC is 1 exactly when every current item scores above every baseline item |
| AucMeaning.SeparatedAucIsOne | quant_finance/ingress_sim.py:162-207 | so it is for equally varying windows each of whose items is nearer to its own |
| AucMeaning.DifferentItemsScoreOne | quant_finance/ingress_sim.py:162-207 | and for any two different single items, in any dimension |
| Hysteresis.CooldownInRange | quant_finance/hysteresis.py:86-105 | a positive volatility estimate stays positive and the cooldown stays between its bounds |
| Hysteresis.CooldownShrinksWithVol | quant_finance/hysteresis.py:93-105 | of two readings that are comparable (no average kept, or neither feeds it, or both do, or the average reached is over the floor) the higher never lengthens the cooldown |
| Hysteresis.CooldownShrinksIff | quant_finance/hysteresis.py:86-105 | for a positive estimate and a decay of at most one, the comparable pairs are exactly those where no setting's cooldown is lengthened |
| Hysteresis.CooldownAtReference | quant_finance/hysteresis.py:93-105 | at the reference volatility the cooldown is the base one within its bounds |
| Hysteresis.DefaultCooldowns | quant_finance/hysteresis.py:28-31 | the default cooldowns of the documented regimes are 50, 21, 10 and 16 ticks |
| Hysteresis.FractionIs | quant_finance/hysteresis.py:115-129 | the recovery fraction is the configured one up to the reference volatility, shrinks in proportion above it, and is never below one half |
| Hysteresis.SwapHysteresisController.ExecuteSwap | quant_finance/ingress_sim.py:73-82 | new version, counter at zero, swap logged with its predecessor |
| Hysteresis.VolatilityScaledCooldown.UpdateEmaVol | quant_finance/hysteresis.py:86-91 | the effective volatility and the moved estimate |
| Hysteresis.VolatilityScaledCooldown.CalculateCooldown | quant_finance/hysteresis.py:93-105 | the clamped, truncated cooldown, and that asking moves the estimate |
| Hysteresis.VolatilityScaledCooldown.IsSwapPermitted | quant_finance/hysteresis.py:109-113 | permitted once that cooldown has elapsed |
| Hysteresis.VolatilityScaledCooldown.ShouldRevertToBaseline | quant_finance/hysteresis.py:115-129 | revert below the volatility-tightened fraction, never under one half |
| Hysteresis.VolatilityScaledCooldown.ExecuteSwap | quant_finance/hysteresis.py:133-153 | new version, cooldown restarted, swap logged with its predecessor |
| DriftSimulator.HistoricalDriftSimulator.DoSwap | quant_finance/ingress_sim.py:292-306 | controller and calibrator move together and the reference is cleared |
| DriftSimulator.HistoricalDriftSimulator.Measure | quant_finance/ingress_sim.py:448-462 | stores the reference if there is none and computes both statistics |
| DriftSimulator.HistoricalDriftSimulator.Act | quant_finance/ingress_sim.py:464-500 | swap, revert or hold as measured, with every update of the volatility estimate |
| DriftSimulator.HistoricalDriftSimulator.DriftCheck | quant_finance/ingress_sim.py:445-502 | one check takes the loop to its specified next state and decision |
| DriftSimulator.HistoricalDriftSimulator.Tick | quant_finance/ingress_sim.py:354-448 | one row takes the loop to its specified next state |
| DriftLoop.StepKeepsConsistent | quant_finance/ingress_sim.py:272-306 | every row keeps the loop invariant: versions agree, an active candidate has no reference, recent samples are its own |
| DriftLoop.CandidateIsNeverHeld | quant_finance/ingress_sim.py:480-493 | a check that finds the candidate active has no reference, PSI 0, and always swaps: to itself if the AUC is over threshold and the cooldown has passed, else back to baseline |
| DriftLoop.WindowsAreOneModels | quant_finance/ingress_sim.py:383-392 | at every check reference and window come from one producer and the versions agree; it is the active model if and only if no unfitted candidate fell back to the baseline |
| DriftLoop.StaticCooldownNeverBinds | quant_finance/ingress_sim.py:251-252 | at every check the static cooldown has passed, so detected drift always swaps |
| DriftReference.RowReference | quant_finance/ingress_sim.py:453-458 | a row that does not check leaves the reference alone; a check that holds keeps the stored reference or stores its own window; a check that swaps clears it |
| DriftReference.ReferenceStays | quant_finance/ingress_sim.py:453-458 | over any run that logs no swap, a stored reference stays |
| DriftReference.ReferenceOfRun | quant_finance/ingress_sim.py:453-458 | over every run, the reference is the window of the first check since the last swap, and there is none exactly when there was no check since |
| DriftReference.CheckMeasures | quant_finance/ingress_sim.py:449-458 | a check's PSI is that of its last window of probabilities against the stored reference, or against itself where there is none |
| DriftReference.RunIsExplained | quant_finance/ingress_sim.py:383-392 | over every run there is one probability for every feature vector, in order, from the fitted calibrator or the raw model of the version it is attributed to |
| DriftReference.RowUpdates | quant_finance/ingress_sim.py:474-486 | a check reads the volatility into a dynamic estimate once for its report, once more when it found drift and once more when it swaps; no other row touches the controller |
| DriftReference.RowTicks | quant_finance/ingress_sim.py:445-446 | a static controller counts the feature vectors since its last swap |
| DriftCooldown.SwapRespectsCooldownIff | quant_finance/ingress_sim.py:480-493 | a check swaps only after the cooldown if and only if it finds the baseline active or the cooldown has passed |
| DriftCooldown.StaticSwapsKeepCooldown | quant_finance/ingress_sim.py:48-71 | under the static controller every swap of every run, reverts included, waits for the cooldown |
| DriftCooldown.SwapsAreSpaced | quant_finance/ingress_sim.py:445-502 | on every run, under either controller, the swaps in the log are at least a window apart and each leaves the version the one before it installed |
| DriftCooldown.StaticLogKeepsCooldown | quant_finance/ingress_sim.py:52-53 | so any two swaps of a static run are at least its cooldown apart |
| DriftCooldown.WindowCoversCooldown | quant_finance/hysteresis.py:109-113 | a volatility-scaled cooldown of at most a window is kept, moving average or not |
| DriftCooldown.LongCooldownBreaks | quant_finance/ingress_sim.py:486-493 | for every window, model and setting without a moving average, a volatility whose cooldown exceeds the window gives a run that reverts inside the cooldown |
| DriftCooldown.CooldownKeptIff | quant_finance/hysteresis.py:86-113 | without a moving average, the cooldown is kept on all runs if and only if no volatility asks for more than a window |
| DriftCooldown.DefaultsFitIff | quant_finance/hysteresis.py:55-63 | for the default settings that means a window of at least 200 |
| DriftReplay.ReplayIsContiguous | quant_finance/ingress_sim.py:363-378 | a price file that replays without a domain error never loses features once it has them |
| TokenBuckets.TokenBucket.Allow | admin_api/rate_limiter.py:30-47 | refill up to capacity, then grant and pay, or refuse and keep |
| TokenBuckets.LevelIsLeastSlack | admin_api/rate_limiter.py:33-41 | the level at a request is the least slack of all windows ending there |
| TokenBuckets.GrantedIffEveryWindowFits | admin_api/rate_limiter.py:30-47 | granted if and only if every window ending at the request, creation included, stays within capacity plus refill; no hypothesis on clock, rate or sizes |
| TokenBuckets.GrantedIffRequestWindowsFit | admin_api/rate_limiter.py:30-47 | with a clock that does not run backwards, windows between requests decide |
| TokenBuckets.WindowsBounded | admin_api/rate_limiter.py:30-47 | no window is granted more than capacity plus refill |
| TokenBuckets.DecisionsConform | admin_api/rate_limiter.py:30-47 | the bucket's own decisions keep every window that ends in a grant within capacity plus refill |
| TokenBuckets.DenialIsForced | admin_api/rate_limiter.py:30-47 | for any sizes, a decision list within those bounds that has agreed with the bucket so far cannot grant a request the bucket denies |
| TokenBuckets.FirstDifferenceDenies | admin_api/rate_limiter.py:30-47 | so any other list within the bounds denies, where it first differs, a request the bucket grants |
| TokenBuckets.BucketIsLeastRestrictive | admin_api/rate_limiter.py:30-47 | for equal-sized requests no conforming limiter has ever granted more |
| TokenBuckets.RateLimiter.GetBucket | admin_api/rate_limiter.py:66-75 | the tenant's own bucket, created full when missing, distinct from all others |
| TokenBuckets.RateLimiter.IsAllowed | admin_api/rate_limiter.py:77-80 | the answer and the new buckets are those of the tenant's bucket alone |
| TokenBuckets.RateLimiter.SetTenantLimits | admin_api/rate_limiter.py:82-85 | a full bucket with the new limits replaces the old |
| TokenBuckets.TenantsAreIsolated | admin_api/rate_limiter.py:50-85 | a tenant's answers are those its own events alone would produce |
| TokenBuckets.TenantHasItsBucket | admin_api/rate_limiter.py:50-85 | a tenant's bucket is the full one its limits were last set to, or the default one of its first request, after the requests since |
| TokenBuckets.AnswerIsBuckets | admin_api/rate_limiter.py:77-80 | so each answer is that bucket's decision, to which the window theorems apply |
| Features.BuildFeatures | quant_finance/quant_model.py:71-124 | the loops compute the vector, the shortage or the domain error of the specification |
| Features.TailSuffices | quant_finance/quant_model.py:71-124 | any tail of look_back+1 ticks gives the features of the whole history |
| Features.NextIsReady | quant_finance/quant_model.py:71-82 | after a vector the next tick gives a vector or a domain error |
| Features.ReadyForEver | quant_finance/quant_model.py:71-82 | so ticks with features are contiguous in a stream without domain errors |
| Features.PositiveIsReady | quant_finance/quant_model.py:71-82 | with positive prices there are features exactly from tick look_back+1 on |
| Features.MomentaAreReturns | quant_finance/quant_model.py:84-88 | the two momenta are how much the logarithm of the price grew over the last 5 and over the last look_back ticks |
| Features.OutcomeIs | quant_finance/quant_model.py:71-82 | a domain error exactly when a price that is not positive follows one that is, within the window; features exactly when there is none and at least five of the last look_back ticks follow a positive price |
| FeatureMeaning.VectorMeans | quant_finance/quant_model.py:90-124 | with positive prices the volatility, squared, is the spread of all pairs of log growths over n (n - 1); the volume score is the last volume's distance from the mean in deviations; the imbalance entry is age-weighted; the last entry is the deviation of the group deviations |
| FeatureMeaning.DeviationIsSpread | quant_finance/quant_model.py:90-93 | the sample deviation, squared, is the spread of all pairs over n (n - 1) |
| FeatureMeaning.GroupIs | quant_finance/quant_model.py:108-117 | group g holds the four returns from index 4 g on, as long as one more follows |
| FeatureMeaning.VolOfVolIs | quant_finance/quant_model.py:118-122 | the last entry, squared, is the spread of all pairs of group deviations, and 0 below two groups |
| Features.EmaIsAgeWeighted | quant_finance/quant_model.py:102-106 | the imbalance entry weighs each imbalance by a tenth of 0.9 to its age |
| Features.FeaturesIgnorePriceUnit | quant_finance/quant_model.py:75-93 | quoting all prices in another unit changes no feature |
| Features.RunningImbalance | quant_finance/quant_model.py:102-106 | the accumulating loop computes the running average |
| Features.GroupDeviations | quant_finance/quant_model.py:108-117 | the list-building loop computes the group deviations |
| FeatureBuffers.FeatureBuffer.Push | quant_finance/feature_buffer.py:53-87 | the bounded buffer returns the features of the full history once its window has filled, is ready exactly then, and keeps the last fifty volatilities of that history |
| FeatureBuffers.FeatureBuffer.LatestVolAnn | quant_finance/feature_buffer.py:97-102 | the annualised volatility at the latest tick of the whole history that had features, or 19% when none had |
| FeatureBuffers.ImbalanceIs | quant_finance/feature_buffer.py:60-63 | the imbalance is how far the bid is over the ask as a share of the ask, and 0 for quotes without both sides |
| FeatureBuffers.AnnualisedIs | quant_finance/feature_buffer.py:83-85 | the annualised volatility, squared, is 252 times the squared volatility |
| FeatureBuffers.VolsCoverHistory | quant_finance/feature_buffer.py:83-85 | with positive prices and a window of at least the look-back, the history has one volatility for every tick from the first ready one on, in order |
| FeatureBuffers.WindowIsBigEnoughIff | quant_finance/feature_buffer.py:31-48 | a filled buffer agrees with the full history for all histories if and only if its window is at least the look-back |
| WalkForward.RegimeStarts | quant_finance/walk_forward_validator.py:116-121 | the transitions are exactly the rows where the regime changes |
| WalkForward.BuildFolds | quant_finance/walk_forward_validator.py:111-134 | folds tile the data from the first change to the end; each test is a maximal stretch of one regime, trained on all rows before it, labelled by the two regimes it joins |
| WalkForward.TestedOnce | quant_finance/walk_forward_validator.py:123-134 | every row from the first change on is tested exactly once, earlier rows never |
| WalkForward.ExtractFeaturesAndLabels | quant_finance/walk_forward_validator.py:136-160 | the loop collects the samples of the specification or fails at the first domain error |
| WalkForward.SamplesMatchRows | quant_finance/walk_forward_validator.py:136-160 | with positive prices sample i has the full-history features, forward return and regime of row max(start, look_back)+i |
| WalkForward.SamplesAreLabelled | quant_finance/walk_forward_validator.py:136-160 | the label is how much the logarithm of the price grows to the next row, the momenta how much it grew over 5 and over 20 rows, the regime the row's own |
| WalkForward.TrainingNeverLooksAhead | quant_finance/walk_forward_validator.py:111-134 | whatever is edited at or after a fold's train_end, so long as the regime still changes there, the k-th fold keeps its number, boundary, training regime and training samples |
| WalkForward.SampleDependsOnPast | quant_finance/walk_forward_validator.py:136-160 | a sample depends only on rows up to the one after it, whatever slice it came from |
| Drawdowns.MaxDrawdown | quant_finance/walk_forward_validator.py:63-70 | the loop computes the drawdown below the running peak |
| Drawdowns.DropReachesIff | quant_finance/walk_forward_validator.py:63-70 | a fall from a positive peak reaches a limit exactly when the equity is down to that share of the peak |
| Drawdowns.DrawdownIsDeepestFall | quant_finance/walk_forward_validator.py:63-70 | for curves that never go negative it is exactly the deepest relative fall from any point to a later one |
| Drawdowns.FloorSufficesIff | quant_finance/walk_forward_validator.py:63-70 | no fall is deeper than the drawdown on all curves that stay at or above a floor if and only if the floor is not negative |
| Drawdowns.NegativeEquityHidesAFall | quant_finance/walk_forward_validator.py:63-70 | for every negative floor, the curve 1, 2, floor falls deeper than its drawdown says |
| PlattFit.CauchySchwarz | quant_finance/calibration.py:117-127 | the weighted Cauchy-Schwarz inequality over all samples |
| PlattFit.QuadraticForm | quant_finance/calibration.py:125-127 | the Hessian's quadratic form is a weighted sum of squares |
| PlattFit.DeterminantBound | quant_finance/calibration.py:136-144 | at every iterate the regularised determinant is at least l2_reg^2 |
| PlattFit.NewtonStep | quant_finance/calibration.py:142-152 | the analytic inverse is a true inverse: the step solves H d = g |
| PlattFit.NewtonSlope | quant_finance/calibration.py:150-152 | for any gradient, gradient times step is at least l2_reg times the squared step |
| PlattLoss.LossAboveTangent | quant_finance/calibration.py:113-139 | the pass computes the gradient of the regularised loss: the loss lies above its tangent with that slope everywhere in the sigmoid's unclamped range |
| PlattLoss.NewtonStepDescendsIff | quant_finance/calibration.py:136-152 | from a point strictly inside that range, every short enough part of the full step lowers the regularised loss, if and only if the gradient is not zero |
| PlattLoss.StationaryIsMinimum | quant_finance/calibration.py:111-157 | where the gradient is zero the regularised loss is least |
| PlattFit.Accumulate | quant_finance/calibration.py:113-139 | one pass computes gradient, Hessian and loss sums |
| PlattFit.TrialLoss | quant_finance/calibration.py:165-169 | the trial loss of the line search |
| PlattFit.LineSearch | quant_finance/calibration.py:159-175 | the first of ten halvings that passes the test, or the full step when none does |
| PlattFit.Iterate | quant_finance/calibration.py:111-175 | one iteration is a Newton move that is full when the step is small and searched otherwise; converged exactly when both coordinates move by less than tol, singular exactly when the determinant is below the threshold, never with l2_reg^2 at the threshold |
| PlattFit.Descend | quant_finance/calibration.py:108-179 | the loop runs until max_iter, a small step, or two successive losses closer than tol, and stops no earlier unless singular |
| PlattLoss.MovesDescend | quant_finance/calibration.py:111-179 | every move of a fit made strictly inside the range goes downhill for the regularised loss unless the gradient is zero there |
| PlattFit.FitPlatt | quant_finance/calibration.py:64-183 | the fit is the end of such a run from (1, 0), stopping rule included, with its slope clamped; never a singular stop at the default; (1, 0) for empty or mismatched input |
| PlattFit.Targets | quant_finance/calibration.py:98-106 | smoothed targets lie strictly inside (0, 1) on their label's side of one half |
| PlattMeaning.TargetsAre | quant_finance/calibration.py:98-106 | a positive label's target is (n_pos + 1) of n_pos + 2, a negative label's 1 of n_neg + 2, with the labels counted |
| PlattMeaning.PassLossIs | quant_finance/calibration.py:129-131 | where no guard applies, the loss of a pass is the cross-entropy of the targets |
| PlattMeaning.TrialLossIs | quant_finance/calibration.py:165-169 | and so is the loss of a trial, whose guards are written differently |
| PlattMeaning.AcceptedIsBounded | quant_finance/calibration.py:170-172 | an accepted move raises the cross-entropy by less than a ten-thousandth of its length times the squared gradient |
| PlattMeaning.HessianIsDerivative | quant_finance/calibration.py:125-139 | what a pass calls the Hessian is the derivative of the gradient, up to a second-order error |
| PlattMeaning.ClampIsNearest | quant_finance/calibration.py:181-183 | the slope kept is the nearest one within the bound |
| KFold.FoldsPartition | quant_finance/calibration.py:208-217 | with enough points every index lies in exactly one fold |
| KFold.FoldLengths | quant_finance/calibration.py:208-214 | all folds but the last hold n // n_folds points, or one each when there are fewer points than folds |
| KFold.TrainedOnTheRest | quant_finance/calibration.py:216-226 | a fold's model is trained on every point outside it, in order, with its own label less one half |
| KFold.RunFold | quant_finance/calibration.py:219-231 | a fold's signals come from a model trained on everything outside it; other entries are untouched |
| KFold.KfoldOosLogits | quant_finance/calibration.py:190-233 | with two or more folds, from max(2, n_folds-1) points on every signal is out of sample; the index error occurs exactly below n_folds-1 points with three or more folds, the division error exactly for no folds; one fold, a negative number, or one point in two folds gives all zeros |
| Risk.CircuitBreaker.Trip | quant_finance/circuit_breaker.py:164-168 | only the first trip records its reason |
| Risk.CircuitBreaker.ResetDaily | quant_finance/circuit_breaker.py:170-179 | a new day opens at the last mark and lifts a drawdown trip only |
| Risk.CircuitBreaker.UpdateEquity | quant_finance/circuit_breaker.py:97-103 | marks and trips at the limit |
| Risk.CircuitBreaker.RecordError | quant_finance/circuit_breaker.py:105-109 | counts and trips at the error limit |
| Risk.CircuitBreaker.Approve | quant_finance/circuit_breaker.py:123-153 | the first failing guard, in order, or approval |
| Risk.ApprovalMeansUnderLimit | quant_finance/circuit_breaker.py:97-153 | over every run, approval means the buffer had filled and the last mark is under the limit against that day's opening equity |
| Risk.LimitMustBePositive | quant_finance/circuit_breaker.py:97-103 | that guarantee holds on all runs if and only if the limit is positive |
| Risk.ApprovedIff | quant_finance/circuit_breaker.py:123-153 | over every run an order is approved exactly when the buffer has filled, the market is open, the breaker is untripped, the quantity is between 1 and max_qty and the order does not repeat the side of the open position |
| Risk.VerdictIs | quant_finance/circuit_breaker.py:123-153 | and each refusal is given exactly when its guard is the first to fail |
| Risk.TripBeginsIff | quant_finance/circuit_breaker.py:97-109 | an untripped breaker trips exactly on a mark that is down by the limit since the day opened, or on the error that reaches the error limit, with that reason |
| Risk.ErrorsAreHistory | quant_finance/circuit_breaker.py:105-113 | the error count is the number of errors since the last success |
| Risk.DoubleEntryIff | quant_finance/circuit_breaker.py:115-153 | the double-entry guard refuses exactly the orders that pass the guards before it and repeat the side the last opening named, if the position is still open |
| Risk.UnsidedIsUnguarded | quant_finance/live_engine.py:290 | where positions are opened without a side, as in REPLAY mode, it never fires |
| Risk.ErrorTripIsFinal | quant_finance/circuit_breaker.py:105-109 | a trip recorded for errors is never lifted |
| Risk.DrawdownTripLastsTheDay | quant_finance/circuit_breaker.py:170-179 | a drawdown trip refuses every order until the first mark of another day |
| Risk.TripEndsIff | quant_finance/circuit_breaker.py:170-179 | an event ends a trip if and only if the trip is for drawdown and the event is a mark of another day that is under the limit against the reopened day |
| Risk.GuardedAlwaysIff | quant_finance/circuit_breaker.py:105-109 | with a positive error limit, a breaker at that limit is tripped at every point of a run if and only if no mark of the run lifts a drawdown trip while the count is at the limit |
| Risk.ErrorsAfterDrawdownAreForgotten | quant_finance/circuit_breaker.py:164-179 | a run where that happens: errors counted after a drawdown trip are lifted with it |
| Risk.ArmedIsReadyAlwaysIff | quant_finance/circuit_breaker.py:90-95 | armed means ready at every point of a run if and only if no mark of the run lifts a drawdown trip before the buffer is ready |
| Risk.ArmedBeforeReady | quant_finance/circuit_breaker.py:176-177 | a run where that happens, and the warm-up guard still refuses |
| Risk.RiskLedger.CheckDay | quant_finance/risk_ledger.py:170-175 | a new day opens at the last mark with no drawdown |
| Risk.RiskLedger.RecordFill | quant_finance/risk_ledger.py:93-111 | a fill may open the day and changes no other risk figure |
| Risk.RiskLedger.UpdateEquity | quant_finance/risk_ledger.py:117-125 | marks, peak, maximum and daily drawdown |
| Risk.LedgerHoldsBreakersDrawdown | quant_finance/live_engine.py:250-251 | fed the same marks on the same days, with fills between, the ledger's daily drawdown is the figure the breaker compares |
| Risk.LedgerMaxIsDrawdown | quant_finance/risk_ledger.py:117-122 | its maximum drawdown is that of the whole equity curve |
| Risk.AlignedAlwaysIff | quant_finance/live_engine.py:250-251 | the ledger's opening equity agrees with the breaker's along a run if and only if no mark or fill comes back to the breaker's day after the ledger has left it, with that day's opening and last mark different |
| Risk.AscendingDaysNeverComeBack | quant_finance/risk_ledger.py:170-175 | a calendar that does not run backwards meets that condition |
| Risk.BackwardDaysDisagree | quant_finance/risk_ledger.py:170-175 | from any starting equity s, a fill of a later day between two marks of one day leaves the breaker's opening at s and the ledger's at the last mark y, which differ unless y = s |
| Registry.InMemoryTenantModelRegistry.RegisterModel | inference/tenant_model_registry.py:159-182 | a new version goes last, a known one keeps its place; the entry keeps the caller's dictionary |
| Registry.InMemoryTenantModelRegistry.GetLatestModel | inference/tenant_model_registry.py:189-195 | the last matching entry in dictionary order |
| Registry.InMemoryTenantModelRegistry.ListTenantModels | inference/tenant_model_registry.py:197-202 | lists exactly the models that have a latest version, each with it |
| Registry.InMemoryTenantModelRegistry.UpdateDriftThresholds | inference/tenant_model_registry.py:213-224 | the stored dictionary is updated in place: exactly the entries that hold it see the new thresholds |
| Registry.InMemoryTenantModelRegistry.DeleteModel | inference/tenant_model_registry.py:226-231 | removes the version, true exactly when it was there |
| Registry.BackendsAgree | inference/tenant_model_registry.py:363-372 | after every sequence of operations both backends hold the same models and dictionary order is creation order |
| Registry.LatestModelAgrees | inference/tenant_model_registry.py:398-410 | so get_latest_model has one possible answer in PostgreSQL and it is the in-memory one |
| Registry.TenantsAgreeIff | inference/tenant_model_registry.py:350-351 | the backends agree about a tenant exactly when it was registered by name or never given a model |
| Registry.TenantsAreIsolated | inference/tenant_model_registry.py:142-231 | over a registry of values, an operation on one tenant changes no other tenant's record, versions or latest models |
| Registry.TableTenantsAreIsolated | inference/tenant_model_registry.py:298-490 | in PostgreSQL likewise, and every possible answer to the latest-model query stays possible and no other becomes so |
| Registry.ReregisteringKeepsLatest | inference/tenant_model_registry.py:170-182 | re-registering a known version does not make it the latest |
| Registry.OperationIs | inference/tenant_model_registry.py:142-231 | a registration stores the version, a deletion drops it, an update merges its thresholds, and no other version changes |
| Registry.MergedIs | inference/tenant_model_registry.py:213-224 | new thresholds win over those of the same name and the others stay |
| SharedThresholds.UpdateIsIsolatedIff | inference/tenant_model_registry.py:213-224 | an update leaves another tenant's thresholds alone, whatever it changes, if and only if none of that tenant's entries holds the updated dictionary |
| SharedThresholds.SharedTenantsAreIsolated | inference/tenant_model_registry.py:142-231 | with shared dictionaries, every operation but such an update changes no other tenant's record, versions or latest models |
| SharedThresholds.UpdateIsOwnIff | inference/tenant_model_registry.py:213-224 | an update does what a registry of values does if and only if no other entry holds the dictionary |
| SharedThresholds.OwnRunAgrees | inference/tenant_model_registry.py:363-372 | so over every run whose updates find their dictionaries unshared the backends agree |
| SharedThresholds.FreshDictsAreOwn | inference/tenant_model_registry.py:159-182 | and callers that pass a fresh dictionary to every registration only produce such runs |

## Left out

- FastAPI endpoints, JWT and password handling, SSE, Redis and Celery clients, the WebSocket feed and the broker gateway: I/O and foreign libraries.
- Dashboards, Envoy, Kubernetes, SQL and plotting: configuration and user interface.
- PyTorch and scikit-learn runtimes and the retraining tasks: library numerics that are not visible here.
- Floating-point rounding, overflow and the rounding of logged values: arithmetic is over reals.
- Cash, realised and unrealised profit, Sharpe ratio and random market generation: stochastic, or not conserved by the code.
- Descent of the Platt fit over whole runs: the line search compares an unregularised trial loss, and takes the full step when no halving passes, so neither a fall nor a rise of the regularised loss is claimed of a whole move; what is proved is that every move points downhill (`PlattLoss.MovesDescend`).
- `PlattCalibratedModel` as the drift loop's only calibrator (quant_finance/ingress_sim.py:247): it has no `notify_swap`, so the loop is modelled with the two-model calibrator or none.
- Cleanup of evicted runtimes: an entry can be promoted again while its model is being cleared, so no claim is made that a cached runtime is intact.
- Garbage collection, CUDA and memory probing: a weak reference may die at any step, and a failed memory check is the Abandon step.
- The readiness flag of `SwapState`: it affects only the health endpoint.
- Cache keys built from tenant and model by a colon, and cache paths by a truncated hash: keys are abstract, so collisions of the two formats are not modelled.
- Several processes sharing one cache directory, and the creation of per-key locks: a key's lock is modelled as held by one holder at a time.
- `LocalStorageBackend` and `exists`: they add only easy members.
- A caller that changes a thresholds dictionary it passed, other than through the registry: dictionaries change by updates only.
- `list_tenant_models` of the PostgreSQL backend: its query has no ORDER BY, so it has no determined answer to compare.
- Pairing of out-of-sample signals with prices in the walk-forward profit loop: it reads row test_start+i for sample i, which is the sample's own row exactly when test_start is at least the look-back; the profit itself is left out.
- `VolTargetingModel`, `EnsembleModel`, `smart_psi` and the slippage formulas: closed forms that would add only easy members.
- ModelCache.AsyncLRUModelCache.constructor: models maxsize >= 1 as a precondition where the source raises ValueError.
- FeatureBuffers.FeatureBuffer.Push: models the three deques, always appended together, as one deque of triples.
- Risk.RiskLedger.RecordFill: states only the risk figures and the number of fills; slippage statistics and the append-only file are left out.
- DriftSimulator.HistoricalDriftSimulator.Tick: states the drift part of a row; orders and equity of the same row are left out.
