/** What holds after every run of the cache protocol, and what the
    excluded events break. */
module CacheGuarantees {
  import opened Options
  import opened OrderedDicts
  import opened Recency
  import opened ModelCache
  import opened CacheProtocol

  predicate CleanRun(maxsize: nat, steps: seq<Step>) {
    maxsize >= 1 && Runs(Initial(maxsize), steps) && Disciplined(Initial(maxsize), steps)
  }

  lemma ReachedIsSound(maxsize: nat, steps: seq<Step>)
    requires CleanRun(maxsize, steps)
    ensures Sound(After(Initial(maxsize), steps))
  {
    assert Sound(Initial(maxsize));
    RunKeepsSound(Initial(maxsize), steps);
  }

  // ---- Coalesced loads ------------------------------------------------------------------

  /** A key never has two active loaders, and none while a hot swap loads. */
  lemma OneLoaderPerKey(maxsize: nat, steps: seq<Step>, t: nat, u: nat)
    requires CleanRun(maxsize, steps)
    ensures var s := After(Initial(maxsize), steps);
      IsOwner(s, t) && IsOwner(s, u) && s.tasks[t].key == s.tasks[u].key ==> t == u && s.swap.Away?
  {
    ReachedIsSound(maxsize, steps);
    var s := After(Initial(maxsize), steps);
    if IsOwner(s, t) && IsOwner(s, u) {
      assert TaskOk(s, s.tasks[t], t) && TaskOk(s, s.tasks[u], u);
      assert Active(s.tasks[t]);
    }
  }

  /** A pending future always has a live owner, and it is the in-flight one of its key. */
  lemma PendingHasLiveOwner(maxsize: nat, steps: seq<Step>, f: nat)
    requires CleanRun(maxsize, steps)
    ensures var s := After(Initial(maxsize), steps);
      Pending(s.cache, f) ==>
        var k := s.cache.futures[f].key;
        k in s.cache.inflight && s.cache.inflight[k] == f &&
        (if s.swap.Loading? && s.swap.future == f then s.swap.key == k
         else exists t: nat :: IsOwner(s, t) && s.tasks[t].key == k && s.tasks[t].phase.future == f)
  {
    ReachedIsSound(maxsize, steps);
    var s := After(Initial(maxsize), steps);
    if Pending(s.cache, f) {
      assert FutureOk(s, f);
      if s.callers[f].Reader? {
        var t := s.callers[f].task;
        assert IsOwner(s, t) && TaskOk(s, s.tasks[t], t);
      }
    }
  }

  /** Task t waited on a future, whose creator is a task of the same key that ended
      with the very outcome t ended with. */
  predicate GotOwnersOutcome(s: System, t: nat)
    requires t < |s.tasks| && s.tasks[t].phase.Done? && s.tasks[t].phase.via.Some?
  {
    var f := s.tasks[t].phase.via.value;
    && f < |s.callers| && s.callers[f].Reader?
    && var u := s.callers[f].task;
    u < |s.tasks| && s.tasks[u] == Task(s.tasks[t].key, Done(s.tasks[t].phase.outcome, None))
  }

  /** Whoever joined a load ends with exactly what the owner of that load ended with,
      runtime or error, and for the key it asked for. */
  lemma WaiterGetsOwnersOutcome(maxsize: nat, steps: seq<Step>, t: nat)
    requires CleanRun(maxsize, steps)
    ensures var s := After(Initial(maxsize), steps);
      t < |s.tasks| && s.tasks[t].phase.Done? && s.tasks[t].phase.via.Some? ==> GotOwnersOutcome(s, t)
  {
    ReachedIsSound(maxsize, steps);
    var s := After(Initial(maxsize), steps);
    if t < |s.tasks| && s.tasks[t].phase.Done? && s.tasks[t].phase.via.Some? {
      assert TaskOk(s, s.tasks[t], t);
      assert FutureOk(s, s.tasks[t].phase.via.value);
    }
  }

  /** A waiter is never stranded: it can wake, or its owner is still loading. */
  lemma WaiterIsNeverStranded(maxsize: nat, steps: seq<Step>, t: nat)
    requires CleanRun(maxsize, steps)
    ensures var s := After(Initial(maxsize), steps);
      IsWaiter(s, t) ==>
        Enabled(s, Wake(t)) || exists u: nat :: IsOwner(s, u) && s.tasks[u].phase.future == s.tasks[t].phase.future
                                           && s.tasks[u].key == s.tasks[t].key
  {
    ReachedIsSound(maxsize, steps);
    var s := After(Initial(maxsize), steps);
    if IsWaiter(s, t) {
      assert TaskOk(s, s.tasks[t], t);
      var f := s.tasks[t].phase.future;
      assert FutureOk(s, f);
      if Pending(s.cache, f) { assert IsOwner(s, s.callers[f].task); }
    }
  }

  // ---- Hot swaps -----------------------------------------------------------------------

  /** After a swap, nothing loaded earlier comes back: every entry of the key, hard
      or soft, and every load still running for it began at or after its last swap. */
  lemma NothingStaleAfterSwap(maxsize: nat, steps: seq<Step>, k: Key, t: nat)
    requires CleanRun(maxsize, steps)
    ensures var s := After(Initial(maxsize), steps);
      k in s.swapped ==>
        (k in s.cache.hard.at ==> s.swapped[k] <= s.cache.hard.at[k].begun) &&
        (k in s.cache.soft ==> s.swapped[k] <= s.cache.soft[k].begun) &&
        (IsOwner(s, t) && s.tasks[t].key == k ==> s.swapped[k] <= s.tasks[t].phase.begun)
  {
    ReachedIsSound(maxsize, steps);
    var s := After(Initial(maxsize), steps);
    if IsOwner(s, t) { assert TaskOk(s, s.tasks[t], t); }
  }

  /** The hard cache from the moment s0 the writer lock was taken until it is released. */
  ghost predicate SwapProgress(s0: System, s: System)
    requires s0.swap.Inside?
  {
    var k := s0.swap.key;
    match s.swap
    case Inside(_, _) => s.swap == s0.swap && s.cache.hard == s0.cache.hard
    case Cleared(k', r) => k' == k && r == s0.swap.runtime && s.cache.hard == s0.cache.hard.Remove(k)
    case Loading(k', r, _, _) => k' == k && r == s0.swap.runtime && s.cache.hard == s0.cache.hard.Remove(k)
    case Away =>
      && k in s.cache.hard.at && s.cache.hard.at[k].runtime == s0.swap.runtime && k !in s.cache.soft
      && (k in s0.cache.hard.at ==>
            s.cache.hard.order == Without(s0.cache.hard.order, k) + [k]
            && forall j :: j in s0.cache.hard.at && j != k ==>
                 j in s.cache.hard.at && s.cache.hard.at[j] == s0.cache.hard.at[j])
    case Joined(_, _) => false
  }

  ghost predicate MidSwap(s0: System, s: System)
    requires s0.swap.Inside?
  {
    Sound(s) && s.cache.maxsize == s0.cache.maxsize && SwapProgress(s0, s)
  }

  lemma {:induction false} SwapStep(s0: System, s: System, step: Step)
    requires s0.swap.Inside? && Sound(s0) && MidSwap(s0, s) && !s.swap.Away?
    requires Enabled(s, step) && Safe(s, step)
    ensures MidSwap(s0, Next(s, step))
  {
    SafeStepKeepsSound(s, step);
    match step
    case Complete => SwapCompletes(s0, s);
    case _ =>
  }

  /** Installing a key that is absent, into a cache with room for it, only appends. */
  lemma InstallWithRoom(c: Cache, e: Entry)
    requires c.Valid() && e.key !in c.hard.at && |c.hard.order| < c.maxsize
    ensures c.Installed(e).hard == OrderedDict(c.hard.order + [e.key], c.hard.at[e.key := e])
  {
    WithoutConcat(c.hard.order, [e.key], e.key);
    WithoutAbsent(c.hard.order, e.key);
    assert c.hard.order + [] == c.hard.order;
  }

  lemma InstallReplaces(c: Cache, e: Entry)
    requires c.Valid() && e.key !in c.soft
    ensures e.key in c.Installed(e).hard.at && c.Installed(e).hard.at[e.key] == e && e.key !in c.Installed(e).soft
  {
    TouchedKeeps(c, e.key, e);
  }

  lemma SwapCompletes(s0: System, s: System)
    requires s0.swap.Inside? && s0.cache.Valid() && s.cache.Valid() && s.cache.maxsize == s0.cache.maxsize
    requires s.swap.Loading? && s.swap.key == s0.swap.key && s.swap.runtime == s0.swap.runtime &&
      s.swap.key !in s.cache.soft
    requires s.cache.hard == s0.cache.hard.Remove(s.swap.key)
    ensures SwapProgress(s0, Next(s, Complete))
  {
    var e := Entry(s.swap.key, s.swap.runtime, s.swap.begun);
    InstallReplaces(s.cache, e);
    s0.cache.hard.RemoveValid(e.key);
    if e.key in s0.cache.hard.at { InstallWithRoom(s.cache, e); }
  }

  lemma PrefixTail<T>(s: seq<T>, i: nat)
    requires i < |s|
    ensures s[..i + 1][0] == s[0] && s[..i + 1][1..] == s[1..][..i]
  {}

  /** A run that starts inside the writer's section and ends when it is left: the
      key maps to the new runtime and has no soft entry; if it was resident, every
      other model is still there, unchanged and in the same order. */
  lemma {:induction false} SwapInstalls(s0: System, s: System, steps: seq<Step>)
    requires s0.swap.Inside? && Sound(s0) && MidSwap(s0, s)
    requires Runs(s, steps) && Disciplined(s, steps)
    requires forall i :: 0 <= i < |steps| ==> Runs(s, steps[..i]) && !After(s, steps[..i]).swap.Away?
    ensures MidSwap(s0, After(s, steps))
    decreases |steps|
  {
    if |steps| > 0 {
      assert steps[..0] == [] && After(s, steps[..0]) == s;
      SwapStep(s0, s, steps[0]);
      var s' := Next(s, steps[0]);
      forall i | 0 <= i < |steps[1..]| ensures Runs(s', steps[1..][..i]) && !After(s', steps[1..][..i]).swap.Away? {
        var prefix := steps[..i + 1];
        assert Runs(s, prefix) && !After(s, prefix).swap.Away?;
        PrefixTail(steps, i);
      }
      SwapInstalls(s0, s', steps[1..]);
    }
  }

  // ---- Recency -----------------------------------------------------------------------------

  /** The hard cache holds the last maxsize distinct keys used, oldest first; while
      a swap is between its eviction and its installation, all but the swapped key. */
  predicate KeepsRecent(s: System) {
    var recent := Recent(s.touches, s.cache.maxsize);
    match s.swap
    case Away => s.cache.hard.order == recent
    case Inside(_, _) => s.cache.hard.order == recent
    case Cleared(k, _) => s.cache.hard.order == Without(recent, k)
    case Loading(k, _, _, _) => s.cache.hard.order == Without(recent, k)
    case Joined(_, _) => true
  }

  lemma UsedOrder(d: OrderedDict<Key, Entry>, k: Key, e: Entry)
    requires d.Valid()
    ensures d.Put(k, e).MoveToEnd(k).order == Without(d.order, k) + [k]
    ensures |Without(d.order, k)| <= |d.order|
    ensures d.Put(k, e).MoveToEnd(k).Valid()
  {
    WithoutConcat(d.order, [k], k);
    WithoutKeeps(d.order, k);
    assert Without(d.order, k) + [] == Without(d.order, k);
    d.PutValid(k, e);
    d.Put(k, e).MoveToEndValid(k);
  }

  lemma TrimmedOrder(c: Cache)
    requires c.hard.Valid() && |c.hard.order| <= c.maxsize + 1
    ensures c.Trimmed().hard.order == LastN(c.hard.order, c.maxsize)
  {}

  lemma TouchedOrder(c: Cache, k: Key, e: Entry)
    requires c.Valid()
    ensures c.Touched(k, e).hard.order == TouchOrder(c.hard.order, k, c.maxsize)
  {
    UsedOrder(c.hard, k, e);
    TrimmedOrder(c.(hard := c.hard.Put(k, e).MoveToEnd(k)));
  }

  lemma WithoutTwice<K>(s: seq<K>, k: K)
    ensures Without(Without(s, k), k) == Without(s, k)
  {
    WithoutKeeps(s, k);
    WithoutAbsent(Without(s, k), k);
  }

  lemma RequestKeepsRecent(s: System, k: Key)
    requires Sound(s) && Enabled(s, Request(k)) && KeepsRecent(s)
    ensures KeepsRecent(Next(s, Request(k)))
  {
    if k in s.cache.hard.at {
      RecentStep(s.touches, k, s.cache.maxsize);
      WithoutPresent(s.cache.hard.order, k);
    } else if k in s.cache.soft {
      RecentStep(s.touches, k, s.cache.maxsize);
      TouchedOrder(s.cache, k, s.cache.soft[k]);
    }
  }

  lemma FinishKeepsRecent(s: System, t: nat, r: Runtime)
    requires Sound(s) && Enabled(s, Finish(t, r)) && KeepsRecent(s)
    ensures KeepsRecent(Next(s, Finish(t, r)))
  {
    assert Active(s.tasks[t]);
    var k := s.tasks[t].key;
    RecentStep(s.touches, k, s.cache.maxsize);
    TouchedOrder(s.cache, k, Entry(k, r, s.tasks[t].phase.begun));
  }

  lemma CompleteKeepsRecent(s: System)
    requires Sound(s) && Enabled(s, Complete) && KeepsRecent(s)
    ensures KeepsRecent(Next(s, Complete))
  {
    var k := s.swap.key;
    RecentStep(s.touches, k, s.cache.maxsize);
    TouchedOrder(s.cache, k, Entry(k, s.swap.runtime, s.swap.begun));
    WithoutTwice(Recent(s.touches, s.cache.maxsize), k);
  }

  lemma SwapKeepsRecent(s: System, step: Step)
    requires Sound(s) && Enabled(s, step) && (step.Evict? || step.Reload?) && KeepsRecent(s)
    ensures KeepsRecent(Next(s, step))
  {}

  lemma {:induction false} StepKeepsRecent(s: System, step: Step)
    requires Sound(s) && Enabled(s, step) && Safe(s, step) && !step.BareEvict? && KeepsRecent(s)
    ensures KeepsRecent(Next(s, step))
  {
    match step
    case Request(k) => RequestKeepsRecent(s, k);
    case Finish(t, r) => FinishKeepsRecent(s, t, r);
    case Fail(t, _) => assert Active(s.tasks[t]);
    case Wake(t) =>
    case CancelWaiter(_) =>
    case WeakDeath(_) =>
    case EnterSwap(_, _) =>
    case Evict => SwapKeepsRecent(s, step);
    case Reload => SwapKeepsRecent(s, step);
    case Complete => CompleteKeepsRecent(s);
  }

  lemma MaxsizeNeverChanges(s: System, step: Step)
    requires Enabled(s, step)
    ensures Next(s, step).cache.maxsize == s.cache.maxsize
  {}

  predicate NoManualEvict(steps: seq<Step>) { forall step :: step in steps ==> !step.BareEvict? }

  lemma {:induction false} RunKeepsRecent(s: System, steps: seq<Step>)
    requires Sound(s) && Runs(s, steps) && Disciplined(s, steps) && NoManualEvict(steps) && KeepsRecent(s)
    ensures KeepsRecent(After(s, steps)) && After(s, steps).cache.maxsize == s.cache.maxsize
    decreases |steps|
  {
    if |steps| > 0 {
      assert steps[0] in steps;
      SafeStepKeepsSound(s, steps[0]);
      StepKeepsRecent(s, steps[0]);
      MaxsizeNeverChanges(s, steps[0]);
      RunKeepsRecent(Next(s, steps[0]), steps[1..]);
    }
  }

  lemma StepKeepsBounded(s: System, step: Step)
    requires s.cache.Bounded() && Enabled(s, step)
    ensures Next(s, step).cache.Bounded()
  {
    match step
    case Request(k) => LookupBounded(s.cache, k);
    case Finish(t, r) => TouchedBounded(s.cache, s.tasks[t].key, Entry(s.tasks[t].key, r, s.tasks[t].phase.begun));
    case Evict => EvictedBounded(s.cache, s.swap.key);
    case Reload => LookupBounded(s.cache, s.swap.key);
    case Complete => TouchedBounded(s.cache, s.swap.key, Entry(s.swap.key, s.swap.runtime, s.swap.begun));
    case BareEvict(k) => EvictedBounded(s.cache, k);
    case _ =>
  }

  /** The bound on the hard cache needs no discipline at all. */
  lemma {:induction false} NeverOverCapacity(s: System, steps: seq<Step>)
    requires s.cache.Bounded() && Runs(s, steps)
    ensures After(s, steps).cache.Bounded() && |After(s, steps).cache.hard.order| <= s.cache.maxsize
    decreases |steps|
  {
    if |steps| > 0 {
      StepKeepsBounded(s, steps[0]);
      MaxsizeNeverChanges(s, steps[0]);
      NeverOverCapacity(Next(s, steps[0]), steps[1..]);
    }
  }

  // ---- What a lookup answers -----------------------------------------------------------------

  /** The step loads j: its load or its swap ends. */
  predicate Loads(s: System, step: Step, j: Key)
    requires Enabled(s, step)
  {
    match step
    case Finish(t, _) => s.tasks[t].key == j
    case Complete => s.swap.key == j
    case _ => false
  }

  /** The step drops j: by hand, for its swap, or because only a weak reference was left. */
  predicate Drops(s: System, step: Step, j: Key)
    requires Enabled(s, step)
  {
    match step
    case Evict => s.swap.key == j
    case BareEvict(k) => k == j
    case WeakDeath(k) => k == j && j !in s.cache.hard.at
    case _ => false
  }

  function LoadedRuntime(s: System, step: Step): Runtime
    requires Enabled(s, step) && (step.Finish? || step.Complete?)
  {
    if step.Finish? then step.runtime else s.swap.runtime
  }

  /** A key is answered with what was loaded for it last, from the load until it is
      dropped; no other step, and no lack of capacity, changes that. */
  lemma StepServes(s: System, step: Step, j: Key)
    requires s.cache.Bounded() && Enabled(s, step)
    ensures Served(Next(s, step).cache, j) ==
      if Loads(s, step, j) then Some(LoadedRuntime(s, step))
      else if Drops(s, step, j) then None
      else Served(s.cache, j)
  {
    match step
    case Request(k) => LookupKeepsServed(s.cache, k, j);
    case Finish(t, r) => InstalledServes(s.cache, Entry(s.tasks[t].key, r, s.tasks[t].phase.begun), j);
    case Fail(t, e) => ResolvedServes(s.cache, s.tasks[t].key, Failed(e), j);
    case Evict => EvictedServes(s.cache, s.swap.key, j);
    case Reload => LookupKeepsServed(s.cache, s.swap.key, j);
    case Complete => InstalledServes(s.cache, Entry(s.swap.key, s.swap.runtime, s.swap.begun), j);
    case BareEvict(k) => EvictedServes(s.cache, k, j);
    case _ =>
  }

  predicate Untouched(s: System, steps: seq<Step>, j: Key)
    requires Runs(s, steps)
    decreases |steps|
  {
    |steps| == 0 ||
    (!Loads(s, steps[0], j) && !Drops(s, steps[0], j) && Untouched(Next(s, steps[0]), steps[1..], j))
  }

  /** Over every run, disciplined or not, an answer stays as long as its key is neither
      loaded again nor dropped. */
  lemma {:induction false} RunServes(s: System, steps: seq<Step>, j: Key)
    requires s.cache.Bounded() && Runs(s, steps) && Untouched(s, steps, j)
    ensures Served(After(s, steps).cache, j) == Served(s.cache, j)
    decreases |steps|
  {
    if |steps| > 0 {
      StepServes(s, steps[0], j);
      StepKeepsBounded(s, steps[0]);
      RunServes(Next(s, steps[0]), steps[1..], j);
    }
  }

  /** Outside the writer's section, a model is resident exactly when fewer than
      maxsize distinct models were used since some use of it. Hot swaps count as uses. */
  lemma ResidentIffRecentlyUsed(maxsize: nat, steps: seq<Step>, k: Key)
    requires CleanRun(maxsize, steps) && NoManualEvict(steps)
    ensures var s := After(Initial(maxsize), steps);
      s.swap.Away? ==>
        s.cache.hard.order == Recent(s.touches, maxsize) &&
        (k in s.cache.hard.at <==>
           exists i :: 0 <= i < |s.touches| && s.touches[i] == k && |Elements(s.touches[i + 1..])| < maxsize)
  {
    ReachedIsSound(maxsize, steps);
    assert Sound(Initial(maxsize));
    RunKeepsRecent(Initial(maxsize), steps);
    ResidentIff(After(Initial(maxsize), steps).touches, maxsize, k);
  }

  // ---- What the discipline is for -----------------------------------------------------------

  /** Task w waits for a future that nothing will ever resolve. */
  ghost predicate Wedged(s: System, w: nat) {
    && IsWaiter(s, w)
    && var f := s.tasks[w].phase.future;
    && Pending(s.cache, f)
    && s.swap.Away?
    && (forall k :: k in s.cache.inflight && s.cache.inflight[k] == f ==>
          forall t :: 0 <= t < |s.tasks| && s.tasks[t].key == k ==> !s.tasks[t].phase.Owner?)
  }

  /** The step cancels a waiter of future f. */
  predicate Frees(s: System, step: Step, f: nat) {
    step.CancelWaiter? && IsWaiter(s, step.task) && s.tasks[step.task].phase.future == f
  }

  /** What keeps a wedged waiter wedged: its future stays pending, and nobody comes
      to own it. */
  lemma StaysWedged(s: System, s': System, w: nat)
    requires Wedged(s, w) && s'.swap.Away? && w < |s'.tasks| && s'.tasks[w] == s.tasks[w]
    requires Pending(s'.cache, s.tasks[w].phase.future)
    requires forall k :: k in s'.cache.inflight && s'.cache.inflight[k] == s.tasks[w].phase.future ==>
               k in s.cache.inflight && s.cache.inflight[k] == s.tasks[w].phase.future
    requires forall t :: 0 <= t < |s'.tasks| && s'.tasks[t].phase.Owner? ==>
               (t < |s.tasks| && s.tasks[t].phase.Owner? && s.tasks[t].key == s'.tasks[t].key) ||
               (s'.tasks[t].key in s'.cache.inflight && s'.cache.inflight[s'.tasks[t].key] != s.tasks[w].phase.future)
    ensures Wedged(s', w)
  {}

  lemma RequestStaysWedged(s: System, k: Key, w: nat)
    requires Wedged(s, w) && Enabled(s, Request(k))
    ensures Wedged(Next(s, Request(k)), w) && Next(s, Request(k)).tasks[w] == s.tasks[w]
  {
    StaysWedged(s, Next(s, Request(k)), w);
  }

  lemma EndStaysWedged(s: System, step: Step, w: nat)
    requires Wedged(s, w) && Enabled(s, step) && (step.Finish? || step.Fail?)
    ensures Wedged(Next(s, step), w) && Next(s, step).tasks[w] == s.tasks[w]
  {
    StaysWedged(s, Next(s, step), w);
  }

  lemma CancelStaysWedged(s: System, t: nat, w: nat)
    requires Wedged(s, w) && Enabled(s, CancelWaiter(t)) && !Frees(s, CancelWaiter(t), s.tasks[w].phase.future)
    ensures Wedged(Next(s, CancelWaiter(t)), w) && Next(s, CancelWaiter(t)).tasks[w] == s.tasks[w]
  {
    StaysWedged(s, Next(s, CancelWaiter(t)), w);
  }

  lemma StepStaysWedged(s: System, step: Step, w: nat)
    requires Wedged(s, w) && Enabled(s, step) && !Frees(s, step, s.tasks[w].phase.future)
    ensures Wedged(Next(s, step), w) && Next(s, step).tasks[w] == s.tasks[w]
  {
    assert Active(s.tasks[w]);
    match step
    case Request(k) => RequestStaysWedged(s, k, w);
    case Finish(_, _) => EndStaysWedged(s, step, w);
    case Fail(_, _) => EndStaysWedged(s, step, w);
    case CancelWaiter(t) => CancelStaysWedged(s, t, w);
    case Wake(_) => StaysWedged(s, Next(s, step), w);
    case WeakDeath(_) => StaysWedged(s, Next(s, step), w);
    case Abandon(_) => StaysWedged(s, Next(s, step), w);
    case BareEvict(_) => StaysWedged(s, Next(s, step), w);
    case _ =>
  }

  predicate FutureEnded(c: Cache, f: nat) { f < |c.futures| && c.futures[f].result != None }

  lemma FreeingEnds(s: System, step: Step, w: nat)
    requires Wedged(s, w) && Enabled(s, step) && Frees(s, step, s.tasks[w].phase.future)
    ensures FutureEnded(Next(s, step).cache, s.tasks[w].phase.future)
  {}

  lemma StepKeepsEnded(s: System, step: Step, f: nat)
    requires Enabled(s, step) && FutureEnded(s.cache, f)
    ensures FutureEnded(Next(s, step).cache, f)
  {}

  lemma {:induction false} RunKeepsEnded(s: System, steps: seq<Step>, f: nat)
    requires Runs(s, steps) && FutureEnded(s.cache, f)
    ensures FutureEnded(After(s, steps).cache, f)
    decreases |steps|
  {
    if |steps| > 0 {
      StepKeepsEnded(s, steps[0], f);
      RunKeepsEnded(Next(s, steps[0]), steps[1..], f);
    }
  }

  /** No step of the run cancels a waiter of future f. */
  predicate NeverFreed(s: System, steps: seq<Step>, f: nat)
    requires Runs(s, steps)
    decreases |steps|
  {
    |steps| == 0 ||
    (!Frees(s, steps[0], f) && NeverFreed(Next(s, steps[0]), steps[1..], f))
  }

  lemma {:induction false} WedgedUntilFreed(s: System, steps: seq<Step>, w: nat)
    requires Wedged(s, w) && Runs(s, steps)
    ensures Wedged(After(s, steps), w) && After(s, steps).tasks[w] == s.tasks[w] <==>
            NeverFreed(s, steps, s.tasks[w].phase.future)
    decreases |steps|
  {
    if |steps| > 0 {
      var s', rest := Next(s, steps[0]), steps[1..];
      if Frees(s, steps[0], s.tasks[w].phase.future) {
        FreeingEnds(s, steps[0], w);
        RunKeepsEnded(s', rest, s.tasks[w].phase.future);
      } else {
        StepStaysWedged(s, steps[0], w);
        WedgedUntilFreed(s', rest, w);
      }
    }
  }

  /** Once an owner is abandoned, whoever joined its load waits, and the writer cannot
      get in, for exactly as long as nobody cancels a waiter of that load: no other
      step of any kind, disciplined or not, changes that. */
  lemma AbandonedLoadWedges(s: System, t: nat, w: nat, steps: seq<Step>)
    requires Sound(s) && IsOwner(s, t) && IsWaiter(s, w) && s.tasks[w].phase.future == s.tasks[t].phase.future
    requires s.swap.Away? && Runs(Next(s, Abandon(t)), steps)
    ensures var s' := After(Next(s, Abandon(t)), steps);
      Wedged(s', w) && s'.tasks[w] == s.tasks[w] <==>
      NeverFreed(Next(s, Abandon(t)), steps, s.tasks[t].phase.future)
  {
    var s' := Next(s, Abandon(t));
    var f := s.tasks[t].phase.future;
    assert TaskOk(s, s.tasks[t], t) && TaskOk(s, s.tasks[w], w);
    forall k, u | k in s'.cache.inflight && s'.cache.inflight[k] == f && 0 <= u < |s'.tasks| && s'.tasks[u].key == k
      ensures !s'.tasks[u].phase.Owner?
    {
      assert TaskOk(s, s.tasks[u], u);
    }
    WedgedUntilFreed(s', steps, w);
  }

  /** A swap whose own load is abandoned leaves the same orphan for the next request
      of the key. */
  lemma AbandonedSwapWedges(s: System, steps: seq<Step>)
    requires Sound(s) && s.swap.Loading?
    requires Runs(Next(Next(s, AbandonSwap), Request(s.swap.key)), steps)
    ensures var s2 := Next(Next(s, AbandonSwap), Request(s.swap.key));
      var w := |s.tasks|;
      IsWaiter(s2, w) && s2.tasks[w].phase.future == s.swap.future &&
      (Wedged(After(s2, steps), w) && After(s2, steps).tasks[w] == s2.tasks[w] <==>
       NeverFreed(s2, steps, s.swap.future))
  {
    var k := s.swap.key;
    var s2 := Next(Next(s, AbandonSwap), Request(k));
    assert s2.tasks == s.tasks + [Task(k, Waiter(s.swap.future))];
    forall t | 0 <= t < |s2.tasks| ensures !s2.tasks[t].phase.Owner? {
      if t < |s.tasks| { assert !Active(s.tasks[t]); }
    }
    WedgedUntilFreed(s2, steps, |s.tasks|);
  }

  /** Cancelling one waiter of a running load fails every other waiter of it, though
      its owner goes on loading. */
  lemma CancelSpreads(s: System, t: nat, w: nat) returns (u: nat, s': System)
    requires Sound(s) && IsWaiter(s, t) && IsWaiter(s, w) && t != w
    requires s.tasks[t].phase.future == s.tasks[w].phase.future && Pending(s.cache, s.tasks[w].phase.future)
    ensures Runs(s, [CancelWaiter(t), Wake(w)]) && s' == After(s, [CancelWaiter(t), Wake(w)])
    ensures |s'.tasks| == |s.tasks|
    ensures s'.tasks[w] == Task(s.tasks[w].key, Done(CANCELLED, Some(s.tasks[w].phase.future)))
    ensures s'.callers == s.callers && s.tasks[w].phase.future < |s.callers|
    ensures s.callers[s.tasks[w].phase.future] == Reader(u) && IsOwner(s', u) && !GotOwnersOutcome(s', w)
  {
    var f := s.tasks[w].phase.future;
    assert TaskOk(s, s.tasks[w], w) && FutureOk(s, f);
    u := s.callers[f].task;
    var s1 := Next(s, CancelWaiter(t));
    s' := Next(s1, Wake(w));
    AfterCons(s, CancelWaiter(t), [Wake(w)]);
    AfterCons(s1, Wake(w), []);
  }

  /** And until that owner ends, every request that would join its load is handed the
      cancelled future. */
  lemma CancelFailsNewcomers(s: System, t: nat) returns (s': System)
    requires Sound(s) && s.swap.Away? && IsWaiter(s, t) && Pending(s.cache, s.tasks[t].phase.future)
    requires s.tasks[t].key !in s.cache.hard.at && s.tasks[t].key !in s.cache.soft
    ensures var steps := [CancelWaiter(t), Request(s.tasks[t].key), Wake(|s.tasks|)];
      Runs(s, steps) && s' == After(s, steps)
    ensures |s'.tasks| == |s.tasks| + 1
    ensures s'.tasks[|s.tasks|] == Task(s.tasks[t].key, Done(CANCELLED, Some(s.tasks[t].phase.future)))
  {
    var f, k := s.tasks[t].phase.future, s.tasks[t].key;
    assert TaskOk(s, s.tasks[t], t) && FutureOk(s, f);
    var u := s.callers[f].task;
    assert TaskOk(s, s.tasks[u], u) && s.cache.inflight[k] == f;
    var s1 := Next(s, CancelWaiter(t));
    var s2 := Next(s1, Request(k));
    s' := Next(s2, Wake(|s.tasks|));
    AfterCons(s, CancelWaiter(t), [Request(k), Wake(|s.tasks|)]);
    AfterCons(s1, Request(k), [Wake(|s.tasks|)]);
    AfterCons(s2, Wake(|s.tasks|), []);
  }

  /** From any sound state, an eviction outside the writer's section of a key being
      loaded gives it two loaders as soon as it is asked for again. */
  lemma BareEvictMakesTwoLoaders(s: System, k: Key) returns (t: nat, s2: System)
    requires Sound(s) && s.swap.Away? && k in s.cache.inflight
    ensures Reaches(s, [BareEvict(k), Request(k)], s2)
    ensures IsOwner(s2, t) && IsOwner(s2, |s.tasks|) && t < |s.tasks|
    ensures s2.tasks[t].key == s2.tasks[|s.tasks|].key == k
    ensures s2.swap.Away? && |s2.tasks| == |s.tasks| + 1 && s2.cache.Valid()
    ensures s2.tasks[|s.tasks|].phase.future == |s.cache.futures| == |s.callers|
    ensures k in s2.cache.inflight && s2.cache.inflight[k] == |s.cache.futures|
    ensures s2.callers == s.callers + [Reader(|s.tasks|)]
    ensures k !in s2.cache.hard.at && k !in s2.cache.soft
  {
    t := InflightHasOwner(s, k);
    EvictedKeeps(s.cache, k);
    var s1 := Next(s, BareEvict(k));
    LookupKeeps(s1.cache, k);
    s2 := Next(s1, Request(k));
    AfterCons(s, BareEvict(k), [Request(k)]);
    AfterCons(s1, Request(k), []);
  }

  /** Two loaders of one key, the younger owning the future in flight. */
  ghost predicate TwoLoaders(s: System, t: nat, u: nat, k: Key, f: nat) {
    && s.swap.Away? && s.cache.Valid() && |s.tasks| == u + 1 && t < u
    && IsOwner(s, t) && IsOwner(s, u) && s.tasks[t].key == s.tasks[u].key == k
    && k !in s.cache.hard.at && k !in s.cache.soft && k in s.cache.inflight && s.cache.inflight[k] == f
  }

  lemma JoinsYounger(s: System, t: nat, u: nat, k: Key, f: nat)
    requires TwoLoaders(s, t, u, k, f)
    ensures Enabled(s, Request(k)) && Next(s, Request(k)).tasks == s.tasks + [Task(k, Waiter(f))]
    ensures Next(s, Request(k)).cache == s.cache && Next(s, Request(k)).callers == s.callers
  {}

  lemma OlderResolvesYounger(s: System, t: nat, k: Key, f: nat, r: Runtime)
    requires IsOwner(s, t) && s.tasks[t].key == k && s.cache.Valid() && k in s.cache.inflight &&
      s.cache.inflight[k] == f
    ensures var s' := Next(s, Finish(t, r));
      |s'.cache.futures| == |s.cache.futures| && f < |s'.cache.futures| &&
        s'.cache.futures[f] == Future(k, Some(Loaded(r))) &&
      |s'.tasks| == |s.tasks| && s'.callers == s.callers && forall u :: 0 <= u < |s.tasks| && u != t ==>
        s'.tasks[u] == s.tasks[u]
  {
    InstalledLoads(s.cache, Entry(k, r, s.tasks[t].phase.begun));
  }

  lemma FirstFinishMisdelivers(s: System, t: nat, u: nat, k: Key, f: nat, r: Runtime) returns (s': System)
    requires TwoLoaders(s, t, u, k, f)
    ensures Reaches(s, [Request(k), Finish(t, r), Wake(u + 1)], s')
    ensures |s'.tasks| == u + 2 && s'.tasks[u + 1] == Task(k, Done(Loaded(r), Some(f)))
    ensures IsOwner(s', u) && s'.callers == s.callers
  {
    JoinsYounger(s, t, u, k, f);
    var s1 := Next(s, Request(k));
    OlderResolvesYounger(s1, t, k, f, r);
    var s2 := Next(s1, Finish(t, r));
    s' := Next(s2, Wake(u + 1));
    AfterCons(s2, Wake(u + 1), []);
    AfterCons(s1, Finish(t, r), [Wake(u + 1)]);
    AfterCons(s, Request(k), [Finish(t, r), Wake(u + 1)]);
  }

  lemma OwnerStillLoading(s: System, w: nat, u: nat)
    requires w < |s.tasks| && s.tasks[w].phase.Done? && s.tasks[w].phase.via.Some? && IsOwner(s, u)
    requires s.tasks[w].phase.via.value < |s.callers| && s.callers[s.tasks[w].phase.via.value] == Reader(u)
    ensures !GotOwnersOutcome(s, w)
  {}

  /** And then the first of them to finish hands its own runtime to whoever joined
      the other, while the other is still loading. */
  lemma BareEvictMisdelivers(s: System, k: Key, r: Runtime) returns (t: nat, s': System)
    requires Sound(s) && s.swap.Away? && k in s.cache.inflight
    ensures Reaches(s, [BareEvict(k), Request(k)] + [Request(k), Finish(t, r), Wake(|s.tasks| + 1)], s')
    ensures |s'.tasks| == |s.tasks| + 2 && s'.tasks[|s.tasks| + 1] == Task(k, Done(Loaded(r), Some(|s.callers|)))
    ensures !GotOwnersOutcome(s', |s.tasks| + 1)
    ensures IsOwner(s', |s.tasks|) && |s.callers| < |s'.callers| && s'.callers[|s.callers|] == Reader(|s.tasks|)
  {
    var s2;
    t, s2 := BareEvictMakesTwoLoaders(s, k);
    s' := FirstFinishMisdelivers(s2, t, |s.tasks|, k, |s.callers|, r);
    OwnerStillLoading(s', |s.tasks| + 1, |s.tasks|);
    ReachesConcat(s, [BareEvict(k), Request(k)], s2, [Request(k), Finish(t, r), Wake(|s.tasks| + 1)], s');
  }

  predicate Reaches(s: System, steps: seq<Step>, s': System) { Runs(s, steps) && s' == After(s, steps) }

  lemma ReachesConcat(s: System, a: seq<Step>, s': System, b: seq<Step>, s'': System)
    requires Reaches(s, a, s') && Reaches(s', b, s'')
    ensures Reaches(s, a + b, s'')
  {
    AfterConcat(s, a, b);
  }

  lemma {:induction false} AfterConcat(s: System, a: seq<Step>, b: seq<Step>)
    requires Runs(s, a) && Runs(After(s, a), b)
    ensures Runs(s, a + b) && After(s, a + b) == After(After(s, a), b)
    decreases |a|
  {
    if |a| == 0 {
      assert a + b == b;
    } else {
      AfterConcat(Next(s, a[0]), a[1..], b);
      AfterCons(s, a[0], a[1..] + b);
      assert a + b == [a[0]] + (a[1..] + b);
    }
  }

  lemma AfterCons(s: System, step: Step, steps: seq<Step>)
    requires Enabled(s, step)
    ensures Runs(s, [step] + steps) == Runs(Next(s, step), steps)
    ensures Runs(s, [step] + steps) ==> After(s, [step] + steps) == After(Next(s, step), steps)
  {
    assert ([step] + steps)[1..] == steps;
  }
}
