/** Every interleaving of requests, loads and hot swaps over the model cache.
    Requests hold the reader lock from lookup to return; a hot swap holds the
    writer lock from its eviction to its installation. */
module CacheProtocol {
  import opened Options
  import opened OrderedDicts
  import opened ModelCache

  datatype Caller = Reader(task: nat) | Writer

  /** Done remembers the future it waited on, if any. */
  datatype Phase = Owner(future: nat, begun: nat) | Waiter(future: nat) | Done(outcome: Outcome, via: Option<nat>)

  datatype Task = Task(key: Key, phase: Phase)

  datatype Swap =
    | Away
    | Inside(key: Key, runtime: Runtime)
    | Cleared(key: Key, runtime: Runtime)
    | Loading(key: Key, runtime: Runtime, future: nat, begun: nat)
    | Joined(key: Key, future: nat)

  /** callers, clock, swapped and touches are history: who created each future,
      the steps taken, when each key was last swapped, and the keys used so far. */
  datatype System = System(cache: Cache, tasks: seq<Task>, swap: Swap, callers: seq<Caller>,
                           clock: nat, swapped: map<Key, nat>, touches: seq<Key>)

  datatype Step =
    | Request(key: Key)
    | Finish(task: nat, runtime: Runtime)
    | Fail(task: nat, error: string)
    | Wake(task: nat)
    | WeakDeath(key: Key)
    | EnterSwap(key: Key, runtime: Runtime)
    | Evict
    | Reload
    | Complete
    | CancelWaiter(task: nat)
    | Abandon(task: nat)
    | AbandonSwap
    | BareEvict(key: Key)

  predicate Active(t: Task) { !t.phase.Done? }

  predicate Idle(tasks: seq<Task>) { forall t :: 0 <= t < |tasks| ==> !Active(tasks[t]) }

  predicate IsOwner(s: System, t: nat) { t < |s.tasks| && s.tasks[t].phase.Owner? }

  predicate IsWaiter(s: System, t: nat) { t < |s.tasks| && s.tasks[t].phase.Waiter? }

  predicate Pending(c: Cache, f: nat) { f < |c.futures| && c.futures[f].result == None }

  /** What the two locks and the event loop allow next. A loader may finish, fail
      or be abandoned at any time: abandoned means the memory check raised, or the
      task was cancelled, and no handler cleaned up. A waiter may be cancelled at any
      time; it awaits the shared future itself, so a pending one is cancelled too. */
  predicate Enabled(s: System, step: Step) {
    match step
    case Request(_) => s.swap.Away?
    case Finish(t, _) => IsOwner(s, t)
    case Fail(t, _) => IsOwner(s, t)
    case Wake(t) => IsWaiter(s, t) && s.tasks[t].phase.future < |s.cache.futures| &&
      !Pending(s.cache, s.tasks[t].phase.future)
    case CancelWaiter(t) => IsWaiter(s, t)
    case WeakDeath(_) => true
    case EnterSwap(_, _) => s.swap.Away? && Idle(s.tasks)
    case Evict => s.swap.Inside?
    case Reload => s.swap.Cleared?
    case Complete => s.swap.Loading?
    case Abandon(t) => IsOwner(s, t)
    case AbandonSwap => s.swap.Loading?
    case BareEvict(_) => s.swap.Away?
  }

  function AfterRequest(s: System, k: Key): System {
    var (c, route) := s.cache.Lookup(k);
    match route
    case Ready(r) => s.(cache := c, tasks := s.tasks + [Task(k, Done(Loaded(r), None))], touches := s.touches + [k])
    case Join(f) => s.(cache := c, tasks := s.tasks + [Task(k, Waiter(f))])
    case Own(f) => s.(cache := c, tasks := s.tasks + [Task(k, Owner(f, s.clock))],
      callers := s.callers + [Reader(|s.tasks|)])
  }

  function AfterReload(s: System): System
    requires s.swap.Cleared?
  {
    var k := s.swap.key;
    var (c, route) := s.cache.Lookup(k);
    match route
    case Ready(_) => s.(cache := c, swap := Away, touches := s.touches + [k])
    case Join(f) => s.(cache := c, swap := Joined(k, f))
    case Own(f) => s.(cache := c, swap := Loading(k, s.swap.runtime, f, s.clock), callers := s.callers + [Writer])
  }

  function Ended(s: System, t: nat, c: Cache, o: Outcome, via: Option<nat>): System
    requires t < |s.tasks|
  {
    s.(cache := c, tasks := s.tasks[t := Task(s.tasks[t].key, Done(o, via))])
  }

  function Effect(s: System, step: Step): System
    requires Enabled(s, step)
  {
    match step
    case Request(k) => AfterRequest(s, k)
    case Finish(t, r) =>
      var k := s.tasks[t].key;
      Ended(s, t, s.cache.Installed(Entry(k, r, s.tasks[t].phase.begun)), Loaded(r), None).(touches := s.touches + [k])
    case Fail(t, e) => Ended(s, t, s.cache.Resolved(s.tasks[t].key, Failed(e)), Failed(e), None)
    case Wake(t) =>
      var f := s.tasks[t].phase.future;
      Ended(s, t, s.cache, s.cache.futures[f].result.value, Some(f))
    case CancelWaiter(t) =>
      Ended(s, t, s.cache.Cancelled(s.tasks[t].phase.future), CANCELLED, None)
    case WeakDeath(k) => s.(cache := s.cache.(soft := s.cache.soft - {k}))
    case EnterSwap(k, r) => s.(swap := Inside(k, r))
    case Evict => s.(cache := s.cache.Evicted(s.swap.key), swap := Cleared(s.swap.key, s.swap.runtime),
                     swapped := s.swapped[s.swap.key := s.clock])
    case Reload => AfterReload(s)
    case Complete =>
      s.(cache := s.cache.Installed(Entry(s.swap.key, s.swap.runtime, s.swap.begun)), swap := Away,
         touches := s.touches + [s.swap.key])
    case Abandon(t) => Ended(s, t, s.cache, Failed("abandoned"), None)
    case AbandonSwap => s.(swap := Away)
    case BareEvict(k) => s.(cache := s.cache.Evicted(k))
  }

  function Next(s: System, step: Step): System
    requires Enabled(s, step)
  {
    Effect(s, step).(clock := s.clock + 1)
  }

  function Initial(maxsize: nat): System {
    System(Cache(maxsize, OrderedDict([], map[]), map[], map[], []), [], Away, [], 0, map[], [])
  }

  predicate Runs(s: System, steps: seq<Step>)
    decreases |steps|
  {
    |steps| == 0 || (Enabled(s, steps[0]) && Runs(Next(s, steps[0]), steps[1..]))
  }

  function After(s: System, steps: seq<Step>): System
    requires Runs(s, steps)
    decreases |steps|
  {
    if |steps| == 0 then s else After(Next(s, steps[0]), steps[1..])
  }

  /** What the design rules out: a load that dies without cleaning up, an eviction
      outside the writer's section of a key that is being loaded, and the cancellation
      of a waiter whose load is still running. */
  predicate Safe(s: System, step: Step) {
    match step
    case Abandon(_) => false
    case AbandonSwap => false
    case CancelWaiter(t) => IsWaiter(s, t) ==> !Pending(s.cache, s.tasks[t].phase.future)
    case BareEvict(k) => k !in s.cache.inflight
    case _ => true
  }

  predicate Disciplined(s: System, steps: seq<Step>)
    requires Runs(s, steps)
    decreases |steps|
  {
    |steps| == 0 || (Safe(s, steps[0]) && Disciplined(Next(s, steps[0]), steps[1..]))
  }

  // ---- The invariant -----------------------------------------------------------------

  predicate NotStale(s: System, k: Key, begun: nat) { k in s.swapped ==> s.swapped[k] <= begun }

  ghost predicate Fresh(s: System) {
    && (forall k :: k in s.swapped ==> s.swapped[k] <= s.clock)
    && (forall k :: k in s.cache.hard.at ==> NotStale(s, k, s.cache.hard.at[k].begun))
    && (forall k :: k in s.cache.soft ==> NotStale(s, k, s.cache.soft[k].begun))
    && (s.swap.Loading? ==> NotStale(s, s.swap.key, s.swap.begun))
  }

  predicate TaskOk(s: System, t: Task, id: nat)
    requires |s.callers| == |s.cache.futures|
  {
    match t.phase
    case Owner(f, begun) =>
      && t.key in s.cache.inflight && s.cache.inflight[t.key] == f
      && f < |s.callers| && s.callers[f] == Reader(id) && NotStale(s, t.key, begun)
    case Waiter(f) =>
      f < |s.callers| && s.callers[f].Reader? && s.cache.futures[f].key == t.key
    case Done(o, via) =>
      via.Some? ==>
        via.value < |s.callers| && s.callers[via.value].Reader? && s.cache.futures[via.value] == Future(t.key, Some(o))
  }

  /** A pending future is the in-flight one of its key and its creator is loading;
      a resolved one holds exactly what its creator ended with. */
  predicate FutureOk(s: System, f: nat)
    requires f < |s.callers| == |s.cache.futures|
  {
    var future := s.cache.futures[f];
    match s.callers[f]
    case Reader(t) =>
      t < |s.tasks| && s.tasks[t].key == future.key &&
      (match future.result
       case None => s.tasks[t].phase.Owner? && s.tasks[t].phase.future == f
       case Some(o) => s.tasks[t].phase == Done(o, None))
    case Writer =>
      future.result.None? ==> s.swap.Loading? && s.swap.key == future.key && s.swap.future == f
  }

  predicate SwapOk(s: System)
    requires |s.callers| == |s.cache.futures|
  {
    match s.swap
    case Away => true
    case Inside(_, _) => Idle(s.tasks)
    case Cleared(k, _) => Idle(s.tasks) && k !in s.cache.hard.at && k !in s.cache.soft && k !in s.cache.inflight
    case Loading(k, _, f, _) =>
      Idle(s.tasks) && k !in s.cache.hard.at && k !in s.cache.soft && k in s.cache.inflight && s.cache.inflight[k] == f
      && f < |s.callers| && s.callers[f] == Writer
    case Joined(_, _) => false
  }

  predicate TasksOk(s: System)
    requires |s.callers| == |s.cache.futures|
  {
    forall t :: 0 <= t < |s.tasks| ==> TaskOk(s, s.tasks[t], t)
  }

  predicate FuturesOk(s: System)
    requires |s.callers| == |s.cache.futures|
  {
    forall f :: 0 <= f < |s.callers| ==> FutureOk(s, f)
  }

  ghost predicate Sound(s: System) {
    && s.cache.Valid()
    && |s.callers| == |s.cache.futures|
    && Fresh(s)
    && SwapOk(s)
    && TasksOk(s)
    && FuturesOk(s)
  }

  /** The step touched neither the in-flight map, the futures nor the swap. */
  predicate SameLoads(s: System, s': System) {
    && s'.cache.inflight == s.cache.inflight && s'.cache.futures == s.cache.futures
    && s'.callers == s.callers && s'.swapped == s.swapped
  }

  lemma FuturesKept(s: System, s': System)
    requires |s.callers| == |s.cache.futures| && FuturesOk(s) && SameLoads(s, s') && s'.swap == s.swap
    requires |s.tasks| <= |s'.tasks|
    requires forall t :: 0 <= t < |s.tasks| && !s.tasks[t].phase.Waiter? ==> s'.tasks[t] == s.tasks[t]
    ensures FuturesOk(s')
  {
    forall f | 0 <= f < |s'.callers| ensures FutureOk(s', f) { assert FutureOk(s, f); }
  }

  lemma HitKeepsSound(s: System, k: Key)
    requires Sound(s) && Enabled(s, Request(k)) && k in s.cache.hard.at
    ensures Sound(Next(s, Request(k)))
  {
    LookupKeeps(s.cache, k);
    FuturesKept(s, Next(s, Request(k)));
  }

  lemma PromotionKeepsSound(s: System, k: Key)
    requires Sound(s) && Enabled(s, Request(k)) && k !in s.cache.hard.at && k in s.cache.soft
    ensures Sound(Next(s, Request(k)))
  {
    TouchedKeeps(s.cache, k, s.cache.soft[k]);
    FuturesKept(s, Next(s, Request(k)));
  }

  lemma JoinKeepsSound(s: System, k: Key)
    requires Sound(s) && Enabled(s, Request(k)) && s.cache.Lookup(k).1.Join?
    ensures Sound(Next(s, Request(k)))
  {
    assert FutureOk(s, s.cache.inflight[k]);
    FuturesKept(s, Next(s, Request(k)));
  }

  lemma OwnKeepsSound(s: System, k: Key)
    requires Sound(s) && Enabled(s, Request(k)) && s.cache.Lookup(k).1.Own?
    ensures Sound(Next(s, Request(k)))
  {
    LookupKeeps(s.cache, k);
    var s' := Next(s, Request(k));
    forall f | 0 <= f < |s'.callers| ensures FutureOk(s', f) {
      if f < |s.callers| { assert FutureOk(s, f); }
    }
  }

  /** Closing the in-flight load of k, with the owner's task set to the same outcome. */
  lemma ResolveKeeps(s: System, t: nat, o: Outcome, s': System)
    requires Sound(s) && IsOwner(s, t)
    requires s'.cache.inflight == s.cache.Resolved(s.tasks[t].key, o).inflight
    requires s'.cache.futures == s.cache.Resolved(s.tasks[t].key, o).futures
    requires s'.tasks == s.tasks[t := Task(s.tasks[t].key, Done(o, None))]
    requires s'.callers == s.callers && s'.swap == s.swap && s'.swapped == s.swapped
    ensures |s'.callers| == |s'.cache.futures| && TasksOk(s') && FuturesOk(s')
  {
    var k, own := s.tasks[t].key, s.tasks[t].phase.future;
    assert TaskOk(s, s.tasks[t], t) && s.cache.inflight[k] == own;
    forall u | 0 <= u < |s'.tasks| ensures TaskOk(s', s'.tasks[u], u) {
      assert TaskOk(s, s.tasks[u], u);
    }
    forall f | 0 <= f < |s'.callers| ensures FutureOk(s', f) {
      assert FutureOk(s, f);
    }
  }

  lemma InstallKeepsFresh(s: System, e: Entry, s': System)
    requires Fresh(s) && s.cache.Valid() && NotStale(s, e.key, e.begun)
    requires s'.cache == s.cache.Installed(e) && s'.swapped == s.swapped && s'.clock == s.clock + 1
    requires s'.swap == Away || s'.swap == s.swap
    ensures Fresh(s') && s'.cache.Valid()
  {
    InstalledKeeps(s.cache, e);
  }

  lemma FinishKeepsSound(s: System, t: nat, r: Runtime)
    requires Sound(s) && Enabled(s, Finish(t, r))
    ensures Sound(Next(s, Finish(t, r)))
  {
    var k := s.tasks[t].key;
    var e := Entry(k, r, s.tasks[t].phase.begun);
    var s' := Next(s, Finish(t, r));
    assert TaskOk(s, s.tasks[t], t);
    InstallKeepsFresh(s, e, s');
    InstalledLoads(s.cache, e);
    ResolveKeeps(s, t, Loaded(r), s');
  }

  lemma FailKeepsSound(s: System, t: nat, e: string)
    requires Sound(s) && Enabled(s, Fail(t, e))
    ensures Sound(Next(s, Fail(t, e)))
  {
    ResolvedKeeps(s.cache, s.tasks[t].key, Failed(e));
    ResolveKeeps(s, t, Failed(e), Next(s, Fail(t, e)));
  }

  lemma WakeKeepsSound(s: System, t: nat)
    requires Sound(s) && Enabled(s, Wake(t))
    ensures Sound(Next(s, Wake(t)))
  {
    assert TaskOk(s, s.tasks[t], t);
    FuturesKept(s, Next(s, Wake(t)));
  }

  lemma CancelKeepsSound(s: System, t: nat)
    requires Sound(s) && Enabled(s, CancelWaiter(t)) && Safe(s, CancelWaiter(t))
    ensures Sound(Next(s, CancelWaiter(t)))
  {
    FuturesKept(s, Next(s, CancelWaiter(t)));
  }

  lemma QuietKeepsSound(s: System, step: Step)
    requires Sound(s) && Enabled(s, step) && (step.WeakDeath? || step.EnterSwap?)
    ensures Sound(Next(s, step))
  {
    var s' := Next(s, step);
    forall f | 0 <= f < |s'.callers| ensures FutureOk(s', f) { assert FutureOk(s, f); }
  }

  lemma EvictKeepsSound(s: System)
    requires Sound(s) && Enabled(s, Evict)
    ensures Sound(Next(s, Evict))
  {
    EvictedKeeps(s.cache, s.swap.key);
    var s' := Next(s, Evict);
    forall f | 0 <= f < |s'.callers| ensures FutureOk(s', f) { assert FutureOk(s, f); }
  }

  lemma ReloadKeepsSound(s: System)
    requires Sound(s) && Enabled(s, Reload)
    ensures Sound(Next(s, Reload))
  {
    LookupKeeps(s.cache, s.swap.key);
    var s' := Next(s, Reload);
    forall f | 0 <= f < |s'.callers| ensures FutureOk(s', f) {
      if f < |s.callers| { assert FutureOk(s, f); }
    }
  }

  /** Closing the swap's own load. */
  lemma SwapResolveKeeps(s: System, o: Outcome, s': System)
    requires Sound(s) && s.swap.Loading?
    requires s'.cache.inflight == s.cache.Resolved(s.swap.key, o).inflight
    requires s'.cache.futures == s.cache.Resolved(s.swap.key, o).futures
    requires s'.tasks == s.tasks && s'.callers == s.callers && s'.swapped == s.swapped
    ensures |s'.callers| == |s'.cache.futures| && TasksOk(s') && FuturesOk(s')
  {
    assert s.cache.inflight[s.swap.key] == s.swap.future;
    forall f | 0 <= f < |s'.callers| ensures FutureOk(s', f) { assert FutureOk(s, f); }
    forall u | 0 <= u < |s'.tasks| ensures TaskOk(s', s'.tasks[u], u) { assert TaskOk(s, s.tasks[u], u); }
  }

  lemma CompleteKeepsSound(s: System)
    requires Sound(s) && Enabled(s, Complete)
    ensures Sound(Next(s, Complete))
  {
    var e := Entry(s.swap.key, s.swap.runtime, s.swap.begun);
    var s' := Next(s, Complete);
    InstallKeepsFresh(s, e, s');
    InstalledLoads(s.cache, e);
    SwapResolveKeeps(s, Loaded(e.runtime), s');
  }

  lemma BareEvictKeepsSound(s: System, k: Key)
    requires Sound(s) && Enabled(s, BareEvict(k)) && k !in s.cache.inflight
    ensures Sound(Next(s, BareEvict(k)))
  {
    EvictedKeeps(s.cache, k);
    var s' := Next(s, BareEvict(k));
    assert s'.cache.inflight == s.cache.inflight;
    FuturesKept(s, s');
  }

  lemma SafeStepKeepsSound(s: System, step: Step)
    requires Sound(s) && Enabled(s, step) && Safe(s, step)
    ensures Sound(Next(s, step))
  {
    match step
    case Request(k) =>
      if k in s.cache.hard.at {
        HitKeepsSound(s, k);
      } else if k in s.cache.soft {
        PromotionKeepsSound(s, k);
      } else if s.cache.Lookup(k).1.Join? {
        JoinKeepsSound(s, k);
      } else {
        OwnKeepsSound(s, k);
      }
    case Finish(t, r) => FinishKeepsSound(s, t, r);
    case Fail(t, e) => FailKeepsSound(s, t, e);
    case Wake(t) => WakeKeepsSound(s, t);
    case CancelWaiter(t) => CancelKeepsSound(s, t);
    case WeakDeath(k) => QuietKeepsSound(s, step);
    case EnterSwap(k, r) => QuietKeepsSound(s, step);
    case Evict => EvictKeepsSound(s);
    case Reload => ReloadKeepsSound(s);
    case Complete => CompleteKeepsSound(s);
    case BareEvict(k) => BareEvictKeepsSound(s, k);
  }

  lemma AbandonBreaksSound(s: System, t: nat)
    requires Sound(s) && IsOwner(s, t)
    ensures !Sound(Next(s, Abandon(t)))
  {
    var f, s' := s.tasks[t].phase.future, Next(s, Abandon(t));
    assert TaskOk(s, s.tasks[t], t) && Pending(s.cache, f);
    assert !FutureOk(s', f);
  }

  lemma AbandonSwapBreaksSound(s: System)
    requires Sound(s) && s.swap.Loading?
    ensures !Sound(Next(s, AbandonSwap))
  {
    var f, s' := s.swap.future, Next(s, AbandonSwap);
    assert Pending(s.cache, f);
    assert !FutureOk(s', f);
  }

  /** The cancelled future's creator has not ended. */
  lemma CancelBreaksSound(s: System, t: nat)
    requires Sound(s) && IsWaiter(s, t) && Pending(s.cache, s.tasks[t].phase.future)
    ensures !Sound(Next(s, CancelWaiter(t)))
  {
    var f, s' := s.tasks[t].phase.future, Next(s, CancelWaiter(t));
    assert TaskOk(s, s.tasks[t], t) && FutureOk(s, f);
    assert !FutureOk(s', f);
  }

  /** The load in flight for a key, outside a swap, is some task's. */
  lemma InflightHasOwner(s: System, k: Key) returns (t: nat)
    requires Sound(s) && s.swap.Away? && k in s.cache.inflight
    ensures IsOwner(s, t) && s.tasks[t].key == k && s.tasks[t].phase.future == s.cache.inflight[k]
    ensures s.cache.inflight[k] < |s.callers| && s.callers[s.cache.inflight[k]] == Reader(t)
  {
    var f := s.cache.inflight[k];
    assert FutureOk(s, f);
    t := s.callers[f].task;
  }

  lemma BareEvictBreaksSound(s: System, k: Key)
    requires Sound(s) && s.swap.Away? && k in s.cache.inflight
    ensures !Sound(Next(s, BareEvict(k)))
  {
    var t := InflightHasOwner(s, k);
    var s' := Next(s, BareEvict(k));
    assert !TaskOk(s', s'.tasks[t], t);
  }

  /** A step keeps the invariant exactly when it is safe. In particular an eviction
      outside the writer's section is harmless if and only if its key is not being
      loaded, and the cancellation of a waiter if and only if its load has ended. */
  lemma StepKeepsSoundIff(s: System, step: Step)
    requires Sound(s) && Enabled(s, step)
    ensures Sound(Next(s, step)) <==> Safe(s, step)
  {
    if Safe(s, step) {
      SafeStepKeepsSound(s, step);
    } else {
      match step
      case Abandon(t) => AbandonBreaksSound(s, t);
      case AbandonSwap => AbandonSwapBreaksSound(s);
      case CancelWaiter(t) => CancelBreaksSound(s, t);
      case BareEvict(k) => BareEvictBreaksSound(s, k);
    }
  }

  lemma {:induction false} RunKeepsSound(s: System, steps: seq<Step>)
    requires Sound(s) && Runs(s, steps) && Disciplined(s, steps)
    ensures Sound(After(s, steps))
    decreases |steps|
  {
    if |steps| > 0 {
      SafeStepKeepsSound(s, steps[0]);
      RunKeepsSound(Next(s, steps[0]), steps[1..]);
    }
  }
}
