/** The bounded model cache: an ordered hard cache, weak references to what was
    evicted, and futures that coalesce concurrent loads of one key. Each atomic
    section of the source is one method; the protocol around them is
    CacheProtocol. */
module ModelCache {
  import opened Options
  import opened OrderedDicts

  type Key = string
  type Runtime = nat

  /** begun is a history variable: when the load that produced the entry started. */
  datatype Entry = Entry(key: Key, runtime: Runtime, begun: nat)

  datatype Outcome = Loaded(runtime: Runtime) | Failed(error: string)

  /** What everybody who awaits a cancelled future gets. */
  const CANCELLED: Outcome := Failed("cancelled")

  datatype Future = Future(key: Key, result: Option<Outcome>)

  /** What the fast path tells its caller: use this runtime, load it yourself, or
      wait for the load behind this future. */
  datatype Route = Ready(runtime: Runtime) | Own(future: nat) | Join(future: nat)

  datatype Cache = Cache(maxsize: nat, hard: OrderedDict<Key, Entry>, soft: map<Key, Entry>,
                         inflight: map<Key, nat>, futures: seq<Future>) {

    ghost predicate Valid() {
      && 1 <= maxsize
      && hard.Valid() && |hard.order| <= maxsize
      && (forall k :: k in hard.at ==> hard.at[k].key == k)
      && (forall k :: k in soft ==> soft[k].key == k)
      && (forall k :: k in inflight ==> inflight[k] < |futures| && futures[inflight[k]] == Future(k, None))
    }

    /** The part of it that concerns the hard cache. */
    ghost predicate Bounded() { 1 <= maxsize && hard.Valid() && |hard.order| <= maxsize }

    /** Over capacity: the oldest entry leaves, and only a weak reference stays. */
    function Trimmed(): Cache {
      if |hard.order| <= maxsize || |hard.order| == 0 || hard.order[0] !in hard.at then this
      else this.(hard := hard.PopFirst(), soft := soft[hard.order[0] := hard.at[hard.order[0]]])
    }

    /** e becomes the most recently used entry of k. */
    function Touched(k: Key, e: Entry): Cache {
      this.(hard := hard.Put(k, e).MoveToEnd(k)).Trimmed()
    }

    function Lookup(k: Key): (Cache, Route) {
      if k in hard.at then (this.(hard := hard.MoveToEnd(k)), Ready(hard.at[k].runtime))
      else if k in soft then (Touched(k, soft[k]), Ready(soft[k].runtime))
      else if k in inflight then (this, Join(inflight[k]))
      else (this.(inflight := inflight[k := |futures|], futures := futures + [Future(k, None)]), Own(|futures|))
    }

    /** k's future, if one is in flight, gets the outcome. */
    function Resolved(k: Key, o: Outcome): Cache {
      if k !in inflight then this
      else
        var f := inflight[k];
        this.(inflight := inflight - {k},
              futures := if f < |futures| && futures[f].result == None
                then futures[f := Future(futures[f].key, Some(o))] else futures)
    }

    /** The future itself is cancelled, unless it is done; its key stays in flight. */
    function Cancelled(f: nat): Cache {
      if f < |futures| && futures[f].result == None
        then this.(futures := futures[f := Future(futures[f].key, Some(CANCELLED))])
      else this
    }

    function Installed(e: Entry): Cache {
      Touched(e.key, e).Resolved(e.key, Loaded(e.runtime))
    }

    function Evicted(k: Key): Cache {
      this.(hard := hard.Remove(k), soft := soft - {k}, inflight := inflight - {k})
    }
  }

  // ---- What the sections keep ------------------------------------------------------

  lemma TrimmedKeeps(c: Cache)
    requires c.(maxsize := c.maxsize + 1).Valid() && 1 <= c.maxsize
    ensures c.Trimmed().Valid()
  {
    if |c.hard.order| > c.maxsize { c.hard.PopFirstValid(); }
  }

  lemma TrimmedEntries(c: Cache, j: Key)
    requires c.hard.Valid()
    ensures j in c.Trimmed().hard.at ==> j in c.hard.at && c.Trimmed().hard.at[j] == c.hard.at[j]
    ensures j in c.Trimmed().soft ==>
              (j in c.soft && c.Trimmed().soft[j] == c.soft[j]) ||
              (j in c.hard.at && j == c.hard.order[0] && |c.hard.order| > c.maxsize &&
                c.Trimmed().soft[j] == c.hard.at[j])
  {
    if |c.hard.order| > c.maxsize { c.hard.PopFirstValid(); }
  }

  lemma TrimmedKeepsLast(c: Cache, k: Key)
    requires c.hard.Valid() && 1 <= c.maxsize && |c.hard.order| > 0 && c.hard.order[|c.hard.order| - 1] == k
    ensures k in c.Trimmed().hard.at && c.Trimmed().hard.at[k] == c.hard.at[k]
  {
    assert k in c.hard.order;
    if |c.hard.order| > c.maxsize { c.hard.PopFirstValid(); }
  }

  lemma UsedKeeps(c: Cache, k: Key, e: Entry)
    requires c.Valid() && e.key == k
    ensures var u := c.(hard := c.hard.Put(k, e).MoveToEnd(k));
      u.(maxsize := c.maxsize + 1).Valid() && u.hard.at == c.hard.at[k := e] &&
      |u.hard.order| > 0 && u.hard.order[|u.hard.order| - 1] == k
  {
    c.hard.PutValid(k, e);
    c.hard.Put(k, e).MoveToEndValid(k);
  }

  lemma TouchedKeeps(c: Cache, k: Key, e: Entry)
    requires c.Valid() && e.key == k
    ensures c.Touched(k, e).Valid() && k in c.Touched(k, e).hard.at && c.Touched(k, e).hard.at[k] == e
    ensures c.Touched(k, e).inflight == c.inflight && c.Touched(k, e).futures == c.futures
    ensures forall j :: j in c.Touched(k, e).hard.at && j != k ==>
              j in c.hard.at && c.Touched(k, e).hard.at[j] == c.hard.at[j]
    ensures forall j :: j in c.Touched(k, e).soft ==>
              (j in c.soft && c.Touched(k, e).soft[j] == c.soft[j]) ||
              (j in c.hard.at && j != k && c.Touched(k, e).soft[j] == c.hard.at[j])
  {
    UsedKeeps(c, k, e);
    var u := c.(hard := c.hard.Put(k, e).MoveToEnd(k));
    TrimmedKeeps(u);
    TrimmedKeepsLast(u, k);
    forall j ensures j in u.Trimmed().hard.at && j != k ==> j in c.hard.at && u.Trimmed().hard.at[j] == c.hard.at[j] {
      TrimmedEntries(u, j);
    }
    forall j ensures j in u.Trimmed().soft ==>
              (j in c.soft && u.Trimmed().soft[j] == c.soft[j]) ||
              (j in c.hard.at && j != k && u.Trimmed().soft[j] == c.hard.at[j]) {
      TrimmedEntries(u, j);
    }
  }

  lemma TouchedBounded(c: Cache, k: Key, e: Entry)
    requires c.Bounded()
    ensures c.Touched(k, e).Bounded()
  {
    c.hard.PutValid(k, e);
    c.hard.Put(k, e).MoveToEndValid(k);
    var u := c.(hard := c.hard.Put(k, e).MoveToEnd(k));
    if |u.hard.order| > u.maxsize { u.hard.PopFirstValid(); }
  }

  lemma LookupBounded(c: Cache, k: Key)
    requires c.Bounded()
    ensures c.Lookup(k).0.Bounded()
  {
    c.hard.MoveToEndValid(k);
    if k in c.soft { TouchedBounded(c, k, c.soft[k]); }
  }

  lemma EvictedBounded(c: Cache, k: Key)
    requires c.Bounded()
    ensures c.Evicted(k).Bounded()
  {
    c.hard.RemoveValid(k);
  }

  lemma ResolvedKeeps(c: Cache, k: Key, o: Outcome)
    requires c.Valid()
    ensures c.Resolved(k, o).Valid()
  {}

  lemma LookupKeeps(c: Cache, k: Key)
    requires c.Valid()
    ensures c.Lookup(k).0.Valid()
  {
    c.hard.MoveToEndValid(k);
    if k in c.soft { TouchedKeeps(c, k, c.soft[k]); }
  }

  /** Where each entry of d was in c, when e was just used. */
  ghost predicate Derived(c: Cache, d: Cache, e: Entry) {
    && (forall j :: j in d.hard.at ==>
           (j == e.key && d.hard.at[j] == e) || (j in c.hard.at && d.hard.at[j] == c.hard.at[j]))
    && (forall j :: j in d.soft ==> (j in c.soft && d.soft[j] == c.soft[j])
                                    || (j != e.key && j in c.hard.at && d.soft[j] == c.hard.at[j]))
  }

  lemma InstalledKeeps(c: Cache, e: Entry)
    requires c.Valid()
    ensures c.Installed(e).Valid() && Derived(c, c.Installed(e), e)
  {
    TouchedKeeps(c, e.key, e);
    ResolvedKeeps(c.Touched(e.key, e), e.key, Loaded(e.runtime));
  }

  lemma InstalledLoads(c: Cache, e: Entry)
    ensures c.Installed(e).inflight == c.Resolved(e.key, Loaded(e.runtime)).inflight
    ensures c.Installed(e).futures == c.Resolved(e.key, Loaded(e.runtime)).futures
  {}

  lemma EvictedKeeps(c: Cache, k: Key)
    requires c.Valid()
    ensures c.Evicted(k).Valid()
  {
    c.hard.RemoveValid(k);
  }

  /** The runtime a lookup of k would answer without loading anything. */
  function Served(c: Cache, k: Key): Option<Runtime> {
    if k in c.hard.at then Some(c.hard.at[k].runtime)
    else if k in c.soft then Some(c.soft[k].runtime)
    else None
  }

  lemma LookupServes(c: Cache, k: Key, r: Runtime)
    ensures c.Lookup(k).1 == Ready(r) <==> Served(c, k) == Some(r)
  {}

  lemma UsedServes(c: Cache, k: Key, e: Entry, j: Key)
    requires c.Bounded()
    ensures var u := c.(hard := c.hard.Put(k, e).MoveToEnd(k));
      u.hard.Valid() && Served(u, j) == if j == k then Some(e.runtime) else Served(c, j)
  {
    c.hard.PutValid(k, e);
    c.hard.Put(k, e).MoveToEndValid(k);
  }

  lemma TrimmedServes(c: Cache, j: Key)
    requires c.hard.Valid()
    ensures Served(c.Trimmed(), j) == Served(c, j)
  {
    if |c.hard.order| > c.maxsize && |c.hard.order| > 0 { c.hard.PopFirstValid(); }
  }

  /** Capacity takes no answer away: what leaves the hard cache stays weakly
      referenced, and is answered as before. */
  lemma TouchedServes(c: Cache, k: Key, e: Entry, j: Key)
    requires c.Bounded()
    ensures Served(c.Touched(k, e), j) == if j == k then Some(e.runtime) else Served(c, j)
  {
    UsedServes(c, k, e, j);
    TrimmedServes(c.(hard := c.hard.Put(k, e).MoveToEnd(k)), j);
  }

  lemma LookupKeepsServed(c: Cache, k: Key, j: Key)
    requires c.Bounded()
    ensures Served(c.Lookup(k).0, j) == Served(c, j)
  {
    if k !in c.hard.at && k in c.soft { TouchedServes(c, k, c.soft[k], j); }
  }

  lemma ResolvedServes(c: Cache, k: Key, o: Outcome, j: Key)
    ensures Served(c.Resolved(k, o), j) == Served(c, j)
  {}

  lemma InstalledServes(c: Cache, e: Entry, j: Key)
    requires c.Bounded()
    ensures Served(c.Installed(e), j) == if j == e.key then Some(e.runtime) else Served(c, j)
  {
    TouchedServes(c, e.key, e, j);
    ResolvedServes(c.Touched(e.key, e), e.key, Loaded(e.runtime), j);
  }

  lemma EvictedServes(c: Cache, k: Key, j: Key)
    requires c.Bounded()
    ensures Served(c.Evicted(k), j) == if j == k then None else Served(c, j)
  {
    c.hard.RemoveValid(k);
  }

  /** The key just looked up or loaded is never the one that capacity evicts. */
  lemma JustTouchedSurvives(c: Cache, k: Key, e: Entry)
    requires c.Valid()
    ensures c.Lookup(k).1.Ready? ==>
              k in c.Lookup(k).0.hard.at && c.Lookup(k).0.hard.at[k].runtime == c.Lookup(k).1.runtime
    ensures e.key in c.Installed(e).hard.at && c.Installed(e).hard.at[e.key] == e
    ensures |c.Lookup(k).0.hard.order| <= c.maxsize && |c.Installed(e).hard.order| <= c.maxsize
  {
    LookupKeeps(c, k);
    InstalledKeeps(c, e);
    TouchedKeeps(c, e.key, e);
    if k in c.soft { TouchedKeeps(c, k, c.soft[k]); }
  }

  // ---- The class -------------------------------------------------------------------

  class AsyncLRUModelCache {
    const maxsize: nat
    var cache: OrderedDict<Key, Entry>
    var softCache: map<Key, Entry>
    var inflight: map<Key, nat>
    var futures: seq<Future>

    function Model(): Cache
      reads this
    {
      Cache(maxsize, cache, softCache, inflight, futures)
    }

    constructor (maxsize: nat)
      requires maxsize >= 1
      ensures Model() == Cache(maxsize, OrderedDict([], map[]), map[], map[], []) && Model().Valid()
    {
      this.maxsize := maxsize;
      cache, softCache, inflight, futures := OrderedDict([], map[]), map[], map[], [];
    }

    method MaybeEvictLru() returns (evicted: Option<Entry>)
      requires cache.Valid()
      modifies this`cache, this`softCache
      ensures Model() == old(Model()).Trimmed()
      ensures evicted.Some? <==> old(|cache.order|) > maxsize
      ensures evicted.Some? ==>
        old(cache.order)[0] in old(cache.at) && evicted.value == old(cache.at)[old(cache.order)[0]]
    {
      if |cache.order| <= maxsize {
        return None;
      }
      var lruKey := cache.order[0];
      var lruEntry := cache.at[lruKey];
      cache := cache.PopFirst();
      softCache := softCache[lruKey := lruEntry];
      return Some(lruEntry);
    }

    /** The locked section of get_or_load. */
    method FastPath(key: Key) returns (route: Route)
      requires Model().Valid()
      modifies this
      ensures Model() == old(Model()).Lookup(key).0 && Model().Valid()
      ensures route == old(Model()).Lookup(key).1
    {
      LookupKeeps(Model(), key);
      if key in cache.at {
        cache := cache.MoveToEnd(key);
        return Ready(cache.at[key].runtime);
      }
      if key in softCache {
        var entry := softCache[key];
        TouchedKeeps(Model(), key, entry);
        cache.PutValid(key, entry);
        cache.Put(key, entry).MoveToEndValid(key);
        cache := cache.Put(key, entry);
        cache := cache.MoveToEnd(key);
        var _ := MaybeEvictLru();
        return Ready(entry.runtime);
      }
      if key in inflight {
        return Join(inflight[key]);
      }
      var future := |futures|;
      futures := futures + [Future(key, None)];
      inflight := inflight[key := future];
      return Own(future);
    }

    /** _inflight.pop(key) and, if its future is still pending, its resolution. */
    method PopInflight(key: Key, outcome: Outcome)
      requires Model().Valid()
      modifies this`inflight, this`futures
      ensures Model() == old(Model()).Resolved(key, outcome) && Model().Valid()
    {
      if key in inflight {
        var future := inflight[key];
        inflight := inflight - {key};
        if futures[future].result.None? {
          futures := futures[future := Future(futures[future].key, Some(outcome))];
        }
      }
    }

    /** The end of _do_load when the loader succeeds. */
    method FinishLoad(entry: Entry) returns (evicted: Option<Entry>)
      requires Model().Valid()
      modifies this
      ensures Model() == old(Model()).Installed(entry) && Model().Valid()
    {
      TouchedKeeps(Model(), entry.key, entry);
      cache.PutValid(entry.key, entry);
      cache.Put(entry.key, entry).MoveToEndValid(entry.key);
      cache := cache.Put(entry.key, entry);
      cache := cache.MoveToEnd(entry.key);
      evicted := MaybeEvictLru();
      PopInflight(entry.key, Loaded(entry.runtime));
    }

    /** The end of _do_load when the loader raises. */
    method FailLoad(key: Key, error: string)
      requires Model().Valid()
      modifies this`inflight, this`futures
      ensures Model() == old(Model()).Resolved(key, Failed(error)) && Model().Valid()
    {
      PopInflight(key, Failed(error));
    }

    /** The locked section of evict; true when a hard entry was dropped. */
    method Evict(key: Key) returns (present: bool)
      requires Model().Valid()
      modifies this
      ensures Model() == old(Model()).Evicted(key) && Model().Valid()
      ensures present <==> key in old(cache.at)
    {
      EvictedKeeps(Model(), key);
      present := key in cache.at;
      cache := cache.Remove(key);
      softCache := softCache - {key};
      inflight := inflight - {key};
    }
  }
}
