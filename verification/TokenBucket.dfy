/** The admin API's token-bucket rate limiter, one bucket per tenant. */
module TokenBuckets {
  import opened Options
  import opened Sums

  datatype Request = Request(at: real, n: int)

  /** A bucket's fields: limits, tokens left and the time of the last update. */
  datatype Bucket = Bucket(capacity: int, rate: real, tokens: real, last: real)

  function Min(x: real, y: real): real { if x <= y then x else y }

  function Fresh(capacity: int, rate: real, now: real): Bucket {
    Bucket(capacity, rate, capacity as real, now)
  }

  /** The tokens available to a request at time now, before it is decided. */
  function Level(b: Bucket, now: real): real {
    Min(b.capacity as real, b.tokens + Times(now - b.last, b.rate))
  }

  function Allows(b: Bucket, r: Request): bool { Level(b, r.at) >= r.n as real }

  function After(b: Bucket, r: Request): Bucket {
    var left := Level(b, r.at);
    b.(tokens := if Allows(b, r) then left - r.n as real else left, last := r.at)
  }

  class TokenBucket {
    const capacity: int
    const refillRate: real
    var tokens: real
    var lastUpdate: real

    function Model(): Bucket
      reads this
    {
      Bucket(capacity, refillRate, tokens, lastUpdate)
    }

    constructor (capacity: int, refillRate: real, now: real)
      ensures Model() == Fresh(capacity, refillRate, now)
    {
      this.capacity, this.refillRate := capacity, refillRate;
      tokens, lastUpdate := capacity as real, now;
    }

    method Allow(now: real, n: int) returns (ok: bool)
      modifies this
      ensures ok == Allows(old(Model()), Request(now, n))
      ensures Model() == After(old(Model()), Request(now, n))
    {
      var elapsed := now - lastUpdate;
      lastUpdate := now;
      tokens := Min(capacity as real, tokens + Times(elapsed, refillRate));
      if tokens >= n as real {
        tokens := tokens - n as real;
        return true;
      }
      return false;
    }
  }

  // ---- Whole runs of one bucket -------------------------------------------------

  function StateAt(b: Bucket, reqs: seq<Request>, k: nat): Bucket
    requires k <= |reqs|
  {
    if k == 0 then b else After(StateAt(b, reqs, k - 1), reqs[k - 1])
  }

  predicate Granted(b: Bucket, reqs: seq<Request>, k: nat)
    requires k < |reqs|
  {
    Allows(StateAt(b, reqs, k), reqs[k])
  }

  /** Tokens granted to requests 0 .. k-1. */
  function Spent(b: Bucket, reqs: seq<Request>, k: nat): int
    requires k <= |reqs|
  {
    if k == 0 then 0 else Spent(b, reqs, k - 1) + (if Granted(b, reqs, k - 1) then reqs[k - 1].n else 0)
  }

  /** Where a window starts: at a request, or (-1) at the bucket's creation. */
  function StartTime(b: Bucket, reqs: seq<Request>, j: int): real
    requires -1 <= j < |reqs|
  {
    if j < 0 then b.last else reqs[j].at
  }

  function SpentSince(b: Bucket, reqs: seq<Request>, j: int, k: nat): int
    requires -1 <= j <= k <= |reqs|
  {
    Spent(b, reqs, k) - Spent(b, reqs, if j < 0 then 0 else j)
  }

  /** The most a window from j to request k may be granted: capacity plus refill. */
  function Bound(b: Bucket, reqs: seq<Request>, j: int, k: nat): real
    requires -1 <= j <= k < |reqs|
  {
    b.capacity as real + Times(reqs[k].at - StartTime(b, reqs, j), b.rate)
  }

  /** What is left at request k of the window that starts at j. */
  function Slack(b: Bucket, reqs: seq<Request>, j: int, k: nat): real
    requires -1 <= j <= k < |reqs|
  {
    Bound(b, reqs, j, k) - SpentSince(b, reqs, j, k) as real
  }

  lemma {:induction false} LimitsNeverChange(b: Bucket, reqs: seq<Request>, k: nat)
    requires k <= |reqs|
    ensures StateAt(b, reqs, k).capacity == b.capacity && StateAt(b, reqs, k).rate == b.rate
    ensures k > 0 ==> StateAt(b, reqs, k).last == reqs[k - 1].at
  {
    if k > 0 { LimitsNeverChange(b, reqs, k - 1); }
  }

  /** The level at request k is the least slack of any window ending there. */
  lemma {:induction false} LevelIsLeastSlack(b: Bucket, reqs: seq<Request>, k: nat) returns (tight: int)
    requires k < |reqs| && b.tokens == b.capacity as real
    ensures -1 <= tight <= k && Level(StateAt(b, reqs, k), reqs[k].at) == Slack(b, reqs, tight, k)
    ensures forall j :: -1 <= j <= k ==> Level(StateAt(b, reqs, k), reqs[k].at) <= Slack(b, reqs, j, k)
  {
    LimitsNeverChange(b, reqs, k);
    assert Times(0.0, b.rate) == 0.0;
    if k == 0 {
      tight := if Times(reqs[0].at - b.last, b.rate) >= 0.0 then 0 else -1;
    } else {
      var before := LevelIsLeastSlack(b, reqs, k - 1);
      LimitsNeverChange(b, reqs, k - 1);
      forall j | -1 <= j < k
        ensures Slack(b, reqs, j, k) == Slack(b, reqs, j, k - 1)
                + Times(reqs[k].at - reqs[k - 1].at, b.rate)
                - (if Granted(b, reqs, k - 1) then reqs[k - 1].n else 0) as real
      {
        TimesDistributes(b.rate, reqs[k].at - reqs[k - 1].at, reqs[k - 1].at - StartTime(b, reqs, j));
      }
      tight := if Slack(b, reqs, before, k) <= b.capacity as real then before else k;
    }
  }

  /** The limiter, characterised exactly: a request is granted if and only if no
      window ending at it would exceed capacity plus refill. Nothing is assumed
      about the clock, the rate or the sizes. */
  lemma {:induction false} GrantedIffEveryWindowFits(b: Bucket, reqs: seq<Request>, k: nat)
    requires k < |reqs| && b.tokens == b.capacity as real
    ensures Granted(b, reqs, k) <==> forall j :: -1 <= j <= k ==> reqs[k].n as real <= Slack(b, reqs, j, k)
  {
    var tight := LevelIsLeastSlack(b, reqs, k);
  }

  predicate ClockMonotone(start: real, reqs: seq<Request>) {
    && (|reqs| > 0 ==> start <= reqs[0].at)
    && forall i, j :: 0 <= i < j < |reqs| ==> reqs[i].at <= reqs[j].at
  }

  lemma TimesNonneg(x: real, y: real)
    requires x >= 0.0 && y >= 0.0
    ensures Times(x, y) >= 0.0
  {
    if x == 0.0 || y == 0.0 { assert Times(x, y) == 0.0; } else { SameSignTimes(x, y); }
  }

  /** With a clock that does not run backwards the creation window is implied. */
  lemma {:induction false} GrantedIffRequestWindowsFit(b: Bucket, reqs: seq<Request>, k: nat)
    requires k < |reqs| && b.tokens == b.capacity as real && b.rate >= 0.0 && ClockMonotone(b.last, reqs)
    ensures Granted(b, reqs, k) <==> forall j :: 0 <= j <= k ==> reqs[k].n as real <= Slack(b, reqs, j, k)
  {
    GrantedIffEveryWindowFits(b, reqs, k);
    TimesNonneg(reqs[0].at - b.last, b.rate);
    TimesDistributes(b.rate, reqs[0].at - b.last, reqs[k].at - reqs[0].at);
    assert Slack(b, reqs, 0, k) <= Slack(b, reqs, -1, k);
  }

  /** No window of requests is ever granted more than capacity plus refill. */
  lemma {:induction false} WindowsBounded(b: Bucket, reqs: seq<Request>, j: nat, k: nat)
    requires j <= k < |reqs| && b.tokens == b.capacity as real && b.capacity >= 0 && b.rate >= 0.0
    requires ClockMonotone(b.last, reqs)
    ensures SpentSince(b, reqs, j, k + 1) as real <= Bound(b, reqs, j, k)
  {
    if Granted(b, reqs, k) {
      GrantedIffEveryWindowFits(b, reqs, k);
      assert reqs[k].n as real <= Slack(b, reqs, j, k);
    } else if j == k {
      TimesNonneg(0.0, b.rate);
    } else {
      WindowsBounded(b, reqs, j, k - 1);
      TimesNonneg(reqs[k].at - reqs[k - 1].at, b.rate);
      TimesDistributes(b.rate, reqs[k].at - reqs[k - 1].at, reqs[k - 1].at - reqs[j].at);
    }
  }

  // ---- Optimality -----------------------------------------------------------------

  /** How many of the first k requests a decision list grants. */
  function Count(d: seq<bool>, k: nat): nat
    requires k <= |d|
  {
    if k == 0 then 0 else Count(d, k - 1) + (if d[k - 1] then 1 else 0)
  }

  /** What that many requests of size c cost. */
  function Cost(c: int, grants: int): int { c * grants }

  lemma CostAdds(c: int, x: int, y: int)
    ensures Cost(c, x + y) == Cost(c, x) + Cost(c, y)
    ensures Cost(c, 1) == c && Cost(c, 0) == 0
  {}

  lemma CostMonotone(c: int, x: int, y: int)
    requires c > 0 && x <= y
    ensures Cost(c, x) <= Cost(c, y)
  {
    var gap := y - x;
    assert c * y == c * x + c * gap;
    assert c * gap >= 0;
  }

  /** The tokens the first k requests get from a decision list. */
  function Weight(reqs: seq<Request>, d: seq<bool>, k: nat): int
    requires k <= |d| == |reqs|
  {
    if k == 0 then 0 else Weight(reqs, d, k - 1) + (if d[k - 1] then reqs[k - 1].n else 0)
  }

  /** d grants nothing outside the bucket's window bounds. */
  ghost predicate Conforms(b: Bucket, reqs: seq<Request>, d: seq<bool>) {
    |d| == |reqs| && forall j, k :: 0 <= j <= k < |d| && d[k] ==> WindowFits(b, reqs, d, j, k)
  }

  ghost predicate WindowFits(b: Bucket, reqs: seq<Request>, d: seq<bool>, j: nat, k: nat)
    requires j <= k < |d| == |reqs|
  {
    (Weight(reqs, d, k + 1) - Weight(reqs, d, j)) as real <= Bound(b, reqs, j, k)
  }

  function Decisions(b: Bucket, reqs: seq<Request>): seq<bool> {
    seq(|reqs|, k requires 0 <= k < |reqs| => Granted(b, reqs, k))
  }

  lemma {:induction false} SpentIsWeight(b: Bucket, reqs: seq<Request>, k: nat)
    requires k <= |reqs|
    ensures Spent(b, reqs, k) == Weight(reqs, Decisions(b, reqs), k)
  {
    if k > 0 { SpentIsWeight(b, reqs, k - 1); }
  }

  lemma {:induction false} SameWeight(reqs: seq<Request>, d: seq<bool>, e: seq<bool>, k: nat)
    requires k <= |d| == |e| == |reqs| && d[..k] == e[..k]
    ensures Weight(reqs, d, k) == Weight(reqs, e, k)
  {
    if k > 0 {
      assert d[..k][..k - 1] == d[..k - 1] && e[..k][..k - 1] == e[..k - 1];
      assert d[..k][k - 1] == e[..k][k - 1];
      SameWeight(reqs, d, e, k - 1);
    }
  }

  lemma {:induction false} WeightIsCost(reqs: seq<Request>, d: seq<bool>, c: int, k: nat)
    requires k <= |d| == |reqs| && forall i :: 0 <= i < |reqs| ==> reqs[i].n == c
    ensures Weight(reqs, d, k) == Cost(c, Count(d, k))
  {
    CostAdds(c, 0, 0);
    if k > 0 {
      WeightIsCost(reqs, d, c, k - 1);
      CostAdds(c, Count(d, k - 1), 1);
    }
  }

  /** The bucket's own decisions keep every window within its bound. */
  lemma {:induction false} DecisionsConform(b: Bucket, reqs: seq<Request>)
    requires b.tokens == b.capacity as real
    ensures Conforms(b, reqs, Decisions(b, reqs))
  {
    var d := Decisions(b, reqs);
    forall j, k | 0 <= j <= k < |d| && d[k] ensures WindowFits(b, reqs, d, j, k) {
      GrantedIffEveryWindowFits(b, reqs, k);
      assert reqs[k].n as real <= Slack(b, reqs, j, k);
      SpentIsWeight(b, reqs, k);
      SpentIsWeight(b, reqs, j);
    }
  }

  /** A denied request overfills some window. */
  lemma {:induction false} DenialOverfills(b: Bucket, reqs: seq<Request>, k: nat) returns (j: nat)
    requires b.tokens == b.capacity as real && b.rate >= 0.0 && ClockMonotone(b.last, reqs)
    requires k < |reqs| && !Granted(b, reqs, k)
    ensures j <= k
    ensures var mine := Decisions(b, reqs);
            (Weight(reqs, mine, k) - Weight(reqs, mine, j) + reqs[k].n) as real > Bound(b, reqs, j, k)
  {
    GrantedIffRequestWindowsFit(b, reqs, k);
    j :| 0 <= j <= k && reqs[k].n as real > Slack(b, reqs, j, k);
    SpentIsWeight(b, reqs, k);
    SpentIsWeight(b, reqs, j);
  }

  /** Whatever the sizes: a list within the bounds that has decided as the bucket so
      far cannot grant a request the bucket denies. */
  lemma DenialIsForced(b: Bucket, reqs: seq<Request>, d: seq<bool>, k: nat)
    requires b.tokens == b.capacity as real && b.rate >= 0.0 && ClockMonotone(b.last, reqs)
    requires Conforms(b, reqs, d) && k < |reqs| && d[..k] == Decisions(b, reqs)[..k]
    ensures d[k] ==> Granted(b, reqs, k)
  {
    if d[k] && !Granted(b, reqs, k) {
      var mine := Decisions(b, reqs);
      var j := DenialOverfills(b, reqs, k);
      assert d[..j] == d[..k][..j] && mine[..j] == mine[..k][..j];
      assert WindowFits(b, reqs, d, j, k);
      SameWeight(reqs, d, mine, k);
      SameWeight(reqs, d, mine, j);
      assert false;
    }
  }

  lemma {:induction false} FirstDifference(d: seq<bool>, e: seq<bool>, i: nat) returns (k: nat)
    requires i < |d| == |e| && d[i] != e[i]
    ensures k <= i && d[k] != e[k] && d[..k] == e[..k]
  {
    k := i;
    if j :| 0 <= j < i && d[j] != e[j] { k := FirstDifference(d, e, j); }
  }

  /** So any other list within the bounds denies, where it first differs, what the
      bucket grants. */
  lemma {:induction false} FirstDifferenceDenies(b: Bucket, reqs: seq<Request>, d: seq<bool>) returns (k: nat)
    requires b.tokens == b.capacity as real && b.rate >= 0.0 && ClockMonotone(b.last, reqs)
    requires Conforms(b, reqs, d) && d != Decisions(b, reqs)
    ensures k < |reqs| && d[..k] == Decisions(b, reqs)[..k] && !d[k] && Granted(b, reqs, k)
  {
    var mine := Decisions(b, reqs);
    var some :| 0 <= some < |d| && d[some] != mine[some];
    k := FirstDifference(d, mine, some);
    DenialIsForced(b, reqs, d, k);
  }

  lemma CostSince(reqs: seq<Request>, d: seq<bool>, c: int, j: nat, k: nat)
    requires j <= k <= |d| == |reqs| && forall i :: 0 <= i < |reqs| ==> reqs[i].n == c
    ensures Weight(reqs, d, k) - Weight(reqs, d, j) == Cost(c, Count(d, k) - Count(d, j))
  {
    WeightIsCost(reqs, d, c, k);
    WeightIsCost(reqs, d, c, j);
    CostAdds(c, Count(d, k) - Count(d, j), Count(d, j));
  }

  lemma ExtraCosts(c: int, theirs: int, ours: int)
    requires c > 0 && ours < theirs
    ensures Cost(c, ours) + c <= Cost(c, theirs)
  {
    CostAdds(c, ours, 1);
    CostMonotone(c, ours + 1, theirs);
  }

  /** A list that is not ahead at j, level at k and grants k weighs at least one
      request more over that window. */
  lemma ExtraGrantWeighsMore(reqs: seq<Request>, c: int, d: seq<bool>, e: seq<bool>, j: nat, k: nat)
    requires j <= k < |d| == |e| == |reqs| && c > 0 && forall i :: 0 <= i < |reqs| ==> reqs[i].n == c
    requires d[k] && Count(d, k) == Count(e, k) && Count(d, j) <= Count(e, j)
    ensures Weight(reqs, e, k) - Weight(reqs, e, j) + c <= Weight(reqs, d, k + 1) - Weight(reqs, d, j)
  {
    CostSince(reqs, d, c, j, k + 1);
    CostSince(reqs, e, c, j, k);
    ExtraCosts(c, Count(d, k + 1) - Count(d, j), Count(e, k) - Count(e, j));
  }

  /** For equal-sized requests the bucket is the least restrictive limiter: no
      decision list within the bounds is ahead of it after any prefix. */
  lemma {:induction false} BucketIsLeastRestrictive(b: Bucket, reqs: seq<Request>, c: int, d: seq<bool>, k: nat)
    requires b.tokens == b.capacity as real && b.rate >= 0.0 && ClockMonotone(b.last, reqs)
    requires c > 0 && forall i :: 0 <= i < |reqs| ==> reqs[i].n == c
    requires Conforms(b, reqs, d) && k <= |reqs|
    ensures Count(d, k) <= Count(Decisions(b, reqs), k)
  {
    if k > 0 {
      var mine := Decisions(b, reqs);
      BucketIsLeastRestrictive(b, reqs, c, d, k - 1);
      if d[k - 1] && !mine[k - 1] && Count(d, k - 1) == Count(mine, k - 1) {
        var j := DenialOverfills(b, reqs, k - 1);
        BucketIsLeastRestrictive(b, reqs, c, d, j);
        assert WindowFits(b, reqs, d, j, k - 1);
        ExtraGrantWeighsMore(reqs, c, d, mine, j, k - 1);
        assert false;
      }
    }
  }

  // ---- The per-tenant limiter -------------------------------------------------------

  datatype Limits = Limits(capacity: int, rate: real)

  datatype Event =
    | Ask(tenant: string, created: real, request: Request)
    | SetLimits(tenant: string, limits: Limits, created: real)

  type Buckets = map<string, Bucket>

  /** The bucket a request is decided against: the tenant's own, or a new one. */
  function BucketFor(m: Buckets, d: Limits, tenant: string, created: real): Bucket {
    if tenant in m then m[tenant] else Fresh(d.capacity, d.rate, created)
  }

  function Answer(m: Buckets, d: Limits, e: Event): bool
    requires e.Ask?
  {
    Allows(BucketFor(m, d, e.tenant, e.created), e.request)
  }

  function Step(m: Buckets, d: Limits, e: Event): Buckets {
    match e
    case Ask(t, created, r) => m[t := After(BucketFor(m, d, t, created), r)]
    case SetLimits(t, l, created) => m[t := Fresh(l.capacity, l.rate, created)]
  }

  class RateLimiter {
    const defaults: Limits
    var buckets: map<string, TokenBucket>

    /** Every tenant has a bucket object of its own. */
    ghost predicate Valid()
      reads this
    {
      forall t, u :: t in buckets && u in buckets && t != u ==> buckets[t] != buckets[u]
    }

    ghost function Objects(): set<object>
      reads this
    {
      set t | t in buckets :: buckets[t]
    }

    ghost function Model(): Buckets
      reads this, Objects()
    {
      map t | t in buckets :: buckets[t].Model()
    }

    constructor (capacity: int, refill: real)
      ensures Valid() && Model() == map[] && defaults == Limits(capacity, refill)
    {
      defaults := Limits(capacity, refill);
      buckets := map[];
    }

    method GetBucket(tenant: string, created: real) returns (b: TokenBucket)
      requires Valid()
      modifies this
      ensures Valid() && tenant in buckets && buckets[tenant] == b
      ensures Objects() - old(Objects()) <= {b} && (b in old(Objects()) || fresh(b))
      ensures Model() == old(Model())[tenant := BucketFor(old(Model()), defaults, tenant, created)]
    {
      if tenant !in buckets {
        var made := new TokenBucket(defaults.capacity, defaults.rate, created);
        buckets := buckets[tenant := made];
      }
      b := buckets[tenant];
    }

    method IsAllowed(tenant: string, created: real, now: real, n: int) returns (ok: bool)
      requires Valid()
      modifies this, Objects()
      ensures Valid()
      ensures ok == Answer(old(Model()), defaults, Ask(tenant, created, Request(now, n)))
      ensures Model() == Step(old(Model()), defaults, Ask(tenant, created, Request(now, n)))
    {
      var b := GetBucket(tenant, created);
      assert Model()[tenant] == b.Model();
      ok := b.Allow(now, n);
    }

    method SetTenantLimits(tenant: string, capacity: int, rate: real, now: real)
      requires Valid()
      modifies this
      ensures Valid()
      ensures Model() == Step(old(Model()), defaults, SetLimits(tenant, Limits(capacity, rate), now))
    {
      var made := new TokenBucket(capacity, rate, now);
      buckets := buckets[tenant := made];
    }
  }

  function Run(m: Buckets, d: Limits, es: seq<Event>): Buckets {
    if |es| == 0 then m else Step(Run(m, d, es[..|es| - 1]), d, es[|es| - 1])
  }

  function OfTenant(es: seq<Event>, tenant: string): seq<Event> {
    if |es| == 0 then []
    else OfTenant(es[..|es| - 1], tenant) + (if es[|es| - 1].tenant == tenant then [es[|es| - 1]] else [])
  }

  /** A tenant's bucket, and so every answer it gets, is what its own events
      alone would have produced. */
  lemma {:induction false} TenantsAreIsolated(d: Limits, es: seq<Event>, tenant: string, ask: Event)
    requires ask.Ask? && ask.tenant == tenant
    ensures (tenant in Run(map[], d, es)) == (tenant in Run(map[], d, OfTenant(es, tenant)))
    ensures tenant in Run(map[], d, es) ==> Run(map[], d, es)[tenant] == Run(map[], d, OfTenant(es, tenant))[tenant]
    ensures Answer(Run(map[], d, es), d, ask) == Answer(Run(map[], d, OfTenant(es, tenant)), d, ask)
  {
    if |es| > 0 {
      var init, last := es[..|es| - 1], es[|es| - 1];
      TenantsAreIsolated(d, init, tenant, ask);
      if last.tenant == tenant {
        var own := OfTenant(es, tenant);
        assert own[..|own| - 1] == OfTenant(init, tenant) && own[|own| - 1] == last;
      } else {
        assert OfTenant(es, tenant) == OfTenant(init, tenant);
      }
    }
  }

  /** A tenant's requests since its limits were last set. */
  function Asks(es: seq<Event>, tenant: string): seq<Request> {
    if |es| == 0 then []
    else
      var init, last := es[..|es| - 1], es[|es| - 1];
      if last.tenant != tenant then Asks(init, tenant)
      else if last.SetLimits? then []
      else Asks(init, tenant) + [last.request]
  }

  /** The full bucket those requests began with: of the limits last set, or of the
      default ones at the tenant's first request. */
  function FirstBucket(d: Limits, es: seq<Event>, tenant: string): Option<Bucket> {
    if |es| == 0 then None
    else
      var init, last := es[..|es| - 1], es[|es| - 1];
      if last.tenant != tenant then FirstBucket(d, init, tenant)
      else if last.SetLimits? then Some(Fresh(last.limits.capacity, last.limits.rate, last.created))
      else if FirstBucket(d, init, tenant).Some? then FirstBucket(d, init, tenant)
      else Some(Fresh(d.capacity, d.rate, last.created))
  }

  lemma {:induction false} StateOfPrefix(b: Bucket, reqs: seq<Request>, more: seq<Request>, k: nat)
    requires k <= |reqs|
    ensures StateAt(b, reqs + more, k) == StateAt(b, reqs, k)
  {
    if k > 0 { StateOfPrefix(b, reqs, more, k - 1); }
  }

  lemma StateOfSnoc(b: Bucket, reqs: seq<Request>, r: Request)
    ensures StateAt(b, reqs + [r], |reqs| + 1) == After(StateAt(b, reqs, |reqs|), r)
  {
    StateOfPrefix(b, reqs, [r], |reqs|);
  }

  lemma {:induction false} NoBucketNoAsks(d: Limits, es: seq<Event>, tenant: string)
    requires FirstBucket(d, es, tenant).None?
    ensures Asks(es, tenant) == []
  {
    if |es| > 0 { NoBucketNoAsks(d, es[..|es| - 1], tenant); }
  }

  /** A tenant's bucket is the one its limits were last set to, after the requests it
      made since. */
  lemma {:induction false} TenantHasItsBucket(d: Limits, es: seq<Event>, tenant: string)
    ensures tenant in Run(map[], d, es) <==> FirstBucket(d, es, tenant).Some?
    ensures tenant in Run(map[], d, es) ==>
      Run(map[], d, es)[tenant] == StateAt(FirstBucket(d, es, tenant).value, Asks(es, tenant), |Asks(es, tenant)|)
  {
    if |es| > 0 {
      var init, last := es[..|es| - 1], es[|es| - 1];
      TenantHasItsBucket(d, init, tenant);
      if last.tenant == tenant && last.Ask? {
        if FirstBucket(d, init, tenant).None? { NoBucketNoAsks(d, init, tenant); }
        StateOfSnoc(FirstBucket(d, es, tenant).value, Asks(init, tenant), last.request);
      }
    }
  }

  /** So a request is answered as that bucket decides it, whose windows the earlier
      theorems bound. */
  lemma AnswerIsBuckets(d: Limits, es: seq<Event>, ask: Event)
    requires ask.Ask?
    ensures var b, reqs := FirstBucket(d, es + [ask], ask.tenant), Asks(es + [ask], ask.tenant);
      b.Some? && b.value.tokens == b.value.capacity as real && |reqs| > 0 &&
      (Answer(Run(map[], d, es), d, ask) <==> Granted(b.value, reqs, |reqs| - 1))
  {
    var t := ask.tenant;
    assert (es + [ask])[..|es|] == es;
    TenantHasItsBucket(d, es, t);
    if FirstBucket(d, es, t).None? { NoBucketNoAsks(d, es, t); }
    FirstIsFull(d, es, t);
    StateOfPrefix(FirstBucket(d, es + [ask], t).value, Asks(es, t), [ask.request], |Asks(es, t)|);
  }

  lemma {:induction false} FirstIsFull(d: Limits, es: seq<Event>, tenant: string)
    ensures var b := FirstBucket(d, es, tenant); b.Some? ==> b.value.tokens == b.value.capacity as real
  {
    if |es| > 0 { FirstIsFull(d, es[..|es| - 1], tenant); }
  }
}
