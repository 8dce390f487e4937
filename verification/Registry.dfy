/** The tenant model registry: the in-memory dictionary, the PostgreSQL table it must
    agree with, and what one tenant's operations leave alone. */
module Registry {
  import opened Options
  import opened OrderedDicts

  datatype Key = Key(tenant: string, model: string, version: string)

  type Thresholds = map<string, real>

  datatype Metadata = Metadata(key: Key, storagePath: string, configPath: string, schema: string,
                               thresholds: Thresholds, framework: string)

  datatype Tenant = Tenant(id: string, name: string, email: string, tier: string)

  predicate Matches(k: Key, tenant: string, model: string) { k.tenant == tenant && k.model == model }

  // ---- In memory -----------------------------------------------------------------------------

  datatype Memory = Memory(tenants: map<string, Tenant>, models: OrderedDict<Key, Metadata>)

  function LatestKey(order: seq<Key>, tenant: string, model: string): Option<Key> {
    if |order| == 0 then None
    else
      var last := order[|order| - 1];
      if Matches(last, tenant, model) then Some(last) else LatestKey(order[..|order| - 1], tenant, model)
  }

  function At<V>(d: OrderedDict<Key, V>, k: Option<Key>): Option<V> {
    if k.Some? && k.value in d.at then Some(d.at[k.value]) else None
  }

  /** The last matching entry in dictionary order. */
  function Latest(m: Memory, tenant: string, model: string): Option<Metadata> {
    At(m.models, LatestKey(m.models.order, tenant, model))
  }

  function Merged(md: Metadata, news: Thresholds): Metadata { md.(thresholds := md.thresholds + news) }

  /** The registry's content, and which dictionary each entry's thresholds live in. */
  datatype Shared<D> = Shared(memory: Memory, dicts: map<Key, D>)

  /** Both entries hold the same dictionary. */
  predicate Share<D(==)>(dicts: map<Key, D>, j: Key, k: Key) {
    j in dicts && k in dicts && dicts[j] == dicts[k]
  }

  /** dict.update on k's dictionary: every entry that holds it sees the change. */
  function MergedWhereShared<D(==)>(at: map<Key, Metadata>, dicts: map<Key, D>, k: Key, news: Thresholds)
      : map<Key, Metadata>
  {
    map j | j in at :: if Share(dicts, j, k) then Merged(at[j], news) else at[j]
  }

  function Registered<D>(s: Shared<D>, md: Metadata, d: D): Shared<D> {
    Shared(MemoryNext(s.memory, AddModel(md)), s.dicts[md.key := d])
  }

  function Removed<D>(s: Shared<D>, k: Key): Shared<D> {
    Shared(MemoryNext(s.memory, Delete(k)), s.dicts - {k})
  }

  function Updated<D(==)>(s: Shared<D>, k: Key, news: Thresholds): Shared<D> {
    s.(memory := s.memory.(models := s.memory.models.(at := MergedWhereShared(s.memory.models.at, s.dicts, k, news))))
  }

  /** A dictionary of thresholds, as an object of its own. */
  class ThresholdDict {
    var entries: Thresholds

    constructor (entries: Thresholds)
      ensures this.entries == entries
    {
      this.entries := entries;
    }

    method Update(news: Thresholds)
      modifies this
      ensures entries == old(entries) + news
    {
      entries := entries + news;
    }
  }

  /** What is stored: the arguments of the registration, with the caller's dictionary. */
  datatype Filing = Filing(key: Key, storagePath: string, configPath: string, schema: string,
                           dict: ThresholdDict, framework: string)

  function Resolved(f: Filing): Metadata
    reads f.dict
  {
    Metadata(f.key, f.storagePath, f.configPath, f.schema, f.dict.entries, f.framework)
  }

  function ResolvedOption(f: Option<Filing>): Option<Metadata>
    reads if f.Some? then {f.value.dict} else {}
  {
    if f.Some? then Some(Resolved(f.value)) else None
  }

  lemma SameEntries<V>(a: map<Key, V>, b: map<Key, V>)
    requires a.Keys == b.Keys && forall k :: k in a ==> a[k] == b[k]
    ensures a == b
  {}

  class InMemoryTenantModelRegistry {
    var tenants: map<string, Tenant>
    var registry: OrderedDict<Key, Filing>

    function Dicts(): set<ThresholdDict>
      reads this
    {
      set k | k in registry.at :: registry.at[k].dict
    }

    /** Every entry with the thresholds its dictionary holds now. */
    function Contents(): (at: map<Key, Metadata>)
      reads this, Dicts()
      ensures at.Keys == registry.at.Keys
      ensures forall k :: k in registry.at ==> at[k] == Resolved(registry.at[k])
    {
      map k | k in registry.at :: Resolved(registry.at[k])
    }

    function Holdings(): (dicts: map<Key, ThresholdDict>)
      reads this
      ensures dicts.Keys == registry.at.Keys && forall k :: k in registry.at ==> dicts[k] == registry.at[k].dict
    {
      map k | k in registry.at :: registry.at[k].dict
    }

    function Model(): Memory
      reads this, Dicts()
    {
      Memory(tenants, OrderedDict(registry.order, Contents()))
    }

    function State(): Shared<ThresholdDict>
      reads this, Dicts()
    {
      Shared(Model(), Holdings())
    }

    ghost predicate Valid()
      reads this
    {
      registry.Valid() && forall k :: k in registry.at ==> registry.at[k].key == k
    }

    constructor ()
      ensures Model() == Memory(map[], OrderedDict([], map[])) && Valid()
    {
      tenants, registry := map[], OrderedDict([], map[]);
    }

    method RegisterTenant(t: Tenant)
      requires Valid()
      modifies this
      ensures Valid() && Model() == MemoryNext(old(Model()), AddTenant(t)) && Holdings() == old(Holdings())
    {
      ghost var was := Contents();
      tenants := tenants[t.id := t];
      SameEntries(Contents(), was);
    }

    method RegisterModel(f: Filing)
      requires Valid()
      modifies this
      ensures Valid() && State() == Registered(old(State()), old(Resolved(f)), f.dict)
    {
      ghost var was, held := Contents(), Holdings();
      registry.PutValid(f.key, f);
      File(f);
      SameEntries(Contents(), was[f.key := Resolved(f)]);
      SameEntries(Holdings(), held[f.key := f.dict]);
    }

    method File(f: Filing)
      modifies this`registry
      ensures registry == old(registry).Put(f.key, f) && registry.at == old(registry.at)[f.key := f]
    {
      registry := registry.Put(f.key, f);
    }

    method Unfile(k: Key)
      modifies this`registry
      ensures registry == old(registry).Remove(k) && registry.at == old(registry.at) - {k}
    {
      registry := registry.Remove(k);
    }

    method GetModel(k: Key) returns (md: Option<Filing>)
      ensures md.None? <==> k !in registry.at
      ensures md.Some? ==> md.value == registry.at[k]
    {
      return if k in registry.at then Some(registry.at[k]) else None;
    }

    method GetLatestModel(tenant: string, model: string) returns (md: Option<Filing>)
      requires Valid()
      ensures md.Some? ==> md.value.dict in Dicts()
      ensures ResolvedOption(md) == Latest(Model(), tenant, model)
    {
      var matching := Matching(registry.order, tenant, model);
      LastMatching(registry.order, tenant, model);
      if |matching| == 0 {
        return None;
      }
      var k := matching[|matching| - 1];
      return if k in registry.at then Some(registry.at[k]) else None;
    }

    /** The dictionary built by overwriting holds each model's latest version. */
    method ListTenantModels(tenant: string) returns (result: map<string, Filing>)
      requires Valid()
      ensures forall m :: m in result <==> Latest(Model(), tenant, m).Some?
      ensures forall m :: m in result ==> Latest(Model(), tenant, m) == Some(Resolved(result[m]))
    {
      result := map[];
      for i := 0 to |registry.order|
        invariant forall m :: m in result <==> LatestKey(registry.order[..i], tenant, m).Some?
        invariant forall m :: m in result ==>
          At(registry, LatestKey(registry.order[..i], tenant, m)) == Some(result[m])
      {
        var k := registry.order[i];
        assert registry.order[..i + 1][..i] == registry.order[..i];
        assert k in registry.at;
        if k.tenant == tenant {
          result := result[k.model := registry.at[k]];
        }
      }
      assert registry.order[..|registry.order|] == registry.order;
    }

    /** The stored dictionary is updated in place, for every entry that holds it. */
    method UpdateDriftThresholds(k: Key, news: Thresholds) returns (md: Option<Filing>)
      requires Valid()
      modifies if k in registry.at then {registry.at[k].dict} else {}
      ensures Valid() && registry == old(registry)
      ensures State() == Updated(old(State()), k, news)
      ensures if k in registry.at then md == Some(registry.at[k]) else md.None?
    {
      if k !in registry.at {
        assert MergedWhereShared(Contents(), Holdings(), k, news) == Contents();
        return None;
      }
      Merge(k, news);
      return Some(registry.at[k]);
    }

    method Merge(k: Key, news: Thresholds)
      requires k in registry.at
      modifies registry.at[k].dict
      ensures Contents() == MergedWhereShared(old(Contents()), Holdings(), k, news)
    {
      ghost var was := Contents();
      registry.at[k].dict.Update(news);
      SameEntries(Contents(), MergedWhereShared(was, Holdings(), k, news));
    }

    method DeleteModel(k: Key) returns (deleted: bool)
      requires Valid()
      modifies this
      ensures Valid() && State() == Removed(old(State()), k)
      ensures deleted <==> k in old(registry.at)
    {
      ghost var was, held := Contents(), Holdings();
      registry.RemoveValid(k);
      if k !in registry.at {
        WithoutAbsent(registry.order, k);
        SameEntries(was, was - {k});
        SameEntries(held, held - {k});
        return false;
      }
      Unfile(k);
      SameEntries(Contents(), was - {k});
      SameEntries(Holdings(), held - {k});
      return true;
    }
  }

  function Matching(order: seq<Key>, tenant: string, model: string): seq<Key> {
    if |order| == 0 then []
    else
      var init, last := Matching(order[..|order| - 1], tenant, model), order[|order| - 1];
      if Matches(last, tenant, model) then init + [last] else init
  }

  lemma {:induction false} LastMatching(order: seq<Key>, tenant: string, model: string)
    ensures var s := Matching(order, tenant, model);
      LatestKey(order, tenant, model) == if |s| == 0 then None else Some(s[|s| - 1])
  {
    if |order| > 0 { LastMatching(order[..|order| - 1], tenant, model); }
  }

  // ---- The table -----------------------------------------------------------------------------

  /** created_at is set by the insert and kept by an upsert. */
  datatype Row = Row(metadata: Metadata, createdAt: int)

  datatype Table = Table(tenants: map<string, Tenant>, rows: map<Key, Row>)

  /** Any answer ORDER BY created_at DESC LIMIT 1 may give. */
  ghost predicate IsNewest(t: Table, tenant: string, model: string, answer: Option<Metadata>) {
    match answer
    case None => forall k :: k in t.rows ==> !Matches(k, tenant, model)
    case Some(md) =>
      exists k :: k in t.rows && Matches(k, tenant, model) && t.rows[k].metadata == md &&
                  forall j :: j in t.rows && Matches(j, tenant, model) ==> t.rows[j].createdAt <= t.rows[k].createdAt
  }

  datatype Op = AddTenant(info: Tenant) | AddModel(metadata: Metadata) | Delete(key: Key)
              | Update(key: Key, news: Thresholds)

  function MemoryNext(m: Memory, op: Op): Memory {
    match op
    case AddTenant(t) => m.(tenants := m.tenants[t.id := t])
    case AddModel(md) => m.(models := m.models.Put(md.key, md))
    case Delete(k) => m.(models := m.models.Remove(k))
    case Update(k, news) =>
      if k in m.models.at then m.(models := m.models.(at := m.models.at[k := Merged(m.models.at[k], news)])) else m
  }

  /** The new thresholds win over those of the same name, and the others stay. */
  lemma MergedIs(md: Metadata, news: Thresholds, name: string)
    ensures var t := Merged(md, news).thresholds;
      name in t <==> name in md.thresholds || name in news
    ensures name in news ==> Merged(md, news).thresholds[name] == news[name]
    ensures name in md.thresholds && name !in news ==> Merged(md, news).thresholds[name] == md.thresholds[name]
    ensures Merged(md, news) == md.(thresholds := Merged(md, news).thresholds)
  {}

  /** What each operation makes of a version: a registration stores it, a deletion
      drops it, an update merges its thresholds, and no other version changes. */
  lemma OperationIs(m: Memory, op: Op, k: Key)
    ensures var now, later := At(m.models, Some(k)), At(MemoryNext(m, op).models, Some(k));
      match op
      case AddTenant(_) => later == now
      case AddModel(md) => later == if k == md.key then Some(md) else now
      case Delete(d) => later == if k == d then None else now
      case Update(u, news) => later == if k == u && now.Some? then Some(Merged(now.value, news)) else now
  {}

  /** A tenant registered by name is stored as given. */
  lemma TenantIsStored(m: Memory, t: Table, info: Tenant, now: int)
    ensures Look(MemoryNext(m, AddTenant(info)).tenants, info.id) == Some(info)
    ensures Look(TableNext(t, AddTenant(info), now).tenants, info.id) == Some(info)
  {}

  /** The tenant a model registration creates when there is none. */
  function Placeholder(id: string): Tenant { Tenant(id, id, id + "@example.local", "standard") }

  function TableNext(t: Table, op: Op, now: int): Table {
    match op
    case AddTenant(info) => t.(tenants := t.tenants[info.id := info])
    case AddModel(md) =>
      var id := md.key.tenant;
      Table(if id in t.tenants then t.tenants else t.tenants[id := Placeholder(id)],
            t.rows[md.key := Row(md, if md.key in t.rows then t.rows[md.key].createdAt else now)])
    case Delete(k) => t.(rows := t.rows - {k})
    case Update(k, news) =>
      if k in t.rows then t.(rows := t.rows[k := Row(Merged(t.rows[k].metadata, news), t.rows[k].createdAt)]) else t
  }

  /** An operation and the time of its transaction. */
  datatype Timed = Timed(op: Op, now: int)

  function MemoryRun(ops: seq<Timed>): Memory {
    if |ops| == 0 then Memory(map[], OrderedDict([], map[]))
    else MemoryNext(MemoryRun(ops[..|ops| - 1]), ops[|ops| - 1].op)
  }

  function TableRun(ops: seq<Timed>): Table {
    if |ops| == 0 then Table(map[], map[])
    else TableNext(TableRun(ops[..|ops| - 1]), ops[|ops| - 1].op, ops[|ops| - 1].now)
  }

  predicate ClockIncreases(ops: seq<Timed>) {
    forall i, j :: 0 <= i < j < |ops| ==> ops[i].now < ops[j].now
  }

  // ---- Agreement -------------------------------------------------------------------------------

  /** Same contents, and dictionary order is creation order. */
  ghost predicate Agree(m: Memory, t: Table, now: int) {
    m.models.Valid() && SameContents(m.models.at, t.rows, now) && InCreationOrder(m.models.order, t)
  }

  predicate SameContents(at: map<Key, Metadata>, rows: map<Key, Row>, now: int) {
    && at.Keys == rows.Keys
    && forall k :: k in rows ==> k in at && rows[k].metadata == at[k] && rows[k].createdAt <= now
  }

  ghost predicate InCreationOrder(order: seq<Key>, t: Table) {
    && (forall k :: k in order ==> k in t.rows)
    && forall i, j :: 0 <= i < j < |order| ==> t.rows[order[i]].createdAt < t.rows[order[j]].createdAt
  }

  /** The rest of an ordered list comes after its head, whatever is dropped from it. */
  lemma HeadIsEarliest(order: seq<Key>, k: Key, t: Table, x: Key)
    requires |order| > 0 && InCreationOrder(order, t) && x in Without(order[1..], k)
    ensures x in t.rows && t.rows[order[0]].createdAt < t.rows[x].createdAt
  {
    var rest := order[1..];
    WithoutKeeps(rest, k);
    var i :| 0 <= i < |rest| && rest[i] == x;
    assert order[i + 1] == x;
  }

  lemma {:induction false} WithoutKeepsOrder(order: seq<Key>, k: Key, t: Table)
    requires InCreationOrder(order, t)
    ensures InCreationOrder(Without(order, k), t)
  {
    WithoutKeeps(order, k);
    if |order| > 0 {
      var rest := order[1..];
      forall x | x in rest ensures x in t.rows { assert x in order; }
      WithoutKeepsOrder(rest, k, t);
      var w := Without(rest, k);
      forall j | 0 <= j < |w| ensures w[j] in t.rows && t.rows[order[0]].createdAt < t.rows[w[j]].createdAt {
        HeadIsEarliest(order, k, t, w[j]);
      }
    }
  }

  lemma OrderUnderSameTimes(order: seq<Key>, t: Table, t': Table)
    requires InCreationOrder(order, t)
    requires forall k :: k in order ==> k in t'.rows && t'.rows[k].createdAt == t.rows[k].createdAt
    ensures InCreationOrder(order, t')
  {
    forall i, j | 0 <= i < j < |order| ensures t'.rows[order[i]].createdAt < t'.rows[order[j]].createdAt {
      assert order[i] in order && order[j] in order;
    }
  }

  lemma AddKeepsOrder(order: seq<Key>, t: Table, t': Table, k: Key, now: int)
    requires InCreationOrder(order, t) && (forall j :: j in t.rows ==> t.rows[j].createdAt < now)
    requires k in t'.rows && forall j :: j in t.rows ==> j in t'.rows && t'.rows[j].createdAt == t.rows[j].createdAt
    requires k !in t.rows ==> t'.rows[k].createdAt == now
    ensures InCreationOrder(if k in t.rows then order else order + [k], t')
  {
    OrderUnderSameTimes(order, t, t');
    if k !in t.rows {
      forall i | 0 <= i < |order| ensures t'.rows[order[i]].createdAt < now { assert order[i] in order; }
    }
  }

  lemma PutKeepsContents(at: map<Key, Metadata>, rows: map<Key, Row>, before: int,
                         k: Key, md: Metadata, created: int, now: int)
    requires SameContents(at, rows, before) && before <= now && created <= now
    ensures SameContents(at[k := md], rows[k := Row(md, created)], now)
  {}

  lemma LaterIsFine(at: map<Key, Metadata>, rows: map<Key, Row>, before: int, now: int)
    requires SameContents(at, rows, before) && before <= now
    ensures SameContents(at, rows, now)
  {}

  lemma AddKeepsAgree(m: Memory, t: Table, before: int, md: Metadata, now: int)
    requires Agree(m, t, before) && before < now
    ensures Agree(MemoryNext(m, AddModel(md)), TableNext(t, AddModel(md), now), now)
  {
    var k := md.key;
    var created := if k in t.rows then t.rows[k].createdAt else now;
    var m', t' := MemoryNext(m, AddModel(md)), TableNext(t, AddModel(md), now);
    m.models.PutValid(k, md);
    AddKeepsOrder(m.models.order, t, t', k, now);
    PutKeepsContents(m.models.at, t.rows, before, k, md, created, now);
    assert m'.models.at == m.models.at[k := md] && t'.rows == t.rows[k := Row(md, created)];
    assert m'.models.order == if k in t.rows then m.models.order else m.models.order + [k];
  }

  lemma UpdateKeepsAgree(m: Memory, t: Table, before: int, k: Key, news: Thresholds, now: int)
    requires Agree(m, t, before) && before < now
    ensures Agree(MemoryNext(m, Update(k, news)), TableNext(t, Update(k, news), now), now)
  {
    var t' := TableNext(t, Update(k, news), now);
    OrderUnderSameTimes(m.models.order, t, t');
    LaterIsFine(m.models.at, t.rows, before, now);
    if k in t.rows {
      PutKeepsContents(m.models.at, t.rows, before, k, Merged(m.models.at[k], news), t.rows[k].createdAt, now);
      assert MemoryNext(m, Update(k, news)).models.Valid();
    }
  }

  lemma DeleteKeepsAgree(m: Memory, t: Table, before: int, k: Key, now: int)
    requires Agree(m, t, before) && before < now
    ensures Agree(MemoryNext(m, Delete(k)), TableNext(t, Delete(k), now), now)
  {
    m.models.RemoveValid(k);
    WithoutKeeps(m.models.order, k);
    WithoutKeepsOrder(m.models.order, k, t);
    OrderUnderSameTimes(Without(m.models.order, k), t, TableNext(t, Delete(k), now));
  }

  lemma StepKeepsAgree(m: Memory, t: Table, before: int, op: Op, now: int)
    requires Agree(m, t, before) && before < now
    ensures Agree(MemoryNext(m, op), TableNext(t, op, now), now)
  {
    match op
    case AddTenant(_) => OrderUnderSameTimes(m.models.order, t, TableNext(t, op, now));
    case AddModel(md) => AddKeepsAgree(m, t, before, md, now);
    case Delete(k) => DeleteKeepsAgree(m, t, before, k, now);
    case Update(k, news) => UpdateKeepsAgree(m, t, before, k, news, now);
  }

  lemma {:induction false} BackendsAgree(ops: seq<Timed>)
    requires ClockIncreases(ops)
    ensures |ops| > 0 ==> Agree(MemoryRun(ops), TableRun(ops), ops[|ops| - 1].now)
  {
    if |ops| > 1 {
      var init := ops[..|ops| - 1];
      BackendsAgree(init);
      StepKeepsAgree(MemoryRun(init), TableRun(init), init[|init| - 1].now, ops[|ops| - 1].op, ops[|ops| - 1].now);
    } else if |ops| == 1 {
      assert Agree(MemoryRun([]), TableRun([]), ops[0].now - 1);
      assert ops[..0] == [];
      StepKeepsAgree(MemoryRun([]), TableRun([]), ops[0].now - 1, ops[0].op, ops[0].now);
    }
  }

  /** The entry at i is the last one that matches. */
  ghost predicate LastAt(order: seq<Key>, i: int, tenant: string, model: string) {
    && 0 <= i < |order| && Matches(order[i], tenant, model)
    && forall j :: i < j < |order| ==> !Matches(order[j], tenant, model)
  }

  ghost predicate NoMatch(order: seq<Key>, tenant: string, model: string) {
    forall i :: 0 <= i < |order| ==> !Matches(order[i], tenant, model)
  }

  lemma LastAtGrows(order: seq<Key>, i: int, tenant: string, model: string)
    requires |order| > 0 && !Matches(order[|order| - 1], tenant, model)
    requires LastAt(order[..|order| - 1], i, tenant, model)
    ensures LastAt(order, i, tenant, model) && order[i] == order[..|order| - 1][i]
  {
    var init := order[..|order| - 1];
    forall j | i < j < |order| ensures !Matches(order[j], tenant, model) {
      if j < |init| { assert order[j] == init[j]; }
    }
  }

  lemma NoMatchGrows(order: seq<Key>, tenant: string, model: string)
    requires |order| > 0 && !Matches(order[|order| - 1], tenant, model)
    requires NoMatch(order[..|order| - 1], tenant, model)
    ensures NoMatch(order, tenant, model)
  {
    var init := order[..|order| - 1];
    forall j | 0 <= j < |order| ensures !Matches(order[j], tenant, model) {
      if j < |init| { assert order[j] == init[j]; }
    }
  }

  lemma {:induction false} LatestKeyIsLast(order: seq<Key>, tenant: string, model: string)
    ensures match LatestKey(order, tenant, model)
      case None => NoMatch(order, tenant, model)
      case Some(k) => exists i :: LastAt(order, i, tenant, model) && order[i] == k
  {
    if |order| > 0 {
      if Matches(order[|order| - 1], tenant, model) {
        assert LastAt(order, |order| - 1, tenant, model);
      } else {
        var init := order[..|order| - 1];
        LatestKeyIsLast(init, tenant, model);
        match LatestKey(init, tenant, model)
        case None => NoMatchGrows(order, tenant, model);
        case Some(k) =>
          var i :| LastAt(init, i, tenant, model) && init[i] == k;
          LastAtGrows(order, i, tenant, model);
      }
    }
  }

  ghost predicate IsTop(t: Table, tenant: string, model: string, top: Key) {
    && top in t.rows && Matches(top, tenant, model)
    && forall k :: k in t.rows && Matches(k, tenant, model) && k != top ==> t.rows[k].createdAt < t.rows[top].createdAt
  }

  lemma LatestKeyIsTop(order: seq<Key>, t: Table, tenant: string, model: string)
    requires InCreationOrder(order, t) && forall k :: k in t.rows ==> k in order
    ensures match LatestKey(order, tenant, model)
      case None => forall k :: k in t.rows ==> !Matches(k, tenant, model)
      case Some(top) => IsTop(t, tenant, model, top)
  {
    LatestKeyIsLast(order, tenant, model);
    match LatestKey(order, tenant, model)
    case None =>
      forall k | k in t.rows ensures !Matches(k, tenant, model) {
        var j :| 0 <= j < |order| && order[j] == k;
      }
    case Some(top) =>
      var i :| LastAt(order, i, tenant, model) && order[i] == top;
      LastIsTop(order, t, i, tenant, model);
  }

  lemma LastIsTop(order: seq<Key>, t: Table, i: int, tenant: string, model: string)
    requires InCreationOrder(order, t) && forall k :: k in t.rows ==> k in order
    requires LastAt(order, i, tenant, model)
    ensures IsTop(t, tenant, model, order[i])
  {
    var top := order[i];
    assert top in order;
    forall k | k in t.rows && Matches(k, tenant, model) && k != top
      ensures t.rows[k].createdAt < t.rows[top].createdAt
    {
      var j :| 0 <= j < |order| && order[j] == k;
      assert j < i;
    }
  }

  lemma TopIsNewest(t: Table, tenant: string, model: string, top: Key, answer: Option<Metadata>)
    requires IsTop(t, tenant, model, top)
    ensures IsNewest(t, tenant, model, answer) <==> answer == Some(t.rows[top].metadata)
  {
    if answer.Some? && IsNewest(t, tenant, model, answer) {
      var k :| k in t.rows && Matches(k, tenant, model) && t.rows[k].metadata == answer.value &&
               forall j :: j in t.rows && Matches(j, tenant, model) ==> t.rows[j].createdAt <= t.rows[k].createdAt;
      assert t.rows[top].createdAt <= t.rows[k].createdAt;
    }
  }

  /** Where contents and order agree, the query has one answer: the dictionary's. */
  lemma NewestIsLatest(m: Memory, t: Table, now: int, tenant: string, model: string, answer: Option<Metadata>)
    requires Agree(m, t, now)
    ensures IsNewest(t, tenant, model, answer) <==> answer == Latest(m, tenant, model)
  {
    LatestKeyIsTop(m.models.order, t, tenant, model);
    if LatestKey(m.models.order, tenant, model).Some? {
      TopIsNewest(t, tenant, model, LatestKey(m.models.order, tenant, model).value, answer);
    }
  }

  /** Both backends give the same latest model after every sequence of registrations,
      re-registrations, updates and deletions, whichever plan answers the query. */
  lemma LatestModelAgrees(ops: seq<Timed>, tenant: string, model: string, answer: Option<Metadata>)
    requires ClockIncreases(ops)
    ensures IsNewest(TableRun(ops), tenant, model, answer) <==> answer == Latest(MemoryRun(ops), tenant, model)
  {
    BackendsAgree(ops);
    if |ops| == 0 {
      NewestIsLatest(MemoryRun(ops), TableRun(ops), 0, tenant, model, answer);
    } else {
      NewestIsLatest(MemoryRun(ops), TableRun(ops), ops[|ops| - 1].now, tenant, model, answer);
    }
  }

  // ---- Tenants -----------------------------------------------------------------------------------

  predicate NamesTenant(op: Op, id: string) { op.AddTenant? && op.info.id == id }

  predicate FilesModelFor(op: Op, id: string) { op.AddModel? && op.metadata.key.tenant == id }

  predicate Someone(ops: seq<Timed>, id: string) { exists i :: 0 <= i < |ops| && NamesTenant(ops[i].op, id) }

  predicate SomeModel(ops: seq<Timed>, id: string) { exists i :: 0 <= i < |ops| && FilesModelFor(ops[i].op, id) }

  function Look<K, V>(m: map<K, V>, k: K): Option<V> { if k in m then Some(m[k]) else None }

  /** The table also creates a tenant for a model's sake, so the backends agree about a
      tenant exactly when it was registered by name or never given a model. */
  lemma {:induction false} TenantsAgreeIff(ops: seq<Timed>, id: string)
    ensures Look(MemoryRun(ops).tenants, id) == Look(TableRun(ops).tenants, id) <==>
      Someone(ops, id) || !SomeModel(ops, id)
    ensures id in MemoryRun(ops).tenants <==> Someone(ops, id)
    ensures id in TableRun(ops).tenants <==> Someone(ops, id) || SomeModel(ops, id)
  {
    if |ops| > 0 {
      var init, last := ops[..|ops| - 1], ops[|ops| - 1];
      TenantsAgreeIff(init, id);
      assert Someone(ops, id) <==> Someone(init, id) || NamesTenant(last.op, id) by { ExtendSomeone(ops, id); }
      assert SomeModel(ops, id) <==> SomeModel(init, id) || FilesModelFor(last.op, id) by { ExtendSomeModel(ops, id); }
    }
  }

  lemma ExtendSomeone(ops: seq<Timed>, id: string)
    requires |ops| > 0
    ensures Someone(ops, id) <==> Someone(ops[..|ops| - 1], id) || NamesTenant(ops[|ops| - 1].op, id)
  {
    var init := ops[..|ops| - 1];
    if Someone(init, id) {
      var i :| 0 <= i < |init| && NamesTenant(init[i].op, id);
      assert NamesTenant(ops[i].op, id);
    }
    if Someone(ops, id) && !NamesTenant(ops[|ops| - 1].op, id) {
      var i :| 0 <= i < |ops| && NamesTenant(ops[i].op, id);
      assert NamesTenant(init[i].op, id);
    }
  }

  lemma ExtendSomeModel(ops: seq<Timed>, id: string)
    requires |ops| > 0
    ensures SomeModel(ops, id) <==> SomeModel(ops[..|ops| - 1], id) || FilesModelFor(ops[|ops| - 1].op, id)
  {
    var init := ops[..|ops| - 1];
    if SomeModel(init, id) {
      var i :| 0 <= i < |init| && FilesModelFor(init[i].op, id);
      assert FilesModelFor(ops[i].op, id);
    }
    if SomeModel(ops, id) && !FilesModelFor(ops[|ops| - 1].op, id) {
      var i :| 0 <= i < |ops| && FilesModelFor(ops[i].op, id);
      assert FilesModelFor(init[i].op, id);
    }
  }

  // ---- Isolation ---------------------------------------------------------------------------------

  function TenantOf(op: Op): string {
    match op
    case AddTenant(t) => t.id
    case AddModel(md) => md.key.tenant
    case Delete(k) => k.tenant
    case Update(k, _) => k.tenant
  }

  lemma {:induction false} LatestIgnoresRemoved(order: seq<Key>, k: Key, tenant: string, model: string)
    requires k.tenant != tenant
    ensures LatestKey(Without(order, k), tenant, model) == LatestKey(order, tenant, model)
  {
    if |order| > 0 {
      var init, last := order[..|order| - 1], order[|order| - 1];
      assert order == init + [last];
      WithoutConcat(init, [last], k);
      LatestIgnoresRemoved(init, k, tenant, model);
      if last == k {
        assert Without(order, k) == Without(init, k);
      } else {
        assert Without(order, k) == Without(init, k) + [last];
        assert (Without(init, k) + [last])[..|Without(init, k)|] == Without(init, k);
      }
    }
  }

  lemma LatestKeyBelongs(order: seq<Key>, tenant: string, model: string)
    ensures LatestKey(order, tenant, model).Some? ==> LatestKey(order, tenant, model).value.tenant == tenant
  {}

  lemma OrderIsIsolated(m: Memory, op: Op, tenant: string, model: string)
    requires m.models.Valid() && TenantOf(op) != tenant
    ensures LatestKey(MemoryNext(m, op).models.order, tenant, model) == LatestKey(m.models.order, tenant, model)
  {
    var order := m.models.order;
    match op
    case AddModel(md) =>
      if md.key !in m.models.at { assert (order + [md.key])[..|order|] == order; }
    case Delete(d) => LatestIgnoresRemoved(order, d, tenant, model);
    case _ =>
  }

  lemma EntriesAreIsolated(m: Memory, op: Op, tenant: string, k: Option<Key>)
    requires TenantOf(op) != tenant && (k.Some? ==> k.value.tenant == tenant)
    ensures At(MemoryNext(m, op).models, k) == At(m.models, k)
  {}

  /** One tenant's operation changes no other tenant's answers: not its record, not a
      version, not the latest of any model. */
  lemma TenantsAreIsolated(m: Memory, op: Op, tenant: string, k: Key, model: string)
    requires m.models.Valid() && TenantOf(op) != tenant && k.tenant == tenant
    ensures var m' := MemoryNext(m, op);
      Latest(m', tenant, model) == Latest(m, tenant, model) && At(m'.models, Some(k)) == At(m.models, Some(k)) &&
      Look(m'.tenants, tenant) == Look(m.tenants, tenant)
  {
    OrderIsIsolated(m, op, tenant, model);
    LatestKeyBelongs(m.models.order, tenant, model);
    EntriesAreIsolated(m, op, tenant, LatestKey(m.models.order, tenant, model));
    EntriesAreIsolated(m, op, tenant, Some(k));
  }

  lemma OtherRowsStay(t: Table, op: Op, now: int, tenant: string, k: Key)
    requires TenantOf(op) != tenant && k.tenant == tenant
    ensures Look(TableNext(t, op, now).rows, k) == Look(t.rows, k)
  {}

  lemma OtherTenantsStay(t: Table, op: Op, now: int, tenant: string)
    requires TenantOf(op) != tenant
    ensures Look(TableNext(t, op, now).tenants, tenant) == Look(t.tenants, tenant)
  {}

  /** Two tables that hold the same rows for a tenant. */
  ghost predicate SameRows(t: Table, u: Table, tenant: string) {
    forall k: Key :: k.tenant == tenant ==> Look(t.rows, k) == Look(u.rows, k)
  }

  lemma NewestDependsOnRows(t: Table, u: Table, tenant: string, model: string, answer: Option<Metadata>)
    requires SameRows(t, u, tenant) && IsNewest(t, tenant, model, answer)
    ensures IsNewest(u, tenant, model, answer)
  {
    match answer
    case None =>
      forall k | k in u.rows ensures !Matches(k, tenant, model) {
        if k.tenant == tenant { assert Look(t.rows, k) == Look(u.rows, k); }
      }
    case Some(md) =>
      var k :| k in t.rows && Matches(k, tenant, model) && t.rows[k].metadata == md &&
               forall j :: j in t.rows && Matches(j, tenant, model) ==> t.rows[j].createdAt <= t.rows[k].createdAt;
      assert Look(t.rows, k) == Look(u.rows, k);
      forall j | j in u.rows && Matches(j, tenant, model) ensures u.rows[j].createdAt <= u.rows[k].createdAt {
        assert Look(t.rows, j) == Look(u.rows, j);
      }
  }

  /** The same for the table, whose query may have several answers: an answer is
      possible after another tenant's operation exactly when it was before. */
  lemma TableTenantsAreIsolated(t: Table, op: Op, now: int, tenant: string, k: Key,
                                model: string, answer: Option<Metadata>)
    requires TenantOf(op) != tenant && k.tenant == tenant
    ensures var t' := TableNext(t, op, now);
      (IsNewest(t', tenant, model, answer) <==> IsNewest(t, tenant, model, answer)) &&
      Look(t'.rows, k) == Look(t.rows, k) && Look(t'.tenants, tenant) == Look(t.tenants, tenant)
  {
    var t' := TableNext(t, op, now);
    OtherRowsStay(t, op, now, tenant, k);
    OtherTenantsStay(t, op, now, tenant);
    forall j: Key | j.tenant == tenant ensures Look(t.rows, j) == Look(t'.rows, j) {
      OtherRowsStay(t, op, now, tenant, j);
    }
    assert SameRows(t, t', tenant) && SameRows(t', t, tenant);
    if IsNewest(t, tenant, model, answer) { NewestDependsOnRows(t, t', tenant, model, answer); }
    if IsNewest(t', tenant, model, answer) { NewestDependsOnRows(t', t, tenant, model, answer); }
  }

  /** Re-registering an existing version does not make it the latest. */
  lemma ReregisteringKeepsLatest(m: Memory, md: Metadata, tenant: string, model: string)
    requires m.models.Valid() && md.key in m.models.at && LatestKey(m.models.order, tenant, model) != Some(md.key)
    ensures Latest(MemoryNext(m, AddModel(md)), tenant, model) == Latest(m, tenant, model)
  {}
}
