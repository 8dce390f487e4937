/** What sharing a thresholds dictionary between registrations changes: an update is
    then seen by every entry that holds the dictionary. */
module SharedThresholds {
  import opened Options
  import opened OrderedDicts
  import opened Registry

  predicate Held<D>(s: Shared<D>) { s.dicts.Keys == s.memory.models.at.Keys }

  /** No other entry holds k's dictionary. */
  predicate Unshared<D(==)>(s: Shared<D>, k: Key) {
    forall j :: j in s.dicts && Share(s.dicts, j, k) ==> j == k
  }

  /** No entry of the tenant holds k's dictionary. */
  predicate UnsharedWith<D(==)>(s: Shared<D>, k: Key, tenant: string) {
    forall j :: j in s.dicts && j.tenant == tenant ==> !Share(s.dicts, j, k)
  }

  /** An update that any thresholds would notice. */
  function Noticed(was: Thresholds): (news: Thresholds)
    ensures was + news != was
  {
    var value := if "psi" in was then was["psi"] + 1.0 else 0.0;
    assert (was + map["psi" := value])["psi"] == value;
    map["psi" := value]
  }

  lemma SharerChanges<D>(s: Shared<D>, j: Key, k: Key) returns (news: Thresholds)
    requires Held(s) && Share(s.dicts, j, k)
    ensures Updated(s, k, news).memory.models.at[j] != s.memory.models.at[j]
  {
    news := Noticed(s.memory.models.at[j].thresholds);
  }

  ghost predicate LeavesAlone<D(!new)>(s: Shared<D>, k: Key, tenant: string) {
    forall news, j :: j in s.memory.models.at && j.tenant == tenant ==>
      Updated(s, k, news).memory.models.at[j] == s.memory.models.at[j]
  }

  /** An update leaves a tenant alone exactly when none of its entries holds the
      updated dictionary. */
  lemma UpdateIsIsolatedIff<D(!new)>(s: Shared<D>, k: Key, tenant: string)
    requires Held(s)
    ensures LeavesAlone(s, k, tenant) <==> UnsharedWith(s, k, tenant)
  {
    if !UnsharedWith(s, k, tenant) {
      var j :| j in s.dicts && j.tenant == tenant && Share(s.dicts, j, k);
      var news := SharerChanges(s, j, k);
    }
  }

  ghost predicate UpdatesAsValue<D(!new)>(s: Shared<D>, k: Key) {
    forall news :: Updated(s, k, news).memory == MemoryNext(s.memory, Update(k, news))
  }

  /** An update does what a registry of values does exactly when k's dictionary is
      its own. */
  lemma UpdateIsOwnIff<D(!new)>(s: Shared<D>, k: Key)
    requires Held(s)
    ensures UpdatesAsValue(s, k) <==> Unshared(s, k)
  {
    if Unshared(s, k) {
      forall news ensures Updated(s, k, news).memory == MemoryNext(s.memory, Update(k, news)) {
        OwnUpdate(s, k, news);
      }
    } else {
      var j :| j in s.dicts && Share(s.dicts, j, k) && j != k;
      var news := SharerChanges(s, j, k);
      assert MemoryNext(s.memory, Update(k, news)).models.at[j] == s.memory.models.at[j];
    }
  }

  lemma OwnUpdate<D>(s: Shared<D>, k: Key, news: Thresholds)
    requires Held(s) && Unshared(s, k)
    ensures Updated(s, k, news).memory == MemoryNext(s.memory, Update(k, news))
  {
    SameEntries(Updated(s, k, news).memory.models.at, MemoryNext(s.memory, Update(k, news)).models.at);
  }

  // ---- Whole runs --------------------------------------------------------------------------

  /** An operation with the dictionary it passes, if it is a registration. */
  datatype Call<D> = Call(timed: Timed, dict: D)

  function Apply<D(==)>(s: Shared<D>, c: Call<D>): Shared<D> {
    match c.timed.op
    case AddTenant(_) => s.(memory := MemoryNext(s.memory, c.timed.op))
    case AddModel(md) => Registered(s, md, c.dict)
    case Delete(k) => Removed(s, k)
    case Update(k, news) => Updated(s, k, news)
  }

  function SharedRun<D(==)>(calls: seq<Call<D>>): Shared<D> {
    if |calls| == 0 then Shared(MemoryRun([]), map[])
    else Apply(SharedRun(calls[..|calls| - 1]), calls[|calls| - 1])
  }

  function Ops<D>(calls: seq<Call<D>>): (ops: seq<Timed>)
    ensures |ops| == |calls| && forall i :: 0 <= i < |ops| ==> ops[i] == calls[i].timed
  {
    seq(|calls|, i requires 0 <= i < |calls| => calls[i].timed)
  }

  predicate OwnStep<D(==)>(s: Shared<D>, op: Op) { op.Update? ==> Unshared(s, op.key) }

  /** Every update of the run finds its dictionary unshared. */
  predicate OwnUpdates<D(==)>(calls: seq<Call<D>>) {
    forall i :: 0 <= i < |calls| ==> OwnStep(SharedRun(calls[..i]), calls[i].timed.op)
  }

  lemma ApplyKeepsHeld<D>(s: Shared<D>, c: Call<D>)
    requires Held(s)
    ensures Held(Apply(s, c))
  {}

  lemma {:induction false} RunIsHeld<D>(calls: seq<Call<D>>)
    ensures Held(SharedRun(calls))
  {
    if |calls| > 0 {
      RunIsHeld(calls[..|calls| - 1]);
      ApplyKeepsHeld(SharedRun(calls[..|calls| - 1]), calls[|calls| - 1]);
    }
  }

  lemma OwnStepIsValue<D>(s: Shared<D>, c: Call<D>)
    requires Held(s) && OwnStep(s, c.timed.op)
    ensures Apply(s, c).memory == MemoryNext(s.memory, c.timed.op)
  {
    match c.timed.op
    case Update(k, news) => OwnUpdate(s, k, news);
    case _ =>
  }

  lemma OwnUpdatesPrefix<D>(calls: seq<Call<D>>)
    requires |calls| > 0 && OwnUpdates(calls)
    ensures OwnUpdates(calls[..|calls| - 1])
  {
    var init := calls[..|calls| - 1];
    forall i | 0 <= i < |init| ensures OwnStep(SharedRun(init[..i]), init[i].timed.op) {
      assert init[..i] == calls[..i];
    }
  }

  /** Over a run whose updates find their dictionaries unshared, the registry is the
      registry of values, and so agrees with the table. */
  lemma {:induction false} OwnRunIsValue<D>(calls: seq<Call<D>>)
    requires OwnUpdates(calls)
    ensures SharedRun(calls).memory == MemoryRun(Ops(calls))
  {
    if |calls| == 0 {
      assert Ops(calls) == [];
    } else {
      var init, last := calls[..|calls| - 1], calls[|calls| - 1];
      OwnUpdatesPrefix(calls);
      OwnRunIsValue(init);
      RunIsHeld(init);
      assert OwnStep(SharedRun(calls[..|calls| - 1]), last.timed.op);
      OwnStepIsValue(SharedRun(init), last);
      assert Ops(calls)[..|calls| - 1] == Ops(init);
    }
  }

  lemma OwnRunAgrees<D>(calls: seq<Call<D>>)
    requires OwnUpdates(calls) && ClockIncreases(Ops(calls)) && |calls| > 0
    ensures Agree(SharedRun(calls).memory, TableRun(Ops(calls)), Ops(calls)[|calls| - 1].now)
  {
    OwnRunIsValue(calls);
    BackendsAgree(Ops(calls));
  }

  /** An operation on one tenant changes no other tenant's answers, unless it updates
      a dictionary that the other tenant's entries hold. */
  lemma SharedTenantsAreIsolated<D>(s: Shared<D>, c: Call<D>, tenant: string, k: Key, model: string)
    requires Held(s) && s.memory.models.Valid() && TenantOf(c.timed.op) != tenant && k.tenant == tenant
    requires c.timed.op.Update? ==> UnsharedWith(s, c.timed.op.key, tenant)
    ensures var m, m' := s.memory, Apply(s, c).memory;
      Latest(m', tenant, model) == Latest(m, tenant, model) && At(m'.models, Some(k)) == At(m.models, Some(k)) &&
      Look(m'.tenants, tenant) == Look(m.tenants, tenant)
  {
    if c.timed.op.Update? {
      LatestKeyBelongs(s.memory.models.order, tenant, model);
    } else {
      TenantsAreIsolated(s.memory, c.timed.op, tenant, k, model);
    }
  }

  // ---- Fresh dictionaries ------------------------------------------------------------------

  predicate Injective<D(==)>(dicts: map<Key, D>) {
    forall j, k :: j in dicts && k in dicts && dicts[j] == dicts[k] ==> j == k
  }

  /** Every registration passes a dictionary no earlier one passed. */
  predicate FreshDicts<D(==)>(calls: seq<Call<D>>) {
    forall i, j :: 0 <= i < j < |calls| && calls[i].timed.op.AddModel? && calls[j].timed.op.AddModel? ==>
      calls[i].dict != calls[j].dict
  }

  predicate Passed<D(==)>(calls: seq<Call<D>>, d: D) {
    exists i :: 0 <= i < |calls| && calls[i].timed.op.AddModel? && calls[i].dict == d
  }

  lemma PassedLater<D>(calls: seq<Call<D>>, d: D)
    requires |calls| > 0 && Passed(calls[..|calls| - 1], d)
    ensures Passed(calls, d)
  {
    var init := calls[..|calls| - 1];
    var i :| 0 <= i < |init| && init[i].timed.op.AddModel? && init[i].dict == d;
    assert calls[i] == init[i];
  }

  lemma {:induction false} FreshIsInjective<D>(calls: seq<Call<D>>)
    requires FreshDicts(calls)
    ensures Injective(SharedRun(calls).dicts)
    ensures forall k :: k in SharedRun(calls).dicts ==> Passed(calls, SharedRun(calls).dicts[k])
  {
    if |calls| > 0 {
      var init, last := calls[..|calls| - 1], calls[|calls| - 1];
      FreshIsInjective(init);
      var s := SharedRun(init);
      forall k | k in s.dicts ensures Passed(calls, s.dicts[k]) { PassedLater(calls, s.dicts[k]); }
      if last.timed.op.AddModel? {
        assert calls[|calls| - 1].dict == last.dict && Passed(calls, last.dict);
        forall k | k in s.dicts ensures s.dicts[k] != last.dict {
          var i :| 0 <= i < |init| && init[i].timed.op.AddModel? && init[i].dict == s.dicts[k];
          assert calls[i] == init[i];
        }
      }
    }
  }

  /** So callers that pass fresh dictionaries never meet the sharing. */
  lemma FreshDictsAreOwn<D>(calls: seq<Call<D>>)
    requires FreshDicts(calls)
    ensures OwnUpdates(calls)
  {
    forall i | 0 <= i < |calls| ensures OwnStep(SharedRun(calls[..i]), calls[i].timed.op) {
      assert FreshDicts(calls[..i]);
      FreshIsInjective(calls[..i]);
    }
  }
}
