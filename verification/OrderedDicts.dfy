/** Dictionaries that remember the order in which their keys were inserted. */
module OrderedDicts {

  /** s with every occurrence of k dropped. */
  function Without<K(==)>(s: seq<K>, k: K): seq<K> {
    if |s| == 0 then []
    else if s[0] == k then Without(s[1..], k)
    else [s[0]] + Without(s[1..], k)
  }

  predicate NoDuplicates<K(==)>(s: seq<K>) {
    forall i, j :: 0 <= i < j < |s| ==> s[i] != s[j]
  }

  lemma {:induction false} WithoutKeeps<K>(s: seq<K>, k: K)
    ensures |Without(s, k)| <= |s|
    ensures forall x :: x in Without(s, k) <==> x in s && x != k
  {
    if |s| > 0 {
      WithoutKeeps(s[1..], k);
      assert s == [s[0]] + s[1..];
    }
  }

  lemma {:induction false} WithoutNoDuplicates<K>(s: seq<K>, k: K)
    requires NoDuplicates(s)
    ensures NoDuplicates(Without(s, k))
  {
    if |s| > 0 {
      var rest := s[1..];
      assert s[0] !in rest;
      WithoutNoDuplicates(rest, k);
      WithoutKeeps(rest, k);
    }
  }

  lemma {:induction false} WithoutAbsent<K>(s: seq<K>, k: K)
    requires k !in s
    ensures Without(s, k) == s
  {
    if |s| > 0 { WithoutAbsent(s[1..], k); }
  }

  lemma {:induction false} WithoutConcat<K>(s: seq<K>, t: seq<K>, k: K)
    ensures Without(s + t, k) == Without(s, k) + Without(t, k)
  {
    if |s| == 0 {
      assert s + t == t;
    } else {
      assert (s + t)[1..] == s[1..] + t && (s + t)[0] == s[0];
      WithoutConcat(s[1..], t, k);
    }
  }

  lemma {:induction false} WithoutPresent<K>(s: seq<K>, k: K)
    requires NoDuplicates(s) && k in s
    ensures |Without(s, k)| == |s| - 1
  {
    if s[0] == k {
      WithoutAbsent(s[1..], k);
    } else {
      WithoutPresent(s[1..], k);
    }
  }

  datatype OrderedDict<K(==, !new), V> = OrderedDict(order: seq<K>, at: map<K, V>) {

    ghost predicate Valid() {
      NoDuplicates(order) && forall k :: k in order <==> k in at
    }

    /** d[k] = v: an existing key keeps its place, a new one goes to the end. */
    function Put(k: K, v: V): OrderedDict<K, V> {
      if k in at then this.(at := at[k := v]) else OrderedDict(order + [k], at[k := v])
    }

    function MoveToEnd(k: K): OrderedDict<K, V> {
      if k in at then this.(order := Without(order, k) + [k]) else this
    }

    /** d.pop(k, None) */
    function Remove(k: K): OrderedDict<K, V> {
      OrderedDict(Without(order, k), at - {k})
    }

    /** d.popitem(last=False) */
    function PopFirst(): OrderedDict<K, V>
      requires |order| > 0
    {
      OrderedDict(order[1..], at - {order[0]})
    }

    lemma PutValid(k: K, v: V)
      requires Valid()
      ensures Put(k, v).Valid()
    {}

    lemma MoveToEndValid(k: K)
      requires Valid()
      ensures MoveToEnd(k).Valid() && |MoveToEnd(k).order| == |order|
    {
      WithoutKeeps(order, k);
      WithoutNoDuplicates(order, k);
      if k in at { WithoutPresent(order, k); }
    }

    lemma RemoveValid(k: K)
      requires Valid()
      ensures Remove(k).Valid()
      ensures |Remove(k).order| == if k in at then |order| - 1 else |order|
    {
      WithoutKeeps(order, k);
      WithoutNoDuplicates(order, k);
      if k in at { WithoutPresent(order, k); } else { WithoutAbsent(order, k); }
    }

    lemma PopFirstValid()
      requires Valid() && |order| > 0
      ensures PopFirst().Valid()
    {
      assert order == [order[0]] + order[1..];
    }
  }
}
