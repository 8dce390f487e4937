/** Least-recently-used order, stated without any cache: the last n distinct keys
    of a history of uses. */
module Recency {
  import opened OrderedDicts

  /** Every key used, in order of its last use. */
  function LastDistinct<K(==)>(uses: seq<K>): seq<K> {
    if |uses| == 0 then []
    else Without(LastDistinct(uses[..|uses| - 1]), uses[|uses| - 1]) + [uses[|uses| - 1]]
  }

  function LastN<K>(s: seq<K>, n: nat): seq<K> {
    if |s| <= n then s else s[|s| - n..]
  }

  function Recent<K(==)>(uses: seq<K>, n: nat): seq<K> {
    LastN(LastDistinct(uses), n)
  }

  /** What a bounded cache does to its key order when k is used. */
  function TouchOrder<K(==)>(order: seq<K>, k: K, n: nat): seq<K> {
    LastN(Without(order, k) + [k], n)
  }

  function Elements<K(==)>(s: seq<K>): set<K> { set x | x in s }

  lemma {:induction false} LastDistinctIsDistinct<K>(uses: seq<K>)
    ensures NoDuplicates(LastDistinct(uses))
    ensures forall x :: x in LastDistinct(uses) <==> x in uses
  {
    if |uses| > 0 {
      var init, last := uses[..|uses| - 1], uses[|uses| - 1];
      assert uses == init + [last];
      LastDistinctIsDistinct(init);
      WithoutKeeps(LastDistinct(init), last);
      WithoutNoDuplicates(LastDistinct(init), last);
      SnocNoDuplicates(Without(LastDistinct(init), last), last);
    }
  }

  lemma SnocNoDuplicates<K>(s: seq<K>, k: K)
    requires NoDuplicates(s) && k !in s
    ensures NoDuplicates(s + [k])
  {}

  lemma LastNOfConcat<K>(x: seq<K>, y: seq<K>, n: nat)
    requires |y| >= n
    ensures LastN(x + y, n) == LastN(y, n)
  {}

  /** Forgetting everything but the last n keys loses nothing a later use needs. */
  lemma TouchOfLastN<K>(d: seq<K>, k: K, n: nat)
    requires NoDuplicates(d) && n >= 1
    ensures TouchOrder(LastN(d, n), k, n) == LastN(Without(d, k) + [k], n)
  {
    if |d| > n {
      var a, b := d[..|d| - n], d[|d| - n..];
      assert d == a + b && NoDuplicates(b);
      WithoutConcat(a, b, k);
      if k in b { WithoutPresent(b, k); } else { WithoutAbsent(b, k); }
      assert Without(d, k) + [k] == Without(a, k) + (Without(b, k) + [k]);
      LastNOfConcat(Without(a, k), Without(b, k) + [k], n);
    }
  }

  /** The bounded cache, which only ever sees its own n keys, keeps exactly the
      last n distinct keys of the whole history. */
  lemma RecentStep<K>(uses: seq<K>, k: K, n: nat)
    requires n >= 1
    ensures Recent(uses + [k], n) == TouchOrder(Recent(uses, n), k, n)
  {
    assert (uses + [k])[..|uses|] == uses;
    LastDistinctIsDistinct(uses);
    TouchOfLastN(LastDistinct(uses), k, n);
  }

  function WithoutAll<K(==)>(s: seq<K>, ks: seq<K>): seq<K> {
    if |ks| == 0 then s else Without(WithoutAll(s, ks[..|ks| - 1]), ks[|ks| - 1])
  }

  lemma {:induction false} LastDistinctConcat<K>(a: seq<K>, b: seq<K>)
    ensures LastDistinct(a + b) == WithoutAll(LastDistinct(a), b) + LastDistinct(b)
  {
    if |b| == 0 {
      assert a + b == a;
    } else {
      var init, last := b[..|b| - 1], b[|b| - 1];
      assert (a + b)[..|a + b| - 1] == a + init && (a + b)[|a + b| - 1] == last;
      LastDistinctConcat(a, init);
      WithoutConcat(WithoutAll(LastDistinct(a), init), LastDistinct(init), last);
    }
  }

  lemma {:induction false} WithoutAllKeeps<K>(s: seq<K>, ks: seq<K>, x: K)
    ensures x in WithoutAll(s, ks) <==> x in s && x !in ks
  {
    if |ks| > 0 {
      var init, last := ks[..|ks| - 1], ks[|ks| - 1];
      assert ks == init + [last];
      WithoutAllKeeps(s, init, x);
      WithoutKeeps(WithoutAll(s, init), last);
    }
  }

  lemma {:induction false} DistinctCount<K>(s: seq<K>)
    requires NoDuplicates(s)
    ensures |Elements(s)| == |s|
  {
    if |s| > 0 {
      var rest := s[1..];
      DistinctCount(rest);
      assert s[0] !in rest;
      assert Elements(s) == {s[0]} + Elements(rest);
    }
  }

  lemma {:induction false} LastUse<K>(uses: seq<K>, k: K) returns (i: nat)
    requires k in uses
    ensures i < |uses| && uses[i] == k && k !in uses[i + 1..]
    ensures forall j :: i < j < |uses| ==> uses[j] != k
  {
    var last := |uses| - 1;
    if uses[last] == k {
      i := last;
    } else {
      i := LastUse(uses[..last], k);
      assert uses[i + 1..] == uses[..last][i + 1..] + [uses[last]];
    }
  }

  lemma LastDistinctElements<K>(uses: seq<K>)
    ensures |LastDistinct(uses)| == |Elements(uses)|
  {
    LastDistinctIsDistinct(uses);
    DistinctCount(LastDistinct(uses));
    assert Elements(LastDistinct(uses)) == Elements(uses);
  }

  /** Where k stands: as many keys follow it as were used since. */
  lemma KeyPosition<K>(uses: seq<K>, k: K, i: nat) returns (front: seq<K>)
    requires i < |uses| && uses[i] == k && k !in uses[i + 1..]
    ensures LastDistinct(uses) == front + [k] + LastDistinct(uses[i + 1..])
    ensures k !in front
  {
    var since := uses[i + 1..];
    assert uses == uses[..i + 1] + since;
    LastDistinctConcat(uses[..i + 1], since);
    assert uses[..i + 1][..i] == uses[..i];
    var before := Without(LastDistinct(uses[..i]), k);
    WithoutKeeps(LastDistinct(uses[..i]), k);
    front := WithoutAll(before, since);
    WithoutAllConcat(before, [k], since);
    WithoutAllAbsent(k, since);
    WithoutAllKeeps(before, since, k);
  }

  lemma {:induction false} WithoutAllConcat<K>(s: seq<K>, t: seq<K>, ks: seq<K>)
    ensures WithoutAll(s + t, ks) == WithoutAll(s, ks) + WithoutAll(t, ks)
  {
    if |ks| > 0 {
      var init, last := ks[..|ks| - 1], ks[|ks| - 1];
      WithoutAllConcat(s, t, init);
      WithoutConcat(WithoutAll(s, init), WithoutAll(t, init), last);
    }
  }

  lemma {:induction false} WithoutAllAbsent<K>(k: K, ks: seq<K>)
    requires k !in ks
    ensures WithoutAll([k], ks) == [k]
  {
    if |ks| > 0 {
      WithoutAllAbsent(k, ks[..|ks| - 1]);
      WithoutAbsent([k], ks[|ks| - 1]);
    }
  }

  /** A key is among the last n distinct ones exactly when fewer than n distinct
      keys were used since some use of it. */
  lemma ResidentIff<K>(uses: seq<K>, n: nat, k: K)
    ensures k in Recent(uses, n) <==> exists i :: 0 <= i < |uses| && uses[i] == k && |Elements(uses[i + 1..])| < n
  {
    LastDistinctIsDistinct(uses);
    if k in uses {
      var i := LastUse(uses, k);
      var front := KeyPosition(uses, k, i);
      var since := LastDistinct(uses[i + 1..]);
      LastDistinctElements(uses[i + 1..]);
      LastDistinctIsDistinct(uses[i + 1..]);
      PositionDecides(front, k, since, n);
      forall j | 0 <= j < |uses| && uses[j] == k ensures |Elements(uses[i + 1..])| <= |Elements(uses[j + 1..])| {
        assert uses[i + 1..] == uses[j + 1..][i - j..];
        SubsetCount(Elements(uses[i + 1..]), Elements(uses[j + 1..]));
      }
    }
  }

  lemma {:induction false} SubsetCount<K>(a: set<K>, b: set<K>)
    requires a <= b
    ensures |a| <= |b|
  {
    if a != {} {
      var x :| x in a;
      SubsetCount(a - {x}, b - {x});
    }
  }

  lemma PositionDecides<K>(front: seq<K>, k: K, since: seq<K>, n: nat)
    requires k !in front && k !in since
    ensures k in LastN(front + [k] + since, n) <==> |since| < n
  {
    var d := front + [k] + since;
    if |since| < n {
      var at := if |d| <= n then |front| else n - 1 - |since|;
      assert LastN(d, n)[at] == k;
    } else {
      assert d == (front + [k]) + since;
      LastNOfConcat(front + [k], since, n);
    }
  }
}
