/** Sums over maps. */
module Sums {
  ghost function SomeKey<K, V>(m: map<K, V>): (k: K)
    requires m != map[]
    ensures k in m
  {
    assert m.Keys != {};
    var k :| k in m;
    k
  }

  ghost function Total<K>(m: map<K, nat>): nat {
    if m == map[] then 0
    else
      var k := SomeKey(m);
      m[k] + Total(m - {k})
  }

  ghost function Sizes<K, V>(m: map<K, set<V>>): map<K, nat> {
    map k | k in m :: |m[k]|
  }

  ghost function Lengths<K, V>(m: map<K, seq<V>>): map<K, nat> {
    map k | k in m :: |m[k]|
  }

  lemma SizeWithout<K, V>(m: map<K, V>, k: K)
    requires k in m
    ensures |m - {k}| == |m| - 1
  {
    assert (m - {k}).Keys == m.Keys - {k};
  }

  lemma OneMore(n: nat, bound: nat)
    ensures (n + 1) * bound == n * bound + bound
  {
  }

  lemma {:induction false} TotalBound<K>(m: map<K, nat>, bound: nat)
    requires forall k | k in m :: m[k] <= bound
    ensures Total(m) <= |m| * bound
  {
    if m == map[] {
    } else {
      var k := SomeKey(m);
      SizeWithout(m, k);
      TotalBound(m - {k}, bound);
      OneMore(|m - {k}|, bound);
    }
  }

  /** Disjoint sets that together make up `whole` have its size in total. */
  lemma {:induction false} PartitionSize<K, V>(m: map<K, set<V>>, whole: set<V>)
    requires forall k, l, v | k in m && l in m && v in m[k] && v in m[l] :: k == l
    requires forall v :: v in whole <==> exists k :: k in m && v in m[k]
    ensures Total(Sizes(m)) == |whole|
    decreases |m|
  {
    if m == map[] {
      assert whole == {};
      assert Sizes(m) == map[];
    } else {
      assert SomeKey(m) in Sizes(m);
      var k := SomeKey(Sizes(m));
      SizeWithout(m, k);
      assert Sizes(m) - {k} == Sizes(m - {k});
      forall v ensures v in whole - m[k] <==> exists l :: l in m - {k} && v in (m - {k})[l] {
        if v in whole - m[k] {
          var l :| l in m && v in m[l];
          assert l in m - {k};
        }
      }
      PartitionSize(m - {k}, whole - m[k]);
      assert m[k] <= whole;
    }
  }
}
