/** std::map seen through its first element: the smallest key, and eviction from the front. */
module SortedMap {
  import opened Bytes

  ghost predicate Least(s: set<u64>, k: u64) {
    k in s && forall j :: j in s ==> k <= j
  }

  lemma {:induction false} LeastExists(s: set<u64>)
    requires s != {}
    ensures exists k :: Least(s, k)
  {
    var x :| x in s;
    var rest := s - {x};
    if rest == {} {
      assert s == {x};
      assert Least(s, x);
    } else {
      LeastExists(rest);
      var k :| Least(rest, k);
      assert s == rest + {x};
      assert Least(s, if x <= k then x else k);
    }
  }

  /** begin(): the smallest key. */
  function MinKey<T>(m: map<u64, T>): (k: u64)
    requires m != map[]
    ensures k in m && forall j :: j in m ==> k <= j
  {
    LeastExists(m.Keys);
    assert exists k :: Least(m.Keys, k) && k in m && forall j :: j in m ==> k <= j;
    var k :| k in m && forall j :: j in m ==> k <= j;
    k
  }

  lemma MinKeyIs<T>(m: map<u64, T>, k: u64)
    requires k in m && forall j :: j in m ==> k <= j
    ensures MinKey(m) == k
  {}

  lemma RemoveOne<T>(m: map<u64, T>, k: u64)
    requires k in m
    ensures |m - {k}| == |m| - 1
  {
    assert (m - {k}).Keys == m.Keys - {k};
    assert |m.Keys - {k}| == |m.Keys| - 1;
    assert |m| == |m.Keys| && |m - {k}| == |(m - {k}).Keys|;
  }

  /** What is left once entries were erased from the front until at most n remain: the
      entries with the n largest keys. */
  function KeepLargest<T>(m: map<u64, T>, n: nat): (r: map<u64, T>)
    ensures r.Keys <= m.Keys
    ensures forall k :: k in r ==> r[k] == m[k]
    ensures |r| == if |m| <= n then |m| else n
    ensures forall k, j :: k in m && k !in r && j in r ==> k < j
    decreases |m|
  {
    if |m| <= n then m
    else
      RemoveOne(m, MinKey(m));
      KeepLargest(m - {MinKey(m)}, n)
  }

  /** The n largest keys determine the result: any way of dropping smaller keys down to the
      same size gives the same map. */
  lemma KeepLargestUnique<T>(m: map<u64, T>, n: nat, r: map<u64, T>)
    requires r.Keys <= m.Keys && forall k :: k in r ==> r[k] == m[k]
    requires |r| == if |m| <= n then |m| else n
    requires forall k, j :: k in m && k !in r && j in r ==> k < j
    ensures r == KeepLargest(m, n)
  {
    var q := KeepLargest(m, n);
    if r.Keys != q.Keys {
      SameSizeDiffers(r.Keys, q.Keys);
      SameSizeDiffers(q.Keys, r.Keys);
      assert false;
    }
  }

  lemma SameSizeDiffers(a: set<u64>, b: set<u64>)
    requires |a| == |b| && a != b
    ensures a - b != {}
  {
    assert a == a * b + (a - b);
    assert b == a * b + (b - a);
    assert |a - b| == |b - a|;
  }
}
