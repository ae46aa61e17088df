/** Sums over finite maps, and counting without repetition. */
module Sums {

  ghost function Pick<K(!new), V>(m: map<K, V>): (k: K)
    requires m != map[]
    ensures k in m
  {
    assert m.Keys != {};
    var k :| k in m;
    k
  }

  ghost function Total<K(!new)>(m: map<K, nat>): nat
    decreases |m|
  {
    if m == map[] then 0 else m[Pick(m)] + Total(m - {Pick(m)})
  }

  lemma {:induction false} TotalTakesOut<K(!new)>(m: map<K, nat>, k: K)
    requires k in m
    ensures Total(m) == m[k] + Total(m - {k})
    decreases |m|
  {
    var p := Pick(m);
    if p != k {
      TotalTakesOut(m - {p}, k);
      TotalTakesOut(m - {k}, p);
      assert m - {p} - {k} == m - {k} - {p};
    }
  }

  lemma {:induction false} TotalPutsIn<K(!new)>(m: map<K, nat>, k: K, n: nat)
    requires k !in m
    ensures Total(m[k := n]) == Total(m) + n
  {
    TotalTakesOut(m[k := n], k);
    assert m[k := n] - {k} == m;
  }

  function Restrict<K, V>(m: map<K, V>, ks: set<K>): map<K, V> {
    map k | k in m && k in ks :: m[k]
  }

  lemma {:induction false} RestrictAll<K, V>(m: map<K, V>)
    ensures Restrict(m, m.Keys) == m
  {
  }

  lemma {:induction false} RestrictNone<K, V>(m: map<K, V>)
    ensures Restrict(m, {}) == map[]
  {
  }

  lemma {:induction false} TotalOfPart<K(!new)>(m: map<K, nat>, ks: set<K>)
    ensures Total(Restrict(m, ks)) <= Total(m)
    decreases |m|
  {
    if m != map[] {
      var p := Pick(m);
      TotalOfPart(m - {p}, ks);
      if p in ks {
        TotalTakesOut(Restrict(m, ks), p);
        assert Restrict(m, ks) - {p} == Restrict(m - {p}, ks);
      } else {
        assert Restrict(m, ks) == Restrict(m - {p}, ks);
      }
    }
  }

  /** One more key of a part: the sum grows by its value and stays within the whole. */
  lemma {:induction false} TotalGrows<K(!new)>(m: map<K, nat>, ks: set<K>, k: K)
    requires k in m && k !in ks
    ensures Total(Restrict(m, ks + {k})) == Total(Restrict(m, ks)) + m[k] <= Total(m)
  {
    assert Restrict(m, ks + {k}) == Restrict(m, ks)[k := m[k]];
    TotalPutsIn(Restrict(m, ks), k, m[k]);
    TotalOfPart(m, ks + {k});
  }

  lemma {:induction false} OneFewer<K, V>(m: map<K, V>, k: K)
    requires k in m
    ensures |m - {k}| == |m| - 1
  {
    assert (m - {k}).Keys == m.Keys - {k};
    assert |m| == |m.Keys| && |m - {k}| == |(m - {k}).Keys|;
  }

  lemma {:induction false} TotalBound<K(!new)>(m: map<K, nat>, bound: nat)
    requires forall k :: k in m ==> m[k] <= bound
    ensures Total(m) <= |m| * bound
    decreases |m|
  {
    if m != map[] {
      var p := Pick(m);
      OneFewer(m, p);
      TotalBound(m - {p}, bound);
      assert |m| * bound == bound + |m - {p}| * bound;
    }
  }

  lemma {:induction false} SubsetCount<T(!new)>(a: set<T>, b: set<T>)
    requires a <= b
    ensures |a| <= |b|
  {
    assert b == a + (b - a);
  }

  predicate Distinct<T(==)>(s: seq<T>) {
    s == [] || (s[|s| - 1] !in s[..|s| - 1] && Distinct(s[..|s| - 1]))
  }

  lemma {:induction false} DistinctAt<T>(s: seq<T>, i: nat)
    requires Distinct(s) && i < |s|
    ensures s[i] !in s[..i]
  {
    if i < |s| - 1 {
      DistinctAt(s[..|s| - 1], i);
      assert s[..|s| - 1][..i] == s[..i];
    }
  }

  lemma {:induction false} DistinctCount<T(!new)>(s: seq<T>)
    requires Distinct(s)
    ensures |set e | e in s| == |s|
  {
    if s != [] {
      var last, rest := s[|s| - 1], s[..|s| - 1];
      DistinctCount(rest);
      assert (set e | e in s) == (set e | e in rest) + {last};
    }
  }
}
