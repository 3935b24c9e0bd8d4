/** Sums over finite maps. */
module Totals {

  /** The sum of all values. */
  ghost function Total<K(!new)>(m: map<K, nat>): nat
    decreases |m|
  {
    if m == map[] then 0 else var k :| k in m; m[k] + Total(m - {k})
  }

  function At<K>(m: map<K, nat>, k: K): nat
  {
    if k in m then m[k] else 0
  }

  lemma {:induction false} TotalRemove<K(!new)>(m: map<K, nat>, k: K)
    requires k in m
    ensures Total(m) == m[k] + Total(m - {k})
    decreases |m|
  {
    var c :| c in m && Total(m) == m[c] + Total(m - {c});
    if c != k {
      TotalRemove(m - {c}, k);
      TotalRemove(m - {k}, c);
      assert m - {c} - {k} == m - {k} - {c};
    }
  }

  lemma TotalUpdate<K(!new)>(m: map<K, nat>, k: K, v: nat)
    ensures Total(m[k := v]) + At(m, k) == Total(m) + v
  {
    TotalRemove(m[k := v], k);
    if k in m {
      TotalRemove(m, k);
      assert m[k := v] - {k} == m - {k};
    } else {
      assert m[k := v] - {k} == m;
    }
  }

  lemma TotalTwo<K(!new)>(m: map<K, nat>, k: K, l: K)
    ensures At(m, k) <= Total(m)
    ensures k != l ==> At(m, k) + At(m, l) <= Total(m)
  {
    if k in m { TotalRemove(m, k); }
    if l in m { TotalRemove(m, l); }
    if k in m && l in m && k != l { TotalRemove(m - {k}, l); }
  }

  lemma {:induction false} TotalZero<K(!new)>(m: map<K, nat>)
    requires forall k :: k in m ==> m[k] == 0
    ensures Total(m) == 0
    decreases |m|
  {
    if m != map[] {
      var k :| k in m;
      TotalRemove(m, k);
      TotalZero(m - {k});
    }
  }

  /** The part of `m` on the keys of `s`. */
  function Restrict<K>(m: map<K, nat>, s: set<K>): map<K, nat>
  {
    map k | k in m && k in s :: m[k]
  }

  lemma {:induction false} TotalUnion<K(!new)>(m: map<K, nat>, s: set<K>, t: set<K>)
    ensures Total(Restrict(m, s)) + Total(Restrict(m, t)) == Total(Restrict(m, s + t)) + Total(Restrict(m, s * t))
    decreases |m|
  {
    if m != map[] {
      var k :| k in m;
      TotalUnion(m - {k}, s, t);
      RestrictStep(m, k, s);
      RestrictStep(m, k, t);
      RestrictStep(m, k, s + t);
      RestrictStep(m, k, s * t);
    } else {
      assert Restrict(m, s) == map[] && Restrict(m, t) == map[] && Restrict(m, s + t) == map[] && Restrict(m, s * t) == map[];
    }
  }

  lemma RestrictStep<K(!new)>(m: map<K, nat>, k: K, s: set<K>)
    requires k in m
    ensures Total(Restrict(m, s)) == Total(Restrict(m - {k}, s)) + if k in s then m[k] else 0
  {
    if k in s {
      TotalRemove(Restrict(m, s), k);
      assert Restrict(m, s) - {k} == Restrict(m - {k}, s);
    } else {
      assert Restrict(m, s) == Restrict(m - {k}, s);
    }
  }

  lemma TotalSubset<K(!new)>(m: map<K, nat>, s: set<K>)
    ensures Total(Restrict(m, s)) <= Total(m)
  {
    TotalUnion(m, s, m.Keys - s);
    assert Restrict(m, s + (m.Keys - s)) == m && Restrict(m, s * (m.Keys - s)) == map[];
  }

  lemma AtWithout<K(!new)>(m: map<K, nat>, n: map<K, nat>, k: K)
    requires forall j :: At(m, j) == At(n, j)
    ensures forall j :: At(m - {k}, j) == At(n - {k}, j)
  {
    assert forall j :: j != k ==> At(m - {k}, j) == At(m, j) == At(n, j) == At(n - {k}, j);
  }

  /** Only the values that are not zero count. */
  lemma {:induction false} TotalSame<K(!new)>(m: map<K, nat>, n: map<K, nat>)
    requires forall k :: At(m, k) == At(n, k)
    ensures Total(m) == Total(n)
    decreases |m|
  {
    if m == map[] {
      assert forall k :: k in n ==> n[k] == At(n, k) == At(m, k);
      TotalZero(n);
    } else {
      var k :| k in m;
      TotalRemove(m, k);
      assert At(m, k) == At(n, k);
      if k in n { TotalRemove(n, k); } else { assert n - {k} == n; }
      AtWithout(m, n, k);
      TotalSame(m - {k}, n - {k});
    }
  }
}
