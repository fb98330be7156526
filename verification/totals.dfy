/** Counters kept in maps: adding one, adding two maps, and their totals. */
module Totals {

  function Get<K>(m: map<K, nat>, k: K): nat { if k in m then m[k] else 0 }

  function Bump<K>(m: map<K, nat>, k: K): map<K, nat> { m[k := Get(m, k) + 1] }

  function Plus<K>(a: map<K, nat>, b: map<K, nat>): map<K, nat> {
    map k | k in a.Keys + b.Keys :: Get(a, k) + Get(b, k)
  }

  ghost function Total<K>(m: map<K, nat>): nat {
    if m == map[] then 0
    else
      var k :| k in m;
      m[k] + Total(m - {k})
  }

  /** The total does not depend on the order of adding up. */
  lemma {:induction false} TotalRemove<K>(m: map<K, nat>, k: K)
    requires k in m
    ensures Total(m) == m[k] + Total(m - {k})
  {
    var first :| first in m && Total(m) == m[first] + Total(m - {first});
    if first != k {
      TotalRemove(m - {first}, k);
      TotalRemove(m - {k}, first);
      assert m - {first} - {k} == m - {k} - {first};
    }
  }

  lemma TotalUpdate<K>(m: map<K, nat>, k: K, n: nat)
    ensures Total(m[k := n]) == Total(m) - Get(m, k) + n
  {
    TotalRemove(m[k := n], k);
    if k in m {
      TotalRemove(m, k);
      assert m[k := n] - {k} == m - {k};
    } else {
      assert m[k := n] - {k} == m;
    }
  }

  lemma PlusRemove<K>(a: map<K, nat>, b: map<K, nat>, k: K)
    requires k in b
    ensures Plus(a, b) == Plus(a, b - {k})[k := Get(a, k) + b[k]] && Get(Plus(a, b - {k}), k) == Get(a, k)
  {}

  lemma {:induction false} TotalPlus<K>(a: map<K, nat>, b: map<K, nat>)
    ensures Total(Plus(a, b)) == Total(a) + Total(b)
    decreases |b|
  {
    if b == map[] {
      assert Plus(a, b) == a;
    } else {
      var k :| k in b;
      TotalPlus(a, b - {k});
      TotalRemove(b, k);
      PlusRemove(a, b, k);
      hide Plus;
      TotalUpdate(Plus(a, b - {k}), k, Get(a, k) + b[k]);
    }
  }

  lemma TotalBump<K>(m: map<K, nat>, k: K)
    ensures Total(Bump(m, k)) == Total(m) + 1
  {
    TotalUpdate(m, k, Get(m, k) + 1);
  }

  lemma SizeUpdate<K, V>(m: map<K, V>, k: K, v: V)
    ensures |m[k := v]| == if k in m then |m| else |m| + 1
  {}

  /** A counter says `n`, and is there only from one on. */
  ghost predicate Says<K>(m: map<K, nat>, k: K, n: nat) { Get(m, k) == n && (k in m <==> n > 0) }

  lemma BumpSays<K>(m: map<K, nat>, k: K, n: nat, x: K)
    requires Says(m, k, n)
    ensures Says(Bump(m, x), k, n + if k == x then 1 else 0)
  {}
}
