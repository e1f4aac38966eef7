/**
 * Count maps updated by `merge(k, 1, Integer::sum)` or
 * `computeIfAbsent(k, ...).incrementAndGet()`: both add one to the count of
 * `k`, starting from zero when `k` is absent.
 */
module Tally {

  /** `getOrDefault(k, 0)`. */
  function Get<K>(m: map<K, nat>, k: K): nat
  {
    if k in m then m[k] else 0
  }

  function Bump<K>(m: map<K, nat>, k: K): (r: map<K, nat>)
    ensures r.Keys == m.Keys + {k}
  {
    m[k := Get(m, k) + 1]
  }

  /** `merge(k, n, Integer::sum)`: add `n` to the count of `k`. */
  function Merge<K>(m: map<K, nat>, k: K, n: nat): (r: map<K, nat>)
    ensures r.Keys == m.Keys + {k}
  {
    m[k := Get(m, k) + n]
  }

  lemma MergeGet<K>(m: map<K, nat>, k: K, n: nat)
    ensures forall l :: Get(Merge(m, k, n), l) == Get(m, l) + (if l == k then n else 0)
    ensures forall l :: l in Merge(m, k, n) <==> l in m || l == k
  {
  }

  /** One `Bump` per element of `ks`, left to right. */
  function BumpAll<K>(m: map<K, nat>, ks: seq<K>): map<K, nat>
  {
    if ks == [] then m else Bump(BumpAll(m, ks[..|ks| - 1]), ks[|ks| - 1])
  }

  lemma BumpAllSnoc<K>(m: map<K, nat>, ks: seq<K>, k: K)
    ensures BumpAll(m, ks + [k]) == Bump(BumpAll(m, ks), k)
  {
    assert (ks + [k])[..|ks|] == ks;
  }

  /** After the updates every key's count grew by its number of occurrences in `ks`. */
  lemma {:induction false} BumpAllCounts<K>(m: map<K, nat>, ks: seq<K>, k: K)
    ensures Get(BumpAll(m, ks), k) == Get(m, k) + multiset(ks)[k]
  {
    if ks != [] {
      var init := ks[..|ks| - 1];
      BumpAllCounts(m, init, k);
      assert ks == init + [ks[|ks| - 1]];
    }
  }

  /** The updates add exactly the elements of `ks` as keys. */
  lemma {:induction false} BumpAllKeys<K>(m: map<K, nat>, ks: seq<K>)
    ensures BumpAll(m, ks).Keys == m.Keys + set x | x in ks
  {
    if ks != [] {
      var init := ks[..|ks| - 1];
      BumpAllKeys(m, init);
      assert ks == init + [ks[|ks| - 1]];
    }
  }

  lemma {:induction false} BumpAllAppend<K>(m: map<K, nat>, a: seq<K>, b: seq<K>)
    ensures BumpAll(m, a + b) == BumpAll(BumpAll(m, a), b)
    decreases |b|
  {
    if b != [] {
      var init := b[..|b| - 1];
      assert (a + b)[..|a + b| - 1] == a + init;
      BumpAllAppend(m, a, init);
    } else {
      assert a + b == a;
    }
  }

  /** The loop `for (k : ks) m.merge(k, 1, Integer::sum)` on a local copy. */
  method BumpEach<K>(m: map<K, nat>, ks: seq<K>) returns (r: map<K, nat>)
    ensures r == BumpAll(m, ks)
  {
    r := m;
    var i := 0;
    while i < |ks|
      invariant 0 <= i <= |ks|
      invariant r == BumpAll(m, ks[..i])
    {
      BumpAllSnoc(m, ks[..i], ks[i]);
      assert ks[..i + 1] == ks[..i] + [ks[i]];
      r := Bump(r, ks[i]);
      i := i + 1;
    }
    assert ks[..|ks|] == ks;
  }

  /** Counts only grow, so every count is at least its starting value. */
  lemma BumpAllMonotone<K>(m: map<K, nat>, ks: seq<K>, k: K)
    ensures Get(m, k) <= Get(BumpAll(m, ks), k)
  {
    BumpAllCounts(m, ks, k);
  }

  /** Every count in a map built by bumping from the empty map is at least one. */
  predicate Positive<K>(m: map<K, nat>)
  {
    forall k :: k in m ==> m[k] >= 1
  }

  lemma {:induction false} BumpAllPositive<K>(m: map<K, nat>, ks: seq<K>)
    requires Positive(m)
    ensures Positive(BumpAll(m, ks))
  {
    if ks != [] {
      BumpAllPositive(m, ks[..|ks| - 1]);
    }
  }

  /** The sum of all counts. */
  ghost function Total<K>(m: map<K, nat>): nat
    decreases |m|
  {
    if m == map[] then 0
    else
      var k :| k in m;
      m[k] + Total(m - {k})
  }

  /** The sum does not depend on which key is taken out first. */
  lemma TotalRemove<K>(m: map<K, nat>, k: K)
    requires k in m
    ensures Total(m) == m[k] + Total(m - {k})
    decreases |m|
  {
    var j :| j in m && Total(m) == m[j] + Total(m - {j});
    if j != k {
      TotalRemove(m - {j}, k);
      TotalRemove(m - {k}, j);
      assert m - {j} - {k} == m - {k} - {j};
    }
  }

  lemma TotalMerge<K>(m: map<K, nat>, k: K, n: nat)
    ensures Total(Merge(m, k, n)) == Total(m) + n
  {
    var r := Merge(m, k, n);
    TotalRemove(r, k);
    if k in m {
      TotalRemove(m, k);
      assert r - {k} == m - {k};
    } else {
      assert r - {k} == m;
    }
  }

  /** Bumping from the empty map once per element gives counts that sum to the length. */
  lemma {:induction false} TotalBumpAll<K>(ks: seq<K>)
    ensures Total(BumpAll(map[], ks)) == |ks|
  {
    if ks != [] {
      TotalBumpAll(ks[..|ks| - 1]);
      TotalMerge(BumpAll(map[], ks[..|ks| - 1]), ks[|ks| - 1], 1);
    }
  }
}
