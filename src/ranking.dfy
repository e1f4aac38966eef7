/**
 * The "sort the entries of a count map by descending value and keep the
 * first n" pipeline that the statistics views and the keyword extractor
 * share (`entrySet().stream().sorted(comparingByValue().reversed()).limit(n)`).
 *
 * `SelectTop` repeatedly takes the first entry of maximal count, which is
 * what a stable descending sort followed by `limit(n)` returns.  Where the
 * entries come out of a hash map, their order is unspecified; `EntriesOf`
 * models that by choosing the order nondeterministically.
 */
module Ranking {

  datatype Entry<K> = Entry(key: K, count: int)

  function Keys<K>(s: seq<Entry<K>>): (r: seq<K>)
    ensures |r| == |s|
    ensures forall i :: 0 <= i < |s| ==> r[i] == s[i].key
    ensures forall x :: x in s ==> x.key in r
  {
    if s == [] then [] else [s[0].key] + Keys(s[1..])
  }

  function Counts<K>(s: seq<Entry<K>>): (r: seq<int>)
    ensures |r| == |s|
    ensures forall i :: 0 <= i < |s| ==> r[i] == s[i].count
  {
    if s == [] then [] else [s[0].count] + Counts(s[1..])
  }

  predicate DistinctKeys<K(==)>(s: seq<Entry<K>>)
  {
    forall i, j :: 0 <= i < j < |s| ==> s[i].key != s[j].key
  }

  predicate NonIncreasing<K>(s: seq<Entry<K>>)
  {
    forall i, j :: 0 <= i < j < |s| ==> s[i].count >= s[j].count
  }

  function Min(a: int, b: int): int
  {
    if a < b then a else b
  }

  /** The position of the first entry of maximal count. */
  function FirstMax<K>(s: seq<Entry<K>>): (i: nat)
    requires |s| > 0
    ensures i < |s|
    ensures forall j :: 0 <= j < |s| ==> s[j].count <= s[i].count
    ensures forall j :: 0 <= j < i ==> s[j].count < s[i].count
  {
    if |s| == 1 then 0
    else
      var k := FirstMax(s[1..]);
      if s[0].count >= s[k + 1].count then 0 else k + 1
  }

  function RemoveAt<T>(s: seq<T>, i: nat): (r: seq<T>)
    requires i < |s|
    ensures |r| == |s| - 1
    ensures forall x :: x in s && x != s[i] ==> x in r
    ensures forall x :: x in r ==> x in s
  {
    assert s == s[..i] + [s[i]] + s[i + 1..];
    s[..i] + s[i + 1..]
  }

  lemma RemoveAtKeepsOthersKeys<K>(s: seq<Entry<K>>, i: nat)
    requires i < |s| && DistinctKeys(s)
    ensures DistinctKeys(RemoveAt(s, i))
    ensures forall x :: x in RemoveAt(s, i) ==> x.key != s[i].key
  {
    var r := RemoveAt(s, i);
    assert forall j :: 0 <= j < |r| ==> r[j] == (if j < i then s[j] else s[j + 1]);
    forall x | x in r ensures x.key != s[i].key {
      var j :| 0 <= j < |r| && r[j] == x;
      assert x == (if j < i then s[j] else s[j + 1]);
    }
  }

  /**
   * The first `n` entries of `s` in descending order of count; among equal
   * counts, earlier entries first.
   */
  function SelectTop<K>(s: seq<Entry<K>>, n: nat): (r: seq<Entry<K>>)
    ensures |r| == Min(n, |s|)
    ensures forall x :: x in r ==> x in s
    decreases n
  {
    if n == 0 || s == [] then []
    else
      var i := FirstMax(s);
      [s[i]] + SelectTop(RemoveAt(s, i), n - 1)
  }

  lemma {:induction false} SelectTopSorted<K>(s: seq<Entry<K>>, n: nat)
    ensures NonIncreasing(SelectTop(s, n))
    decreases n
  {
    if n != 0 && s != [] {
      var i := FirstMax(s);
      var s' := RemoveAt(s, i);
      var rest := SelectTop(s', n - 1);
      assert NonIncreasing(rest) by {
        SelectTopSorted(s', n - 1);
      }
      assert forall x :: x in rest ==> x.count <= s[i].count by {
        forall x | x in rest ensures x.count <= s[i].count {
          assert x in s;
          var j :| 0 <= j < |s| && s[j] == x;
        }
      }
      ConsNonIncreasing(s[i], rest);
      assert SelectTop(s, n) == [s[i]] + rest;
    }
  }

  lemma ConsNonIncreasing<K>(x: Entry<K>, rest: seq<Entry<K>>)
    requires NonIncreasing(rest)
    requires forall y :: y in rest ==> y.count <= x.count
    ensures NonIncreasing([x] + rest)
  {
    var r := [x] + rest;
    forall a, b | 0 <= a < b < |r| ensures r[a].count >= r[b].count {
      if a == 0 {
        assert r[b] in rest;
      } else {
        assert r[a] == rest[a - 1] && r[b] == rest[b - 1];
      }
    }
  }

  lemma {:induction false} SelectTopAll<K>(s: seq<Entry<K>>, n: nat)
    requires n >= |s|
    ensures forall x :: x in s ==> x in SelectTop(s, n)
    decreases n
  {
    if n != 0 && s != [] {
      var i := FirstMax(s);
      SelectTopAll(RemoveAt(s, i), n - 1);
    }
  }

  /** No entry left out of the selection has a larger count than one inside it. */
  lemma {:induction false} SelectTopDominates<K>(s: seq<Entry<K>>, n: nat, x: Entry<K>, y: Entry<K>)
    requires x in s && x !in SelectTop(s, n) && y in SelectTop(s, n)
    ensures x.count <= y.count
    decreases n
  {
    assert n != 0 && s != [];
    var i := FirstMax(s);
    var s' := RemoveAt(s, i);
    var rest := SelectTop(s', n - 1);
    if y != s[i] {
      assert y in rest && x in s' by {
        assert SelectTop(s, n) == [s[i]] + rest;
      }
      SelectTopDominates(s', n - 1, x, y);
    } else {
      var j :| 0 <= j < |s| && s[j] == x;
    }
  }

  lemma {:induction false} SelectTopDistinct<K>(s: seq<Entry<K>>, n: nat)
    requires DistinctKeys(s)
    ensures DistinctKeys(SelectTop(s, n))
    decreases n
  {
    if n != 0 && s != [] {
      var i := FirstMax(s);
      RemoveAtKeepsOthersKeys(s, i);
      SelectTopDistinct(RemoveAt(s, i), n - 1);
      var r := SelectTop(s, n);
      var rest := SelectTop(RemoveAt(s, i), n - 1);
      assert r == [s[i]] + rest;
      forall a, b | 0 <= a < b < |r| ensures r[a].key != r[b].key {
        if a == 0 {
          assert r[b] in rest;
        } else {
          assert r[a] == rest[a - 1] && r[b] == rest[b - 1];
        }
      }
    }
  }

  /** A key of a distinct-key entry list determines the entry. */
  lemma KeyDeterminesEntry<K>(s: seq<Entry<K>>, x: Entry<K>, y: Entry<K>)
    requires DistinctKeys(s) && x in s && y in s && x.key == y.key
    ensures x == y
  {
  }

  /** The entries of `m` in some unspecified order, one per key. */
  method EntriesOf<K>(m: map<K, int>) returns (s: seq<Entry<K>>)
    ensures |s| == |m|
    ensures DistinctKeys(s)
    ensures forall x :: x in s <==> x.key in m && x.count == m[x.key]
  {
    s := [];
    var rest := m.Keys;
    while rest != {}
      invariant rest <= m.Keys
      invariant |s| + |rest| == |m|
      invariant DistinctKeys(s)
      invariant forall x :: x in s ==> x.key in m && x.key !in rest && x.count == m[x.key]
      invariant forall k :: k in m && k !in rest ==> Entry(k, m[k]) in s
      decreases |rest|
    {
      var k :| k in rest;
      s := s + [Entry(k, m[k])];
      rest := rest - {k};
    }
  }

  /**
   * `top` lists `n` entries of largest count of `m` (all of them when `m` has
   * fewer), in descending order of count, one per key; keys outside it count
   * no more than any key inside it.
   */
  predicate IsTop<K>(m: map<K, int>, n: nat, top: seq<Entry<K>>)
  {
    && |top| == Min(n, |m|)
    && NonIncreasing(top)
    && DistinctKeys(top)
    && (forall x :: x in top ==> x.key in m && x.count == m[x.key])
    && (n >= |m| ==> forall k :: k in m ==> k in Keys(top))
    && (forall k, i :: k in m && k !in Keys(top) && 0 <= i < |top| ==> m[k] <= top[i].count)
  }

  /**
   * The `n` entries of largest count of `m` (all of them when `m` has fewer),
   * in descending order of count; keys outside the result count no more than
   * any key inside it.
   */
  method TopEntries<K>(m: map<K, int>, n: nat) returns (top: seq<Entry<K>>)
    ensures IsTop(m, n, top)
  {
    var all := EntriesOf(m);
    top := SelectTop(all, n);
    SelectTopSorted(all, n);
    SelectTopDistinct(all, n);
    if n >= |m| {
      SelectTopAll(all, n);
      forall k | k in m ensures k in Keys(top) {
        assert Entry(k, m[k]) in all;
      }
    }
    forall k, i | k in m && k !in Keys(top) && 0 <= i < |top| ensures m[k] <= top[i].count {
      assert Entry(k, m[k]) in all;
      assert top[i] in top;
      SelectTopDominates(all, n, Entry(k, m[k]), top[i]);
    }
  }
}
