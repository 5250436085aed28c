/**
 * The few table operations the dashboard asks of pandas, stated over a table
 * held as a sequence of rows: boolean-mask selection, `groupby(...).sum()`,
 * `value_counts()`, `unique()` and the `min()`/`max()` of a numeric column.
 */
module Tabular {

  datatype Option<+T> = None | Some(value: T)

  /** `sub` is what is left of `s` after deleting some of its rows; the rows left keep their order. */
  ghost predicate IsSubsequence<T>(sub: seq<T>, s: seq<T>)
    decreases |s|
  {
    if sub == [] then true
    else if s == [] then false
    else (sub[0] == s[0] && IsSubsequence(sub[1..], s[1..])) || IsSubsequence(sub, s[1..])
  }

  /** Deleting rows from a selection of `c` still gives a selection of `c`. */
  lemma {:induction false} SubsequenceTransitive<T>(a: seq<T>, b: seq<T>, c: seq<T>)
    requires IsSubsequence(a, b) && IsSubsequence(b, c)
    ensures IsSubsequence(a, c)
    decreases |c|
  {
    if a != [] {
      if b[0] == c[0] && IsSubsequence(b[1..], c[1..]) {
        if a[0] == b[0] && IsSubsequence(a[1..], b[1..]) {
          SubsequenceTransitive(a[1..], b[1..], c[1..]);
        } else {
          SubsequenceTransitive(a, b[1..], c[1..]);
        }
      } else {
        SubsequenceTransitive(a, b, c[1..]);
      }
    }
  }

  /**
   * Boolean-mask selection `df[mask]`: the rows of `s` for which `keep` holds,
   * each as often as in `s` and in the order of `s`.
   */
  function Filter<T(!new)>(s: seq<T>, keep: T -> bool): (r: seq<T>)
    ensures |r| <= |s|
    ensures forall i :: 0 <= i < |r| ==> keep(r[i])
    ensures forall x :: x in r <==> x in s && keep(x)
    ensures forall x :: multiset(r)[x] == if keep(x) then multiset(s)[x] else 0
    ensures IsSubsequence(r, s)
    decreases |s|
  {
    if s == [] then []
    else
      assert s == [s[0]] + s[1..];
      if keep(s[0]) then [s[0]] + Filter(s[1..], keep) else Filter(s[1..], keep)
  }

  /** A mask that holds on every row selects the whole table, unchanged. */
  lemma {:induction false} FilterKeepsAll<T(!new)>(s: seq<T>, keep: T -> bool)
    requires forall i :: 0 <= i < |s| ==> keep(s[i])
    ensures Filter(s, keep) == s
    decreases |s|
  {
    if s != [] {
      FilterKeepsAll(s[1..], keep);
      assert s == [s[0]] + s[1..];
    }
  }

  /** Selecting from a table with one more row at the front. */
  lemma FilterCons<T(!new)>(x: T, s: seq<T>, keep: T -> bool)
    ensures Filter([x] + s, keep) == if keep(x) then [x] + Filter(s, keep) else Filter(s, keep)
  {
    assert ([x] + s)[1..] == s;
  }

  /** Two masks applied one after the other select the same rows in either order. */
  lemma {:induction false} FilterCommutes<T(!new)>(s: seq<T>, p: T -> bool, q: T -> bool)
    ensures Filter(Filter(s, p), q) == Filter(Filter(s, q), p)
    decreases |s|
  {
    if s != [] {
      FilterCommutes(s[1..], p, q);
      var x := s[0];
      if p(x) {
        FilterCons(x, Filter(s[1..], p), q);
      }
      if q(x) {
        FilterCons(x, Filter(s[1..], q), p);
      }
    }
  }

  /** The mask `df[key] == k`. */
  function KeyMask<T, K(==)>(key: T -> K, k: K): T -> bool
  {
    x => key(x) == k
  }

  /** `df[df[key] == k]`: the rows whose `key` column equals `k`. */
  function WithKey<T(!new), K(==)>(s: seq<T>, key: T -> K, k: K): (r: seq<T>)
    ensures forall i :: 0 <= i < |r| ==> key(r[i]) == k
    ensures forall x :: x in r <==> x in s && key(x) == k
  {
    Filter(s, KeyMask(key, k))
  }

  /** `df[column]`: the value of `column` in every row of `s`, in row order. */
  function Column<T, C>(s: seq<T>, column: T -> C): (c: seq<C>)
    ensures |c| == |s|
    ensures forall i :: 0 <= i < |s| ==> c[i] == column(s[i])
    decreases |s|
  {
    if s == [] then [] else [column(s[0])] + Column(s[1..], column)
  }

  /** The sum of the `weight` column over the rows of `s`. */
  function Sum<T>(s: seq<T>, weight: T -> int): int
    decreases |s|
  {
    if s == [] then 0 else weight(s[0]) + Sum(s[1..], weight)
  }

  /** The sum of the `weight` column over the rows of `s` whose `key` column equals `k`. */
  function SumWhere<T, K(==)>(s: seq<T>, key: T -> K, k: K, weight: T -> int): int
    decreases |s|
  {
    if s == [] then 0
    else (if key(s[0]) == k then weight(s[0]) else 0) + SumWhere(s[1..], key, k, weight)
  }

  /**
   * `groupby(key)[weight].sum()`: one entry per distinct value of the `key`
   * column, holding the sum of `weight` over the rows of that group.
   */
  function GroupSum<T, K(==,!new)>(s: seq<T>, key: T -> K, weight: T -> int): (m: map<K, int>)
    ensures forall k :: k in m <==> k in Column(s, key)
    ensures forall k :: SumWhere(s, key, k, weight) == if k in m then m[k] else 0
    decreases |s|
  {
    if s == [] then map[]
    else
      var m := GroupSum(s[1..], key, weight);
      var k := key(s[0]);
      m[k := weight(s[0]) + if k in m then m[k] else 0]
  }

  /** Summing over a key's group in one pass is summing over the rows `WithKey` selects. */
  lemma {:induction false} SumWhereSelected<T(!new), K>(s: seq<T>, key: T -> K, k: K, weight: T -> int)
    ensures SumWhere(s, key, k, weight) == Sum(WithKey(s, key, k), weight)
    decreases |s|
  {
    if s != [] {
      var r1 := WithKey(s[1..], key, k);
      SumWhereSelected(s[1..], key, k, weight);
      WithKeyCons(s, key, k);
      if key(s[0]) == k {
        assert ([s[0]] + r1)[1..] == r1;
      }
    }
  }

  /** Each group sum of `GroupSum` is the sum of `weight` over the rows `WithKey` selects for that key. */
  lemma GroupSumOfSelections<T(!new), K(!new)>(s: seq<T>, key: T -> K, weight: T -> int)
    ensures forall k :: k in GroupSum(s, key, weight) ==>
      GroupSum(s, key, weight)[k] == Sum(WithKey(s, key, k), weight)
  {
    forall k | k in GroupSum(s, key, weight)
      ensures GroupSum(s, key, weight)[k] == Sum(WithKey(s, key, k), weight)
    {
      SumWhereSelected(s, key, k, weight);
    }
  }

  /** Selecting one key from a table with one more row at the front. */
  lemma WithKeyCons<T(!new), K>(s: seq<T>, key: T -> K, k: K)
    requires s != []
    ensures WithKey(s, key, k) ==
      if key(s[0]) == k then [s[0]] + WithKey(s[1..], key, k) else WithKey(s[1..], key, k)
  {
  }

  /** The sum of the values of `m` over the keys in `keys`, taken in no particular order. */
  ghost function SumOver<K>(keys: set<K>, m: map<K, int>): int
    requires keys <= m.Keys
    decreases keys
  {
    if keys == {} then 0 else var k :| k in keys; m[k] + SumOver(keys - {k}, m)
  }

  /** Any key can be taken out of a `SumOver` first: the order of summation does not matter. */
  lemma {:induction false} SumOverRemove<K>(keys: set<K>, m: map<K, int>, k: K)
    requires keys <= m.Keys && k in keys
    ensures SumOver(keys, m) == m[k] + SumOver(keys - {k}, m)
    decreases keys
  {
    var j :| j in keys && SumOver(keys, m) == m[j] + SumOver(keys - {j}, m);
    if j != k {
      SumOverRemove(keys - {j}, m, k);
      SumOverRemove(keys - {k}, m, j);
      assert keys - {j} - {k} == keys - {k} - {j};
    }
  }

  /** `SumOver` reads `m` only at the keys it sums. */
  lemma {:induction false} SumOverAgree<K>(keys: set<K>, m: map<K, int>, m': map<K, int>)
    requires keys <= m.Keys && keys <= m'.Keys
    requires forall k :: k in keys ==> m[k] == m'[k]
    ensures SumOver(keys, m) == SumOver(keys, m')
    decreases keys
  {
    if keys != {} {
      var k :| k in keys && SumOver(keys, m) == m[k] + SumOver(keys - {k}, m);
      SumOverRemove(keys, m', k);
      SumOverAgree(keys - {k}, m, m');
    }
  }

  /** The group sums of `GroupSum` add up to the sum of `weight` over the whole table. */
  lemma {:induction false} GroupSumTotal<T, K(!new)>(s: seq<T>, key: T -> K, weight: T -> int)
    ensures SumOver(GroupSum(s, key, weight).Keys, GroupSum(s, key, weight)) == Sum(s, weight)
    decreases |s|
  {
    if s != [] {
      var m := GroupSum(s[1..], key, weight);
      var m' := GroupSum(s, key, weight);
      var k := key(s[0]);
      GroupSumTotal(s[1..], key, weight);
      SumOverRemove(m'.Keys, m', k);
      SumOverAgree(m'.Keys - {k}, m', m);
      if k in m {
        SumOverRemove(m.Keys, m, k);
        assert m'.Keys - {k} == m.Keys - {k};
      } else {
        assert m'.Keys - {k} == m.Keys;
      }
    }
  }

  /** A `weight` that is 1 on every row sums to the number of rows. */
  lemma {:induction false} SumOfOnes<T>(s: seq<T>, weight: T -> int)
    requires forall x :: weight(x) == 1
    ensures Sum(s, weight) == |s|
    decreases |s|
  {
    if s != [] {
      SumOfOnes(s[1..], weight);
    }
  }

  /** The position of the first occurrence of `x` in `s`. */
  function FirstIndex<T(==)>(s: seq<T>, x: T): (i: nat)
    requires x in s
    ensures i < |s| && s[i] == x
    ensures forall j :: 0 <= j < i ==> s[j] != x
    decreases |s|
  {
    if s[0] == x then 0 else 1 + FirstIndex(s[1..], x)
  }

  /** Cutting rows off the end of `s` does not move the first occurrence of a value still present. */
  lemma FirstIndexOfPrefix<T>(s: seq<T>, n: nat, x: T)
    requires n <= |s| && x in s[..n]
    ensures FirstIndex(s, x) == FirstIndex(s[..n], x)
  {
    var a, b := FirstIndex(s, x), FirstIndex(s[..n], x);
    assert b < n && s[b] == x;
    assert a <= b;
    assert s[..n][a] == x;
  }

  /** `Series.unique()`: every value of `s` exactly once. */
  function Distinct<T(==,!new)>(s: seq<T>): (u: seq<T>)
    ensures forall x :: x in u <==> x in s
    ensures forall i, j :: 0 <= i < j < |u| ==> u[i] != u[j]
    decreases |s|
  {
    if s == [] then []
    else
      var u := Distinct(s[..|s| - 1]);
      assert s == s[..|s| - 1] + [s[|s| - 1]];
      if s[|s| - 1] in u then u else u + [s[|s| - 1]]
  }

  /** `Distinct` lists the values of `s` in the order of their first occurrence, as `unique()` does. */
  lemma {:induction false} DistinctInFirstOccurrenceOrder<T(!new)>(s: seq<T>)
    ensures forall i, j :: 0 <= i < j < |Distinct(s)| ==>
      FirstIndex(s, Distinct(s)[i]) < FirstIndex(s, Distinct(s)[j])
    decreases |s|
  {
    if s != [] {
      var n := |s| - 1;
      var p := s[..n];
      var u := Distinct(p);
      DistinctInFirstOccurrenceOrder(p);
      forall x | x in p
        ensures FirstIndex(s, x) == FirstIndex(p, x)
      {
        FirstIndexOfPrefix(s, n, x);
      }
      if s[n] !in u {
        assert FirstIndex(s, s[n]) == n;
      }
    }
  }

  /** `Series.max()`: the largest value, or `None` for an empty column (pandas gives NaN). */
  function Max(xs: seq<int>): (r: Option<int>)
    ensures r.None? <==> xs == []
    ensures r.Some? ==> r.value in xs && forall i :: 0 <= i < |xs| ==> xs[i] <= r.value
    decreases |xs|
  {
    if xs == [] then None
    else
      assert xs == [xs[0]] + xs[1..];
      match Max(xs[1..])
      case None => Some(xs[0])
      case Some(m) => Some(if xs[0] >= m then xs[0] else m)
  }

  /** `Series.min()`: the smallest value, or `None` for an empty column (pandas gives NaN). */
  function Min(xs: seq<int>): (r: Option<int>)
    ensures r.None? <==> xs == []
    ensures r.Some? ==> r.value in xs && forall i :: 0 <= i < |xs| ==> r.value <= xs[i]
    decreases |xs|
  {
    if xs == [] then None
    else
      assert xs == [xs[0]] + xs[1..];
      match Min(xs[1..])
      case None => Some(xs[0])
      case Some(m) => Some(if xs[0] <= m then xs[0] else m)
  }
}
