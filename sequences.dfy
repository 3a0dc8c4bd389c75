/** Query building blocks over table snapshots: WHERE (Filter), projections
    (Map), COUNT (Count), ORDER BY (SortBy) and GROUP BY ... COUNT (Groups). */
module Sequences {

  /** Rows of `s` that satisfy `p`, in table order. */
  function Filter<T>(s: seq<T>, p: T -> bool): (r: seq<T>)
    ensures |r| <= |s|
  {
    if s == [] then []
    else (if p(s[0]) then [s[0]] else []) + Filter(s[1..], p)
  }

  /** The filtered rows are the rows that satisfy `p`, each as often as in `s`. */
  lemma {:induction false} FilterContenido<T(!new)>(s: seq<T>, p: T -> bool)
    ensures forall x :: multiset(Filter(s, p))[x] == if p(x) then multiset(s)[x] else 0
    ensures forall x :: x in Filter(s, p) <==> x in s && p(x)
  {
    if s != [] {
      FilterContenido(s[1..], p);
      assert s == [s[0]] + s[1..];
      var head := if p(s[0]) then [s[0]] else [];
      assert multiset(Filter(s, p)) == multiset(head) + multiset(Filter(s[1..], p));
      assert multiset(s) == multiset{s[0]} + multiset(s[1..]);
    }
    forall x ensures x in Filter(s, p) <==> x in s && p(x) {
      assert x in Filter(s, p) <==> x in multiset(Filter(s, p));
      assert x in s <==> x in multiset(s);
    }
  }

  lemma {:induction false} FilterAppend<T>(s: seq<T>, x: T, p: T -> bool)
    ensures Filter(s + [x], p) == Filter(s, p) + (if p(x) then [x] else [])
  {
    var tail: seq<T> := if p(x) then [x] else [];
    if s == [] {
      assert s + [x] == [x];
      assert Filter([x], p) == tail + Filter([x][1..], p);
      assert [x][1..] == [];
    } else {
      var t := s + [x];
      assert t[0] == s[0] && t[1..] == s[1..] + [x];
      var head: seq<T> := if p(s[0]) then [s[0]] else [];
      assert Filter(t, p) == head + Filter(s[1..] + [x], p);
      FilterAppend(s[1..], x, p);
      assert Filter(s, p) == head + Filter(s[1..], p);
      assert head + (Filter(s[1..], p) + tail) == (head + Filter(s[1..], p)) + tail;
    }
  }

  function Map<T, U>(s: seq<T>, f: T -> U): (r: seq<U>)
    ensures |r| == |s|
    ensures forall k :: 0 <= k < |s| ==> r[k] == f(s[k])
  {
    if s == [] then [] else [f(s[0])] + Map(s[1..], f)
  }

  lemma {:induction false} MapAppend<T, U>(s: seq<T>, x: T, f: T -> U)
    ensures Map(s + [x], f) == Map(s, f) + [f(x)]
  {
    assert |Map(s + [x], f)| == |Map(s, f) + [f(x)]|;
    forall k | 0 <= k < |s| + 1 ensures Map(s + [x], f)[k] == (Map(s, f) + [f(x)])[k] {
      assert (s + [x])[k] == if k < |s| then s[k] else x;
    }
  }

  /** The projection of every row is in the projection, and nothing else is. */
  lemma MapMembers<T, U>(s: seq<T>, f: T -> U)
    ensures forall x :: x in s ==> f(x) in Map(s, f)
    ensures forall y :: y in Map(s, f) ==> exists x :: x in s && f(x) == y
  {
    var r := Map(s, f);
    forall x | x in s ensures f(x) in r {
      var k :| 0 <= k < |s| && s[k] == x;
      assert r[k] == f(x);
    }
    forall y | y in r ensures exists x :: x in s && f(x) == y {
      var k :| 0 <= k < |r| && r[k] == y;
      assert s[k] in s;
    }
  }

  /** Projecting back what a map attached gives the original rows. */
  lemma MapUndone<T, U>(s: seq<T>, f: T -> U, g: U -> T)
    requires forall x :: g(f(x)) == x
    ensures Map(Map(s, f), g) == s
  {
  }

  /** The rows a filter keeps, joined and projected back: each row that
      satisfies `p`, as often as the table holds it. */
  lemma FilterMapUndone<T(!new), U>(s: seq<T>, p: T -> bool, f: T -> U, g: U -> T)
    requires forall x :: g(f(x)) == x
    ensures forall x :: multiset(Map(Map(Filter(s, p), f), g))[x] == if p(x) then multiset(s)[x] else 0
  {
    MapUndone(Filter(s, p), f, g);
    FilterContenido(s, p);
  }

  /** Each entry of a filtered and joined table comes from a kept row. */
  lemma FilterMapEntries<T(!new), U>(s: seq<T>, p: T -> bool, f: T -> U, g: U -> T)
    requires forall x :: g(f(x)) == x
    ensures forall k :: 0 <= k < |Map(Filter(s, p), f)| ==>
      var e := Map(Filter(s, p), f)[k];
      g(e) in s && p(g(e)) && e == f(g(e))
  {
    var filas := Filter(s, p);
    FilterContenido(s, p);
    forall k | 0 <= k < |Map(filas, f)| ensures g(Map(filas, f)[k]) in s && p(g(Map(filas, f)[k])) {
      assert g(Map(filas, f)[k]) == filas[k];
      assert filas[k] in filas;
    }
  }

  /** Number of rows that satisfy `p`. */
  function Count<T>(s: seq<T>, p: T -> bool): (n: nat)
    ensures n <= |s|
  {
    if s == [] then 0 else (if p(s[0]) then 1 else 0) + Count(s[1..], p)
  }

  lemma {:induction false} CountIsFilterLength<T>(s: seq<T>, p: T -> bool)
    ensures Count(s, p) == |Filter(s, p)|
  {
    if s != [] {
      CountIsFilterLength(s[1..], p);
    }
  }

  /** Two conditions no row satisfies together count at most the whole table. */
  lemma {:induction false} CountDisjoint<T>(s: seq<T>, p: T -> bool, q: T -> bool)
    requires forall x :: x in s ==> !(p(x) && q(x))
    ensures Count(s, p) + Count(s, q) <= |s|
  {
    if s != [] {
      assert s[0] in s;
      forall x | x in s[1..] ensures !(p(x) && q(x)) {
        assert x in s;
      }
      CountDisjoint(s[1..], p, q);
    }
  }

  /** Rows satisfying `q` split into those that also satisfy `p` and those
      that do not. */
  lemma {:induction false} CountSplit<T>(s: seq<T>, q: T -> bool, p: T -> bool)
    ensures Count(s, q) == Count(s, x => q(x) && p(x)) + Count(s, x => q(x) && !p(x))
  {
    if s != [] {
      CountSplit(s[1..], q, p);
    }
  }

  /** Two conditions that agree on every row count the same rows. */
  lemma {:induction false} CountSame<T>(s: seq<T>, p: T -> bool, q: T -> bool)
    requires forall x :: p(x) == q(x)
    ensures Count(s, p) == Count(s, q)
  {
    if s != [] {
      CountSame(s[1..], p, q);
    }
  }

  /** A table holding a row that satisfies `p` counts at least one. */
  lemma {:induction false} CountPositive<T>(s: seq<T>, p: T -> bool, x: T)
    requires x in s && p(x)
    ensures Count(s, p) > 0
  {
    if s[0] != x {
      assert x in s[1..];
      CountPositive(s[1..], p, x);
    }
  }

  predicate SortedBy<T>(s: seq<T>, key: T -> int)
  {
    forall i, j :: 0 <= i < j < |s| ==> key(s[i]) <= key(s[j])
  }

  function InsertBy<T>(x: T, s: seq<T>, key: T -> int): (r: seq<T>)
    requires SortedBy(s, key)
    ensures SortedBy(r, key)
    ensures multiset(r) == multiset(s) + multiset{x}
    ensures |r| == |s| + 1
  {
    if s == [] then [x]
    else if key(x) <= key(s[0]) then
      PrependSorted(x, s, key);
      [x] + s
    else
      var rest := InsertBy(x, s[1..], key);
      assert s == [s[0]] + s[1..];
      HeadIsLeast(s, key);
      forall k | 0 <= k < |rest| ensures key(s[0]) <= key(rest[k]) {
        assert rest[k] in multiset(rest);
        assert rest[k] == x || rest[k] in multiset(s[1..]);
      }
      PrependSorted(s[0], rest, key);
      [s[0]] + rest
  }

  /** The first row of a sorted sequence has the least key. */
  lemma HeadIsLeast<T>(s: seq<T>, key: T -> int)
    requires SortedBy(s, key) && s != []
    ensures forall y :: y in multiset(s[1..]) ==> key(s[0]) <= key(y)
  {
    forall y | y in multiset(s[1..]) ensures key(s[0]) <= key(y) {
      var j :| 0 <= j < |s[1..]| && s[1..][j] == y;
      assert s[j + 1] == y;
    }
  }

  /** A row whose key is at most every key of a sorted sequence can go in front. */
  lemma PrependSorted<T>(h: T, s: seq<T>, key: T -> int)
    requires SortedBy(s, key)
    requires forall k :: 0 <= k < |s| ==> key(h) <= key(s[k])
    ensures SortedBy([h] + s, key)
  {
    var r := [h] + s;
    forall i, j | 0 <= i < j < |r| ensures key(r[i]) <= key(r[j]) {
      assert r[j] == s[j - 1];
      if i > 0 {
        assert r[i] == s[i - 1];
      }
    }
  }

  /** ORDER BY `key` ascending: a sorted permutation of the rows. Rows with
      equal keys come out in some order, as SQL leaves them. */
  function SortBy<T>(s: seq<T>, key: T -> int): (r: seq<T>)
    ensures SortedBy(r, key)
    ensures multiset(r) == multiset(s)
    ensures |r| == |s|
  {
    if s == [] then []
    else
      assert s == [s[0]] + s[1..];
      InsertBy(s[0], SortBy(s[1..], key), key)
  }

  lemma SortByMembers<T>(s: seq<T>, key: T -> int)
    ensures forall x :: x in SortBy(s, key) <==> x in s
  {
    var r := SortBy(s, key);
    forall x ensures x in r <==> x in s {
      assert x in r <==> x in multiset(r);
      assert x in s <==> x in multiset(s);
    }
  }

  /** Number of rows whose `key` is `k`. */
  function CountKey<K(==), T>(s: seq<T>, key: T -> K, k: K): (n: nat)
    ensures n <= |s|
  {
    if s == [] then 0 else (if key(s[0]) == k then 1 else 0) + CountKey(s[1..], key, k)
  }

  /** GROUP BY `key` with COUNT: one (group, total) pair for each of the
      candidate `keys` that occurs in `s`, in the order of `keys`. */
  function Groups<K(==,!new), T>(keys: seq<K>, s: seq<T>, key: T -> K): (r: seq<(K, nat)>)
    ensures forall g :: g in r ==> g.0 in keys && g.1 > 0 && g.1 == CountKey(s, key, g.0)
    ensures forall k :: k in keys && CountKey(s, key, k) > 0 ==> (k, CountKey(s, key, k)) in r
  {
    if keys == [] then []
    else
      var n := CountKey(s, key, keys[0]);
      (if n > 0 then [(keys[0], n)] else []) + Groups(keys[1..], s, key)
  }

  function SumTotals<K>(gs: seq<(K, nat)>): nat
  {
    if gs == [] then 0 else gs[0].1 + SumTotals(gs[1..])
  }

  /** Sum over the candidate keys of the rows in each group, empty groups included. */
  function SumCounts<K(==), T>(keys: seq<K>, s: seq<T>, key: T -> K): nat
  {
    if keys == [] then 0 else CountKey(s, key, keys[0]) + SumCounts(keys[1..], s, key)
  }

  lemma {:induction false} SumTotalsAppend<K>(a: seq<(K, nat)>, b: seq<(K, nat)>)
    ensures SumTotals(a + b) == SumTotals(a) + SumTotals(b)
  {
    if a == [] {
      assert a + b == b;
    } else {
      assert (a + b)[1..] == a[1..] + b;
      SumTotalsAppend(a[1..], b);
    }
  }

  lemma {:induction false} GroupsSum<K(!new), T>(keys: seq<K>, s: seq<T>, key: T -> K)
    ensures SumTotals(Groups(keys, s, key)) == SumCounts(keys, s, key)
  {
    if keys != [] {
      var n := CountKey(s, key, keys[0]);
      var head: seq<(K, nat)> := if n > 0 then [(keys[0], n)] else [];
      GroupsSum(keys[1..], s, key);
      SumTotalsAppend(head, Groups(keys[1..], s, key));
    }
  }

  predicate Distinct<K(==)>(keys: seq<K>)
  {
    forall i, j :: 0 <= i < j < |keys| ==> keys[i] != keys[j]
  }

  /** How many of the candidate keys equal `v`. */
  function Occurrences<K(==)>(keys: seq<K>, v: K): nat
  {
    if keys == [] then 0 else (if keys[0] == v then 1 else 0) + Occurrences(keys[1..], v)
  }

  lemma {:induction false} OneOccurrence<K>(keys: seq<K>, v: K)
    requires Distinct(keys) && v in keys
    ensures Occurrences(keys, v) == 1
  {
    if keys[0] == v {
      NoOccurrence(keys[1..], v);
    } else {
      OneOccurrence(keys[1..], v);
    }
  }

  lemma {:induction false} NoOccurrence<K>(keys: seq<K>, v: K)
    requires v !in keys
    ensures Occurrences(keys, v) == 0
  {
    if keys != [] {
      NoOccurrence(keys[1..], v);
    }
  }

  /** Adding one row in front raises the sum of all group counts by the
      number of candidate keys that row matches. */
  lemma {:induction false} SumCountsCons<K, T>(keys: seq<K>, x: T, s: seq<T>, key: T -> K)
    ensures SumCounts(keys, [x] + s, key) == Occurrences(keys, key(x)) + SumCounts(keys, s, key)
  {
    if keys != [] {
      assert ([x] + s)[0] == x && ([x] + s)[1..] == s;
      SumCountsCons(keys[1..], x, s, key);
    }
  }

  lemma {:induction false} SumCountsEmpty<K, T>(keys: seq<K>, s: seq<T>, key: T -> K)
    requires s == []
    ensures SumCounts(keys, s, key) == 0
  {
    if keys != [] {
      SumCountsEmpty(keys[1..], s, key);
    }
  }

  /** When every row falls in one of the distinct candidate groups, the
      groups together count every row exactly once. */
  lemma {:induction false} SumCountsTotal<K, T>(keys: seq<K>, s: seq<T>, key: T -> K)
    requires Distinct(keys)
    requires forall x :: x in s ==> key(x) in keys
    ensures SumCounts(keys, s, key) == |s|
  {
    if s == [] {
      SumCountsEmpty(keys, s, key);
    } else {
      assert s == [s[0]] + s[1..];
      assert s[0] in s;
      forall x | x in s[1..] ensures key(x) in keys {
        assert x in s;
      }
      SumCountsCons(keys, s[0], s[1..], key);
      OneOccurrence(keys, key(s[0]));
      SumCountsTotal(keys, s[1..], key);
    }
  }

  /** Every row is counted in exactly one group of the GROUP BY result. */
  lemma GroupsCoverTable<K(!new), T>(keys: seq<K>, s: seq<T>, key: T -> K)
    requires Distinct(keys)
    requires forall x :: x in s ==> key(x) in keys
    ensures SumTotals(Groups(keys, s, key)) == |s|
  {
    GroupsSum(keys, s, key);
    SumCountsTotal(keys, s, key);
  }
}
