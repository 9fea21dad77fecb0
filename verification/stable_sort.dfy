/**
 * `Array.prototype.sort` with a comparator of the form `key(a) - key(b)`:
 * since ES2019 the sort is stable, so the result is the stable insertion sort
 * by `key` defined here.
 */
module StableSort {
  /** Neighbours are in key order. */
  predicate SortedBy<T>(key: T -> nat, s: seq<T>)
  {
    forall i :: 0 < i < |s| ==> key(s[i - 1]) <= key(s[i])
  }

  /** Neighbour order is order between any two positions. */
  lemma {:induction false} SortedByPairwise<T>(key: T -> nat, s: seq<T>, j: int, k: int)
    requires SortedBy(key, s) && 0 <= j <= k < |s|
    ensures key(s[j]) <= key(s[k])
    decreases k - j
  {
    if j < k {
      SortedByPairwise(key, s, j, k - 1);
    }
  }

  /**
   * Places `x` in front of the first element whose key is not smaller, so it
   * ends up before the elements of equal key.
   */
  function InsertBy<T>(key: T -> nat, x: T, sorted: seq<T>): (r: seq<T>)
    requires SortedBy(key, sorted)
    ensures SortedBy(key, r)
    ensures |r| == |sorted| + 1 && (r[0] == x || (sorted != [] && r[0] == sorted[0]))
    decreases |sorted|
  {
    if sorted == [] || key(x) <= key(sorted[0]) then
      [x] + sorted
    else
      var rest := InsertBy(key, x, sorted[1..]);
      assert forall i :: 0 < i < |[sorted[0]] + rest| ==> ([sorted[0]] + rest)[i] == rest[i - 1];
      [sorted[0]] + rest
  }

  /** Inserting adds exactly one occurrence of `x`. */
  lemma {:induction false} InsertByPermutes<T>(key: T -> nat, x: T, sorted: seq<T>)
    requires SortedBy(key, sorted)
    ensures multiset(InsertBy(key, x, sorted)) == multiset(sorted) + multiset{x}
    decreases |sorted|
  {
    if sorted != [] && key(x) > key(sorted[0]) {
      var y, ys := sorted[0], sorted[1..];
      assert sorted == [y] + ys;
      InsertByPermutes(key, x, ys);
      assert InsertBy(key, x, sorted) == [y] + InsertBy(key, x, ys);
      assert multiset([y] + InsertBy(key, x, ys)) == multiset{y} + multiset(InsertBy(key, x, ys));
      assert multiset(sorted) == multiset{y} + multiset(ys);
    }
  }

  /** Sorts by inserting each element, last to first, into the sorted rest. */
  function SortBy<T>(key: T -> nat, s: seq<T>): (r: seq<T>)
    ensures SortedBy(key, r)
    ensures multiset(r) == multiset(s)
    decreases |s|
  {
    if s == [] then []
    else
      var rest := SortBy(key, s[1..]);
      InsertByPermutes(key, s[0], rest);
      MultisetCons(s);
      InsertBy(key, s[0], rest)
  }

  lemma MultisetCons<T>(s: seq<T>)
    requires s != []
    ensures multiset(s) == multiset(s[1..]) + multiset{s[0]}
  {
    assert s == [s[0]] + s[1..];
  }

  /** The elements whose key is `k`, in order. */
  function WithKey<T>(key: T -> nat, s: seq<T>, k: nat): seq<T>
    decreases |s|
  {
    if s == [] then []
    else (if key(s[0]) == k then [s[0]] else []) + WithKey(key, s[1..], k)
  }

  lemma WithKeyCons<T>(key: T -> nat, y: T, s: seq<T>, k: nat)
    ensures WithKey(key, [y] + s, k) == (if key(y) == k then [y] else []) + WithKey(key, s, k)
  {
    assert ([y] + s)[1..] == s;
  }

  lemma {:induction false} InsertKeepsOrder<T>(key: T -> nat, x: T, sorted: seq<T>, k: nat)
    requires SortedBy(key, sorted)
    ensures WithKey(key, InsertBy(key, x, sorted), k) == (if key(x) == k then [x] else []) + WithKey(key, sorted, k)
    decreases |sorted|
  {
    if sorted == [] || key(x) <= key(sorted[0]) {
      WithKeyCons(key, x, sorted, k);
    } else {
      var y, ys := sorted[0], sorted[1..];
      assert sorted == [y] + ys;
      InsertKeepsOrder(key, x, ys, k);
      WithKeyCons(key, y, InsertBy(key, x, ys), k);
      WithKeyCons(key, y, ys, k);
      assert key(x) != key(y);
    }
  }

  /** Elements with equal keys keep their relative order. */
  lemma {:induction false} SortIsStable<T>(key: T -> nat, s: seq<T>, k: nat)
    ensures WithKey(key, SortBy(key, s), k) == WithKey(key, s, k)
    decreases |s|
  {
    if s != [] {
      SortIsStable(key, s[1..], k);
      InsertKeepsOrder(key, s[0], SortBy(key, s[1..]), k);
    }
  }

  /** An already ordered sequence comes back unchanged. */
  lemma {:induction false} SortOfSorted<T>(key: T -> nat, s: seq<T>)
    requires SortedBy(key, s)
    ensures SortBy(key, s) == s
    decreases |s|
  {
    if s != [] {
      assert SortedBy(key, s[1..]) by {
        assert forall i :: 0 < i < |s[1..]| ==> s[1..][i - 1] == s[i] && s[1..][i] == s[i + 1];
      }
      SortOfSorted(key, s[1..]);
      assert s == [s[0]] + s[1..];
    }
  }
}
