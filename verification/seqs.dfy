/** Facts about sequences shared by several components. */
module Seqs {
  /** No element occurs twice. */
  predicate NoDups<T(==)>(s: seq<T>) {
    forall j, k :: 0 <= j < k < |s| ==> s[j] != s[k]
  }

  /** The position of the first occurrence of `x` in `s`. */
  function FirstIndex<T(==)>(s: seq<T>, x: T): (i: nat)
    requires x in s
    ensures i < |s| && s[i] == x
  {
    if s[0] == x then 0 else 1 + FirstIndex(s[1..], x)
  }

  /** No occurrence of `x` comes before `FirstIndex(s, x)`. */
  lemma {:induction false} FirstIndexIsFirst<T>(s: seq<T>, x: T, k: nat)
    requires x in s && k < FirstIndex(s, x)
    ensures s[k] != x
  {
    if k > 0 {
      FirstIndexIsFirst(s[1..], x, k - 1);
    }
  }

  /** Every element of `r` occurs in `s`, and `r` lists them in the order of their first occurrences in `s`. */
  predicate InFirstOccurrenceOrder<T(==)>(r: seq<T>, s: seq<T>) {
    (forall x :: x in r ==> x in s) &&
    forall i, j :: 0 <= i < j < |r| ==> FirstIndex(s, r[i]) < FirstIndex(s, r[j])
  }

  /** `r` is `s` with some elements removed and the rest kept in order. */
  predicate IsSubsequence<T(==)>(r: seq<T>, s: seq<T>)
    decreases |s|
  {
    if r == [] then true
    else if s == [] then false
    else if r[|r| - 1] == s[|s| - 1] then IsSubsequence(r[..|r| - 1], s[..|s| - 1])
    else IsSubsequence(r, s[..|s| - 1])
  }

  /** Appending to `s` keeps the first occurrence of what was there; a new element first occurs at the end. */
  lemma {:induction false} FirstIndexSnoc<T>(s: seq<T>, x: T, y: T)
    requires y in s + [x]
    ensures y in s ==> FirstIndex(s + [x], y) == FirstIndex(s, y)
    ensures y !in s ==> FirstIndex(s + [x], y) == |s|
    decreases |s|
  {
    if s != [] && s[0] != y {
      assert (s + [x])[1..] == s[1..] + [x];
      FirstIndexSnoc(s[1..], x, y);
    }
  }

  /** Appending to `s` keeps the order of `r`, and a new element may be appended to both. */
  lemma FirstOccurrenceOrderSnoc<T>(r: seq<T>, s: seq<T>, x: T)
    requires InFirstOccurrenceOrder(r, s)
    ensures InFirstOccurrenceOrder(r, s + [x])
    ensures x !in s ==> InFirstOccurrenceOrder(r + [x], s + [x])
  {
    forall y | y in r
      ensures FirstIndex(s + [x], y) == FirstIndex(s, y)
    {
      FirstIndexSnoc(s, x, y);
    }
    if x !in s {
      FirstIndexSnoc(s, x, x);
      var r' := r + [x];
      forall i, j | 0 <= i < j < |r'|
        ensures FirstIndex(s + [x], r'[i]) < FirstIndex(s + [x], r'[j])
      {
        assert r'[i] == r[i] && r[i] in r;
        if j == |r| {
          assert r'[j] == x;
        } else {
          assert r'[j] == r[j] && r[j] in r;
        }
      }
    }
  }

  /** A subsequence of `s` is a subsequence of `s` extended. */
  lemma {:induction false} SubsequenceSnoc<T>(r: seq<T>, s: seq<T>, x: T)
    requires IsSubsequence(r, s)
    ensures IsSubsequence(r, s + [x])
    decreases |s|, 1
  {
    assert (s + [x])[..|s|] == s;
    if r != [] && r[|r| - 1] == x {
      SubsequenceDropLast(r, s);
    }
  }

  /** Dropping the last element of a subsequence leaves a subsequence. */
  lemma {:induction false} SubsequenceDropLast<T>(r: seq<T>, s: seq<T>)
    requires r != [] && IsSubsequence(r, s)
    ensures IsSubsequence(r[..|r| - 1], s)
    decreases |s|, 0
  {
    var s' := s[..|s| - 1];
    assert s == s' + [s[|s| - 1]];
    if r[|r| - 1] == s[|s| - 1] {
      SubsequenceSnoc(r[..|r| - 1], s', s[|s| - 1]);
    } else {
      SubsequenceDropLast(r, s');
      SubsequenceSnoc(r[..|r| - 1], s', s[|s| - 1]);
    }
  }
}
