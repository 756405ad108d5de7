/**
 * Ranking of scored candidates: the stable descending sort that `sort_by` with a reversed
 * `partial_cmp` performs, and truncation to the first `n` entries.
 */
module Ranking {

  /** Keys are non-increasing from left to right. */
  ghost predicate SortedDesc<T>(s: seq<T>, key: T -> real) {
    forall i, j :: 0 <= i < j < |s| ==> key(s[i]) >= key(s[j])
  }

  /** `x` goes before the first element whose key it reaches, so it stays ahead of its equals. */
  function InsertDesc<T>(x: T, s: seq<T>, key: T -> real): (r: seq<T>)
    ensures multiset(r) == multiset(s) + multiset{x}
  {
    if s == [] || key(x) >= key(s[0]) then [x] + s
    else
      assert s == [s[0]] + s[1..];
      [s[0]] + InsertDesc(x, s[1..], key)
  }

  lemma {:induction false} InsertDescSorted<T>(x: T, s: seq<T>, key: T -> real)
    requires SortedDesc(s, key)
    ensures SortedDesc(InsertDesc(x, s, key), key)
  {
    if s != [] && key(x) < key(s[0]) {
      var rest := InsertDesc(x, s[1..], key);
      InsertDescSorted(x, s[1..], key);
      forall e | e in rest
        ensures key(e) <= key(s[0])
      {
        assert e in multiset(rest);
        if e != x {
          assert e in multiset(s[1..]);
        }
      }
    }
  }

  /** The stable descending sort: a permutation of its input, sorted by `key`. */
  function SortDesc<T>(s: seq<T>, key: T -> real): (r: seq<T>)
    ensures multiset(r) == multiset(s)
    ensures |r| == |s|
    ensures SortedDesc(r, key)
  {
    if s == [] then []
    else
      assert s == [s[0]] + s[1..];
      InsertDescSorted(s[0], SortDesc(s[1..], key), key);
      InsertDesc(s[0], SortDesc(s[1..], key), key)
  }

  /** The first `n` entries, or all of them when there are fewer: `take` / `truncate` on the hits, and `chars().take(n)` on a string. */
  function Take<T>(s: seq<T>, n: nat): (r: seq<T>)
    ensures |r| == if n < |s| then n else |s|
    ensures r == s[..|r|]
  {
    if n < |s| then s[..n] else s
  }

  /**
   * Sort by descending key, then keep the first `n`: a sorted selection of `min(n, |s|)`
   * elements of `s`, and whatever it leaves out ranks no higher than anything it keeps.
   */
  method SortAndTake<T>(s: seq<T>, key: T -> real, n: nat) returns (r: seq<T>)
    ensures SortedDesc(r, key)
    ensures multiset(r) <= multiset(s)
    ensures |r| == (if n < |s| then n else |s|)
    ensures forall x :: multiset(r)[x] < multiset(s)[x] ==>
      forall i :: 0 <= i < |r| ==> key(x) <= key(r[i])
  {
    var sorted := SortDesc(s, key);
    r := Take(sorted, n);
    PrefixOfSorted(sorted, key, |r|);
  }

  /** A prefix of a sorted sequence is sorted, and what follows it ranks no higher than it. */
  lemma PrefixOfSorted<T>(sorted: seq<T>, key: T -> real, m: nat)
    requires SortedDesc(sorted, key)
    requires m <= |sorted|
    ensures SortedDesc(sorted[..m], key)
    ensures multiset(sorted[..m]) <= multiset(sorted)
    ensures forall x :: multiset(sorted[..m])[x] < multiset(sorted)[x] ==>
              forall i :: 0 <= i < m ==> key(x) <= key(sorted[i])
  {
    var r, rest := sorted[..m], sorted[m..];
    assert sorted == r + rest;
    assert multiset(sorted) == multiset(r) + multiset(rest);
    forall x | multiset(r)[x] < multiset(sorted)[x]
      ensures forall i :: 0 <= i < m ==> key(x) <= key(sorted[i])
    {
      assert x in multiset(rest);
      var j :| 0 <= j < |rest| && rest[j] == x;
      assert sorted[m + j] == x;
    }
  }

  /** No element occurs twice. */
  predicate Distinct<T(==)>(s: seq<T>) {
    forall i, j :: 0 <= i < j < |s| ==> s[i] != s[j]
  }

  /** Reordering or dropping elements of a sequence with no repeats leaves none. */
  lemma {:induction false} DistinctSubMultiset<T>(s: seq<T>, r: seq<T>)
    requires Distinct(s)
    requires multiset(r) <= multiset(s)
    ensures Distinct(r)
  {
    forall x | x in multiset(s)
      ensures multiset(s)[x] == 1
    {
      var i :| 0 <= i < |s| && s[i] == x;
      CountOfDistinct(s, i);
    }
    forall i, j | 0 <= i < j < |r|
      ensures r[i] != r[j]
    {
      if r[i] == r[j] {
        TwiceCounted(r, i, j);
        assert false;
      }
    }
  }

  lemma {:induction false} CountOfDistinct<T>(s: seq<T>, i: nat)
    requires Distinct(s)
    requires i < |s|
    ensures multiset(s)[s[i]] == 1
  {
    var x := s[i];
    assert s == s[..i] + [x] + s[i + 1..];
    assert x !in s[..i] && x !in s[i + 1..];
    assert multiset(s[..i])[x] == 0 && multiset(s[i + 1..])[x] == 0;
  }

  lemma TwiceCounted<T>(r: seq<T>, i: nat, j: nat)
    requires i < j < |r| && r[i] == r[j]
    ensures multiset(r)[r[i]] >= 2
  {
    var x := r[i];
    assert r == r[..i] + [x] + r[i + 1..j] + [x] + r[j + 1..];
  }
}
