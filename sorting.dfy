/**
 * Ascending order on integer sequences: the value order PHP's asort leaves an
 * array of chunk numbers in.
 */
module Sorting {

  predicate Sorted(s: seq<int>) {
    forall i, j :: 0 <= i < j < |s| ==> s[i] <= s[j]
  }

  predicate StrictlyIncreasing(s: seq<int>) {
    forall i, j :: 0 <= i < j < |s| ==> s[i] < s[j]
  }

  /** No value occurs twice. */
  ghost predicate NoDuplicates(s: seq<int>) {
    forall x :: multiset(s)[x] <= 1
  }

  /** Places `x` in a sorted sequence so that it stays sorted. */
  function Insert(s: seq<int>, x: int): (r: seq<int>)
    requires Sorted(s)
    ensures Sorted(r)
    ensures multiset(r) == multiset(s) + multiset{x}
  {
    if s == [] || x <= s[0] then [x] + s
    else
      var rest := Insert(s[1..], x);
      assert s == [s[0]] + s[1..];
      BoundedBelow(s[1..], s[0]);
      AllAtLeast(rest, s[0]);
      [s[0]] + rest
  }

  /** Every element of the tail of a sorted sequence is at least its head. */
  lemma BoundedBelow(t: seq<int>, lo: int)
    requires forall k :: 0 <= k < |t| ==> lo <= t[k]
    ensures forall y :: y in multiset(t) ==> lo <= y
  {
  }

  lemma AllAtLeast(r: seq<int>, lo: int)
    requires forall y :: y in multiset(r) ==> lo <= y
    ensures forall k :: 0 <= k < |r| ==> lo <= r[k]
  {
    forall k | 0 <= k < |r|
      ensures lo <= r[k]
    {
      assert r[k] in multiset(r);
    }
  }

  /** Insertion sort: the values of `s` in ascending order. */
  function Sort(s: seq<int>): (r: seq<int>)
    ensures Sorted(r)
    ensures multiset(r) == multiset(s)
  {
    if s == [] then []
    else
      assert s == s[..|s| - 1] + [s[|s| - 1]];
      Insert(Sort(s[..|s| - 1]), s[|s| - 1])
  }

  lemma TwoOccurrences(s: seq<int>, i: int, j: int)
    requires 0 <= i < j < |s| && s[i] == s[j]
    ensures multiset(s)[s[i]] >= 2
  {
    assert s == s[..j] + s[j..];
    assert s[..j][i] == s[i];
    assert s[j..][0] == s[j];
  }

  /** A sorted sequence without duplicates is strictly increasing. */
  lemma SortedWithoutDuplicatesIsStrict(s: seq<int>)
    requires Sorted(s) && NoDuplicates(s)
    ensures StrictlyIncreasing(s)
  {
    forall i, j | 0 <= i < j < |s|
      ensures s[i] < s[j]
    {
      if s[i] == s[j] {
        TwoOccurrences(s, i, j);
      }
    }
  }

  /** Two strictly increasing sequences with the same elements are equal. */
  lemma {:induction false} StrictlyIncreasingIsUnique(a: seq<int>, b: seq<int>)
    requires StrictlyIncreasing(a) && StrictlyIncreasing(b)
    requires forall x :: x in a <==> x in b
    ensures a == b
  {
    assert a != [] ==> a[0] in a && a[0] in b;
    assert b != [] ==> b[0] in b && b[0] in a;
    if a != [] && b != [] {
      // each head is the least element of the common set
      var i :| 0 <= i < |a| && a[i] == b[0];
      var j :| 0 <= j < |b| && b[j] == a[0];
      assert a[0] == b[0];
      forall x
        ensures x in a[1..] <==> x in b[1..]
      {
        if x in a[1..] {
          assert x in b;
          assert x != b[0];
        }
        if x in b[1..] {
          assert x in a;
          assert x != a[0];
        }
      }
      StrictlyIncreasingIsUnique(a[1..], b[1..]);
      assert a == [a[0]] + a[1..] && b == [b[0]] + b[1..];
    }
  }
}
