/** Sorting a list of tempo samples and taking the element at index n / 2, as the
    aligners' estimateTempo does with Collections.sort and get(size() / 2). */
module Median {

  predicate Sorted(s: seq<real>) {
    forall i, j :: 0 <= i < j < |s| ==> s[i] <= s[j]
  }

  /** Inserts x before the first element not smaller than it. */
  function Insert(x: real, s: seq<real>): (r: seq<real>)
    requires Sorted(s)
    ensures Sorted(r)
    ensures multiset(r) == multiset(s) + multiset{x}
    ensures |r| == |s| + 1
    ensures r[0] == if s == [] || x <= s[0] then x else s[0]
  {
    if s == [] || x <= s[0] then
      SortedCons(x, s);
      [x] + s
    else
      assert s == [s[0]] + s[1..];
      var t := Insert(x, s[1..]);
      SortedCons(s[0], t);
      [s[0]] + t
  }

  /** A sorted sequence stays sorted behind an element no larger than its head. */
  lemma SortedCons(a: real, t: seq<real>)
    requires Sorted(t) && (t != [] ==> a <= t[0])
    ensures Sorted([a] + t)
  {
    var r := [a] + t;
    forall i, j | 0 <= i < j < |r|
      ensures r[i] <= r[j]
    {
      assert r[j] == t[j - 1];
      if i == 0 {
        assert t[0] <= t[j - 1];
      } else {
        assert r[i] == t[i - 1];
      }
    }
  }

  /** Collections.sort on a list of doubles: the ascending permutation. */
  function Sort(s: seq<real>): (r: seq<real>)
    ensures Sorted(r)
    ensures multiset(r) == multiset(s)
    ensures |r| == |s|
  {
    if s == [] then []
    else
      assert s == [s[0]] + s[1..];
      Insert(s[0], Sort(s[1..]))
  }

  /** How many elements of s lie strictly below x, and strictly above x. */
  function CountBelow(s: seq<real>, x: real): nat {
    if s == [] then 0 else (if s[0] < x then 1 else 0) + CountBelow(s[1..], x)
  }

  function CountAbove(s: seq<real>, x: real): nat {
    if s == [] then 0 else (if s[0] > x then 1 else 0) + CountAbove(s[1..], x)
  }

  lemma {:induction false} CountsAppend(a: seq<real>, b: seq<real>, x: real)
    ensures CountBelow(a + b, x) == CountBelow(a, x) + CountBelow(b, x)
    ensures CountAbove(a + b, x) == CountAbove(a, x) + CountAbove(b, x)
  {
    if a == [] {
      assert a + b == b;
    } else {
      assert (a + b)[1..] == a[1..] + b;
      CountsAppend(a[1..], b, x);
    }
  }

  /** The counts depend only on the multiset of elements. */
  lemma {:induction false} CountsOfPermutation(a: seq<real>, b: seq<real>, x: real)
    requires multiset(a) == multiset(b)
    ensures CountBelow(a, x) == CountBelow(b, x)
    ensures CountAbove(a, x) == CountAbove(b, x)
    decreases |a|
  {
    if a != [] {
      assert a[0] in multiset(b);
      var k :| 0 <= k < |b| && b[k] == a[0];
      var rest := b[..k] + b[k + 1..];
      CountsRemove(b, k, x);
      RemoveFirst(a, b, k);
      CountsOfPermutation(a[1..], rest, x);
    }
  }

  /** Taking element k out of b takes its share out of each count. */
  lemma CountsRemove(b: seq<real>, k: nat, x: real)
    requires k < |b|
    ensures CountBelow(b, x) == CountBelow(b[..k] + b[k + 1..], x) + (if b[k] < x then 1 else 0)
    ensures CountAbove(b, x) == CountAbove(b[..k] + b[k + 1..], x) + (if b[k] > x then 1 else 0)
  {
    assert b == b[..k] + [b[k]] + b[k + 1..];
    CountsAppend(b[..k] + [b[k]], b[k + 1..], x);
    CountsAppend(b[..k], [b[k]], x);
    CountsAppend(b[..k], b[k + 1..], x);
    assert [b[k]][1..] == [];
  }

  /** Removing a[0] from a and an equal element from b keeps the multisets equal. */
  lemma RemoveFirst(a: seq<real>, b: seq<real>, k: nat)
    requires multiset(a) == multiset(b) && a != [] && k < |b| && b[k] == a[0]
    ensures multiset(a[1..]) == multiset(b[..k] + b[k + 1..])
  {
    var rest := b[..k] + b[k + 1..];
    assert a == [a[0]] + a[1..];
    assert b == b[..k] + [b[k]] + b[k + 1..];
    assert multiset(a) == multiset{a[0]} + multiset(a[1..]);
    assert multiset(b) == multiset(b[..k]) + multiset{b[k]} + multiset(b[k + 1..]);
    assert multiset(rest) == multiset(b[..k]) + multiset(b[k + 1..]);
    assert multiset(b) == multiset(rest) + multiset{b[k]};
    assert multiset(a[1..]) == multiset(a) - multiset{a[0]};
    assert multiset(rest) == multiset(b) - multiset{b[k]};
  }

  /** In a sorted list, fewer than k elements lie below s[k] and fewer than |s| - k
      above it. */
  lemma {:induction false} SortedCounts(s: seq<real>, k: nat)
    requires Sorted(s) && k < |s|
    ensures CountBelow(s, s[k]) <= k
    ensures CountAbove(s, s[k]) <= |s| - 1 - k
  {
    assert s == s[..k] + [s[k]] + s[k + 1..];
    CountsAppend(s[..k] + [s[k]], s[k + 1..], s[k]);
    CountsAppend(s[..k], [s[k]], s[k]);
    CountAtMostLength(s[..k], s[k]);
    CountAtMostLength(s[k + 1..], s[k]);
    NoneAbove(s[..k], s[k]);
    NoneBelow(s[k + 1..], s[k]);
  }

  lemma {:induction false} CountAtMostLength(s: seq<real>, x: real)
    ensures CountBelow(s, x) <= |s| && CountAbove(s, x) <= |s|
  {
    if s != [] {
      CountAtMostLength(s[1..], x);
    }
  }

  lemma {:induction false} NoneAbove(s: seq<real>, x: real)
    requires forall i :: 0 <= i < |s| ==> s[i] <= x
    ensures CountAbove(s, x) == 0
  {
    if s != [] {
      NoneAbove(s[1..], x);
    }
  }

  lemma {:induction false} NoneBelow(s: seq<real>, x: real)
    requires forall i :: 0 <= i < |s| ==> x <= s[i]
    ensures CountBelow(s, x) == 0
  {
    if s != [] {
      NoneBelow(s[1..], x);
    }
  }

  /** The element at index n / 2 of the sorted samples. */
  function MedianOf(s: seq<real>): (r: real)
    requires |s| > 0
    ensures r in s
  {
    var sorted := Sort(s);
    assert sorted[|s| / 2] in multiset(s);
    sorted[|s| / 2]
  }

  /** The chosen sample is a median: at most n / 2 samples lie below it and at most
      n - 1 - n / 2 above it. */
  lemma MedianSplits(s: seq<real>)
    requires |s| > 0
    ensures CountBelow(s, MedianOf(s)) <= |s| / 2
    ensures CountAbove(s, MedianOf(s)) <= |s| - 1 - |s| / 2
  {
    var sorted := Sort(s);
    SortedCounts(sorted, |s| / 2);
    CountsOfPermutation(sorted, s, sorted[|s| / 2]);
  }
}
