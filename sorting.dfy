/** `std::sort` with a "less by key" comparator, as the reorder engine uses
    it. The standard only promises a sorted permutation, so callers rely on
    `SortBy`'s contract alone; the insertion sort below is one witness. */
module Sorting {

  /** Non-decreasing by `key`. */
  ghost predicate SortedBy<T>(s: seq<T>, key: T -> real) {
    forall i, j :: 0 <= i < j < |s| ==> key(s[i]) <= key(s[j])
  }

  function Insert<T>(x: T, s: seq<T>, key: T -> real): (r: seq<T>)
    requires SortedBy(s, key)
    ensures SortedBy(r, key)
    ensures multiset(r) == multiset(s) + multiset{x}
  {
    if s == [] then [x]
    else if key(x) <= key(s[0]) then
      assert s == [s[0]] + s[1..];
      [x] + s
    else
      var tail := Insert(x, s[1..], key);
      InsertBehind(x, s, key, tail);
      [s[0]] + tail
  }

  /** `x` goes after the head of `s`: the head, then `x` inserted into the
      rest, is sorted and holds `s` and `x`. */
  lemma InsertBehind<T>(x: T, s: seq<T>, key: T -> real, tail: seq<T>)
    requires s != [] && SortedBy(s, key) && key(s[0]) < key(x)
    requires SortedBy(tail, key) && multiset(tail) == multiset(s[1..]) + multiset{x}
    ensures SortedBy([s[0]] + tail, key)
    ensures multiset([s[0]] + tail) == multiset(s) + multiset{x}
  {
    assert s == [s[0]] + s[1..];
    forall i | 0 <= i < |tail|
      ensures key(s[0]) <= key(tail[i])
    {
      var y := tail[i];
      assert y in multiset(tail);
      if y != x {
        assert y in s[1..];
        var k :| 0 <= k < |s[1..]| && s[1..][k] == y;
        assert s[k + 1] == y;
      }
    }
  }

  /** A sorted permutation of `s`. */
  function SortBy<T>(s: seq<T>, key: T -> real): (r: seq<T>)
    ensures SortedBy(r, key)
    ensures multiset(r) == multiset(s)
  {
    if s == [] then []
    else
      assert s == [s[0]] + s[1..];
      Insert(s[0], SortBy(s[1..], key), key)
  }

  /** `f` applied to each element, in order. */
  function Map<T, U>(f: T -> U, s: seq<T>): (r: seq<U>)
    ensures |r| == |s|
    ensures forall i :: 0 <= i < |s| ==> r[i] == f(s[i])
  {
    seq(|s|, i requires 0 <= i < |s| => f(s[i]))
  }

  lemma MapAppend<T, U>(f: T -> U, s: seq<T>, t: seq<T>)
    ensures Map(f, s + t) == Map(f, s) + Map(f, t)
  {
  }

  /** Taking out element `k` takes its image out of the mapped sequence. */
  lemma MapRemove<T, U>(f: T -> U, b: seq<T>, k: nat)
    requires k < |b|
    ensures multiset(Map(f, b)) == multiset(Map(f, b[..k] + b[k + 1..])) + multiset{f(b[k])}
  {
    assert b == b[..k] + [b[k]] + b[k + 1..];
    MapAppend(f, b[..k], [b[k]]);
    MapAppend(f, b[..k] + [b[k]], b[k + 1..]);
    MapAppend(f, b[..k], b[k + 1..]);
    assert Map(f, [b[k]]) == [f(b[k])];
  }

  lemma RemoveOne<T>(a: seq<T>, b: seq<T>, k: nat)
    requires multiset(a) == multiset(b) && a != [] && k < |b| && b[k] == a[0]
    ensures multiset(a[1..]) == multiset(b[..k] + b[k + 1..])
  {
    assert b == b[..k] + [b[k]] + b[k + 1..];
    assert a == [a[0]] + a[1..];
    assert multiset(a[1..]) == multiset(a) - multiset{a[0]};
    assert multiset(b[..k] + b[k + 1..]) == multiset(b) - multiset{a[0]};
  }

  /** Mapping two permutations of one another gives permutations of one
      another. */
  lemma {:induction false} MapPreservesPermutation<T, U>(f: T -> U, a: seq<T>, b: seq<T>)
    requires multiset(a) == multiset(b)
    ensures multiset(Map(f, a)) == multiset(Map(f, b))
    decreases |a|
  {
    if a != [] {
      assert a[0] in multiset(b);
      assert a[0] in b;
      var k :| 0 <= k < |b| && b[k] == a[0];
      RemoveOne(a, b, k);
      MapPreservesPermutation(f, a[1..], b[..k] + b[k + 1..]);
      MapRemove(f, b, k);
      assert a == [a[0]] + a[1..];
      MapAppend(f, [a[0]], a[1..]);
      assert Map(f, [a[0]]) == [f(a[0])];
      assert multiset(Map(f, a)) == multiset{f(a[0])} + multiset(Map(f, a[1..]));
    }
  }
}
