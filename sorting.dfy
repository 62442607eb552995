/**
 * A stable sort by an integer key: the backend's MongoDB queries ordered by `createdAt`
 * (notifications, the dashboard's latest five, the prediction history) are all modelled by
 * this one definition.
 */
module Sorting {

  ghost predicate SortedBy<T>(s: seq<T>, key: T -> int) {
    forall i, j :: 0 <= i < j < |s| ==> key(s[i]) <= key(s[j])
  }

  /** Inserts `x` after every element whose key is not larger, so equal keys keep arrival order. */
  function Insert<T>(x: T, s: seq<T>, key: T -> int): (r: seq<T>)
    requires SortedBy(s, key)
    ensures SortedBy(r, key)
    ensures multiset(r) == multiset(s) + multiset{x} && |r| == |s| + 1
  {
    if s == [] then [x]
    else
      var tail := s[1..];
      assert s == [s[0]] + tail;
      assert forall i :: 0 <= i < |tail| ==> key(s[0]) <= key(tail[i]) by {
        forall i | 0 <= i < |tail| ensures key(s[0]) <= key(tail[i]) {
          assert tail[i] == s[i + 1];
        }
      }
      if key(x) < key(s[0]) then
        ConsSorted(x, s, key);
        [x] + s
      else
        assert SortedBy(tail, key);
        var rest := Insert(x, tail, key);
        LowerBound(key(s[0]), rest, tail, x, key);
        ConsSorted(s[0], rest, key);
        [s[0]] + rest
  }

  /** An element no larger than every element of a sorted sequence can go in front of it. */
  lemma ConsSorted<T>(y: T, s: seq<T>, key: T -> int)
    requires SortedBy(s, key)
    requires forall k :: 0 <= k < |s| ==> key(y) <= key(s[k])
    ensures SortedBy([y] + s, key)
  {
    var r := [y] + s;
    forall i, j | 0 <= i < j < |r| ensures key(r[i]) <= key(r[j]) {
      assert r[j] == s[j - 1];
      if i > 0 {
        assert r[i] == s[i - 1];
      }
    }
  }

  /** A bound below `x` and every element of `tail` is below every element of a permutation of both. */
  lemma LowerBound<T>(b: int, rest: seq<T>, tail: seq<T>, x: T, key: T -> int)
    requires multiset(rest) == multiset(tail) + multiset{x}
    requires b <= key(x) && forall i :: 0 <= i < |tail| ==> b <= key(tail[i])
    ensures forall k :: 0 <= k < |rest| ==> b <= key(rest[k])
  {
    forall k | 0 <= k < |rest| ensures b <= key(rest[k]) {
      var y := rest[k];
      assert y in multiset(rest);
      if y != x {
        assert y in multiset(tail);
        var i :| 0 <= i < |tail| && tail[i] == y;
      }
    }
  }

  /** Sorts `s` by `key`, ascending and stable. */
  function SortBy<T>(s: seq<T>, key: T -> int): (r: seq<T>)
    ensures SortedBy(r, key)
    ensures multiset(r) == multiset(s) && |r| == |s|
  {
    if s == [] then []
    else
      var init, last := s[..|s| - 1], s[|s| - 1];
      assert s == init + [last];
      Insert(last, SortBy(init, key), key)
  }

  /** An input that is already in key order comes back unchanged. */
  lemma {:induction false} SortSorted<T>(s: seq<T>, key: T -> int)
    requires SortedBy(s, key)
    ensures SortBy(s, key) == s
  {
    if s != [] {
      var init, last := s[..|s| - 1], s[|s| - 1];
      assert s == init + [last];
      SortedPrefix(s, key, |s| - 1);
      SortSorted(init, key);
      forall i | 0 <= i < |init| ensures key(init[i]) <= key(last) {
        assert init[i] == s[i];
      }
      InsertAfterAll(last, init, key);
    }
  }

  /**
   * A prefix of a sorted sequence is sorted, takes its elements from the sequence, and leaves
   * out nothing whose key is smaller than the key of its last element.
   */
  lemma SortedPrefix<T>(s: seq<T>, key: T -> int, k: nat)
    requires SortedBy(s, key) && k <= |s|
    ensures SortedBy(s[..k], key)
    ensures multiset(s[..k]) <= multiset(s)
    ensures k > 0 ==> forall x :: x in multiset(s) - multiset(s[..k]) ==> key(s[k - 1]) <= key(x)
  {
    assert s == s[..k] + s[k..];
    assert multiset(s) == multiset(s[..k]) + multiset(s[k..]);
    if k > 0 {
      forall x | x in multiset(s) - multiset(s[..k]) ensures key(s[k - 1]) <= key(x) {
        assert x in s[k..];
        var j :| k <= j < |s| && s[j] == x;
      }
    }
  }

  lemma {:induction false} InsertAfterAll<T>(x: T, s: seq<T>, key: T -> int)
    requires SortedBy(s, key)
    requires forall i :: 0 <= i < |s| ==> key(s[i]) <= key(x)
    ensures Insert(x, s, key) == s + [x]
  {
    if s != [] {
      var tail := s[1..];
      assert s == [s[0]] + tail;
      assert SortedBy(tail, key);
      assert forall i :: 0 <= i < |tail| ==> key(tail[i]) <= key(x) by {
        forall i | 0 <= i < |tail| ensures key(tail[i]) <= key(x) {
          assert tail[i] == s[i + 1];
        }
      }
      InsertAfterAll(x, tail, key);
      assert [s[0]] + (tail + [x]) == s + [x];
    }
  }
}
