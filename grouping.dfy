/**
 * Grouping a sequence into buckets keyed by a derived key, with a running count per bucket.
 * Both notificationController's `reduce` over the fetched notifications and riwayat's
 * `forEach` over the received items build their buckets this way: look the key up, create an
 * empty bucket if it is missing, push the item and add one to the bucket's total.
 */
module Grouping {

  datatype Group<K, T> = Group(key: K, total: nat, items: seq<T>)

  /** The elements of `s` whose key is `k`, in their original order. */
  function Select<T, K(==)>(s: seq<T>, key: T -> K, k: K): (r: seq<T>)
    ensures |r| <= |s|
    ensures forall x :: x in r ==> x in s && key(x) == k
  {
    if s == [] then []
    else Select(s[..|s| - 1], key, k) + (if key(s[|s| - 1]) == k then [s[|s| - 1]] else [])
  }

  function KeysOf<T, K>(s: seq<T>, key: T -> K): set<K> {
    set i | 0 <= i < |s| :: key(s[i])
  }

  function GroupKeys<K, T>(gs: seq<Group<K, T>>): set<K> {
    set i | 0 <= i < |gs| :: gs[i].key
  }

  /** The sum of the bucket totals. */
  function SumTotals<K, T>(gs: seq<Group<K, T>>): nat {
    if gs == [] then 0 else SumTotals(gs[..|gs| - 1]) + gs[|gs| - 1].total
  }

  /**
   * `gs` groups `s` by `key`: one bucket per key that occurs, no key twice, and each bucket
   * holds exactly the elements with its key, in input order, with a total equal to their number.
   */
  ghost predicate IsGrouping<T, K>(gs: seq<Group<K, T>>, s: seq<T>, key: T -> K) {
    && (forall a, b :: 0 <= a < b < |gs| ==> gs[a].key != gs[b].key)
    && GroupKeys(gs) == KeysOf(s, key)
    && (forall g :: g in gs ==> g.items == Select(s, key, g.key) && g.total == |g.items|)
  }

  /** Index of the bucket for `k`, or `|gs|` when there is none (the `!acc[dateKey]` test). */
  function IndexOfKey<K(==), T>(gs: seq<Group<K, T>>, k: K): (j: nat)
    ensures j <= |gs|
    ensures j < |gs| ==> gs[j].key == k
    ensures j == |gs| ==> forall a :: 0 <= a < |gs| ==> gs[a].key != k
  {
    if gs == [] then 0
    else if gs[|gs| - 1].key == k then |gs| - 1
    else
      var j := IndexOfKey(gs[..|gs| - 1], k);
      if j == |gs| - 1 then |gs| else j
  }

  lemma {:induction false} SumTotalsUpdate<K, T>(gs: seq<Group<K, T>>, j: nat, g: Group<K, T>)
    requires j < |gs| && g.total == gs[j].total + 1
    ensures SumTotals(gs[j := g]) == SumTotals(gs) + 1
  {
    var gs' := gs[j := g];
    if j < |gs| - 1 {
      assert gs'[..|gs'| - 1] == gs[..|gs| - 1][j := g];
      SumTotalsUpdate(gs[..|gs| - 1], j, g);
    } else {
      assert gs'[..|gs'| - 1] == gs[..|gs| - 1];
    }
  }

  /**
   * One step of the reduce: push `x` into the bucket for `k`, opening an empty bucket at the
   * end when `k` has none yet, and add one to that bucket's total.
   */
  function Push<K(==), T>(gs: seq<Group<K, T>>, k: K, x: T): (r: seq<Group<K, T>>)
  {
    var j := IndexOfKey(gs, k);
    if j == |gs| then gs + [Group(k, 1, [x])]
    else gs[j := Group(k, gs[j].total + 1, gs[j].items + [x])]
  }

  lemma PushKeys<K, T>(gs: seq<Group<K, T>>, k: K, x: T)
    ensures var r := Push(gs, k, x);
      && |r| >= |gs|
      && (forall a :: 0 <= a < |gs| ==> r[a].key == gs[a].key)
      && (forall a :: |gs| <= a < |r| ==> r[a].key == k)
      && GroupKeys(r) == GroupKeys(gs) + {k}
  {
    var r := Push(gs, k, x);
    var j := IndexOfKey(gs, k);
    forall kk | kk in GroupKeys(r) ensures kk in GroupKeys(gs) + {k} {
      var a :| 0 <= a < |r| && r[a].key == kk;
      if a < |gs| && a != j { assert gs[a].key == kk; }
    }
    forall kk | kk in GroupKeys(gs) ensures kk in GroupKeys(r) {
      var a :| 0 <= a < |gs| && gs[a].key == kk;
      assert r[a].key == kk;
    }
    assert r[if j == |gs| then |gs| else j].key == k;
  }

  lemma KeysOfSnoc<T, K>(s: seq<T>, key: T -> K, x: T)
    ensures KeysOf(s + [x], key) == KeysOf(s, key) + {key(x)}
  {
    var s' := s + [x];
    assert s'[|s|] == x;
    forall kk | kk in KeysOf(s', key) ensures kk in KeysOf(s, key) + {key(x)} {
      var a :| 0 <= a < |s'| && key(s'[a]) == kk;
      if a < |s| { assert s[a] == s'[a]; }
    }
    forall kk | kk in KeysOf(s, key) ensures kk in KeysOf(s', key) {
      var a :| 0 <= a < |s| && key(s[a]) == kk;
      assert s'[a] == s[a];
    }
  }

  lemma SelectSnoc<T, K>(s: seq<T>, key: T -> K, x: T, k: K)
    ensures Select(s + [x], key, k) == Select(s, key, k) + (if key(x) == k then [x] else [])
  {
    assert (s + [x])[..|s|] == s;
  }

  lemma {:induction false} SelectAbsent<T, K>(s: seq<T>, key: T -> K, k: K)
    requires k !in KeysOf(s, key)
    ensures Select(s, key, k) == []
  {
    if s != [] {
      var init := s[..|s| - 1];
      assert KeysOf(init, key) <= KeysOf(s, key) by {
        forall kk | kk in KeysOf(init, key) ensures kk in KeysOf(s, key) {
          var a :| 0 <= a < |init| && key(init[a]) == kk;
          assert s[a] == init[a];
        }
      }
      SelectAbsent(init, key, k);
      assert key(s[|s| - 1]) in KeysOf(s, key);
    }
  }

  /** After a push every bucket holds exactly the elements of the longer input with its key. */
  lemma PushSelects<T, K>(gs: seq<Group<K, T>>, s: seq<T>, key: T -> K, x: T)
    requires IsGrouping(gs, s, key)
    ensures forall g :: g in Push(gs, key(x), x) ==> g.items == Select(s + [x], key, g.key) && g.total == |g.items|
  {
    var k := key(x);
    var r := Push(gs, k, x);
    var j := IndexOfKey(gs, k);
    forall g | g in r ensures g.items == Select(s + [x], key, g.key) && g.total == |g.items| {
      var a :| 0 <= a < |r| && r[a] == g;
      SelectSnoc(s, key, x, g.key);
      if a < |gs| && a != j {
        assert g == gs[a] && gs[a] in gs;
        assert g.key != k;
      } else if a == j && j < |gs| {
        assert g == Group(k, gs[j].total + 1, gs[j].items + [x]) && gs[j] in gs;
      } else {
        assert g == Group(k, 1, [x]);
        assert k !in GroupKeys(gs);
        SelectAbsent(s, key, k);
      }
    }
  }

  /** A push adds one to the sum of the totals. */
  lemma PushCounts<K, T>(gs: seq<Group<K, T>>, k: K, x: T)
    requires forall a :: 0 <= a < |gs| ==> gs[a].total == |gs[a].items|
    ensures SumTotals(Push(gs, k, x)) == SumTotals(gs) + 1
  {
    var r := Push(gs, k, x);
    var j := IndexOfKey(gs, k);
    if j == |gs| {
      assert r[..|r| - 1] == gs;
    } else {
      SumTotalsUpdate(gs, j, Group(k, gs[j].total + 1, gs[j].items + [x]));
    }
  }

  /** Pushing the next element keeps `gs` a grouping of the longer input, with one more item counted. */
  lemma PushPreservesGrouping<T, K>(gs: seq<Group<K, T>>, s: seq<T>, key: T -> K, x: T)
    requires IsGrouping(gs, s, key)
    ensures IsGrouping(Push(gs, key(x), x), s + [x], key)
    ensures SumTotals(Push(gs, key(x), x)) == SumTotals(gs) + 1
  {
    PushKeys(gs, key(x), x);
    KeysOfSnoc(s, key, x);
    PushSelects(gs, s, key, x);
    forall a | 0 <= a < |gs| ensures gs[a].total == |gs[a].items| {
      assert gs[a] in gs;
    }
    PushCounts(gs, key(x), x);
  }

  /** Builds the buckets in one pass over `s`, pushing each element into its bucket in place. */
  method GroupBy<T, K(==)>(s: seq<T>, key: T -> K) returns (gs: seq<Group<K, T>>)
    ensures IsGrouping(gs, s, key)
    ensures SumTotals(gs) == |s|
  {
    gs := [];
    var i := 0;
    while i < |s|
      invariant 0 <= i <= |s|
      invariant IsGrouping(gs, s[..i], key)
      invariant SumTotals(gs) == i
    {
      var x := s[i];
      var k := key(x);
      assert s[..i] + [x] == s[..i + 1];
      PushPreservesGrouping(gs, s[..i], key, x);
      ghost var pushed := Push(gs, k, x);
      var j := IndexOfKey(gs, k);
      if j == |gs| {
        gs := gs + [Group(k, 1, [x])];
      } else {
        gs := gs[j := Group(k, gs[j].total + 1, gs[j].items + [x])];
      }
      assert gs == pushed;
      i := i + 1;
    }
    assert s[..i] == s;
  }

  /** Each element lies in exactly one bucket: the one whose key is the element's own. */
  lemma {:induction false} EachItemInOneBucket<T, K>(gs: seq<Group<K, T>>, s: seq<T>, key: T -> K, i: nat)
    requires IsGrouping(gs, s, key) && i < |s|
    ensures exists a :: 0 <= a < |gs| && gs[a].key == key(s[i]) && s[i] in gs[a].items
    ensures forall a :: 0 <= a < |gs| && s[i] in gs[a].items ==> gs[a].key == key(s[i])
  {
    assert key(s[i]) in KeysOf(s, key);
    var a :| 0 <= a < |gs| && gs[a].key == key(s[i]);
    SelectContains(s, key, i);
    assert gs[a] in gs;
  }

  lemma {:induction false} SelectContains<T, K>(s: seq<T>, key: T -> K, i: nat)
    requires i < |s|
    ensures s[i] in Select(s, key, key(s[i]))
  {
    if i < |s| - 1 {
      SelectContains(s[..|s| - 1], key, i);
    }
  }

  /** Two or more buckets exactly when two elements have different keys. */
  lemma AtLeastTwoGroups<T, K>(gs: seq<Group<K, T>>, s: seq<T>, key: T -> K)
    requires IsGrouping(gs, s, key)
    ensures |gs| >= 2 <==> exists i, j :: 0 <= i < |s| && 0 <= j < |s| && key(s[i]) != key(s[j])
  {
    if |gs| >= 2 {
      assert gs[0].key in GroupKeys(gs) && gs[1].key in GroupKeys(gs);
      var i :| 0 <= i < |s| && key(s[i]) == gs[0].key;
      var j :| 0 <= j < |s| && key(s[j]) == gs[1].key;
    }
    if i, j :| 0 <= i < |s| && 0 <= j < |s| && key(s[i]) != key(s[j]) {
      assert key(s[i]) in KeysOf(s, key) && key(s[j]) in KeysOf(s, key);
      var a :| 0 <= a < |gs| && gs[a].key == key(s[i]);
      var b :| 0 <= b < |gs| && gs[b].key == key(s[j]);
      assert a != b;
    }
  }

  /** The totals of two bucket lists placed one after the other add up. */
  lemma {:induction false} SumTotalsAppend<K, T>(xs: seq<Group<K, T>>, ys: seq<Group<K, T>>)
    ensures SumTotals(xs + ys) == SumTotals(xs) + SumTotals(ys)
  {
    if ys == [] {
      assert xs + ys == xs;
    } else {
      SumTotalsAppend(xs, ys[..|ys| - 1]);
      assert (xs + ys)[..|xs + ys| - 1] == xs + ys[..|ys| - 1];
    }
  }
}
