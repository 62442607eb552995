/**
 * `Array.prototype.sort` with the comparator `(a, b) => key(b).localeCompare(key(a))` over
 * string keys, as the history page sorts its day groups
 * (hydroalert-frontend/src/pages/riwayat.tsx:162-166): a stable sort into descending key order.
 * `localeCompare` is read as the code-unit (lexicographic) order of the two strings.
 */
module DescendingSort {

  /** `a` comes strictly before `b` in code-unit order; a proper prefix comes first. */
  predicate Below(a: string, b: string) {
    b != [] && (a == [] || a[0] < b[0] || (a[0] == b[0] && Below(a[1..], b[1..])))
  }

  /** Any two keys are equal or one is below the other. */
  lemma {:induction false} Trichotomy(a: string, b: string)
    ensures a == b || Below(a, b) || Below(b, a)
  {
    if a != [] && b != [] && a[0] == b[0] {
      Trichotomy(a[1..], b[1..]);
      if a[1..] == b[1..] {
        assert a == [a[0]] + a[1..] && b == [b[0]] + b[1..];
      }
    }
  }

  /** No key is below itself, and no two keys are each below the other. */
  lemma {:induction false} Asymmetric(a: string, b: string)
    ensures !(Below(a, b) && Below(b, a))
  {
    if a != [] && b != [] && a[0] == b[0] {
      Asymmetric(a[1..], b[1..]);
    }
  }

  lemma {:induction false} Transitive(a: string, b: string, c: string)
    requires Below(a, b) && Below(b, c)
    ensures Below(a, c)
  {
    if a != [] && a[0] == b[0] && b[0] == c[0] {
      Transitive(a[1..], b[1..], c[1..]);
    }
  }

  /** Keys never increase along `s`. */
  ghost predicate Descending<T>(s: seq<T>, key: T -> string) {
    forall i, j :: 0 <= i < j < |s| ==> !Below(key(s[i]), key(s[j]))
  }

  /** Where insertion puts `x`: after every element whose key is not below `x`'s. */
  function InsertPos<T>(x: T, s: seq<T>, key: T -> string): (p: nat)
    ensures p <= |s|
    ensures forall i :: 0 <= i < p ==> !Below(key(s[i]), key(x))
    ensures p < |s| ==> Below(key(s[p]), key(x))
  {
    if s == [] || Below(key(s[0]), key(x)) then 0 else 1 + InsertPos(x, s[1..], key)
  }

  function Insert<T>(x: T, s: seq<T>, key: T -> string): (r: seq<T>) {
    var p := InsertPos(x, s, key);
    s[..p] + [x] + s[p..]
  }

  /**
   * Insertion sort, taking the elements in input order; an element is placed after all earlier
   * ones with an equal key, so the sort is stable.
   */
  function Sort<T>(s: seq<T>, key: T -> string): (r: seq<T>)
    ensures |r| == |s|
    ensures multiset(r) == multiset(s)
  {
    if s == [] then []
    else
      var init := s[..|s| - 1];
      var t := Sort(init, key);
      var p := InsertPos(s[|s| - 1], t, key);
      assert s == init + [s[|s| - 1]];
      assert t == t[..p] + t[p..];
      Insert(s[|s| - 1], t, key)
  }

  lemma {:induction false} InsertKeepsDescending<T>(x: T, s: seq<T>, key: T -> string)
    requires Descending(s, key)
    ensures Descending(Insert(x, s, key), key)
  {
    var p := InsertPos(x, s, key);
    var r := Insert(x, s, key);
    forall i, j | 0 <= i < j < |r| ensures !Below(key(r[i]), key(r[j])) {
      if i < p && j == p {
      } else if i == p {
        var y := s[j - 1];
        assert r[j] == y;
        Trichotomy(key(y), key(s[p]));
        if Below(key(y), key(s[p])) {
          Transitive(key(y), key(s[p]), key(x));
        }
        Asymmetric(key(y), key(x));
      } else {
        var a := if i < p then i else i - 1;
        var b := if j < p then j else j - 1;
        assert r[i] == s[a] && r[j] == s[b] && a < b;
      }
    }
  }

  /** The sorted sequence is in descending key order. */
  lemma {:induction false} SortIsDescending<T>(s: seq<T>, key: T -> string)
    ensures Descending(Sort(s, key), key)
  {
    if s != [] {
      SortIsDescending(s[..|s| - 1], key);
      InsertKeepsDescending(s[|s| - 1], Sort(s[..|s| - 1], key), key);
    }
  }

  /** No two elements of `s` share an `id`. */
  ghost predicate DistinctBy<T, K>(s: seq<T>, id: T -> K) {
    forall i, j :: 0 <= i < j < |s| ==> id(s[i]) != id(s[j])
  }

  /** Elements that differ in `id` before sorting still differ in `id` after it. */
  lemma {:induction false} SortKeepsDistinct<T, K>(s: seq<T>, key: T -> string, id: T -> K)
    requires DistinctBy(s, id)
    ensures DistinctBy(Sort(s, key), id)
  {
    if s != [] {
      var init := s[..|s| - 1];
      var x := s[|s| - 1];
      var t := Sort(init, key);
      SortKeepsDistinct(init, key, id);
      forall y | y in t ensures id(y) != id(x) {
        assert y in multiset(t);
        assert y in multiset(init);
        var k :| 0 <= k < |init| && init[k] == y;
        assert s[k] == y;
      }
      InsertKeepsDistinct(x, t, key, id);
    }
  }

  /** Inserting an element whose `id` is new keeps the `id`s distinct. */
  lemma InsertKeepsDistinct<T, K>(x: T, t: seq<T>, key: T -> string, id: T -> K)
    requires DistinctBy(t, id)
    requires forall y :: y in t ==> id(y) != id(x)
    ensures DistinctBy(Insert(x, t, key), id)
  {
    var p := InsertPos(x, t, key);
    var r := Insert(x, t, key);
    assert r[p] == x;
    forall i, j | 0 <= i < j < |r| ensures id(r[i]) != id(r[j]) {
      if i == p {
        assert r[j] == t[j - 1] && r[j] in t;
      } else if j == p {
        assert r[i] == t[i] && r[i] in t;
      } else {
        var a := if i < p then i else i - 1;
        var b := if j < p then j else j - 1;
        assert r[i] == t[a] && r[j] == t[b] && a < b;
      }
    }
  }
}
