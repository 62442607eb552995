/**
 * Order-preserving selection: what the source's `Array.prototype.filter` calls (and the loops that
 * push the kept elements of a list in turn) produce. A filter result is pinned down by two facts:
 * its elements appear in the input in the same order, and each value is kept exactly as often
 * as it occurs in the input when the test holds for it, and not at all otherwise.
 */
module Subsequences {
  /** `r` is `s` with some elements left out, the others in their original order. */
  ghost predicate SubsequenceOf<T>(r: seq<T>, s: seq<T>)
    decreases |s|
  {
    r == [] ||
    (s != [] &&
     (SubsequenceOf(r, s[..|s| - 1]) ||
      (r[|r| - 1] == s[|s| - 1] && SubsequenceOf(r[..|r| - 1], s[..|s| - 1]))))
  }

  /** `r` is what `s.filter(p)` returns. */
  ghost predicate IsFilterOf<T(!new)>(r: seq<T>, s: seq<T>, p: T -> bool) {
    SubsequenceOf(r, s) &&
    forall x {:trigger multiset(r)[x]} :: multiset(r)[x] == if p(x) then multiset(s)[x] else 0
  }

  /** A subsequence is never longer than the sequence it is taken from. */
  lemma {:induction false} SubsequenceShorter<T(!new)>(r: seq<T>, s: seq<T>)
    requires SubsequenceOf(r, s)
    ensures |r| <= |s|
    decreases |s|
  {
    if r != [] {
      if SubsequenceOf(r, s[..|s| - 1]) {
        SubsequenceShorter(r, s[..|s| - 1]);
      } else {
        SubsequenceShorter(r[..|r| - 1], s[..|s| - 1]);
      }
    }
  }

  /** Every element of a subsequence is an element of the sequence it is taken from. */
  lemma {:induction false} SubsequenceMembers<T(!new)>(r: seq<T>, s: seq<T>)
    requires SubsequenceOf(r, s)
    ensures forall x :: x in r ==> x in s
    decreases |s|
  {
    if r != [] {
      if SubsequenceOf(r, s[..|s| - 1]) {
        SubsequenceMembers(r, s[..|s| - 1]);
      } else {
        SubsequenceMembers(r[..|r| - 1], s[..|s| - 1]);
        assert r == r[..|r| - 1] + [s[|s| - 1]];
        assert s == s[..|s| - 1] + [s[|s| - 1]];
      }
    }
  }

  /** Filtering one more element keeps it at the end when the test holds, and drops it otherwise. */
  lemma FilterStep<T(!new)>(init: seq<T>, x: T, r: seq<T>, p: T -> bool)
    requires IsFilterOf(r, init, p)
    ensures IsFilterOf(r + (if p(x) then [x] else []), init + [x], p)
  {
    var s := init + [x];
    assert s[..|s| - 1] == init;
    if p(x) {
      var r' := r + [x];
      assert r'[..|r'| - 1] == r;
      assert multiset(r') == multiset(r) + multiset{x};
    } else {
      assert r + [] == r;
    }
    assert multiset(s) == multiset(init) + multiset{x};
  }

  /** Nothing filtered from nothing. */
  lemma FilterEmpty<T(!new)>(p: T -> bool)
    ensures IsFilterOf([], [], p)
  {
  }

  /** The same filter applied to the same input gives the same result: the two facts pin it down. */
  lemma {:induction false} FilterUnique<T(!new)>(r1: seq<T>, r2: seq<T>, s: seq<T>, p: T -> bool)
    requires IsFilterOf(r1, s, p) && IsFilterOf(r2, s, p)
    ensures r1 == r2
    decreases |s|
  {
    if s == [] {
      SubsequenceShorter(r1, s);
      SubsequenceShorter(r2, s);
    } else {
      var init, x := s[..|s| - 1], s[|s| - 1];
      assert s == init + [x];
      DropLast(r1, init, x, p);
      DropLast(r2, init, x, p);
      var a := if p(x) then r1[..|r1| - 1] else r1;
      var b := if p(x) then r2[..|r2| - 1] else r2;
      FilterUnique(a, b, init, p);
      if p(x) {
        assert r1 == a + [x] && r2 == b + [x];
      }
    }
  }

  /** Taking the last input element back off a filter result. */
  lemma {:induction false} DropLast<T(!new)>(r: seq<T>, init: seq<T>, x: T, p: T -> bool)
    requires IsFilterOf(r, init + [x], p)
    ensures p(x) ==> r != [] && r[|r| - 1] == x && IsFilterOf(r[..|r| - 1], init, p)
    ensures !p(x) ==> IsFilterOf(r, init, p)
  {
    var s := init + [x];
    assert s[..|s| - 1] == init && s[|s| - 1] == x;
    assert multiset(s) == multiset(init) + multiset{x};
    if p(x) {
      assert multiset(r)[x] == multiset(init)[x] + 1;
      assert r != [];
      if SubsequenceOf(r, init) {
        SubsequenceCount(r, init, x);
        assert false;
      }
      assert r[|r| - 1] == x;
      var r' := r[..|r| - 1];
      assert r == r' + [x];
      assert multiset(r) == multiset(r') + multiset{x};
      forall y ensures multiset(r')[y] == if p(y) then multiset(init)[y] else 0 {
        assert multiset(r)[y] == if p(y) then multiset(s)[y] else 0;
      }
    } else {
      assert multiset(r)[x] == 0;
      assert x !in r;
    }
  }

  /** A subsequence holds no value more often than the sequence it is taken from. */
  lemma {:induction false} SubsequenceCount<T(!new)>(r: seq<T>, s: seq<T>, x: T)
    requires SubsequenceOf(r, s)
    ensures multiset(r)[x] <= multiset(s)[x]
    decreases |s|
  {
    if r != [] {
      var init := s[..|s| - 1];
      assert s == init + [s[|s| - 1]];
      assert multiset(s) == multiset(init) + multiset{s[|s| - 1]};
      if SubsequenceOf(r, init) {
        SubsequenceCount(r, init, x);
      } else {
        var r' := r[..|r| - 1];
        assert r == r' + [r[|r| - 1]];
        assert multiset(r) == multiset(r') + multiset{r[|r| - 1]};
        SubsequenceCount(r', init, x);
      }
    }
  }

  /** An element put in front of the input may be left out of the subsequence. */
  lemma {:induction false} PrependSkipped<T(!new)>(r: seq<T>, s: seq<T>, x: T)
    requires SubsequenceOf(r, s)
    ensures SubsequenceOf(r, [x] + s)
    decreases |s|
  {
    if r != [] {
      var t := [x] + s;
      assert t[..|t| - 1] == [x] + s[..|s| - 1] && t[|t| - 1] == s[|s| - 1];
      if SubsequenceOf(r, s[..|s| - 1]) {
        PrependSkipped(r, s[..|s| - 1], x);
      } else {
        PrependSkipped(r[..|r| - 1], s[..|s| - 1], x);
      }
    }
  }

  /** An element put in front of both sequences keeps the one a subsequence of the other. */
  lemma {:induction false} PrependKept<T(!new)>(r: seq<T>, s: seq<T>, x: T)
    requires SubsequenceOf(r, s)
    ensures SubsequenceOf([x] + r, [x] + s)
    decreases |s|
  {
    var t, u := [x] + s, [x] + r;
    if s == [] {
      SubsequenceShorter(r, s);
      assert u == [x] && t == [x] && u[..0] == [];
    } else {
      assert t[..|t| - 1] == [x] + s[..|s| - 1] && t[|t| - 1] == s[|s| - 1];
      if SubsequenceOf(r, s[..|s| - 1]) {
        PrependKept(r, s[..|s| - 1], x);
      } else {
        assert u[..|u| - 1] == [x] + r[..|r| - 1] && u[|u| - 1] == r[|r| - 1];
        PrependKept(r[..|r| - 1], s[..|s| - 1], x);
      }
    }
  }

  /** Filtering one more element at the front keeps it first when the test holds, and drops it otherwise. */
  lemma FilterCons<T(!new)>(x: T, s: seq<T>, r: seq<T>, p: T -> bool)
    requires IsFilterOf(r, s, p)
    ensures IsFilterOf((if p(x) then [x] else []) + r, [x] + s, p)
  {
    if p(x) {
      PrependKept(r, s, x);
      assert multiset([x] + r) == multiset{x} + multiset(r);
    } else {
      PrependSkipped(r, s, x);
      assert [] + r == r;
    }
    assert multiset([x] + s) == multiset{x} + multiset(s);
  }

  /** A filter result holds exactly the input's elements that pass the test. */
  lemma FilterMembers<T(!new)>(r: seq<T>, s: seq<T>, p: T -> bool)
    requires IsFilterOf(r, s, p)
    ensures forall x :: x in r <==> x in s && p(x)
  {
    forall x ensures x in r <==> x in s && p(x) {
      assert x in r <==> x in multiset(r);
      assert x in s <==> x in multiset(s);
    }
  }

  /** Only the test's answers matter, not how it is written. */
  lemma SameTest<T(!new)>(r: seq<T>, s: seq<T>, p: T -> bool, q: T -> bool)
    requires IsFilterOf(r, s, p)
    requires forall x :: p(x) == q(x)
    ensures IsFilterOf(r, s, q)
  {
    forall x ensures multiset(r)[x] == if q(x) then multiset(s)[x] else 0 {
      assert p(x) == q(x);
    }
  }
}
