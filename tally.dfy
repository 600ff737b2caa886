/**
 * Counting and selecting the elements of a sequence that satisfy a predicate,
 * and the distinct elements of a sequence in order of first appearance.
 * These are the table operations the calculations are built from: a boolean
 * mask followed by `len`, a masked selection, and `unique` on a column.
 */
module Tally {

  /** The number of elements of `s` that satisfy `p`. */
  function Count<T>(s: seq<T>, p: T -> bool): (n: nat)
    ensures n <= |s|
  {
    if s == [] then 0
    else Count(s[..|s| - 1], p) + (if p(s[|s| - 1]) then 1 else 0)
  }

  /** The elements of `s` that satisfy `p`, in their original order. */
  function Filter<T>(s: seq<T>, p: T -> bool): (r: seq<T>)
    ensures |r| == Count(s, p)
    ensures forall i :: 0 <= i < |r| ==> p(r[i]) && r[i] in s
  {
    if s == [] then []
    else Filter(s[..|s| - 1], p) + (if p(s[|s| - 1]) then [s[|s| - 1]] else [])
  }

  /**
   * The selection holds exactly the rows of `s` that satisfy `p`, each as often
   * as in `s`, and nothing else.
   */
  lemma {:induction false} FilterContents<T>(s: seq<T>, p: T -> bool)
    ensures multiset(Filter(s, p)) <= multiset(s)
    ensures forall i :: 0 <= i < |s| && p(s[i]) ==> multiset(Filter(s, p))[s[i]] == multiset(s)[s[i]]
  {
    if s != [] {
      var n := |s| - 1;
      FilterContents(s[..n], p);
      assert s == s[..n] + [s[n]];
      forall i | 0 <= i < n && p(s[i])
        ensures multiset(Filter(s, p))[s[i]] == multiset(s)[s[i]]
      {
        assert s[..n][i] == s[i];
      }
    }
  }

  /**
   * Selection keeps the order of the table: the selection from a prefix of
   * `s` is a prefix of the selection from `s`.
   */
  lemma {:induction false} FilterKeepsOrder<T>(s: seq<T>, p: T -> bool, k: nat)
    requires k <= |s|
    ensures Filter(s[..k], p) <= Filter(s, p)
  {
    if k < |s| {
      var n := |s| - 1;
      FilterKeepsOrder(s[..n], p, k);
      assert s[..n][..k] == s[..k];
    } else {
      assert s[..k] == s;
    }
  }

  /** The positions of `s` whose element satisfies `p`. */
  ghost function Matching<T>(s: seq<T>, p: T -> bool): set<nat>
  {
    set i: nat | i < |s| && p(s[i])
  }

  /** `Count` counts exactly the positions that satisfy the predicate. */
  lemma {:induction false} CountIsMatchingSize<T>(s: seq<T>, p: T -> bool)
    ensures Count(s, p) == |Matching(s, p)|
  {
    if s != [] {
      var n := |s| - 1;
      CountIsMatchingSize(s[..n], p);
      var before := Matching(s[..n], p);
      assert before == set i: nat | i < n && p(s[i]);
      if p(s[n]) {
        assert Matching(s, p) == before + {n};
        assert n !in before;
      } else {
        assert Matching(s, p) == before;
      }
    }
  }

  /** A predicate that holds wherever `p` holds counts at least as many elements. */
  lemma {:induction false} CountMonotone<T>(s: seq<T>, p: T -> bool, q: T -> bool)
    requires forall i :: 0 <= i < |s| && p(s[i]) ==> q(s[i])
    ensures Count(s, p) <= Count(s, q)
  {
    if s != [] {
      CountMonotone(s[..|s| - 1], p, q);
    }
  }

  /** Predicates that agree on every element of `s` count the same. */
  lemma {:induction false} CountCongruent<T>(s: seq<T>, p: T -> bool, q: T -> bool)
    requires forall i :: 0 <= i < |s| ==> p(s[i]) == q(s[i])
    ensures Count(s, p) == Count(s, q)
  {
    if s != [] {
      CountCongruent(s[..|s| - 1], p, q);
    }
  }

  /** Counting `q` within the selection by `p` counts the conjunction over `s`. */
  lemma {:induction false} CountOfFilter<T>(s: seq<T>, p: T -> bool, q: T -> bool, pq: T -> bool)
    requires forall x :: pq(x) == (p(x) && q(x))
    ensures Count(Filter(s, p), q) == Count(s, pq)
  {
    if s != [] {
      var n := |s| - 1;
      CountOfFilter(s[..n], p, q, pq);
      var f := Filter(s[..n], p);
      if p(s[n]) {
        assert Filter(s, p) == f + [s[n]];
        assert (f + [s[n]])[..|f|] == f;
      } else {
        assert Filter(s, p) == f;
      }
    }
  }

  /** Replacing one element changes the count by that element's contribution only. */
  lemma {:induction false} CountUpdate<T>(s: seq<T>, k: nat, x: T, p: T -> bool)
    requires k < |s|
    ensures Count(s[k := x], p) + (if p(s[k]) then 1 else 0)
         == Count(s, p) + (if p(x) then 1 else 0)
  {
    var n := |s| - 1;
    if k < n {
      CountUpdate(s[..n], k, x, p);
      assert s[k := x][..n] == s[..n][k := x];
    } else {
      assert s[k := x][..n] == s[..n];
    }
  }

  /** The distinct elements of `s`, each at the position of its first appearance. */
  function Unique<T(==)>(s: seq<T>): (u: seq<T>)
    ensures forall i, j :: 0 <= i < j < |u| ==> u[i] != u[j]
    ensures forall i :: 0 <= i < |u| ==> u[i] in s
    ensures forall i :: 0 <= i < |s| ==> s[i] in u
  {
    if s == [] then []
    else
      var u := Unique(s[..|s| - 1]);
      if s[|s| - 1] in u then u else u + [s[|s| - 1]]
  }

  /** `Unique` of a prefix is a prefix of `Unique`. */
  lemma {:induction false} UniquePrefix<T>(s: seq<T>, k: nat)
    requires k <= |s|
    ensures Unique(s[..k]) <= Unique(s)
  {
    if k < |s| {
      var n := |s| - 1;
      UniquePrefix(s[..n], k);
      assert s[..n][..k] == s[..k];
    } else {
      assert s[..k] == s;
    }
  }

  /**
   * With at least two distinct elements, `Unique` starts with the first element
   * and continues with the first element that differs from it.
   */
  lemma {:induction false} UniqueFirstTwo<T>(s: seq<T>, k: nat)
    requires 0 < k < |s| && s[k] != s[0]
    requires forall j :: 0 <= j < k ==> s[j] == s[0]
    ensures |Unique(s)| >= 2 && Unique(s)[0] == s[0] && Unique(s)[1] == s[k]
  {
    UniqueConstant(s[..k], s[0]);
    assert s[..k + 1][..k] == s[..k];
    assert s[k] !in s[..k];
    assert Unique(s[..k + 1]) == [s[0], s[k]];
    UniquePrefix(s, k + 1);
  }

  /** A non-empty sequence of one repeated element has that element as its only distinct one. */
  lemma {:induction false} UniqueConstant<T>(s: seq<T>, x: T)
    requires |s| > 0
    requires forall j :: 0 <= j < |s| ==> s[j] == x
    ensures Unique(s) == [x]
  {
    var n := |s| - 1;
    if n > 0 {
      UniqueConstant(s[..n], x);
    }
  }
}
