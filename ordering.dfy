/** The order `Array.prototype.sort()` uses when no comparator is given:
    strings compared code unit by code unit, a proper prefix first. */
module Ordering {
  import opened Text

  /** `a` sorts strictly before `b`. */
  predicate Before(a: String, b: String)
    decreases |a|
  {
    if a == [] then b != []
    else if b == [] then false
    else a[0] < b[0] || (a[0] == b[0] && Before(a[1..], b[1..]))
  }

  lemma {:induction false} BeforeIrreflexive(a: String)
    ensures !Before(a, a)
    decreases |a|
  {
    if a != [] { BeforeIrreflexive(a[1..]); }
  }

  lemma {:induction false} BeforeTransitive(a: String, b: String, c: String)
    requires Before(a, b) && Before(b, c)
    ensures Before(a, c)
    decreases |a|
  {
    if a != [] && a[0] == b[0] && b[0] == c[0] {
      BeforeTransitive(a[1..], b[1..], c[1..]);
    }
  }

  /** Two different strings are always ordered one way or the other. */
  lemma {:induction false} BeforeTotal(a: String, b: String)
    requires a != b
    ensures Before(a, b) || Before(b, a)
    decreases |a|
  {
    if a != [] && b != [] && a[0] == b[0] {
      assert a == [a[0]] + a[1..] && b == [b[0]] + b[1..];
      BeforeTotal(a[1..], b[1..]);
    }
  }

  lemma {:induction false} BeforeAsymmetric(a: String, b: String)
    requires Before(a, b)
    ensures !Before(b, a)
    decreases |a|
  {
    if a != [] && b != [] && a[0] == b[0] {
      BeforeAsymmetric(a[1..], b[1..]);
    }
  }

  /** Ascending and free of repetitions. */
  predicate StrictlySorted(xs: seq<String>) {
    forall i, j | 0 <= i < j < |xs| :: Before(xs[i], xs[j])
  }

  lemma SortedIsDistinct(xs: seq<String>)
    requires StrictlySorted(xs)
    ensures Distinct(xs)
  {
    forall i, j | 0 <= i < j < |xs| ensures xs[i] != xs[j] {
      BeforeIrreflexive(xs[i]);
    }
  }

  /** Every element after the first comes strictly after it, so none equals it. */
  lemma SortedHeadFirst(xs: seq<String>, x: String)
    requires StrictlySorted(xs) && xs != [] && x in xs[1..]
    ensures Before(xs[0], x) && x != xs[0]
  {
    var i :| 1 <= i < |xs| && xs[i] == x;
    BeforeIrreflexive(x);
  }

  /** Two strictly sorted sequences with the same members are equal: sorting
      a set has exactly one possible result. */
  lemma {:induction false} SortedUnique(a: seq<String>, b: seq<String>)
    requires StrictlySorted(a) && StrictlySorted(b)
    requires forall x :: x in a <==> x in b
    ensures a == b
    decreases |a|
  {
    SortedIsDistinct(a);
    SortedIsDistinct(b);
    DistinctCard(a);
    DistinctCard(b);
    assert Elems(a) == Elems(b);
    if a != [] {
      assert a[0] in b;
      assert b != [];
      if a[0] != b[0] {
        assert a[0] in b[1..];
        SortedHeadFirst(b, a[0]);
        assert b[0] in a && a == [a[0]] + a[1..];
        assert b[0] in a[1..];
        SortedHeadFirst(a, b[0]);
        BeforeAsymmetric(a[0], b[0]);
        assert false;
      }
      forall x | x in a[1..] ensures x in b[1..] {
        SortedHeadFirst(a, x);
        assert x in b;
      }
      forall x | x in b[1..] ensures x in a[1..] {
        SortedHeadFirst(b, x);
        assert x in a;
      }
      SortedUnique(a[1..], b[1..]);
      assert a == [a[0]] + a[1..] && b == [b[0]] + b[1..];
    }
  }

  /** Places `x` at its position in a strictly sorted sequence not holding it. */
  function InsertSorted(x: String, xs: seq<String>): (r: seq<String>)
    requires StrictlySorted(xs) && x !in xs
    ensures StrictlySorted(r)
    ensures |r| == |xs| + 1
    ensures forall y :: y in r <==> y == x || y in xs
    decreases |xs|
  {
    if xs == [] then [x]
    else if Before(x, xs[0]) then
      assert forall j | 0 < j < |xs| :: Before(x, xs[j]) by {
        forall j | 0 < j < |xs| ensures Before(x, xs[j]) { BeforeTransitive(x, xs[0], xs[j]); }
      }
      [x] + xs
    else
      BeforeTotal(x, xs[0]);
      var tail := InsertSorted(x, xs[1..]);
      assert forall y | y in tail :: Before(xs[0], y);
      [xs[0]] + tail
  }

  /** `Array.from(set).sort()`: the members of `s` in ascending order. */
  method SortedList(s: set<String>) returns (r: seq<String>)
    ensures StrictlySorted(r)
    ensures |r| == |s|
    ensures forall x :: x in r <==> x in s
  {
    r := [];
    var rest := s;
    while rest != {}
      invariant rest <= s
      invariant StrictlySorted(r)
      invariant |r| + |rest| == |s|
      invariant forall x :: x in r <==> x in s && x !in rest
      decreases |rest|
    {
      var x :| x in rest;
      r := InsertSorted(x, r);
      rest := rest - {x};
    }
  }
}
