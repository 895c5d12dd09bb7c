/**
 * Sequences as the engines walk them: left-to-right sums (`reduce`, `sum +=` loops),
 * filters, and the iteration order of a JavaScript `Set` built from a list.
 */
module Sums {

  lemma {:induction false} AppendAssociative<T>(a: seq<T>, b: seq<T>, c: seq<T>)
    ensures (a + b) + c == a + (b + c)
  {
  }

  predicate Distinct<T(==)>(s: seq<T>)
  {
    forall i, j :: 0 <= i < j < |s| ==> s[i] != s[j]
  }

  /** `s.reduce((acc, x) => acc + f(x), 0)`: the sum of f over s, left to right. */
  function SumBy<T>(s: seq<T>, f: T -> real): real
    decreases |s|
  {
    if s == [] then 0.0 else SumBy(s[..|s| - 1], f) + f(s[|s| - 1])
  }

  /** The elements of s satisfying p, in order. */
  function Filter<T(==,!new)>(s: seq<T>, p: T -> bool): (r: seq<T>)
    decreases |s|
    ensures forall x :: x in r <==> x in s && p(x)
  {
    if s == [] then []
    else
      var rest := Filter(s[..|s| - 1], p);
      assert forall x :: x in s <==> x in s[..|s| - 1] || x == s[|s| - 1];
      if p(s[|s| - 1]) then rest + [s[|s| - 1]] else rest
  }

  /** `[...new Set(s)]`: each element once, at the place it first occurs. */
  function Dedup<T(==,!new)>(s: seq<T>): (r: seq<T>)
    decreases |s|
    ensures Distinct(r)
    ensures forall x :: x in r <==> x in s
  {
    if s == [] then []
    else
      var rest := Dedup(s[..|s| - 1]);
      assert forall x :: x in s <==> x in s[..|s| - 1] || x == s[|s| - 1];
      if s[|s| - 1] in rest then rest else rest + [s[|s| - 1]]
  }

  lemma {:induction false} FilterDistinct<T(!new)>(s: seq<T>, p: T -> bool)
    requires Distinct(s)
    ensures Distinct(Filter(s, p))
    decreases |s|
  {
    if s != [] {
      var init := s[..|s| - 1];
      FilterDistinct(init, p);
      assert s[|s| - 1] !in init;
    }
  }

  lemma {:induction false} SumByAppend<T>(s: seq<T>, t: seq<T>, f: T -> real)
    ensures SumBy(s + t, f) == SumBy(s, f) + SumBy(t, f)
    decreases |t|
  {
    if t == [] {
      assert s + t == s;
    } else {
      var init := t[..|t| - 1];
      assert (s + t)[..|s + t| - 1] == s + init;
      SumByAppend(s, init, f);
    }
  }

  /** A sum does not depend on the order of its terms. */
  lemma {:induction false} SumByPermutation<T>(s: seq<T>, t: seq<T>, f: T -> real)
    requires multiset(s) == multiset(t)
    ensures SumBy(s, f) == SumBy(t, f)
    decreases |s|
  {
    if s == [] {
      assert |t| == |multiset(t)| == 0;
    } else {
      var x, init := s[|s| - 1], s[..|s| - 1];
      assert s == init + [x];
      assert x in multiset(s);
      var i :| 0 <= i < |t| && t[i] == x;
      RemoveOne(init, x, t, i);
      SumByPermutation(init, t[..i] + t[i + 1..], f);
      SumByRemove(t, i, f);
    }
  }

  /** Taking the same element out of two permutations of each other leaves permutations. */
  lemma {:induction false} RemoveOne<T>(init: seq<T>, x: T, t: seq<T>, i: nat)
    requires i < |t| && t[i] == x && multiset(init + [x]) == multiset(t)
    ensures multiset(init) == multiset(t[..i] + t[i + 1..])
  {
    var left, right := t[..i], t[i + 1..];
    assert t == left + [x] + right;
    var a, b := multiset(init), multiset(left + right);
    assert a + multiset{x} == b + multiset{x};
    forall y
      ensures a[y] == b[y]
    {
      assert (a + multiset{x})[y] == (b + multiset{x})[y];
    }
    assert a == b;
  }

  /** The sum is the sum without one term, plus that term. */
  lemma {:induction false} SumByRemove<T>(t: seq<T>, i: nat, f: T -> real)
    requires i < |t|
    ensures SumBy(t, f) == SumBy(t[..i] + t[i + 1..], f) + f(t[i])
  {
    var left, mid, right := t[..i], [t[i]], t[i + 1..];
    assert t == (left + mid) + right;
    SumByAppend(left + mid, right, f);
    SumByAppend(left, mid, f);
    SumByAppend(left, right, f);
    SumBySingle(t[i], f);
  }

  lemma {:induction false} SumBySingle<T>(x: T, f: T -> real)
    ensures SumBy([x], f) == f(x)
  {
    assert [x][..0] == [];
  }

  /** Two duplicate-free sequences with the same elements are permutations of each other. */
  lemma {:induction false} SameElementsPermutation<T>(s: seq<T>, t: seq<T>)
    requires Distinct(s) && Distinct(t)
    requires forall x :: x in s <==> x in t
    ensures multiset(s) == multiset(t)
  {
    forall x
      ensures multiset(s)[x] == multiset(t)[x]
    {
      DistinctMultiplicity(s, x);
      DistinctMultiplicity(t, x);
    }
  }

  lemma {:induction false} DistinctMultiplicity<T>(s: seq<T>, x: T)
    requires Distinct(s)
    ensures multiset(s)[x] == if x in s then 1 else 0
    decreases |s|
  {
    if s != [] {
      var init := s[..|s| - 1];
      assert s == init + [s[|s| - 1]];
      DistinctMultiplicity(init, x);
      assert s[|s| - 1] !in init;
    }
  }

  lemma {:induction false} SumByPointwiseEqual<T>(s: seq<T>, f: T -> real, g: T -> real)
    requires forall i :: 0 <= i < |s| ==> f(s[i]) == g(s[i])
    ensures SumBy(s, f) == SumBy(s, g)
    decreases |s|
  {
    if s != [] {
      SumByPointwiseEqual(s[..|s| - 1], f, g);
    }
  }

  lemma {:induction false} SumByPointwiseLess<T>(s: seq<T>, f: T -> real, g: T -> real)
    requires forall i :: 0 <= i < |s| ==> f(s[i]) <= g(s[i])
    ensures SumBy(s, f) <= SumBy(s, g)
    decreases |s|
  {
    if s != [] {
      SumByPointwiseLess(s[..|s| - 1], f, g);
    }
  }

  lemma {:induction false} SumByNonNegative<T>(s: seq<T>, f: T -> real)
    requires forall i :: 0 <= i < |s| ==> 0.0 <= f(s[i])
    ensures 0.0 <= SumBy(s, f)
    decreases |s|
  {
    if s != [] {
      SumByNonNegative(s[..|s| - 1], f);
    }
  }

  /** Terms that are zero can be dropped: a sum equals the sum over the elements satisfying p when f vanishes elsewhere. */
  lemma {:induction false} SumByDropZeros<T(!new)>(s: seq<T>, f: T -> real, p: T -> bool)
    requires forall i :: 0 <= i < |s| && !p(s[i]) ==> f(s[i]) == 0.0
    ensures SumBy(s, f) == SumBy(Filter(s, p), f)
    decreases |s|
  {
    if s != [] {
      var init := s[..|s| - 1];
      SumByDropZeros(init, f, p);
      if p(s[|s| - 1]) {
        var fi := Filter(init, p);
        assert (fi + [s[|s| - 1]])[..|fi|] == fi;
      }
    }
  }

  /** A sum over every element equal to a constant c. */
  lemma {:induction false} SumByConstant<T>(s: seq<T>, f: T -> real, c: real)
    requires forall i :: 0 <= i < |s| ==> f(s[i]) == c
    ensures SumBy(s, f) == |s| as real * c
    decreases |s|
  {
    if s != [] {
      SumByConstant(s[..|s| - 1], f, c);
    }
  }

  /** A sum of pointwise sums is the sum of the two sums. */
  lemma {:induction false} SumByAdd<T>(s: seq<T>, f: T -> real, g: T -> real, h: T -> real)
    requires forall i :: 0 <= i < |s| ==> h(s[i]) == f(s[i]) + g(s[i])
    ensures SumBy(s, h) == SumBy(s, f) + SumBy(s, g)
    decreases |s|
  {
    if s != [] {
      SumByAdd(s[..|s| - 1], f, g, h);
    }
  }

  /** A constant factor comes out of a sum. */
  lemma {:induction false} SumByScale<T>(s: seq<T>, f: T -> real, g: T -> real, c: real)
    requires forall i :: 0 <= i < |s| ==> g(s[i]) == c * f(s[i])
    ensures SumBy(s, g) == c * SumBy(s, f)
    decreases |s|
  {
    if s != [] {
      SumByScale(s[..|s| - 1], f, g, c);
    }
  }

  /** Summing a term that is v at k and 0 elsewhere over a list holding k once gives v. */
  lemma {:induction false} SumByIndicator<T>(s: seq<T>, f: T -> real, k: T, v: real)
    requires Distinct(s) && k in s
    requires forall i :: 0 <= i < |s| ==> f(s[i]) == if s[i] == k then v else 0.0
    ensures SumBy(s, f) == v
    decreases |s|
  {
    var init := s[..|s| - 1];
    if s[|s| - 1] == k {
      assert k !in init;
      forall i | 0 <= i < |init|
        ensures f(init[i]) == 0.0
      {
        assert init[i] == s[i];
      }
      SumByConstant(init, f, 0.0);
    } else {
      assert k in init;
      SumByIndicator(init, f, k, v);
    }
  }
}
