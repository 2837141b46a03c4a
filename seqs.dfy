/**
 Sequence operations the source gets from JavaScript's Array.prototype
 (`filter`, `map`) and from `[...new Set(xs)]`, with the facts the rest of
 the model needs about them. Every recursive definition peels off the LAST
 element, so a loop that appends element i can keep `r == F(xs[..i])`.
 */
module Seqs {

  /** The elements of xs that satisfy p, in their original order. */
  function Filter<T>(p: T -> bool, xs: seq<T>): (r: seq<T>)
    ensures |r| <= |xs|
    ensures forall x :: x in r ==> x in xs && p(x)
  {
    if xs == [] then []
    else
      var init := Filter(p, xs[..|xs| - 1]);
      if p(xs[|xs| - 1]) then init + [xs[|xs| - 1]] else init
  }

  /** f applied to every element of xs, in order. */
  function Map<T, U>(f: T -> U, xs: seq<T>): (r: seq<U>)
    ensures |r| == |xs|
    ensures forall i :: 0 <= i < |xs| ==> r[i] == f(xs[i])
  {
    if xs == [] then [] else Map(f, xs[..|xs| - 1]) + [f(xs[|xs| - 1])]
  }

  /** a can be obtained from b by deleting elements (greedy match from the end). */
  predicate IsSubseq<T(==)>(a: seq<T>, b: seq<T>)
    decreases |b|
  {
    if a == [] then true
    else if b == [] then false
    else if a[|a| - 1] == b[|b| - 1] then IsSubseq(a[..|a| - 1], b[..|b| - 1])
    else IsSubseq(a, b[..|b| - 1])
  }

  /** No element occurs twice. */
  predicate NoDuplicates<T(==)>(xs: seq<T>)
  {
    forall i, j :: 0 <= i < j < |xs| ==> xs[i] != xs[j]
  }

  /** The distinct elements of xs in first-seen order, as `[...new Set(xs)]`
      yields them (a JavaScript Set iterates in insertion order). */
  function Distinct<T(==)>(xs: seq<T>): seq<T>
  {
    if xs == [] then []
    else
      var d := Distinct(xs[..|xs| - 1]);
      if xs[|xs| - 1] in d then d else d + [xs[|xs| - 1]]
  }

  lemma {:induction false} FilterKeeps<T>(p: T -> bool, xs: seq<T>, x: T)
    requires x in xs && p(x)
    ensures x in Filter(p, xs)
  {
    var init := xs[..|xs| - 1];
    if x != xs[|xs| - 1] {
      assert x in init;
      FilterKeeps(p, init, x);
    }
  }

  /** Filtering never adds, duplicates or reorders: the result is a subsequence. */
  lemma {:induction false} FilterIsSubseq<T>(p: T -> bool, xs: seq<T>)
    ensures IsSubseq(Filter(p, xs), xs)
  {
    if xs != [] {
      var init := xs[..|xs| - 1];
      FilterIsSubseq(p, init);
      if p(xs[|xs| - 1]) {
        var r := Filter(p, xs);
        assert r[..|r| - 1] == Filter(p, init);
      } else {
        SubseqExtend(Filter(p, init), init, xs[|xs| - 1]);
        assert init + [xs[|xs| - 1]] == xs;
      }
    }
  }

  /** A predicate that holds of every element filters nothing out. */
  lemma {:induction false} FilterAll<T>(p: T -> bool, xs: seq<T>)
    requires forall x :: x in xs ==> p(x)
    ensures Filter(p, xs) == xs
  {
    if xs != [] {
      var init := xs[..|xs| - 1];
      FilterAll(p, init);
      assert init + [xs[|xs| - 1]] == xs;
    }
  }

  /** A predicate that holds of no element filters everything out. */
  lemma FilterNone<T>(p: T -> bool, xs: seq<T>)
    requires forall k :: 0 <= k < |xs| ==> !p(xs[k])
    ensures Filter(p, xs) == []
  {
  }

  /** Two predicates that agree on xs filter it the same way. */
  lemma {:induction false} FilterEquiv<T>(p: T -> bool, q: T -> bool, xs: seq<T>)
    requires forall x :: x in xs ==> p(x) == q(x)
    ensures Filter(p, xs) == Filter(q, xs)
  {
    if xs != [] {
      var init := xs[..|xs| - 1];
      assert forall x :: x in init ==> x in xs;
      FilterEquiv(p, q, init);
    }
  }

  /** Filtering by p and then by q is filtering by any r that is p-and-q on xs. */
  lemma {:induction false} FilterFilterEquiv<T>(p: T -> bool, q: T -> bool, r: T -> bool, xs: seq<T>)
    requires forall x :: x in xs ==> r(x) == (p(x) && q(x))
    ensures Filter(q, Filter(p, xs)) == Filter(r, xs)
  {
    if xs != [] {
      var init := xs[..|xs| - 1];
      assert forall x :: x in init ==> x in xs;
      FilterFilterEquiv(p, q, r, init);
      var f := Filter(p, xs);
      if p(xs[|xs| - 1]) {
        assert f[..|f| - 1] == Filter(p, init);
      }
    }
  }

  lemma {:induction false} FilterAppend<T>(p: T -> bool, a: seq<T>, b: seq<T>)
    ensures Filter(p, a + b) == Filter(p, a) + Filter(p, b)
    decreases |b|
  {
    if b == [] {
      assert a + b == a;
    } else {
      var binit, x := b[..|b| - 1], b[|b| - 1];
      assert a + binit + [x] == a + b;
      assert binit + [x] == b;
      FilterAppend(p, a, binit);
      FilterLast(p, a + binit, x);
      FilterLast(p, binit, x);
      var fa, fi := Filter(p, a), Filter(p, binit);
      if p(x) {
        assert fa + (fi + [x]) == (fa + fi) + [x];
      }
    }
  }

  /** Filtering a sequence with one more element at the end. */
  lemma FilterLast<T>(p: T -> bool, xs: seq<T>, x: T)
    ensures Filter(p, xs + [x]) == if p(x) then Filter(p, xs) + [x] else Filter(p, xs)
  {
    assert (xs + [x])[..|xs|] == xs;
  }

  /** An element p rejects drops out from between two segments. */
  lemma FilterSkip<T>(p: T -> bool, pre: seq<T>, x: T, post: seq<T>)
    requires !p(x)
    ensures Filter(p, pre + [x] + post) == Filter(p, pre) + Filter(p, post)
  {
    FilterAppend(p, pre + [x], post);
    FilterAppend(p, pre, [x]);
    assert [x][..0] == [];
  }

  /** Removing the last matched element keeps a subsequence. */
  lemma {:induction false} SubseqDropLast<T>(a: seq<T>, b: seq<T>)
    requires a != [] && IsSubseq(a, b)
    ensures IsSubseq(a[..|a| - 1], b)
    decreases |a| + |b|
  {
    var ai, bi := a[..|a| - 1], b[..|b| - 1];
    if a[|a| - 1] == b[|b| - 1] {
      SubseqExtend(ai, bi, b[|b| - 1]);
      assert bi + [b[|b| - 1]] == b;
    } else {
      SubseqDropLast(a, bi);
      SubseqExtend(ai, bi, b[|b| - 1]);
      assert bi + [b[|b| - 1]] == b;
    }
  }

  /** A subsequence of b is a subsequence of b with one more element at the end. */
  lemma {:induction false} SubseqExtend<T>(a: seq<T>, b: seq<T>, x: T)
    requires IsSubseq(a, b)
    ensures IsSubseq(a, b + [x])
    decreases |a| + |b| + 1
  {
    assert (b + [x])[..|b|] == b;
    if a != [] && a[|a| - 1] == x {
      SubseqDropLast(a, b);
    }
  }

  /** The first element of xs is the first element of Distinct(xs). */
  lemma {:induction false} DistinctHead<T>(xs: seq<T>)
    requires xs != []
    ensures Distinct(xs) != [] && Distinct(xs)[0] == xs[0]
  {
    if |xs| > 1 {
      var init := xs[..|xs| - 1];
      DistinctHead(init);
      assert init[0] == xs[0];
    }
  }

  /** Distinct keeps exactly the elements of xs, each once, in first-seen order:
      every occurrence of a later element is preceded by an earlier one. */
  lemma {:induction false} DistinctSpec<T>(xs: seq<T>)
    ensures NoDuplicates(Distinct(xs))
    ensures forall x :: x in Distinct(xs) ==> x in xs
    ensures forall x :: x in xs ==> x in Distinct(xs)
    ensures forall i, j, b :: 0 <= i < j < |Distinct(xs)| && 0 <= b < |xs| && xs[b] == Distinct(xs)[j] ==>
              Distinct(xs)[i] in xs[..b]
  {
    if xs != [] {
      var init, x := xs[..|xs| - 1], xs[|xs| - 1];
      DistinctSpec(init);
      var d := Distinct(init);
      var r := Distinct(xs);
      assert xs == init + [x];
      forall y | y in xs ensures y in r {
        if y != x { assert y in init; }
      }
      forall i, j, b | 0 <= i < j < |r| && 0 <= b < |xs| && xs[b] == r[j]
        ensures r[i] in xs[..b]
      {
        assert i < |d| && r[i] == d[i];
        if b == |xs| - 1 {
          assert xs[..b] == init;
          assert d[i] in d;
        } else {
          assert xs[..b] == init[..b];
          assert xs[b] == init[b] && init[b] in d;
          assert j < |d|;
          assert r[j] == d[j];
          assert d[i] in init[..b];
        }
      }
    }
  }
}
