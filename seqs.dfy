/**
 * Generic list facts the pages rely on: `filter` (and the order-preserving
 * subsequence it yields), counting, and the first-appearance listing of distinct
 * values that a JavaScript `Map` or `Set` keeps in its insertion order.
 */
module Seqs {

  /** `xs.filter(p)`. */
  function Filter<T>(xs: seq<T>, p: T -> bool): (r: seq<T>)
    ensures |r| <= |xs|
  {
    if xs == [] then [] else (if p(xs[0]) then [xs[0]] else []) + Filter(xs[1..], p)
  }

  /** `filter` keeps exactly the elements that pass. */
  lemma {:induction false} FilterMembers<T>(xs: seq<T>, p: T -> bool)
    ensures forall i :: 0 <= i < |Filter(xs, p)| ==> Filter(xs, p)[i] in xs && p(Filter(xs, p)[i])
    ensures forall i :: 0 <= i < |xs| && p(xs[i]) ==> xs[i] in Filter(xs, p)
  {
    if xs != [] {
      FilterMembers(xs[1..], p);
      var r := Filter(xs, p);
      var h := if p(xs[0]) then [xs[0]] else [];
      assert r == h + Filter(xs[1..], p);
      forall i | 0 <= i < |r| ensures r[i] in xs && p(r[i]) {
        if i >= |h| {
          assert r[i] == Filter(xs[1..], p)[i - |h|];
        }
      }
      forall i | 0 <= i < |xs| && p(xs[i]) ensures xs[i] in r {
        if i > 0 {
          assert xs[i] == xs[1..][i - 1];
        }
      }
    }
  }

  /** `a` is `b` with some elements left out, the rest kept in order. */
  predicate SubsequenceOf<T(==)>(a: seq<T>, b: seq<T>)
    decreases |b|
  {
    if a == [] then true
    else if b == [] then false
    else if a[0] == b[0] then SubsequenceOf(a[1..], b[1..])
    else SubsequenceOf(a, b[1..])
  }

  lemma {:induction false} SubsequenceDropHead<T>(a: seq<T>, b: seq<T>)
    requires a != [] && SubsequenceOf(a, b)
    ensures SubsequenceOf(a[1..], b)
    decreases |b|
  {
    if |a| > 1 {
      assert a[1..][1..] == a[2..];
      if a[0] == b[0] {
        if a[1] == b[0] {
          SubsequenceDropHead(a[1..], b[1..]);
        }
      } else {
        SubsequenceDropHead(a, b[1..]);
        if a[1] == b[0] {
          SubsequenceDropHead(a[1..], b[1..]);
        }
      }
    }
  }

  lemma {:induction false} SubsequenceCons<T>(a: seq<T>, b: seq<T>, x: T)
    requires SubsequenceOf(a, b)
    ensures SubsequenceOf(a, [x] + b)
  {
    assert ([x] + b)[1..] == b;
    if a != [] && a[0] == x {
      SubsequenceDropHead(a, b);
    }
  }

  /** What `filter` keeps is an order-preserving subsequence of its input. */
  lemma {:induction false} FilterIsSubsequence<T>(xs: seq<T>, p: T -> bool)
    ensures SubsequenceOf(Filter(xs, p), xs)
  {
    if xs != [] {
      FilterIsSubsequence(xs[1..], p);
      if p(xs[0]) {
        assert Filter(xs, p) == [xs[0]] + Filter(xs[1..], p);
      } else {
        assert Filter(xs, p) == Filter(xs[1..], p);
        SubsequenceCons(Filter(xs[1..], p), xs[1..], xs[0]);
        assert [xs[0]] + xs[1..] == xs;
      }
    }
  }

  /** Filtering twice by the same predicate changes nothing more. */
  lemma {:induction false} FilterIdempotent<T>(xs: seq<T>, p: T -> bool)
    ensures Filter(Filter(xs, p), p) == Filter(xs, p)
  {
    FilterMembers(xs, p);
    FilterKeepsAll(Filter(xs, p), p);
  }

  /** A filter every element passes is the identity. */
  lemma {:induction false} FilterKeepsAll<T>(xs: seq<T>, p: T -> bool)
    requires forall x :: x in xs ==> p(x)
    ensures Filter(xs, p) == xs
  {
    if xs != [] {
      assert xs[0] in xs;
      FilterKeepsAll(xs[1..], p);
      assert [xs[0]] + xs[1..] == xs;
    }
  }

  lemma {:induction false} FilterAppend<T>(a: seq<T>, b: seq<T>, p: T -> bool)
    ensures Filter(a + b, p) == Filter(a, p) + Filter(b, p)
  {
    if a == [] {
      assert a + b == b;
    } else {
      var ab := a + b;
      assert ab[0] == a[0] && ab[1..] == a[1..] + b;
      FilterAppend(a[1..], b, p);
      if p(a[0]) {
        assert Filter(ab, p) == [a[0]] + Filter(ab[1..], p);
        assert Filter(a, p) == [a[0]] + Filter(a[1..], p);
      } else {
        assert Filter(ab, p) == [] + Filter(ab[1..], p) == Filter(ab[1..], p);
        assert Filter(a, p) == [] + Filter(a[1..], p) == Filter(a[1..], p);
      }
    }
  }

  /** The number of times `x` occurs in `xs`. */
  function Count<T(==)>(xs: seq<T>, x: T): (n: nat)
    ensures n <= |xs|
    ensures n == 0 <==> x !in xs
  {
    if xs == [] then 0
    else
      var init := xs[..|xs| - 1];
      assert xs == init + [xs[|xs| - 1]];
      Count(init, x) + (if xs[|xs| - 1] == x then 1 else 0)
  }

  lemma {:induction false} CountCons<T>(y: T, xs: seq<T>, x: T)
    ensures Count([y] + xs, x) == (if y == x then 1 else 0) + Count(xs, x)
  {
    var ys := [y] + xs;
    if xs != [] {
      var init := xs[..|xs| - 1];
      assert ys[..|ys| - 1] == [y] + init;
      assert ys[|ys| - 1] == xs[|xs| - 1];
      CountCons(y, init, x);
    } else {
      assert ys[..|ys| - 1] == [];
    }
  }

  /** A filter keeps every copy of an element it accepts and none of one it rejects. */
  lemma {:induction false} FilterCount<T>(xs: seq<T>, p: T -> bool, x: T)
    ensures Count(Filter(xs, p), x) == (if p(x) then Count(xs, x) else 0)
  {
    if xs != [] {
      var rest := Filter(xs[1..], p);
      FilterCount(xs[1..], p, x);
      assert xs == [xs[0]] + xs[1..];
      CountCons(xs[0], xs[1..], x);
      if p(xs[0]) {
        assert Filter(xs, p) == [xs[0]] + rest;
        CountCons(xs[0], rest, x);
      } else {
        assert Filter(xs, p) == [] + rest;
        assert [] + rest == rest;
      }
    }
  }

  lemma {:induction false} CountSnoc<T>(xs: seq<T>, y: T, x: T)
    ensures Count(xs + [y], x) == Count(xs, x) + (if y == x then 1 else 0)
  {
    assert (xs + [y])[..|xs|] == xs;
  }

  predicate NoDups<T(==)>(xs: seq<T>) {
    forall i, j :: 0 <= i < j < |xs| ==> xs[i] != xs[j]
  }

  /** A duplicate-free list holds each of its members exactly once. */
  lemma {:induction false} CountNoDups<T>(xs: seq<T>, x: T)
    requires NoDups(xs) && x in xs
    ensures Count(xs, x) == 1
  {
    var init := xs[..|xs| - 1];
    assert xs == init + [xs[|xs| - 1]];
    if xs[|xs| - 1] == x {
      assert x !in init;
    } else {
      CountNoDups(init, x);
    }
  }

  /** The distinct values of `xs`, each once, in order of first appearance. */
  function Distinct<T(==)>(xs: seq<T>): (r: seq<T>)
    ensures NoDups(r)
    ensures forall i :: 0 <= i < |r| ==> r[i] in xs
    ensures forall i :: 0 <= i < |xs| ==> xs[i] in r
  {
    if xs == [] then []
    else
      var init := xs[..|xs| - 1];
      var x := xs[|xs| - 1];
      var d := Distinct(init);
      assert xs == init + [x];
      if x in d then d else d + [x]
  }

  /** The position where `x` first occurs in `xs`. */
  function FirstIndex<T(==)>(xs: seq<T>, x: T): (i: nat)
    requires x in xs
    ensures i < |xs| && xs[i] == x
    ensures forall j :: 0 <= j < i ==> xs[j] != x
  {
    if xs[0] == x then 0 else FirstIndex(xs[1..], x) + 1
  }

  lemma {:induction false} FirstIndexSnoc<T>(xs: seq<T>, y: T, x: T)
    requires x in xs
    ensures FirstIndex(xs + [y], x) == FirstIndex(xs, x)
  {
    var i := FirstIndex(xs, x);
    assert (xs + [y])[i] == x;
  }

  /** `Distinct` lists values in the order in which they first occur. */
  lemma {:induction false} DistinctInFirstAppearanceOrder<T>(xs: seq<T>, i: nat, j: nat)
    requires i < j < |Distinct(xs)|
    ensures FirstIndex(xs, Distinct(xs)[i]) < FirstIndex(xs, Distinct(xs)[j])
  {
    var init := xs[..|xs| - 1];
    var x := xs[|xs| - 1];
    var d := Distinct(init);
    assert xs == init + [x];
    if j < |d| {
      DistinctInFirstAppearanceOrder(init, i, j);
      FirstIndexSnoc(init, x, d[i]);
      FirstIndexSnoc(init, x, d[j]);
    } else {
      assert Distinct(xs)[j] == x && x !in init;
      FirstIndexSnoc(init, x, d[i]);
      assert FirstIndex(xs, x) == |init| by {
        var k := FirstIndex(xs, x);
        assert forall m :: 0 <= m < |init| ==> xs[m] == init[m];
      }
    }
  }

  /** The sum, over the values `ds`, of how often each occurs in `xs`. */
  function SumCounts<T(==)>(ds: seq<T>, xs: seq<T>): nat {
    if ds == [] then 0 else SumCounts(ds[..|ds| - 1], xs) + Count(xs, ds[|ds| - 1])
  }

  lemma {:induction false} SumCountsSnocValue<T>(ds: seq<T>, xs: seq<T>, y: T)
    ensures SumCounts(ds, xs + [y]) == SumCounts(ds, xs) + Count(ds, y)
  {
    if ds != [] {
      var init := ds[..|ds| - 1];
      SumCountsSnocValue(init, xs, y);
      CountSnoc(xs, y, ds[|ds| - 1]);
      assert ds == init + [ds[|ds| - 1]];
      CountSnoc(init, ds[|ds| - 1], y);
    }
  }

  /**
   * Counting every value of `xs` against a duplicate-free list that holds each of
   * them accounts for every element exactly once.
   */
  lemma {:induction false} SumCountsCover<T>(ds: seq<T>, xs: seq<T>)
    requires NoDups(ds)
    requires forall x :: x in xs ==> x in ds
    ensures SumCounts(ds, xs) == |xs|
  {
    if xs != [] {
      var init := xs[..|xs| - 1];
      var y := xs[|xs| - 1];
      assert xs == init + [y];
      SumCountsCover(ds, init);
      SumCountsSnocValue(ds, init, y);
      CountNoDups(ds, y);
    } else {
      SumCountsOfEmpty(ds, xs);
    }
  }

  lemma {:induction false} SumCountsOfEmpty<T>(ds: seq<T>, xs: seq<T>)
    requires xs == []
    ensures SumCounts(ds, xs) == 0
  {
    if ds != [] {
      SumCountsOfEmpty(ds[..|ds| - 1], xs);
    }
  }

  /** Counting the distinct values of `xs` against `xs` gives back its length. */
  lemma {:induction false} SumCountsDistinct<T>(xs: seq<T>)
    ensures SumCounts(Distinct(xs), xs) == |xs|
  {
    SumCountsCover(Distinct(xs), xs);
  }

  lemma {:induction false} NoDupsMultiplicity<T>(ys: seq<T>, v: T)
    requires NoDups(ys)
    ensures multiset(ys)[v] <= 1
  {
    if ys != [] {
      var init := ys[..|ys| - 1];
      assert ys == init + [ys[|ys| - 1]];
      NoDupsMultiplicity(init, v);
    }
  }

  /** A rearrangement of a duplicate-free list is duplicate-free. */
  lemma PermutationNoDups<T>(xs: seq<T>, ys: seq<T>)
    requires multiset(xs) == multiset(ys) && NoDups(ys)
    ensures NoDups(xs)
  {
    forall i, j | 0 <= i < j < |xs| ensures xs[i] != xs[j] {
      NoDupsMultiplicity(ys, xs[j]);
      assert xs == xs[..j] + xs[j..];
      assert xs[..j][i] == xs[i];
      assert xs[j..][0] == xs[j];
      assert multiset(xs) == multiset(xs[..j]) + multiset(xs[j..]);
    }
  }
}
