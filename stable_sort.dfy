/**
 * `[...xs].sort((a, b) => key(b) - key(a))`: JavaScript's sort is stable, so the
 * result is the descending-by-key order in which elements of equal key keep their
 * input order. It is modelled as the insertion sort that has exactly that outcome.
 */
module StableSort {

  /** Each element's key is at least that of every later element. */
  predicate NonIncreasing<T>(xs: seq<T>, key: T -> real) {
    forall i, j :: 0 <= i < j < |xs| ==> key(xs[i]) >= key(xs[j])
  }

  /** `x` placed into a descending list after every element whose key is not below its own. */
  function InsertDesc<T>(x: T, acc: seq<T>, key: T -> real): (r: seq<T>)
    ensures multiset(r) == multiset(acc) + multiset{x}
    ensures |r| == |acc| + 1 && (r[0] == x || (acc != [] && r[0] == acc[0]))
  {
    if acc == [] then [x]
    else if key(acc[0]) < key(x) then [x] + acc
    else
      assert acc == [acc[0]] + acc[1..];
      [acc[0]] + InsertDesc(x, acc[1..], key)
  }

  /** A head whose key is not below that of the next element extends a descending list. */
  lemma ConsNonIncreasing<T>(a: T, rest: seq<T>, key: T -> real)
    requires NonIncreasing(rest, key)
    requires rest == [] || key(a) >= key(rest[0])
    ensures NonIncreasing([a] + rest, key)
  {
    var r := [a] + rest;
    forall i, j | 0 <= i < j < |r| ensures key(r[i]) >= key(r[j]) {
      if i == 0 && j > 1 {
        assert key(rest[0]) >= key(rest[j - 1]);
      }
    }
  }

  /** Inserting into a descending list keeps it descending. */
  lemma {:induction false} InsertDescSorted<T>(x: T, acc: seq<T>, key: T -> real)
    requires NonIncreasing(acc, key)
    ensures NonIncreasing(InsertDesc(x, acc, key), key)
  {
    if acc != [] {
      if key(acc[0]) < key(x) {
        ConsNonIncreasing(x, acc, key);
      } else {
        var tl := acc[1..];
        assert NonIncreasing(tl, key) by {
          forall i, j | 0 <= i < j < |tl| ensures key(tl[i]) >= key(tl[j]) {
            assert tl[i] == acc[i + 1] && tl[j] == acc[j + 1];
          }
        }
        InsertDescSorted(x, tl, key);
        var rest := InsertDesc(x, tl, key);
        assert tl != [] ==> key(acc[0]) >= key(tl[0]);
        ConsNonIncreasing(acc[0], rest, key);
      }
    }
  }

  /** The stable descending sort of `xs` by `key`. */
  function SortDesc<T>(xs: seq<T>, key: T -> real): (r: seq<T>)
    ensures multiset(r) == multiset(xs)
    ensures NonIncreasing(r, key)
  {
    if xs == [] then []
    else
      assert xs == xs[..|xs| - 1] + [xs[|xs| - 1]];
      var sorted := SortDesc(xs[..|xs| - 1], key);
      InsertDescSorted(xs[|xs| - 1], sorted, key);
      InsertDesc(xs[|xs| - 1], sorted, key)
  }

  /** The elements of `xs` whose key is `v`, in their order in `xs`. */
  function KeyClass<T>(xs: seq<T>, key: T -> real, v: real): (r: seq<T>)
    ensures |r| <= |xs|
    ensures forall i :: 0 <= i < |r| ==> key(r[i]) == v
  {
    if xs == [] then []
    else KeyClass(xs[..|xs| - 1], key, v) + (if key(xs[|xs| - 1]) == v then [xs[|xs| - 1]] else [])
  }

  lemma {:induction false} KeyClassAppend<T>(a: seq<T>, b: seq<T>, key: T -> real, v: real)
    ensures KeyClass(a + b, key, v) == KeyClass(a, key, v) + KeyClass(b, key, v)
  {
    if b == [] {
      assert a + b == a;
    } else {
      var b' := b[..|b| - 1];
      KeyClassAppend(a, b', key, v);
      assert (a + b)[..|a + b| - 1] == a + b';
    }
  }

  lemma {:induction false} KeyClassNone<T>(xs: seq<T>, key: T -> real, v: real)
    requires forall i :: 0 <= i < |xs| ==> key(xs[i]) != v
    ensures KeyClass(xs, key, v) == []
  {
    if xs != [] {
      KeyClassNone(xs[..|xs| - 1], key, v);
    }
  }

  /** Inserting `x` puts it after every element of its own key already present. */
  lemma {:induction false} InsertDescKeyClass<T>(x: T, acc: seq<T>, key: T -> real, v: real)
    requires NonIncreasing(acc, key)
    ensures KeyClass(InsertDesc(x, acc, key), key, v)
         == KeyClass(acc, key, v) + (if key(x) == v then [x] else [])
  {
    if acc == [] {
      assert KeyClass([x], key, v) == KeyClass([], key, v) + (if key(x) == v then [x] else []);
    } else {
      assert acc == [acc[0]] + acc[1..];
      KeyClassAppend([acc[0]], acc[1..], key, v);
      if key(acc[0]) < key(x) {
        KeyClassAppend([x], acc, key, v);
        assert KeyClass([x], key, v) == KeyClass([], key, v) + (if key(x) == v then [x] else []);
        if key(x) == v {
          KeyClassNone(acc, key, v);
        }
      } else {
        InsertDescKeyClass(x, acc[1..], key, v);
        KeyClassAppend([acc[0]], InsertDesc(x, acc[1..], key), key, v);
      }
    }
  }

  /** Stability: the elements of each key keep their relative input order. */
  lemma {:induction false} SortDescStable<T>(xs: seq<T>, key: T -> real, v: real)
    ensures KeyClass(SortDesc(xs, key), key, v) == KeyClass(xs, key, v)
  {
    if xs != [] {
      var init := xs[..|xs| - 1];
      SortDescStable(init, key, v);
      InsertDescKeyClass(xs[|xs| - 1], SortDesc(init, key), key, v);
    }
  }

  /** When every key is the same, the sort leaves the list as it was. */
  lemma {:induction false} SortDescAllTied<T>(xs: seq<T>, key: T -> real, v: real)
    requires forall i :: 0 <= i < |xs| ==> key(xs[i]) == v
    ensures SortDesc(xs, key) == xs
  {
    SortDescStable(xs, key, v);
    KeyClassAll(xs, key, v);
    var r := SortDesc(xs, key);
    assert forall i :: 0 <= i < |r| ==> key(r[i]) == v by {
      forall i | 0 <= i < |r| ensures key(r[i]) == v {
        assert r[i] in multiset(xs);
      }
    }
    KeyClassAll(r, key, v);
  }

  lemma {:induction false} KeyClassAll<T>(xs: seq<T>, key: T -> real, v: real)
    requires forall i :: 0 <= i < |xs| ==> key(xs[i]) == v
    ensures KeyClass(xs, key, v) == xs
  {
    if xs != [] {
      KeyClassAll(xs[..|xs| - 1], key, v);
    }
  }

  /** The sum of `f` over the elements of `xs`. */
  function SumBy<T>(xs: seq<T>, f: T -> int): int {
    if xs == [] then 0 else SumBy(xs[..|xs| - 1], f) + f(xs[|xs| - 1])
  }

  lemma {:induction false} SumByAppend<T>(a: seq<T>, b: seq<T>, f: T -> int)
    ensures SumBy(a + b, f) == SumBy(a, f) + SumBy(b, f)
  {
    if b == [] {
      assert a + b == a;
    } else {
      SumByAppend(a, b[..|b| - 1], f);
      assert (a + b)[..|a + b| - 1] == a + b[..|b| - 1];
    }
  }

  lemma {:induction false} SumByInsertDesc<T>(x: T, acc: seq<T>, key: T -> real, f: T -> int)
    ensures SumBy(InsertDesc(x, acc, key), f) == SumBy(acc, f) + f(x)
  {
    if acc == [] {
      assert SumBy([x], f) == SumBy([], f) + f(x);
    } else {
      assert SumBy([x], f) == SumBy([], f) + f(x);
      assert SumBy([acc[0]], f) == SumBy([], f) + f(acc[0]);
      assert acc == [acc[0]] + acc[1..];
      SumByAppend([acc[0]], acc[1..], f);
      if key(acc[0]) < key(x) {
        SumByAppend([x], acc, f);
      } else {
        SumByInsertDesc(x, acc[1..], key, f);
        SumByAppend([acc[0]], InsertDesc(x, acc[1..], key), f);
      }
    }
  }

  /** Sorting does not change a sum over the elements. */
  lemma {:induction false} SumBySortDesc<T>(xs: seq<T>, key: T -> real, f: T -> int)
    ensures SumBy(SortDesc(xs, key), f) == SumBy(xs, f)
  {
    if xs != [] {
      SumBySortDesc(xs[..|xs| - 1], key, f);
      SumByInsertDesc(xs[|xs| - 1], SortDesc(xs[..|xs| - 1], key), key, f);
    }
  }
}
