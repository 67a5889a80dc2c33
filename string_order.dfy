/**
 * JavaScript's default `Array.prototype.sort()` order on strings (character by
 * character, a proper prefix first), and `Array.from(set).sort()`: the ascending,
 * duplicate-free listing of a set of keys. Characters here are Unicode scalar
 * values, so the order is by scalar value; JavaScript compares UTF-16 code units,
 * which agrees except between a character above U+FFFF and one in U+E000-U+FFFF.
 */
module StringOrder {

  /** `a` sorts strictly before `b`. */
  predicate Less(a: string, b: string)
    decreases |a|
  {
    if |a| == 0 then |b| > 0
    else if |b| == 0 then false
    else if a[0] != b[0] then a[0] < b[0]
    else Less(a[1..], b[1..])
  }

  lemma {:induction false} LessIrreflexive(a: string)
    ensures !Less(a, a)
  {
    if |a| > 0 {
      LessIrreflexive(a[1..]);
    }
  }

  lemma {:induction false} LessTransitive(a: string, b: string, c: string)
    requires Less(a, b) && Less(b, c)
    ensures Less(a, c)
    decreases |a|
  {
    if |a| > 0 && a[0] == b[0] && b[0] == c[0] {
      LessTransitive(a[1..], b[1..], c[1..]);
    }
  }

  lemma {:induction false} LessTotal(a: string, b: string)
    ensures a == b || Less(a, b) || Less(b, a)
    decreases |a|
  {
    if |a| > 0 && |b| > 0 && a[0] == b[0] {
      LessTotal(a[1..], b[1..]);
      if a[1..] == b[1..] {
        assert a == [a[0]] + a[1..] && b == [b[0]] + b[1..];
      }
    }
  }

  lemma {:induction false} LessAsymmetric(a: string, b: string)
    requires Less(a, b)
    ensures !Less(b, a)
  {
    if Less(b, a) {
      LessTransitive(a, b, a);
      LessIrreflexive(a);
    }
  }

  /** Ascending and duplicate-free. */
  predicate StrictlySorted(xs: seq<string>) {
    forall i, j :: 0 <= i < j < |xs| ==> Less(xs[i], xs[j])
  }

  /** `k` placed into an ascending duplicate-free list, unless already there. */
  function Insert(xs: seq<string>, k: string): (r: seq<string>)
    requires StrictlySorted(xs)
    ensures StrictlySorted(r)
    ensures forall x :: x in r <==> x in xs || x == k
  {
    if xs == [] then [k]
    else if xs[0] == k then xs
    else if Less(k, xs[0]) then
      assert forall j :: 0 < j < |xs| ==> Less(k, xs[j]) by {
        forall j | 0 < j < |xs| ensures Less(k, xs[j]) {
          LessTransitive(k, xs[0], xs[j]);
        }
      }
      [k] + xs
    else
      LessTotal(k, xs[0]);
      var rest := Insert(xs[1..], k);
      assert forall x :: x in rest ==> Less(xs[0], x);
      [xs[0]] + rest
  }

  /** `Array.from(s).sort()`: the members of `s`, ascending, each once. */
  method SortedListing(s: set<string>) returns (list: seq<string>)
    ensures StrictlySorted(list)
    ensures forall k :: k in list <==> k in s
  {
    list := [];
    var pending := s;
    while pending != {}
      invariant pending <= s
      invariant StrictlySorted(list)
      invariant forall k :: k in list <==> k in s - pending
      decreases |pending|
    {
      var k :| k in pending;
      list := Insert(list, k);
      pending := pending - {k};
    }
  }

  /** The head of an ascending list sorts before every other member. */
  lemma {:induction false} HeadIsLeast(xs: seq<string>, x: string)
    requires StrictlySorted(xs) && x in xs
    ensures x == xs[0] || Less(xs[0], x)
  {
  }

  lemma {:induction false} TailMember(a: seq<string>, b: seq<string>, k: string)
    requires StrictlySorted(a) && a != [] && b != [] && a[0] == b[0]
    requires forall x :: x in a ==> x in b
    requires k in a[1..]
    ensures k in b[1..]
  {
    var i :| 0 <= i < |a| - 1 && a[1..][i] == k;
    assert Less(a[0], a[i + 1]);
    LessIrreflexive(k);
    assert k in a;
    assert k in b;
    var j :| 0 <= j < |b| && b[j] == k;
    assert b[1..][j - 1] == k;
  }

  /** Two ascending duplicate-free lists with the same members are the same list. */
  lemma {:induction false} StrictlySortedUnique(a: seq<string>, b: seq<string>)
    requires StrictlySorted(a) && StrictlySorted(b)
    requires forall k :: k in a <==> k in b
    ensures a == b
  {
    assert a == [] <==> b == [] by {
      if a != [] { assert a[0] in b; }
      if b != [] { assert b[0] in a; }
    }
    if a != [] {
      HeadIsLeast(a, b[0]);
      HeadIsLeast(b, a[0]);
      if Less(a[0], b[0]) {
        LessAsymmetric(a[0], b[0]);
      }
      assert a[0] == b[0];
      forall k | k in a[1..] ensures k in b[1..] {
        TailMember(a, b, k);
      }
      forall k | k in b[1..] ensures k in a[1..] {
        TailMember(b, a, k);
      }
      StrictlySortedUnique(a[1..], b[1..]);
      assert a == [a[0]] + a[1..] && b == [b[0]] + b[1..];
    }
  }
}
