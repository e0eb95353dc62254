/**
 * Sequence combinators for the stages lifted out of the pipeline, with the
 * fact that matters for a concurrent pipeline: permuting the input only
 * permutes the output.
 */
module Sequences {

  /** The elements of `s` satisfying `p`, in order. */
  function Filter<T>(p: T -> bool, s: seq<T>): (r: seq<T>)
    ensures |r| <= |s|
  {
    if |s| == 0 then [] else (if p(s[0]) then [s[0]] else []) + Filter(p, s[1..])
  }

  /** An element is kept exactly when it occurs in `s` and satisfies `p`. */
  lemma {:induction false} FilterIn<T>(p: T -> bool, s: seq<T>, x: T)
    ensures x in Filter(p, s) <==> x in s && p(x)
  {
    if |s| > 0 {
      FilterIn(p, s[1..], x);
      assert s == [s[0]] + s[1..];
    }
  }

  /** `f` applied to each element of `s`, in order. */
  function Map<T, U>(f: T -> U, s: seq<T>): (r: seq<U>)
    ensures |r| == |s|
    ensures forall i :: 0 <= i < |s| ==> r[i] == f(s[i])
  {
    if |s| == 0 then [] else [f(s[0])] + Map(f, s[1..])
  }

  /** The concatenation of `f(x)` over the elements `x` of `s`, in order. */
  function FlatMap<T, U>(f: T -> seq<U>, s: seq<T>): seq<U> {
    if |s| == 0 then [] else f(s[0]) + FlatMap(f, s[1..])
  }

  lemma MapCons<T, U>(f: T -> U, x: T, s: seq<T>)
    ensures Map(f, [x] + s) == [f(x)] + Map(f, s)
  {
    assert ([x] + s)[1..] == s;
  }

  lemma FilterCons<T>(p: T -> bool, x: T, s: seq<T>)
    ensures Filter(p, [x] + s) == (if p(x) then [x] else []) + Filter(p, s)
  {
    assert ([x] + s)[1..] == s;
  }

  lemma {:induction false} FilterAppend<T>(p: T -> bool, a: seq<T>, b: seq<T>)
    ensures Filter(p, a + b) == Filter(p, a) + Filter(p, b)
    decreases |a|
  {
    if |a| == 0 {
      assert a + b == b;
    } else {
      var head := if p(a[0]) then [a[0]] else [];
      assert (a + b)[0] == a[0];
      assert (a + b)[1..] == a[1..] + b;
      assert Filter(p, a + b) == head + Filter(p, a[1..] + b);
      FilterAppend(p, a[1..], b);
      assert Filter(p, a) == head + Filter(p, a[1..]);
    }
  }

  lemma FilterSnoc<T>(p: T -> bool, s: seq<T>, x: T)
    ensures Filter(p, s + [x]) == Filter(p, s) + (if p(x) then [x] else [])
  {
    FilterAppend(p, s, [x]);
    assert [x][1..] == [];
  }

  lemma MapSnoc<T, U>(f: T -> U, s: seq<T>, x: T)
    ensures Map(f, s + [x]) == Map(f, s) + [f(x)]
  {
    MapAppend(f, s, [x]);
  }

  lemma {:induction false} MapAppend<T, U>(f: T -> U, a: seq<T>, b: seq<T>)
    ensures Map(f, a + b) == Map(f, a) + Map(f, b)
  {
    // Both sides have the same length and agree at every index.
  }

  lemma {:induction false} FlatMapAppend<T, U>(f: T -> seq<U>, a: seq<T>, b: seq<T>)
    ensures FlatMap(f, a + b) == FlatMap(f, a) + FlatMap(f, b)
    decreases |a|
  {
    if |a| == 0 {
      assert a + b == b;
    } else {
      assert (a + b)[1..] == a[1..] + b;
      FlatMapAppend(f, a[1..], b);
    }
  }

  /** An element of a concatenation of images comes from the image of some element. */
  lemma {:induction false} InFlatMap<T, U>(f: T -> seq<U>, s: seq<T>, y: U) returns (x: T)
    requires y in FlatMap(f, s)
    ensures x in s && y in f(x)
    decreases |s|
  {
    if y in f(s[0]) {
      x := s[0];
    } else {
      x := InFlatMap(f, s[1..], y);
    }
  }

  /** An element of `b` splits it around one of its occurrences. */
  lemma SplitAt<T>(b: seq<T>, x: T) returns (b1: seq<T>, b2: seq<T>)
    requires x in multiset(b)
    ensures b == b1 + [x] + b2
    ensures multiset(b1 + b2) == multiset(b) - multiset{x}
  {
    var i :| 0 <= i < |b| && b[i] == x;
    b1, b2 := b[..i], b[i + 1..];
    assert b == b1 + [x] + b2;
  }

  /** Filtering a permutation gives a permutation. */
  lemma {:induction false} FilterPermutation<T>(p: T -> bool, a: seq<T>, b: seq<T>)
    requires multiset(a) == multiset(b)
    ensures multiset(Filter(p, a)) == multiset(Filter(p, b))
    decreases |a|
  {
    if |a| == 0 {
      assert |b| == |multiset(b)| == 0;
    } else {
      var x := a[0];
      assert x in multiset(b);
      var b1, b2 := SplitAt(b, x);
      assert a == [x] + a[1..];
      assert multiset(a[1..]) == multiset(b1 + b2);
      FilterPermutation(p, a[1..], b1 + b2);
      FilterAppend(p, b1, b2);
      FilterAppend(p, b1 + [x], b2);
      FilterAppend(p, b1, [x]);
      FilterAppend(p, [x], a[1..]);
    }
  }

  lemma MapSplit<T, U>(f: T -> U, b1: seq<T>, x: T, b2: seq<T>)
    ensures Map(f, b1 + [x] + b2) == Map(f, b1) + [f(x)] + Map(f, b2)
  {
    MapAppend(f, b1 + [x], b2);
    MapSnoc(f, b1, x);
  }

  /** Moving one element from the front to between two parts keeps the multiset. */
  lemma MoveFront<U>(a: seq<U>, y: U, rest: seq<U>, b1: seq<U>, b2: seq<U>, b: seq<U>)
    requires a == [y] + rest && b == b1 + [y] + b2
    requires multiset(rest) == multiset(b1 + b2)
    ensures multiset(a) == multiset(b)
  {
  }

  /** Mapping over a permutation gives a permutation. */
  lemma {:induction false} MapPermutation<T, U>(f: T -> U, a: seq<T>, b: seq<T>)
    requires multiset(a) == multiset(b)
    ensures multiset(Map(f, a)) == multiset(Map(f, b))
    decreases |a|
  {
    if |a| == 0 {
      assert |b| == |multiset(b)| == 0;
    } else {
      var x := a[0];
      assert x in multiset(b);
      var b1, b2 := SplitAt(b, x);
      assert a == [x] + a[1..];
      MapPermutation(f, a[1..], b1 + b2);
      MapSplit(f, b1, x, b2);
      MapAppend(f, b1, b2);
      MapCons(f, x, a[1..]);
      MoveFront(Map(f, a), f(x), Map(f, a[1..]), Map(f, b1), Map(f, b2), Map(f, b));
    }
  }

  /** Concatenating the images of a permutation gives a permutation. */
  lemma {:induction false} FlatMapPermutation<T, U>(f: T -> seq<U>, a: seq<T>, b: seq<T>)
    requires multiset(a) == multiset(b)
    ensures multiset(FlatMap(f, a)) == multiset(FlatMap(f, b))
    decreases |a|
  {
    if |a| == 0 {
      assert |b| == |multiset(b)| == 0;
    } else {
      var x := a[0];
      assert x in multiset(b);
      var b1, b2 := SplitAt(b, x);
      assert a == [x] + a[1..];
      FlatMapPermutation(f, a[1..], b1 + b2);
      FlatMapAppend(f, b1, b2);
      FlatMapAppend(f, b1 + [x], b2);
      FlatMapAppend(f, b1, [x]);
      FlatMapAppend(f, [x], a[1..]);
    }
  }

  /** No element occurs twice. */
  predicate Distinct<T(==)>(s: seq<T>) {
    forall i, j :: 0 <= i < j < |s| ==> s[i] != s[j]
  }

  /** Removing one occurrence of `x` from a duplicate-free sequence leaves exactly the other elements. */
  lemma RemoveDistinct<T>(b: seq<T>, b1: seq<T>, x: T, b2: seq<T>)
    requires b == b1 + [x] + b2 && Distinct(b)
    ensures Distinct(b1 + b2)
    ensures forall y :: y in b1 + b2 <==> y in b && y != x
  {
    var b' := b1 + b2;
    forall i, j | 0 <= i < j < |b'|
      ensures b'[i] != b'[j]
    {
      var i', j' := if i < |b1| then i else i + 1, if j < |b1| then j else j + 1;
      assert b'[i] == b[i'] && b'[j] == b[j'];
    }
    forall y
      ensures y in b' <==> y in b && y != x
    {
      if y in b' {
        var k :| 0 <= k < |b'| && b'[k] == y;
        var k' := if k < |b1| then k else k + 1;
        assert b[k'] == y && b[|b1|] == x && k' != |b1|;
      }
      if y in b && y != x {
        var k :| 0 <= k < |b| && b[k] == y;
        assert k != |b1|;
        var k' := if k < |b1| then k else k - 1;
        assert b'[k'] == y;
      }
    }
  }

  /** A sequence with no elements is empty. */
  lemma NothingIsEmpty<T>(s: seq<T>)
    requires forall x :: x !in s
    ensures s == []
  {
    if s != [] {
      HeadIsIn(s);
      assert false;
    }
  }

  /** The first element of a non-empty sequence occurs in it. */
  lemma HeadIsIn<T>(s: seq<T>)
    requires s != []
    ensures s[0] in s
  {
  }
}
