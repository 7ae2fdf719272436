/**
 The contract of sort.Slice and sort.Strings: the result is some sorted permutation of
 the input. Neither sort is stable, so the result is determined only when elements that
 compare equal are equal.
 */
module Sorting {

  ghost predicate Sorted<T>(leq: (T, T) -> bool, s: seq<T>) {
    forall i, j :: 0 <= i < j < |s| ==> leq(s[i], s[j])
  }

  ghost predicate IsSorting<T>(leq: (T, T) -> bool, s: seq<T>, out: seq<T>) {
    multiset(out) == multiset(s) && Sorted(leq, out)
  }

  /** leq is total and transitive on the elements of s. */
  ghost predicate IsOrder<T>(leq: (T, T) -> bool, s: seq<T>) {
    && (forall x, y :: x in s && y in s ==> leq(x, y) || leq(y, x))
    && (forall x, y, z :: x in s && y in s && z in s && leq(x, y) && leq(y, z) ==> leq(x, z))
  }

  /** Elements of s that compare equal are equal. */
  ghost predicate NoTies<T>(leq: (T, T) -> bool, s: seq<T>) {
    forall x, y :: x in s && y in s && leq(x, y) && leq(y, x) ==> x == y
  }

  function Insert<T>(leq: (T, T) -> bool, x: T, s: seq<T>): (out: seq<T>)
    ensures multiset(out) == multiset(s) + multiset{x}
  {
    if s == [] || leq(x, s[0]) then [x] + s
    else
      assert s == [s[0]] + s[1..];
      [s[0]] + Insert(leq, x, s[1..])
  }

  function Sort<T>(leq: (T, T) -> bool, s: seq<T>): (out: seq<T>)
    ensures multiset(out) == multiset(s)
  {
    if s == [] then []
    else
      assert s == s[..|s| - 1] + [s[|s| - 1]];
      Insert(leq, s[|s| - 1], Sort(leq, s[..|s| - 1]))
  }

  lemma InSorted<T>(leq: (T, T) -> bool, h: T, s: seq<T>)
    requires Sorted(leq, s) && forall y :: y in s ==> leq(h, y)
    ensures Sorted(leq, [h] + s)
  {
  }

  lemma MultisetIn<T>(s: seq<T>, m: multiset<T>)
    requires multiset(s) == m
    ensures forall y :: y in s <==> y in m
  {
  }

  /** x can be placed among the elements of s. */
  ghost predicate Fits<T>(leq: (T, T) -> bool, x: T, s: seq<T>) {
    && (forall y :: y in s ==> leq(x, y) || leq(y, x))
    && (forall y, z :: y in s && z in s && leq(x, y) && leq(y, z) ==> leq(x, z))
  }

  lemma BelowSorted<T>(leq: (T, T) -> bool, x: T, s: seq<T>)
    requires s != [] && Sorted(leq, s) && Fits(leq, x, s) && leq(x, s[0])
    ensures forall y :: y in s ==> leq(x, y)
  {
    forall i | 0 <= i < |s| ensures leq(x, s[i]) {
      assert s[0] in s && s[i] in s;
    }
  }

  lemma {:induction false} InsertSorts<T>(leq: (T, T) -> bool, x: T, s: seq<T>)
    requires Fits(leq, x, s) && Sorted(leq, s)
    ensures Sorted(leq, Insert(leq, x, s))
  {
    if s != [] {
      if leq(x, s[0]) {
        BelowSorted(leq, x, s);
        InSorted(leq, x, s);
      } else {
        var h, tail := s[0], s[1..];
        assert h in s && forall y :: y in tail ==> y in s;
        InsertSorts(leq, x, tail);
        var out := Insert(leq, x, tail);
        forall y | y in out ensures leq(h, y) { assert y in multiset(out) && (y == x || y in multiset(tail)); }
        InSorted(leq, h, out);
      }
    }
  }

  /** A sorted permutation exists, and Sort finds one. */
  lemma {:induction false} SortSorts<T>(leq: (T, T) -> bool, s: seq<T>)
    requires IsOrder(leq, s)
    ensures IsSorting(leq, s, Sort(leq, s))
  {
    if s != [] {
      var n := |s| - 1;
      assert s == s[..n] + [s[n]];
      SortSorts(leq, s[..n]);
      var sub := Sort(leq, s[..n]);
      forall y | y in sub ensures y in s { assert y in multiset(s[..n]); }
      InsertSorts(leq, s[n], sub);
    }
  }

  /** The last element of a sorted list is its greatest. */
  lemma LastIsGreatest<T>(leq: (T, T) -> bool, a: seq<T>, x: T)
    requires Sorted(leq, a) && x in a
    ensures x == a[|a| - 1] || leq(x, a[|a| - 1])
  {
  }

  lemma DropLast<T>(a: seq<T>)
    requires a != []
    ensures multiset(a[..|a| - 1]) == multiset(a) - multiset{a[|a| - 1]}
  {
    assert a == a[..|a| - 1] + [a[|a| - 1]];
  }

  lemma SameLength<T>(a: seq<T>, b: seq<T>)
    requires multiset(a) == multiset(b)
    ensures |a| == |b|
  {
    assert |multiset(a)| == |a| && |multiset(b)| == |b|;
  }

  lemma LastsAgree<T>(leq: (T, T) -> bool, a: seq<T>, b: seq<T>)
    requires multiset(a) == multiset(b) && Sorted(leq, a) && Sorted(leq, b) && NoTies(leq, a)
    requires a != [] && |a| == |b|
    ensures a[|a| - 1] == b[|b| - 1]
  {
    var x, y := a[|a| - 1], b[|b| - 1];
    assert x in multiset(b) && y in multiset(a);
    LastIsGreatest(leq, b, x);
    LastIsGreatest(leq, a, y);
  }

  lemma PrefixKeepsOrder<T>(leq: (T, T) -> bool, a: seq<T>)
    requires a != [] && Sorted(leq, a)
    ensures Sorted(leq, a[..|a| - 1])
    ensures NoTies(leq, a) ==> NoTies(leq, a[..|a| - 1])
  {
    assert forall x :: x in a[..|a| - 1] ==> x in a;
  }

  /** Without ties there is only one sorted permutation. */
  lemma {:induction false} SortingUnique<T>(leq: (T, T) -> bool, a: seq<T>, b: seq<T>)
    requires multiset(a) == multiset(b) && Sorted(leq, a) && Sorted(leq, b) && NoTies(leq, a)
    ensures a == b
  {
    SameLength(a, b);
    if a != [] {
      var n := |a| - 1;
      LastsAgree(leq, a, b);
      DropLast(a);
      DropLast(b);
      PrefixKeepsOrder(leq, a);
      PrefixKeepsOrder(leq, b);
      SortingUnique(leq, a[..n], b[..n]);
      assert a == a[..n] + [a[n]] && b == b[..n] + [b[n]];
    }
  }

  /** A list that is already sorted without ties is what every sort of it returns. */
  lemma SortOfSorted<T>(leq: (T, T) -> bool, s: seq<T>, out: seq<T>)
    requires Sorted(leq, s) && NoTies(leq, s) && IsSorting(leq, s, out)
    ensures out == s
  {
    SortingUnique(leq, s, out);
  }

  // ---------------------------------------------------------------- sorting by an image

  function Image<A, B>(f: A -> B, s: seq<A>): seq<B> { seq(|s|, i requires 0 <= i < |s| => f(s[i])) }

  function Without<T>(s: seq<T>, i: nat): seq<T>
    requires i < |s|
  {
    s[..i] + s[i + 1..]
  }

  lemma WithoutCounts<T>(s: seq<T>, i: nat)
    requires i < |s|
    ensures multiset(s) == multiset(Without(s, i)) + multiset{s[i]}
    ensures multiset(Without(s, i)) == multiset(s) - multiset{s[i]}
  {
    assert s == s[..i] + [s[i]] + s[i + 1..];
  }

  lemma WithoutImage<A, B>(f: A -> B, s: seq<A>, i: nat)
    requires i < |s|
    ensures Image(f, Without(s, i)) == Without(Image(f, s), i)
  {
  }

  /** Permuting a list permutes its image. */
  lemma {:induction false} PermutedImage<A, B>(f: A -> B, a: seq<A>, b: seq<A>)
    requires multiset(a) == multiset(b)
    ensures multiset(Image(f, a)) == multiset(Image(f, b))
  {
    SameLength(a, b);
    if a != [] {
      assert a[0] in multiset(b);
      var i :| 0 <= i < |b| && b[i] == a[0];
      WithoutCounts(a, 0);
      WithoutCounts(b, i);
      PermutedImage(f, Without(a, 0), Without(b, i));
      WithoutImage(f, a, 0);
      WithoutImage(f, b, i);
      WithoutCounts(Image(f, a), 0);
      WithoutCounts(Image(f, b), i);
    }
  }

  // ---------------------------------------------------------------- counting

  /** The positions at which a predicate holds. */
  function Where<T>(p: T -> bool, s: seq<T>): (at: set<nat>)
    ensures forall i: nat :: i in at <==> i < |s| && p(s[i])
  {
    set i: nat | i < |s| && p(s[i])
  }

  lemma WhereLast<T>(p: T -> bool, s: seq<T>, x: T)
    ensures |Where(p, s + [x])| == |Where(p, s)| + (if p(x) then 1 else 0)
  {
    var n := |s|;
    assert n !in Where(p, s);
    if p(x) {
      assert Where(p, s + [x]) == Where(p, s) + {n};
    } else {
      assert Where(p, s + [x]) == Where(p, s);
    }
  }

  ghost function Is<T>(x: T): T -> bool { (y: T) => y == x }

  /** An element occurs as often as there are positions that hold it. */
  lemma {:induction false} CountWhere<T>(s: seq<T>, x: T)
    ensures multiset(s)[x] == |Where(Is(x), s)|
  {
    var p := Is(x);
    if s == [] {
      assert Where(p, s) == {};
    } else {
      var n := |s| - 1;
      assert s == s[..n] + [s[n]];
      CountWhere(s[..n], x);
      WhereLast(p, s[..n], s[n]);
    }
  }
}
