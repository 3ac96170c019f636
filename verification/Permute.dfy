/** Concatenations and sums over a sequence do not depend on its order. */
module Permute {

  function FlatMap<T, D>(f: T -> seq<D>, s: seq<T>): seq<D> {
    if s == [] then [] else FlatMap(f, s[..|s| - 1]) + f(s[|s| - 1])
  }

  function SumOf<T>(f: T -> nat, s: seq<T>): nat {
    if s == [] then 0 else SumOf(f, s[..|s| - 1]) + f(s[|s| - 1])
  }

  lemma {:induction false} FlatMapConcat<T, D>(f: T -> seq<D>, a: seq<T>, b: seq<T>)
    ensures FlatMap(f, a + b) == FlatMap(f, a) + FlatMap(f, b)
  {
    if b == [] {
      assert a + b == a;
    } else {
      var n := |b| - 1;
      FlatMapConcat(f, a, b[..n]);
      assert (a + b)[..|a| + n] == a + b[..n] && (a + b)[|a| + n] == b[n];
      assert FlatMap(f, a + b) == (FlatMap(f, a) + FlatMap(f, b[..n])) + f(b[n]);
      assert FlatMap(f, b) == FlatMap(f, b[..n]) + f(b[n]);
    }
  }

  lemma {:induction false} SumOfConcat<T>(f: T -> nat, a: seq<T>, b: seq<T>)
    ensures SumOf(f, a + b) == SumOf(f, a) + SumOf(f, b)
  {
    if b == [] {
      assert a + b == a;
    } else {
      var n := |b| - 1;
      SumOfConcat(f, a, b[..n]);
      assert (a + b)[..|a| + n] == a + b[..n];
    }
  }

  /** If two sequences have the same elements, the last of one can be found in the other, and
      what remains has the same elements again. */
  lemma MatchLast<T>(a: seq<T>, b: seq<T>) returns (p: seq<T>, q: seq<T>)
    requires a != [] && multiset(a) == multiset(b)
    ensures b == p + [a[|a| - 1]] + q && multiset(a[..|a| - 1]) == multiset(p + q)
  {
    var n := |a| - 1;
    var x := a[n];
    assert a == a[..n] + [x];
    assert x in multiset(b);
    var k :| 0 <= k < |b| && b[k] == x;
    p, q := b[..k], b[k + 1..];
    assert b == p + [x] + q;
    assert multiset(a[..n]) == multiset(a) - multiset{x};
    assert multiset(p + q) == multiset(b) - multiset{x};
  }

  lemma EmptyMatch<T>(b: seq<T>)
    requires multiset(b) == multiset{}
    ensures b == []
  {
    assert |multiset(b)| == |b|;
  }

  lemma {:induction false} FlatMapOrderFree<T, D>(f: T -> seq<D>, a: seq<T>, b: seq<T>)
    requires multiset(a) == multiset(b)
    ensures multiset(FlatMap(f, a)) == multiset(FlatMap(f, b))
    decreases |a|
  {
    if a == [] {
      EmptyMatch(b);
    } else {
      var n := |a| - 1;
      var p, q := MatchLast(a, b);
      FlatMapOrderFree(f, a[..n], p + q);
      FlatMapConcat(f, p, q);
      FlatMapConcat(f, p + [a[n]], q);
      FlatMapLast(f, p, a[n]);
    }
  }

  lemma FlatMapEmpty<T, D>(f: T -> seq<D>)
    ensures FlatMap(f, []) == []
  {
  }

  lemma FlatMapLast<T, D>(f: T -> seq<D>, s: seq<T>, x: T)
    ensures FlatMap(f, s + [x]) == FlatMap(f, s) + f(x)
  {
    assert (s + [x])[..|s|] == s;
  }

  lemma SumOfLast<T>(f: T -> nat, s: seq<T>, x: T)
    ensures SumOf(f, s + [x]) == SumOf(f, s) + f(x)
  {
    assert (s + [x])[..|s|] == s;
  }

  lemma {:induction false} SumOfOrderFree<T>(f: T -> nat, a: seq<T>, b: seq<T>)
    requires multiset(a) == multiset(b)
    ensures SumOf(f, a) == SumOf(f, b)
    decreases |a|
  {
    if a == [] {
      EmptyMatch(b);
    } else {
      var n := |a| - 1;
      var p, q := MatchLast(a, b);
      SumOfOrderFree(f, a[..n], p + q);
      SumOfConcat(f, p, q);
      SumOfConcat(f, p + [a[n]], q);
      SumOfLast(f, p, a[n]);
    }
  }
}
