/** Sums and images of sequences, which do not depend on the order of the elements. */
module Tally {
  function Sum<T>(f: T -> nat, s: seq<T>): nat
    decreases |s|
  {
    if s == [] then 0 else Sum(f, s[..|s| - 1]) + f(s[|s| - 1])
  }

  function Map<T, U>(f: T -> U, s: seq<T>): (r: seq<U>)
    ensures |r| == |s| && forall i :: 0 <= i < |s| ==> r[i] == f(s[i])
    decreases |s|
  {
    if s == [] then [] else Map(f, s[..|s| - 1]) + [f(s[|s| - 1])]
  }

  lemma SumStep<T>(f: T -> nat, s: seq<T>, n: nat)
    requires n < |s|
    ensures Sum(f, s[..n + 1]) == Sum(f, s[..n]) + f(s[n])
  {
    assert s[..n + 1][..n] == s[..n];
  }

  lemma SumPush<T>(f: T -> nat, s: seq<T>, x: T)
    ensures Sum(f, s + [x]) == Sum(f, s) + f(x)
  {
    assert (s + [x])[..|s|] == s;
  }

  lemma {:induction false} SumConcat<T>(f: T -> nat, a: seq<T>, b: seq<T>)
    ensures Sum(f, a + b) == Sum(f, a) + Sum(f, b)
    decreases |b|
  {
    if b == [] {
      assert a + b == a;
    } else {
      assert (a + b)[..|a + b| - 1] == a + b[..|b| - 1];
      SumConcat(f, a, b[..|b| - 1]);
    }
  }

  lemma MapConcat<T, U>(f: T -> U, a: seq<T>, b: seq<T>)
    ensures Map(f, a + b) == Map(f, a) + Map(f, b)
  {
  }

  /** A rearrangement of a sequence holds its last element somewhere. */
  lemma Taken<T>(a: seq<T>, b: seq<T>) returns (before: seq<T>, after: seq<T>)
    requires multiset(a) == multiset(b) && a != []
    ensures b == before + [a[|a| - 1]] + after
    ensures multiset(a[..|a| - 1]) == multiset(before + after)
  {
    var x := a[|a| - 1];
    assert a == a[..|a| - 1] + [x];
    assert x in multiset(b);
    var i :| 0 <= i < |b| && b[i] == x;
    before, after := b[..i], b[i + 1..];
    assert b == before + [x] + after;
    assert multiset(b) == multiset(before) + multiset{x} + multiset(after);
    assert multiset(a[..|a| - 1]) == multiset(a) - multiset{x};
  }

  lemma SumAround<T>(f: T -> nat, before: seq<T>, x: T, after: seq<T>)
    ensures Sum(f, before + [x] + after) == Sum(f, before + after) + f(x)
  {
    SumConcat(f, before, after);
    SumConcat(f, before + [x], after);
    assert (before + [x])[..|before|] == before;
  }

  lemma MapAround<T, U>(f: T -> U, before: seq<T>, x: T, after: seq<T>)
    ensures multiset(Map(f, before + [x] + after)) == multiset(Map(f, before + after)) + multiset{f(x)}
  {
    MapConcat(f, before, after);
    MapConcat(f, before + [x], after);
    assert Map(f, before + [x]) == Map(f, before) + [f(x)];
  }

  /** Rearranging changes neither the sum nor the image. */
  lemma {:induction false} SumRearranged<T>(f: T -> nat, a: seq<T>, b: seq<T>)
    requires multiset(a) == multiset(b)
    ensures Sum(f, a) == Sum(f, b)
    decreases |a|
  {
    assert |multiset(a)| == |a| && |multiset(b)| == |b|;
    if a != [] {
      var before, after := Taken(a, b);
      SumRearranged(f, a[..|a| - 1], before + after);
      SumAround(f, before, a[|a| - 1], after);
    }
  }

  lemma {:induction false} MapRearranged<T, U>(f: T -> U, a: seq<T>, b: seq<T>)
    requires multiset(a) == multiset(b)
    ensures multiset(Map(f, a)) == multiset(Map(f, b))
    decreases |a|
  {
    assert |multiset(a)| == |a| && |multiset(b)| == |b|;
    if a != [] {
      var front, x := a[..|a| - 1], a[|a| - 1];
      var before, after := Taken(a, b);
      MapRearranged(f, front, before + after);
      MapAround(f, before, x, after);
      assert Map(f, a) == Map(f, front) + [f(x)];
    }
  }

  /** The positions of the elements that meet a condition. */
  function Where<T>(p: T -> bool, s: seq<T>): set<nat> {
    set i: nat | 0 <= i < |s| && p(s[i])
  }

  lemma WhereSnoc<T>(p: T -> bool, front: seq<T>, x: T)
    ensures Where(p, front + [x]) == Where(p, front) + (if p(x) then {|front|} else {})
    ensures |front| !in Where(p, front)
  {
    assert forall i :: 0 <= i < |front| ==> (front + [x])[i] == front[i];
  }

  /** Summing ones over the elements that meet a condition counts them. */
  lemma {:induction false} SumIsSize<T>(f: T -> nat, p: T -> bool, s: seq<T>)
    requires forall x :: f(x) == if p(x) then 1 else 0
    ensures Sum(f, s) == |Where(p, s)|
    decreases |s|
  {
    if s == [] {
      assert Where(p, s) == {};
    } else {
      var front, x := s[..|s| - 1], s[|s| - 1];
      assert front + [x] == s;
      SumIsSize(f, p, front);
      WhereSnoc(p, front, x);
    }
  }
}
