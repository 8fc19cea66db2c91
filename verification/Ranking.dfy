/** Sorting by a comparison that need not tell every two elements apart. */
module Ranking {
  type Less<!T> = (T, T) -> bool

  /** After the elements it does not precede: equal elements keep their order. */
  function Insert<T>(less: Less<T>, x: T, s: seq<T>): seq<T> {
    if s == [] then [x]
    else if less(x, s[0]) then [x] + s
    else [s[0]] + Insert(less, x, s[1..])
  }

  function Sort<T>(less: Less<T>, s: seq<T>): seq<T>
    decreases |s|
  {
    if s == [] then [] else Insert(less, s[|s| - 1], Sort(less, s[..|s| - 1]))
  }

  ghost predicate Orders<T(!new)>(less: Less<T>) {
    && (forall a, b :: less(a, b) ==> !less(b, a))
    && (forall a, b, c :: !less(b, a) && !less(c, b) ==> !less(c, a))
  }

  ghost predicate Sorted<T>(less: Less<T>, s: seq<T>) {
    forall i, j :: 0 <= i < j < |s| ==> !less(s[j], s[i])
  }

  /** An element that no other precedes may come first. */
  lemma ConsSorted<T>(less: Less<T>, x: T, s: seq<T>)
    requires Sorted(less, s) && forall k :: 0 <= k < |s| ==> !less(s[k], x)
    ensures Sorted(less, [x] + s)
  {
    var all := [x] + s;
    forall i, j | 0 <= i < j < |all| ensures !less(all[j], all[i]) {
      assert all[j] == s[j - 1];
      assert i > 0 ==> all[i] == s[i - 1];
    }
  }

  lemma {:induction false} InsertSame<T>(less: Less<T>, x: T, s: seq<T>)
    ensures multiset(Insert(less, x, s)) == multiset(s) + multiset{x}
  {
    if s != [] && !less(x, s[0]) {
      InsertSame(less, x, s[1..]);
      assert s == [s[0]] + s[1..];
    }
  }

  lemma {:induction false} InsertKeeps<T(!new)>(less: Less<T>, x: T, s: seq<T>)
    requires Orders(less) && Sorted(less, s)
    ensures Sorted(less, Insert(less, x, s))
  {
    if s != [] && less(x, s[0]) {
      forall k | 0 <= k < |s| ensures !less(s[k], x) {
        assert !less(s[0], x);
        assert !less(s[k], s[0]);
      }
      ConsSorted(less, x, s);
    } else if s != [] {
      var rest := Insert(less, x, s[1..]);
      InsertKeeps(less, x, s[1..]);
      InsertSame(less, x, s[1..]);
      forall k | 0 <= k < |rest| ensures !less(rest[k], s[0]) {
        assert rest[k] in multiset(rest);
        assert rest[k] == x || rest[k] in s[1..];
      }
      ConsSorted(less, s[0], rest);
    }
  }

  /** Sorting rearranges into order. */
  lemma {:induction false} SortOrders<T(!new)>(less: Less<T>, s: seq<T>)
    requires Orders(less)
    ensures Sorted(less, Sort(less, s))
    ensures multiset(Sort(less, s)) == multiset(s)
    ensures |Sort(less, s)| == |s|
    decreases |s|
  {
    if s != [] {
      SortOrders(less, s[..|s| - 1]);
      assert s == s[..|s| - 1] + [s[|s| - 1]];
      InsertKeeps(less, s[|s| - 1], Sort(less, s[..|s| - 1]));
      InsertSame(less, s[|s| - 1], Sort(less, s[..|s| - 1]));
    }
    assert |multiset(Sort(less, s))| == |multiset(s)|;
  }
}
