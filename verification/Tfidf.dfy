/** The lexical score of the scan, over the reals. */
module Tfidf {
  import opened Text
  import Tally

  /** What the score uses of the logarithm. */
  ghost predicate LogLike(ln: real -> real) {
    ln(1.0) == 0.0 && forall x, y :: 0.0 < x <= y ==> ln(x) <= ln(y)
  }

  function Contains(docs: seq<seq<string>>, term: string): nat
    decreases |docs|
  {
    if docs == [] then 0
    else Contains(docs[..|docs| - 1], term) + (if term in docs[|docs| - 1] then 1 else 0)
  }

  lemma {:induction false} ContainsBound(docs: seq<seq<string>>, term: string)
    ensures Contains(docs, term) <= |docs|
    ensures (exists i :: 0 <= i < |docs| && term in docs[i]) ==> Contains(docs, term) >= 1
    decreases |docs|
  {
    if docs != [] {
      var front := docs[..|docs| - 1];
      assert docs == front + [docs[|docs| - 1]];
      ContainsBound(front, term);
    }
  }

  /** The document frequency: for every term, the number of candidates that contain it. */
  method DocumentFrequency(docs: seq<seq<string>>) returns (df: map<string, nat>)
    ensures forall t :: (if t in df then df[t] else 0) == Contains(docs, t)
  {
    df := map[];
    for i := 0 to |docs|
      invariant forall t :: (if t in df then df[t] else 0) == Contains(docs[..i], t)
    {
      assert docs[..i + 1][..i] == docs[..i];
      var left := set t | t in docs[i];
      ghost var before := df;
      while left != {}
        invariant forall t :: t in left ==> t in docs[i]
        invariant forall t :: (if t in df then df[t] else 0) ==
                    (if t in before then before[t] else 0) + (if t in docs[i] && t !in left then 1 else 0)
        decreases |left|
      {
        var t :| t in left;
        left := left - {t};
        df := df[t := (if t in df then df[t] else 0) + 1];
      }
    }
    assert docs[..|docs|] == docs;
  }

  function Count(doc: seq<string>, term: string): nat {
    multiset(doc)[term]
  }

  function Idf(ln: real -> real, df: nat, n: nat): real {
    ln((n as real + 1.0) / (df as real + 1.0)) + 1.0
  }

  /** What one query term contributes. */
  function Part(ln: real -> real, tf: nat, df: nat, n: nat): real {
    if tf == 0 then 0.0 else (tf as real / (tf as real + 1.0)) * Idf(ln, df, n)
  }

  function Most(ln: real -> real, n: nat): real {
    ln(n as real + 1.0) + 1.0
  }

  lemma ScaledBelow(a: real, b: real, m: real)
    requires 0.0 < a < 1.0 && 1.0 <= b <= m
    ensures 0.0 < a * b < m
  {
    assert a * b < 1.0 * b;
    assert a * b > 0.0;
  }

  lemma Sign(x: real, y: real)
    requires y > 0.0
    ensures x * y >= 0.0 <==> x >= 0.0
    ensures x * y == 0.0 <==> x == 0.0
  {
  }

  lemma Ratio(a: real, b: real)
    requires 0.0 <= a && 0.0 < b
    ensures 0.0 <= a / b && (a / b > 0.0 <==> a > 0.0)
    ensures a / b <= 1.0 <==> a <= b
    ensures a / b == 1.0 <==> a == b
  {
    assert (a / b) * b == a;
    Sign(a / b, b);
    Sign(1.0 - a / b, b);
    assert (1.0 - a / b) * b == b - a;
  }

  lemma QuotientBounds(x: real, y: real)
    requires 1.0 <= y <= x
    ensures 1.0 <= x / y <= x
  {
    assert (x / y) * y == x;
    Sign(x / y - 1.0, y);
    assert (x / y - 1.0) * y == x - y;
    Sign(x - x / y, y);
    Sign(y - 1.0, x);
    assert (x - x / y) * y == (y - 1.0) * x;
  }

  lemma PartBounds(ln: real -> real, tf: nat, df: nat, n: nat)
    requires LogLike(ln) && n >= 1 && df <= n
    ensures 0.0 <= Part(ln, tf, df, n) < Most(ln, n)
    ensures Part(ln, tf, df, n) > 0.0 <==> tf > 0
    ensures Most(ln, n) >= 1.0
  {
    QuotientBounds(n as real + 1.0, df as real + 1.0);
    var q := (n as real + 1.0) / (df as real + 1.0);
    assert ln(1.0) <= ln(q) <= ln(n as real + 1.0);
    if tf > 0 {
      Ratio(tf as real, tf as real + 1.0);
      ScaledBelow(tf as real / (tf as real + 1.0), Idf(ln, df, n), Most(ln, n));
    }
  }

  /** The sum over the query terms. */
  function Sum(ln: real -> real, query: seq<string>, doc: seq<string>, docs: seq<seq<string>>, n: nat): real
    decreases |query|
  {
    if query == [] then 0.0
    else
      var t := query[|query| - 1];
      Sum(ln, query[..|query| - 1], doc, docs, n) + Part(ln, Count(doc, t), Contains(docs, t), n)
  }

  /** Adding a part below `m` to a sum below `k` times `m`. */
  lemma AddPart(s: real, k: nat, p: real, m: real)
    requires 0.0 <= s <= k as real * m && 0.0 <= p < m
    ensures 0.0 <= s + p < (k + 1) as real * m
  {
    assert (k + 1) as real * m == k as real * m + m;
  }

  lemma {:induction false} SumBounds(ln: real -> real, query: seq<string>, doc: seq<string>, docs: seq<seq<string>>,
                                     n: nat)
    requires LogLike(ln) && n >= 1 && |docs| <= n
    ensures 0.0 <= Sum(ln, query, doc, docs, n) <= |query| as real * Most(ln, n)
    ensures query != [] ==> Sum(ln, query, doc, docs, n) < |query| as real * Most(ln, n)
    decreases |query|
  {
    if query != [] {
      var front, t := query[..|query| - 1], query[|query| - 1];
      SumBounds(ln, front, doc, docs, n);
      ContainsBound(docs, t);
      PartBounds(ln, Count(doc, t), Contains(docs, t), n);
      AddPart(Sum(ln, front, doc, docs, n), |front|, Part(ln, Count(doc, t), Contains(docs, t), n), Most(ln, n));
    }
  }

  lemma {:induction false} SumPositive(ln: real -> real, query: seq<string>, doc: seq<string>, docs: seq<seq<string>>,
                                       n: nat)
    requires LogLike(ln) && n >= 1 && |docs| <= n
    ensures Sum(ln, query, doc, docs, n) > 0.0 <==> Shares(query, doc)
    decreases |query|
  {
    if query != [] {
      var front, t := query[..|query| - 1], query[|query| - 1];
      assert query == front + [t];
      SumPositive(ln, front, doc, docs, n);
      SumBounds(ln, front, doc, docs, n);
      ContainsBound(docs, t);
      PartBounds(ln, Count(doc, t), Contains(docs, t), n);
      assert Count(doc, t) > 0 <==> t in doc;
      assert Shares(query, doc) <==> Shares(front, doc) || t in doc;
    }
  }

  /** The score: the sum over its greatest possible value, clamped to 1. */
  method Score(ln: real -> real, query: seq<string>, doc: seq<string>, ghost docs: seq<seq<string>>, df: map<string,
               nat>, n: nat)
    returns (score: real)
    requires LogLike(ln) && n >= 1 && |docs| <= n
    requires forall t :: (if t in df then df[t] else 0) == Contains(docs, t)
    ensures query == [] ==> score == 0.0
    ensures query != [] ==> 0.0 < |query| as real * Most(ln, n)
    ensures query != [] ==> score == Sum(ln, query, doc, docs, n) / (|query| as real * Most(ln, n))
    ensures query != [] ==> IsScore(ln, query, doc, docs, n, score)
    ensures 0.0 <= score < 1.0
    ensures score > 0.0 <==> Shares(query, doc)
  {
    var sum := Added(ln, query, doc, docs, df, n);
    var most := Greatest(ln, query, n);
    if query == [] {
      return 0.0;
    }
    SumBounds(ln, query, doc, docs, n);
    SumPositive(ln, query, doc, docs, n);
    Ratio(sum, most);
    score := if sum / most > 1.0 then 1.0 else sum / most;
    QuotientIsScore(ln, query, doc, docs, n, sum, most);
  }

  lemma SumStep(ln: real -> real, query: seq<string>, i: nat, doc: seq<string>, docs: seq<seq<string>>, n: nat)
    requires i < |query|
    ensures Sum(ln, query[..i + 1], doc, docs, n) ==
            Sum(ln, query[..i], doc, docs, n) + Part(ln, Count(doc, query[i]), Contains(docs, query[i]), n)
    ensures Part(ln, 0, Contains(docs, query[i]), n) == 0.0
  {
    assert query[..i + 1][..i] == query[..i];
  }

  method Added(ln: real -> real, query: seq<string>, doc: seq<string>, ghost docs: seq<seq<string>>, df: map<string,
               nat>, n: nat)
    returns (sum: real)
    requires forall t :: (if t in df then df[t] else 0) == Contains(docs, t)
    ensures sum == Sum(ln, query, doc, docs, n)
  {
    sum := 0.0;
    for i := 0 to |query|
      invariant sum == Sum(ln, query[..i], doc, docs, n)
    {
      var tf := Count(doc, query[i]);
      SumStep(ln, query, i, doc, docs, n);
      if tf > 0 {
        sum := sum + Part(ln, tf, if query[i] in df then df[query[i]] else 0, n);
      }
    }
    assert query[..|query|] == query;
  }

  method Greatest(ln: real -> real, query: seq<string>, n: nat) returns (most: real)
    requires LogLike(ln) && n >= 1
    ensures most == |query| as real * Most(ln, n)
    ensures query != [] ==> most > 0.0
  {
    PartBounds(ln, 0, 0, n);
    most := 0.0;
    for i := 0 to |query|
      invariant most == i as real * Most(ln, n) && most >= 0.0 && (i > 0 ==> most > 0.0)
    {
      OneMore(i, Most(ln, n));
      most := most + (ln((n as real + 1.0) / 1.0) + 1.0);
    }
  }

  lemma OneMore(k: nat, m: real)
    ensures (k + 1) as real * m == k as real * m + m
  {
  }

  /******* The score, said of the counts alone *******/

  /** How many candidates contain a term. */
  function Holding(docs: seq<seq<string>>, term: string): nat {
    |Tally.Where((doc: seq<string>) => term in doc, docs)|
  }

  lemma {:induction false} ContainsIsHolding(docs: seq<seq<string>>, term: string)
    ensures Contains(docs, term) == Holding(docs, term)
    decreases |docs|
  {
    var p := (doc: seq<string>) => term in doc;
    if docs == [] {
      assert Tally.Where(p, docs) == {};
    } else {
      var front, doc := docs[..|docs| - 1], docs[|docs| - 1];
      assert front + [doc] == docs;
      ContainsIsHolding(front, term);
      Tally.WhereSnoc(p, front, doc);
    }
  }

  /** What a term weighs: its frequency in the document, dampened below one, times its rarity among the candidates. */
  ghost predicate WeighsIn(ln: real -> real, tf: nat, holding: nat, n: nat, weight: real) {
    weight * (tf as real + 1.0) == tf as real * (ln((n as real + 1.0) / (holding as real + 1.0)) + 1.0)
  }

  /** The terms of a query weigh in one after the other. */
  ghost predicate WeighedAll(ln: real -> real, query: seq<string>, doc: seq<string>, docs: seq<seq<string>>, n: nat,
                             sums: seq<real>)
  {
    && |sums| == |query| + 1 && sums[0] == 0.0
    && forall i :: 0 <= i < |query| ==>
         WeighsIn(ln, multiset(doc)[query[i]], Holding(docs, query[i]), n, sums[i + 1] - sums[i])
  }

  lemma PartWeighsIn(ln: real -> real, tf: nat, df: nat, n: nat)
    ensures WeighsIn(ln, tf, df, n, Part(ln, tf, df, n))
  {
    var x := ln((n as real + 1.0) / (df as real + 1.0)) + 1.0;
    var y := tf as real + 1.0;
    assert (tf as real / y) * y == tf as real;
    assert (tf as real / y) * x * y == (tf as real / y) * y * x;
  }

  lemma {:induction false} SumWeighs(ln: real -> real, query: seq<string>, doc: seq<string>, docs: seq<seq<string>>,
                                     n: nat) returns (sums: seq<real>)
    ensures WeighedAll(ln, query, doc, docs, n, sums) && sums[|query|] == Sum(ln, query, doc, docs, n)
    decreases |query|
  {
    if query == [] {
      sums := [0.0];
    } else {
      var front, t := query[..|query| - 1], query[|query| - 1];
      var before := SumWeighs(ln, front, doc, docs, n);
      sums := before + [Sum(ln, query, doc, docs, n)];
      PartWeighsIn(ln, Count(doc, t), Contains(docs, t), n);
      ContainsIsHolding(docs, t);
      assert sums[|query|] - sums[|front|] == Part(ln, Count(doc, t), Contains(docs, t), n);
      forall i | 0 <= i < |front|
        ensures WeighsIn(ln, multiset(doc)[query[i]], Holding(docs, query[i]), n, sums[i + 1] - sums[i])
      {
        assert front[i] == query[i] && sums[i] == before[i] && sums[i + 1] == before[i + 1];
      }
    }
  }

  /** The score is what the terms weigh together, as a share of what they would weigh if they were as rare and as
      frequent as can be. */
  ghost predicate IsScore(ln: real -> real, query: seq<string>, doc: seq<string>, docs: seq<seq<string>>, n: nat,
                          score: real)
  {
    exists sums :: WeighedAll(ln, query, doc, docs, n, sums) &&
                   score * (|query| as real * (ln(n as real + 1.0) + 1.0)) == sums[|query|]
  }

  lemma Quotient(x: real, m: real)
    requires m > 0.0
    ensures (x / m) * m == x
  {
  }

  lemma ScoreOfSums(ln: real -> real, query: seq<string>, doc: seq<string>, docs: seq<seq<string>>, n: nat,
                    sums: seq<real>, most: real, score: real)
    requires WeighedAll(ln, query, doc, docs, n, sums) && score * most == sums[|query|]
    requires most == |query| as real * (ln(n as real + 1.0) + 1.0)
    ensures IsScore(ln, query, doc, docs, n, score)
  {
  }

  lemma GreatestIs(ln: real -> real, k: nat, n: nat)
    ensures k as real * Most(ln, n) == k as real * (ln(n as real + 1.0) + 1.0)
  {
  }

  lemma ShareIsScore(ln: real -> real, query: seq<string>, doc: seq<string>, docs: seq<seq<string>>, n: nat, most: real,
                     score: real)
    requires most == |query| as real * (ln(n as real + 1.0) + 1.0)
    requires score * most == Sum(ln, query, doc, docs, n)
    ensures IsScore(ln, query, doc, docs, n, score)
  {
    var sums := SumWeighs(ln, query, doc, docs, n);
    ScoreOfSums(ln, query, doc, docs, n, sums, most, score);
  }

  lemma QuotientIsScore(ln: real -> real, query: seq<string>, doc: seq<string>, docs: seq<seq<string>>, n: nat,
                        sum: real, most: real)
    requires sum == Sum(ln, query, doc, docs, n) && most == |query| as real * Most(ln, n) && most > 0.0
    ensures IsScore(ln, query, doc, docs, n, sum / most)
  {
    Quotient(sum, most);
    GreatestIs(ln, |query|, n);
    ShareIsScore(ln, query, doc, docs, n, most, sum / most);
  }
}
