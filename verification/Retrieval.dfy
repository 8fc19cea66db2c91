/** The two retrievers: the scan of all objects, and the search through the lexical index. */
module Retrieval {
  import opened Model
  import opened Text
  import Tally
  import Temporal
  import Tfidf
  import Ranking

  datatype Query = Query(
    text: Option<string>,
    subject: Option<string>,
    pred: Option<string>,
    target: Option<string>,
    kinds: Option<set<Kind>>,
    believedOnly: bool,
    atTx: Option<Time>,
    atValid: Option<Time>)

  /** Who asks, in which scope, at what time. */
  datatype Asker = Asker(tenant: string, namespace: string, canRead: Obj -> bool, now: Time)

  datatype Weights = Weights(lexical: real, exact: real, recency: real, authority: real, temporal: real)

  const DEFAULT_WEIGHTS := Weights(1.0, 1.5, 0.4, 0.6, 0.8)

  datatype Components = Components(exact: Option<real>, recency: real, authority: Option<real>, temporal: Option<real>)

  datatype Retrieved = Retrieved(id: Id, score: real, parts: Components, lexical: Option<real>)

  predicate Control(k: Kind) {
    k == Space || k == Grant
  }

  function Constraints(q: Query): seq<Option<string>> {
    [q.subject, q.pred, q.target]
  }

  function Fields(o: Obj): seq<Option<string>> {
    [o.body.subject, o.body.pred, o.body.target]
  }

  predicate MeetsAll(q: Query, o: Obj) {
    forall i :: 0 <= i < 3 ==> Constraints(q)[i].Some? ==> Fields(o)[i] == Constraints(q)[i]
  }

  /** A constraint filters, and only a fact can meet one. */
  predicate MatchesStructural(q: Query, o: Obj) {
    Constraints(q) == [None, None, None] || (o.kind == Fact && MeetsAll(q, o))
  }

  /** What both retrievers ask of every object. */
  predicate Admitted(q: Query, a: Asker, o: Obj) {
    && o.tenant == a.tenant && o.namespace == a.namespace
    && a.canRead(o)
    && (q.kinds.Some? ==> o.kind in q.kinds.value)
    && (q.believedOnly && o.kind == Fact ==> Temporal.Believed(o, q.atTx))
  }

  /******* Scores *******/

  function Count(b: bool): real {
    if b then 1.0 else 0.0
  }

  function Nonlexical(q: Query, a: Asker, o: Obj, trust: real): Components {
    var asked := Count(q.subject.Some?) + Count(q.pred.Some?) + Count(q.target.Some?);
    var hits := Count(q.subject.Some? && o.body.subject == q.subject) + Count(q.pred.Some? && o.body.pred == q.pred)
                + Count(q.target.Some? && o.body.target == q.target);
    var since := a.now - (if o.body.txFrom.Some? then o.body.txFrom.value else o.createdAt);
    var days := (if since < 0 then 0 else since) as real / 86400.0;
    Components(
      if o.kind == Fact && asked > 0.0 then Some(hits / asked) else None,
      1.0 / (1.0 + days / 30.0),
      if trust == 0.0 then None else Some(trust),
      if o.kind != Fact then None
      else Some(Count(Temporal.BelievedAt(o, if q.atTx.Some? then q.atTx.value else a.now) &&
                      Temporal.ValidAt(o, if q.atValid.Some? then q.atValid.value else a.now))))
  }

  function Weighed(weight: real, part: Option<real>): real {
    if part.None? then 0.0 else weight * part.value
  }

  function Total(w: Weights, c: Components, lexical: Option<real>): real {
    Weighed(w.lexical, lexical) + Weighed(w.exact, c.exact) + w.recency * c.recency
    + Weighed(w.authority, c.authority) + Weighed(w.temporal, c.temporal)
  }

  predicate Ordinary(w: Weights) {
    w.lexical >= 0.0 && w.exact >= 0.0 && w.recency > 0.0 && w.authority >= 0.0 && w.temporal >= 0.0
  }

  lemma WeighedSign(weight: real, part: Option<real>)
    requires weight >= 0.0 && (part.Some? ==> part.value >= 0.0)
    ensures Weighed(weight, part) >= 0.0
  {
  }

  lemma Divided(x: real, y: real)
    requires x >= 0.0 && y > 0.0
    ensures x / y >= 0.0 && (x > 0.0 ==> x / y > 0.0)
  {
  }

  /** Under ordinary weights, and with sources whose trust is not negative, recency alone gives every
      candidate a positive score: the cut at zero removes none. */
  lemma ScoresArePositive(w: Weights, q: Query, a: Asker, o: Obj, trust: real, lexical: Option<real>)
    requires Ordinary(w) && trust >= 0.0 && (lexical.Some? ==> lexical.value >= 0.0)
    ensures Total(w, Nonlexical(q, a, o, trust), lexical) > 0.0
  {
    var c := Nonlexical(q, a, o, trust);
    var since := a.now - (if o.body.txFrom.Some? then o.body.txFrom.value else o.createdAt);
    Divided((if since < 0 then 0 else since) as real / 86400.0, 30.0);
    Divided(1.0, 1.0 + (if since < 0 then 0 else since) as real / 86400.0 / 30.0);
    assert c.recency > 0.0;
    assert c.exact.Some? ==> c.exact.value >= 0.0;
    WeighedSign(w.lexical, lexical);
    WeighedSign(w.exact, c.exact);
    WeighedSign(w.authority, c.authority);
    WeighedSign(w.temporal, c.temporal);
    Positive(w.recency, c.recency);
  }

  /** In particular under the default weights no hit is dropped for its score. */
  lemma DefaultScoresArePositive(q: Query, a: Asker, o: Obj, trust: real, lexical: Option<real>)
    requires trust >= 0.0 && (lexical.Some? ==> lexical.value >= 0.0)
    ensures Total(DEFAULT_WEIGHTS, Nonlexical(q, a, o, trust), lexical) > 0.0
  {
    ScoresArePositive(DEFAULT_WEIGHTS, q, a, o, trust, lexical);
  }

  lemma Positive(x: real, y: real)
    requires x > 0.0 && y > 0.0
    ensures x * y > 0.0
  {
  }

  /******* Scores and hits, said of the query and the object alone *******/

  /** A value that is asked for, and whether the object has it. */
  function Wants(q: Query, o: Obj): seq<(Option<string>, Option<string>)> {
    [(q.subject, o.body.subject), (q.pred, o.body.pred), (q.target, o.body.target)]
  }

  function Asked(): ((Option<string>, Option<string>)) -> bool {
    (want: (Option<string>, Option<string>)) => want.0.Some?
  }

  function Met(): ((Option<string>, Option<string>)) -> bool {
    (want: (Option<string>, Option<string>)) => want.0.Some? && want.1 == want.0
  }

  predicate Within(t: Time, lo: Option<Time>, hi: Option<Time>) {
    (lo.Some? ==> lo.value <= t) && (hi.Some? ==> t < hi.value)
  }

  /** The exact part is the share of the asked values that a fact has; the recency halves in thirty days; authority is
      the trust of the source, unless that is zero; a fact is current or it is not. */
  ghost predicate Measures(q: Query, a: Asker, o: Obj, trust: real, c: Components) {
    && (c.exact.Some? <==> o.kind == Fact && Tally.Where(Asked(), Wants(q, o)) != {})
    && (c.exact.Some? ==> c.exact.value * |Tally.Where(Asked(), Wants(q, o))| as real ==
                          |Tally.Where(Met(), Wants(q, o))| as real)
    && (var began := if o.body.txFrom.Some? then o.body.txFrom.value else o.createdAt;
        var age := if a.now < began then 0 else a.now - began;
        c.recency * (30 * 86400 + age) as real == (30 * 86400) as real)
    && c.authority == (if trust == 0.0 then None else Some(trust))
    && (c.temporal.Some? <==> o.kind == Fact)
    && (c.temporal.Some? ==>
          c.temporal.value ==
          if Within(if q.atTx.Some? then q.atTx.value else a.now, o.body.txFrom, o.txTo) &&
             Within(if q.atValid.Some? then q.atValid.value else a.now, o.body.validFrom, o.body.validTo)
          then 1.0 else 0.0)
  }

  lemma ThreeWhere(p: ((Option<string>, Option<string>)) -> bool, q: Query, o: Obj)
    ensures var wants := Wants(q, o);
            |Tally.Where(p, wants)| as real == Count(p(wants[0])) + Count(p(wants[1])) + Count(p(wants[2]))
  {
    var wants := Wants(q, o);
    assert wants[..1] == [wants[0]] && [] + [wants[0]] == wants[..1];
    assert wants[..1] + [wants[1]] == wants[..2] && wants[..2] + [wants[2]] == wants;
    Tally.WhereSnoc(p, [], wants[0]);
    Tally.WhereSnoc(p, wants[..1], wants[1]);
    Tally.WhereSnoc(p, wants[..2], wants[2]);
    assert Tally.Where(p, []) == {};
  }

  lemma RecencyIs(age: int)
    requires age >= 0
    ensures (1.0 / (1.0 + age as real / 86400.0 / 30.0)) * (30 * 86400 + age) as real == (30 * 86400) as real
  {
    var x := 1.0 + age as real / 86400.0 / 30.0;
    assert x * 2592000.0 == (30 * 86400 + age) as real;
    assert (1.0 / x) * x == 1.0;
    assert (1.0 / x) * (x * 2592000.0) == ((1.0 / x) * x) * 2592000.0;
  }

  lemma ExactMeasures(q: Query, a: Asker, o: Obj, trust: real)
    ensures var exact := Nonlexical(q, a, o, trust).exact;
            && (exact.Some? <==> o.kind == Fact && Tally.Where(Asked(), Wants(q, o)) != {})
            && (exact.Some? ==> exact.value * |Tally.Where(Asked(), Wants(q, o))| as real ==
                                |Tally.Where(Met(), Wants(q, o))| as real)
  {
    ThreeWhere(Asked(), q, o);
    ThreeWhere(Met(), q, o);
    ExactIs(Count(q.subject.Some?) + Count(q.pred.Some?) + Count(q.target.Some?),
            |Tally.Where(Met(), Wants(q, o))| as real);
  }

  lemma NonlexicalMeasures(q: Query, a: Asker, o: Obj, trust: real)
    ensures Measures(q, a, o, trust, Nonlexical(q, a, o, trust))
  {
    ExactMeasures(q, a, o, trust);
    var began := if o.body.txFrom.Some? then o.body.txFrom.value else o.createdAt;
    RecencyIs(if a.now < began then 0 else a.now - began);
  }

  lemma ExactIs(asked: real, hits: real)
    ensures asked > 0.0 ==> (hits / asked) * asked == hits
  {
  }

  /** What a part is worth: nothing when it is absent. */
  function Worth(part: Option<real>): real {
    if part.Some? then part.value else 0.0
  }

  /** The score is the weighted sum of the parts, each with its own weight. */
  lemma TotalIs(w: Weights, c: Components, lexical: Option<real>)
    ensures Total(w, c, lexical) ==
            w.lexical * Worth(lexical) + w.exact * Worth(c.exact) + w.recency * c.recency +
            w.authority * Worth(c.authority) + w.temporal * Worth(c.temporal)
  {
  }

  /** Best score first; the id decides between equal scores. */
  function Better(): Ranking.Less<Retrieved> {
    (r: Retrieved, s: Retrieved) => r.score > s.score || (r.score == s.score && Temporal.StringLess(s.id, r.id))
  }

  lemma BetterOrders()
    ensures Ranking.Orders(Better())
  {
    forall r, s | Better()(r, s) ensures !Better()(s, r) {
      Temporal.StringTotal(r.id, s.id);
    }
    forall r, s, t | !Better()(s, r) && !Better()(t, s) ensures !Better()(t, r) {
      Temporal.StringTotal(r.id, s.id);
      Temporal.StringTotal(s.id, t.id);
      Temporal.StringTotal(r.id, t.id);
      if r.score == s.score == t.score && Temporal.StringLess(r.id, t.id) {
        if Temporal.StringLess(t.id, s.id) {
          Temporal.StringTransitive(r.id, t.id, s.id);
        }
      }
    }
  }

  function Cut(found: seq<Retrieved>, limit: nat): seq<Retrieved> {
    var ranked := Ranking.Sort(Better(), found);
    if limit < |ranked| then ranked[..limit] else ranked
  }

  /** What is returned is in order; it is everything found, or `limit` results that no result left
      out is better than. */
  lemma CutIsBest(found: seq<Retrieved>, limit: nat)
    ensures Ranking.Sorted(Better(), Cut(found, limit))
    ensures |found| <= limit ==> multiset(Cut(found, limit)) == multiset(found)
    ensures |found| > limit ==> |Cut(found, limit)| == limit
    ensures forall r :: r in Cut(found, limit) ==> r in found
    ensures forall r, s :: r in Cut(found, limit) && s in found && s !in Cut(found, limit) ==> !Better()(s, r)
  {
    BetterOrders();
    Ranking.SortOrders(Better(), found);
    CutOfSorted(Better(), found, Ranking.Sort(Better(), found), limit);
  }

  /** Results come by falling score, and at the same score by falling id. */
  lemma CutFalls(found: seq<Retrieved>, limit: nat, i: nat, j: nat)
    requires i < j < |Cut(found, limit)|
    ensures var r, s := Cut(found, limit)[i], Cut(found, limit)[j];
            s.score <= r.score && (s.score == r.score && s.id != r.id ==> Temporal.ComesBefore(s.id, r.id))
  {
    CutIsBest(found, limit);
    var r, s := Cut(found, limit)[i], Cut(found, limit)[j];
    assert !Better()(s, r);
    Temporal.StringTotal(r.id, s.id);
    Temporal.StringLessIff(s.id, r.id);
  }

  lemma CutOfSorted<T(!new)>(less: Ranking.Less<T>, found: seq<T>, ranked: seq<T>, limit: nat)
    requires Ranking.Sorted(less, ranked) && multiset(ranked) == multiset(found)
    ensures var kept := if limit < |ranked| then ranked[..limit] else ranked;
            && Ranking.Sorted(less, kept)
            && (forall r :: r in kept ==> r in found)
            && forall r, s :: r in kept && s in found && s !in kept ==> !less(s, r)
  {
    var kept := if limit < |ranked| then ranked[..limit] else ranked;
    forall r | r in kept ensures r in found {
      assert r in ranked;
      assert r in multiset(ranked);
    }
    forall r, s | r in kept && s in found && s !in kept ensures !less(s, r) {
      assert s in multiset(ranked);
      var i :| 0 <= i < |kept| && kept[i] == r;
      var j :| 0 <= j < |ranked| && ranked[j] == s;
      assert ranked[i] == r && i < j;
    }
  }

  /******* What each retriever finds *******/

  function Terms(tok: Tokenizer, q: Query): seq<string> {
    Capped(Tokens(tok, q.text))
  }

  predicate ScanCandidate(q: Query, a: Asker, o: Obj) {
    !Control(o.kind) && Admitted(q, a, o) && MatchesStructural(q, o)
  }

  /** A query with terms must share one with the object's text. */
  predicate TextFits(tok: Tokenizer, q: Query, o: Obj) {
    Terms(tok, q) != [] ==> Hits(tok, Terms(tok, q), ObjectText(o))
  }

  predicate ScanHit(tok: Tokenizer, q: Query, a: Asker, o: Obj) {
    ScanCandidate(q, a, o) && TextFits(tok, q, o)
  }

  /** The caller may find the object: it is of the scope, readable, of an asked kind, and, when only believed facts are
      asked for, believed then. */
  ghost predicate MayFind(q: Query, a: Asker, o: Obj) {
    && o.tenant == a.tenant && o.namespace == a.namespace && a.canRead(o)
    && (q.kinds.Some? ==> o.kind in q.kinds.value)
    && (q.believedOnly && o.kind == Fact ==>
          if q.atTx.None? then o.txTo.None? else Within(q.atTx.value, o.body.txFrom, o.txTo))
  }

  /** Values are asked for only of facts, and a fact must have each of them. */
  predicate HasAll(q: Query, o: Obj) {
    (q.subject.Some? || q.pred.Some? || q.target.Some?) ==>
      && o.kind == Fact && (q.subject.Some? ==> o.body.subject == q.subject)
      && (q.pred.Some? ==> o.body.pred == q.pred) && (q.target.Some? ==> o.body.target == q.target)
  }

  /** A scan hit: knowledge that the caller may find, that has what is asked for, and, when the text of the query has
      tokens, one of the first 64 distinct ones of them. */
  lemma ScanHitIs(tok: Tokenizer, q: Query, a: Asker, o: Obj)
    ensures ScanHit(tok, q, a, o) <==>
            && o.kind != Space && o.kind != Grant && MayFind(q, a, o) && HasAll(q, o)
            && (Tokens(tok, q.text) != [] ==>
                  exists t :: t in Capped(Tokens(tok, q.text)) && t in Tokens(tok, Some(ObjectText(o))))
  {
    StructuralIs(q, o);
    CappedNone(Tokens(tok, q.text));
  }

  lemma StructuralIs(q: Query, o: Obj)
    ensures MatchesStructural(q, o) <==> HasAll(q, o)
  {
    assert MeetsAll(q, o) <==>
           (Constraints(q)[0].Some? ==> Fields(o)[0] == Constraints(q)[0]) &&
           (Constraints(q)[1].Some? ==> Fields(o)[1] == Constraints(q)[1]) &&
           (Constraints(q)[2].Some? ==> Fields(o)[2] == Constraints(q)[2]);
    assert Constraints(q) == [None, None, None] <==>
           Constraints(q)[0].None? && Constraints(q)[1].None? && Constraints(q)[2].None?;
  }

  lemma CappedNone(tokens: seq<string>)
    ensures Capped(tokens) == [] <==> tokens == []
  {
    if tokens != [] {
      assert tokens[0] in Distinct(tokens);
    }
  }

  /** Without text, only a constraint that is not empty makes the search structural. */
  predicate AnyNonempty(q: Query) {
    exists i :: 0 <= i < 3 && Constraints(q)[i].Some? && Constraints(q)[i].value != ""
  }

  predicate IndexedHit(tok: Tokenizer, q: Query, a: Asker, o: Obj) {
    Admitted(q, a, o) &&
    if Terms(tok, q) != [] then MatchesStructural(q, o) && Hits(tok, Terms(tok, q), ObjectText(o))
    else !Control(o.kind) && (AnyNonempty(q) ==> MatchesStructural(q, o))
  }

  predicate NoConstraint(q: Query) {
    Constraints(q) == [None, None, None]
  }

  /** Search parity. The two retrievers find the same knowledge objects exactly when the query has a
      searchable text, or no constraint at all, or a constraint that is not the empty string, or
      the object happens to meet the constraints. */
  lemma ParityOfHits(tok: Tokenizer, q: Query, a: Asker, o: Obj)
    requires !Control(o.kind)
    ensures ScanHit(tok, q, a, o) ==> IndexedHit(tok, q, a, o)
    ensures Terms(tok, q) != [] || NoConstraint(q) || AnyNonempty(q) ==>
              (ScanHit(tok, q, a, o) <==> IndexedHit(tok, q, a, o))
    ensures Terms(tok, q) == [] && !NoConstraint(q) && !AnyNonempty(q) ==>
              ((ScanHit(tok, q, a, o) <==> IndexedHit(tok, q, a, o)) <==>
               (Admitted(q, a, o) ==> MatchesStructural(q, o)))
  {
  }

  /** The scan never finds a space or a grant; a text search through the index does. */
  lemma ControlObjectsDiffer(tok: Tokenizer, q: Query, a: Asker, o: Obj)
    requires Control(o.kind)
    ensures !ScanHit(tok, q, a, o)
    ensures IndexedHit(tok, q, a, o) <==>
            Admitted(q, a, o) && NoConstraint(q) && Terms(tok, q) != [] && Hits(tok, Terms(tok, q), o.id)
  {
    var parts := [Some(o.id)];
    assert parts[..|parts| - 1] == [];
    assert Join(parts[..|parts| - 1]) == "";
    assert parts[|parts| - 1] == Some(o.id);
    assert Join(parts) == o.id;
    assert TextParts(o) == parts;
  }

  /******* The scan *******/

  ghost predicate Listed(objs: Objects, order: seq<Id>) {
    && (forall id :: id in order <==> id in objs)
    && (forall i, j :: 0 <= i < j < |order| ==> order[i] != order[j])
    && (forall id :: id in objs ==> objs[id].id == id)
  }

  /** A result with the components of its object. */
  ghost predicate Scored(objs: Objects, w: Weights, q: Query, a: Asker, r: Retrieved) {
    && r.id in objs
    && r.parts == Nonlexical(q, a, objs[r.id], Temporal.SourceTrust(objs, objs[r.id]))
    && r.score == Total(w, r.parts, r.lexical)
  }

  /** A result's parts measure its object, with the trust of the object's source. */
  lemma PartsAre(objs: Objects, w: Weights, q: Query, a: Asker, r: Retrieved)
    requires Scored(objs, w, q, a, r)
    ensures exists trust :: Temporal.Trusts(objs, objs[r.id], trust) && Measures(q, a, objs[r.id], trust, r.parts)
  {
    Temporal.SourceTrusts(objs, objs[r.id]);
    NonlexicalMeasures(q, a, objs[r.id], Temporal.SourceTrust(objs, objs[r.id]));
  }

  ghost predicate NoTwice(found: seq<Retrieved>) {
    forall i, j :: 0 <= i < j < |found| ==> found[i].id != found[j].id
  }

  predicate Finds(found: seq<Retrieved>, id: Id) {
    exists r :: r in found && r.id == id
  }

  /** Exactly the scan hits, each once, with a lexical part in (0, 1) when the query has terms. */
  ghost predicate FoundByScan(tok: Tokenizer, w: Weights, objs: Objects, q: Query, a: Asker, found: seq<Retrieved>) {
    && (forall id :: Finds(found, id) <==> id in objs && ScanHit(tok, q, a, objs[id]))
    && NoTwice(found)
    && (forall r :: r in found ==> Scored(objs, w, q, a, r) && LexicalFits(tok, q, r))
  }

  predicate LexicalFits(tok: Tokenizer, q: Query, r: Retrieved) {
    if Terms(tok, q) == [] then r.lexical.None? else r.lexical.Some? && 0.0 < r.lexical.value < 1.0
  }

  ghost predicate Trusting(objs: Objects) {
    forall id :: id in objs ==> objs[id].body.trust >= 0.0
  }

  method Candidates(objs: Objects, order: seq<Id>, q: Query, a: Asker) returns (kept: seq<Id>)
    requires Listed(objs, order)
    ensures forall id :: id in kept <==> id in objs && ScanCandidate(q, a, objs[id])
    ensures forall i, j :: 0 <= i < j < |kept| ==> kept[i] != kept[j]
  {
    kept := [];
    for i := 0 to |order|
      invariant forall id :: id in kept <==> id in order[..i] && ScanCandidate(q, a, objs[id])
      invariant forall k, j :: 0 <= k < j < |kept| ==> kept[k] != kept[j]
    {
      assert order[..i + 1] == order[..i] + [order[i]];
      var o := objs[order[i]];
      if Control(o.kind) || !Admitted(q, a, o) || !MatchesStructural(q, o) {
        continue;
      }
      kept := kept + [order[i]];
    }
    assert order[..|order|] == order;
  }

  method Documents(tok: Tokenizer, objs: Objects, ids: seq<Id>) returns (docs: seq<seq<string>>)
    requires forall id :: id in ids ==> id in objs
    ensures |docs| == |ids|
    ensures forall i :: 0 <= i < |ids| ==> docs[i] == Tokens(tok, Some(ObjectText(objs[ids[i]])))
  {
    docs := [];
    for i := 0 to |ids|
      invariant |docs| == i
      invariant forall k :: 0 <= k < i ==> docs[k] == Tokens(tok, Some(ObjectText(objs[ids[k]])))
    {
      docs := docs + [Tokens(tok, Some(ObjectText(objs[ids[i]])))];
    }
  }

  method Lexical(ln: real -> real, terms: seq<string>, doc: seq<string>, ghost docs: seq<seq<string>>, df: map<string,
                 nat>,
                 n: nat)
    returns (score: real)
    requires Tfidf.LogLike(ln) && n >= 1 && |docs| <= n
    requires forall t :: (if t in df then df[t] else 0) == Tfidf.Contains(docs, t)
    ensures 0.0 <= score < 1.0 && (score > 0.0 <==> Shares(terms, doc))
    ensures terms != [] ==> Tfidf.IsScore(ln, terms, doc, docs, n, score)
  {
    score := Tfidf.Score(ln, terms, doc, docs, df, n);
  }

  /** Scores one candidate; none when it misses the text. */
  method ScanOne(ln: real -> real, tok: Tokenizer, w: Weights, objs: Objects, q: Query, a: Asker, id: Id,
                 terms: seq<string>,
                 doc: seq<string>, ghost docs: seq<seq<string>>, df: map<string, nat>, n: nat)
    returns (r: Option<Retrieved>)
    requires Tfidf.LogLike(ln) && n >= 1 && |docs| <= n
    requires forall t :: (if t in df then df[t] else 0) == Tfidf.Contains(docs, t)
    requires Ordinary(w) && Trusting(objs) && id in objs && objs[id].id == id
    requires terms == Terms(tok, q) && doc == Tokens(tok, Some(ObjectText(objs[id])))
    ensures r.Some? <==> TextFits(tok, q, objs[id])
    ensures r.Some? ==> r.value.id == id && Scored(objs, w, q, a, r.value) && LexicalFits(tok, q, r.value)
    ensures r.Some? && terms != [] ==> Tfidf.IsScore(ln, terms, doc, docs, n, r.value.lexical.value)
  {
    var o := objs[id];
    var lexical := None;
    if terms != [] {
      var score := Lexical(ln, terms, doc, docs, df, n);
      if score == 0.0 {
        return None;
      }
      lexical := Some(score);
    }
    var parts := Nonlexical(q, a, o, Temporal.SourceTrust(objs, o));
    var total := Total(w, parts, lexical);
    ScoresArePositive(w, q, a, o, Temporal.SourceTrust(objs, o), lexical);
    if total <= 0.0 {
      return None;
    }
    r := Some(Retrieved(o.id, total, parts, lexical));
  }

  /** Which ids have a fitting text. */
  function Fitting(tok: Tokenizer, q: Query, objs: Objects): Id -> bool {
    (id: Id) => id in objs && TextFits(tok, q, objs[id])
  }

  /** Of some ids, the fitting ones are found, each once. */
  ghost predicate Collected(ids: seq<Id>, fits: Id -> bool, found: seq<Retrieved>) {
    (forall id :: Finds(found, id) <==> id in ids && fits(id)) && NoTwice(found)
  }

  lemma CollectedMore(ids: seq<Id>, i: nat, fits: Id -> bool, found: seq<Retrieved>, r: Option<Retrieved>)
    requires i < |ids| && Collected(ids[..i], fits, found) && ids[i] !in ids[..i]
    requires (r.Some? <==> fits(ids[i])) && (r.Some? ==> r.value.id == ids[i])
    ensures Collected(ids[..i + 1], fits, if r.Some? then found + [r.value] else found)
  {
    assert ids[..i + 1] == ids[..i] + [ids[i]];
    if r.Some? {
      forall id ensures Finds(found + [r.value], id) <==> Finds(found, id) || id == ids[i] {
        FindsMore(found, r.value, id);
      }
      Fresh(found, r.value);
    }
  }

  /** All candidates of the scan, each once. */
  ghost predicate Corpus(objs: Objects, q: Query, a: Asker, ids: seq<Id>) {
    && (forall id :: id in ids <==> id in objs && ScanCandidate(q, a, objs[id]))
    && (forall i, j :: 0 <= i < j < |ids| ==> ids[i] != ids[j])
  }

  /** The tokens of some objects' texts. */
  function DocsOf(tok: Tokenizer, objs: Objects, ids: seq<Id>): seq<seq<string>> {
    seq(|ids|, i requires 0 <= i < |ids| => if ids[i] in objs then Tokens(tok, Some(ObjectText(objs[ids[i]]))) else [])
  }

  /** With a text in the query, the lexical part is the score of the object's text among those of a corpus. */
  ghost predicate ScoredAmong(ln: real -> real, tok: Tokenizer, objs: Objects, q: Query, ids: seq<Id>, r: Retrieved) {
    Terms(tok, q) != [] ==>
      r.lexical.Some? && r.id in objs &&
      Tfidf.IsScore(ln, Terms(tok, q), Tokens(tok, Some(ObjectText(objs[r.id]))), DocsOf(tok, objs, ids),
                    if |ids| > 1 then |ids| else 1, r.lexical.value)
  }

  ghost predicate LexicallyScored(ln: real -> real, tok: Tokenizer, objs: Objects, q: Query, a: Asker,
                                  found: seq<Retrieved>)
  {
    exists ids :: Corpus(objs, q, a, ids) && forall r :: r in found ==> ScoredAmong(ln, tok, objs, q, ids, r)
  }

  method ScanFound(ln: real -> real, tok: Tokenizer, w: Weights, objs: Objects, order: seq<Id>, q: Query, a: Asker)
    returns (found: seq<Retrieved>)
    requires Tfidf.LogLike(ln) && Ordinary(w) && Listed(objs, order) && Trusting(objs)
    ensures FoundByScan(tok, w, objs, q, a, found) && LexicallyScored(ln, tok, objs, q, a, found)
  {
    var terms := QueryTerms(tok, q.text);
    var ids := Candidates(objs, order, q, a);
    var docs := Documents(tok, objs, ids);
    assert docs == DocsOf(tok, objs, ids);
    var df := Tfidf.DocumentFrequency(docs);
    var n := if |ids| > 1 then |ids| else 1;
    found := [];
    for i := 0 to |ids|
      invariant Collected(ids[..i], Fitting(tok, q, objs), found)
      invariant forall r :: r in found ==> Scored(objs, w, q, a, r) && LexicalFits(tok, q, r)
      invariant forall r :: r in found ==> ScoredAmong(ln, tok, objs, q, ids, r)
    {
      var r := ScanOne(ln, tok, w, objs, q, a, ids[i], terms, docs[i], docs, df, n);
      CollectedMore(ids, i, Fitting(tok, q, objs), found, r);
      if r.Some? {
        found := found + [r.value];
      }
    }
    assert ids[..|ids|] == ids;
    assert Corpus(objs, q, a, ids);
  }

  lemma FindsMore(found: seq<Retrieved>, r: Retrieved, id: Id)
    ensures Finds(found + [r], id) <==> Finds(found, id) || id == r.id
  {
    assert r in found + [r];
    if Finds(found, id) {
      var s :| s in found && s.id == id;
      assert s in found + [r];
    }
  }

  lemma Fresh(found: seq<Retrieved>, r: Retrieved)
    requires NoTwice(found) && !Finds(found, r.id)
    ensures NoTwice(found + [r])
  {
    forall i | 0 <= i < |found| ensures found[i].id != r.id {
      assert found[i] in found;
    }
  }

  /** The results of a scan: what it finds, ranked and cut. */
  ghost predicate AnsweredByScan(tok: Tokenizer, w: Weights, objs: Objects, q: Query, a: Asker, limit: nat,
                                 results: seq<Retrieved>)
  {
    exists found :: FoundByScan(tok, w, objs, q, a, found) && results == Cut(found, limit)
  }

  method ScanSearch(ln: real -> real, tok: Tokenizer, w: Weights, objs: Objects, order: seq<Id>, q: Query, a: Asker,
                    limit: nat)
    returns (results: seq<Retrieved>)
    requires Tfidf.LogLike(ln) && Ordinary(w) && Listed(objs, order) && Trusting(objs)
    ensures AnsweredByScan(tok, w, objs, q, a, limit, results) && LexicallyScored(ln, tok, objs, q, a, results)
  {
    var found := ScanFound(ln, tok, w, objs, order, q, a);
    results := Cut(found, limit);
    CutIsBest(found, limit);
  }

  /** When the limit cuts nothing off, and in particular when there are fewer results than it, they are everything that
      was found. */
  lemma UncutIsAll(found: seq<Retrieved>, limit: nat)
    requires |Cut(found, limit)| < limit || |found| <= limit
    ensures forall r :: r in Cut(found, limit) <==> r in found
    ensures forall id :: Finds(Cut(found, limit), id) <==> Finds(found, id)
  {
    CutIsBest(found, limit);
    var results := Cut(found, limit);
    forall r ensures r in results <==> r in found {
      assert r in multiset(results) <==> r in multiset(found);
    }
  }

  function ScanHits(tok: Tokenizer, q: Query, a: Asker, objs: Objects): set<Id> {
    set id | id in objs && ScanHit(tok, q, a, objs[id])
  }

  /** Seen by a caller: fewer results than asked for, or no more hits than asked for. */
  predicate Uncut(results: seq<Retrieved>, hits: set<Id>, limit: nat) {
    |results| < limit || |hits| <= limit
  }

  /** Results of distinct ids among the hits are no more than the hits. */
  lemma {:induction false} FoundFits(found: seq<Retrieved>, hits: set<Id>)
    requires NoTwice(found) && forall r :: r in found ==> r.id in hits
    ensures |found| <= |hits|
    decreases |found|
  {
    if found != [] {
      var front, r := found[..|found| - 1], found[|found| - 1];
      forall s | s in front ensures s.id in hits - {r.id} {
        var i :| 0 <= i < |front| && front[i] == s;
        assert found[i].id != r.id;
      }
      FoundFits(front, hits - {r.id});
    }
  }

  lemma ScannedHits(tok: Tokenizer, w: Weights, objs: Objects, q: Query, a: Asker, limit: nat, results: seq<Retrieved>)
    requires AnsweredByScan(tok, w, objs, q, a, limit, results)
    ensures Uncut(results, ScanHits(tok, q, a, objs), limit) ==>
              forall id :: Finds(results, id) <==> id in objs && ScanHit(tok, q, a, objs[id])
    ensures forall r :: r in results ==> Scored(objs, w, q, a, r)
  {
    var found :| FoundByScan(tok, w, objs, q, a, found) && results == Cut(found, limit);
    if Uncut(results, ScanHits(tok, q, a, objs), limit) {
      forall r: Retrieved | r in found ensures r.id in ScanHits(tok, q, a, objs) {
        assert Finds(found, r.id);
      }
      FoundFits(found, ScanHits(tok, q, a, objs));
      UncutIsAll(found, limit);
    }
    CutIsBest(found, limit);
  }
}
