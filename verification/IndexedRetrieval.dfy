/** The search through the lexical index, and what it finds compared with the scan. */
module IndexedRetrieval {
  import opened Model
  import opened Text
  import opened Retrieval
  import Tfidf
  import LexicalIndex
  import IndexHealth

  const CANDIDATE_POOL := 500

  /** A row the database returns for a match, with its relevance: the more negative the better. */
  datatype Match = Match(rid: int, bm25: real)

  /** The rows a match expression selects; an empty collection of kinds does not restrict them. */
  predicate Selects(tok: Tokenizer, q: Query, a: Asker, row: LexicalIndex.Row) {
    && Hits(tok, Terms(tok, q), row.content)
    && row.tenant == a.tenant && row.namespace == a.namespace
    && (q.kinds.Some? && q.kinds.value != {} ==> row.kind in q.kinds.value)
  }

  function Selected(tok: Tokenizer, q: Query, a: Asker, t: LexicalIndex.Tables): set<int> {
    set rid | rid in t.rows && Selects(tok, q, a, t.rows[rid])
  }

  predicate Returned(rows: seq<Match>, rid: int) {
    exists m :: m in rows && m.rid == rid
  }

  /** What the database may answer: selected rows, each once, all of them or as many as the limit. */
  ghost predicate Answers(tok: Tokenizer, q: Query, a: Asker, t: LexicalIndex.Tables, limit: nat, rows: seq<Match>) {
    && (forall i, j :: 0 <= i < j < |rows| ==> rows[i].rid != rows[j].rid)
    && (forall m :: m in rows ==> m.rid in t.rows && m.bm25 < 0.0 && Selects(tok, q, a, t.rows[m.rid]))
    && |rows| <= limit
    && (|rows| < limit ==> forall rid :: rid in Selected(tok, q, a, t) ==> Returned(rows, rid))
  }

  lemma {:induction false} RidsOf(rows: seq<Match>)
    requires forall i, j :: 0 <= i < j < |rows| ==> rows[i].rid != rows[j].rid
    ensures |set m | m in rows :: m.rid| == |rows|
    decreases |rows|
  {
    var rids := set m | m in rows :: m.rid;
    if rows != [] {
      var front, m := rows[..|rows| - 1], rows[|rows| - 1];
      RidsOf(front);
      assert rows == front + [m];
      assert rids == (set x | x in front :: x.rid) + {m.rid};
    } else {
      assert rids == {};
    }
  }

  /** When no more rows match than the limit allows, none is missing. */
  lemma NothingMissing(tok: Tokenizer, q: Query, a: Asker, t: LexicalIndex.Tables, limit: nat, rows: seq<Match>)
    requires Answers(tok, q, a, t, limit, rows) && |Selected(tok, q, a, t)| <= limit
    ensures forall rid :: rid in Selected(tok, q, a, t) ==> Returned(rows, rid)
  {
    if |rows| == limit {
      var rids := set m | m in rows :: m.rid;
      RidsOf(rows);
      var missing := Selected(tok, q, a, t) - rids;
      assert Selected(tok, q, a, t) == rids + missing;
    }
  }

  /** Two scores are in the proportion of the relevances they come from. */
  predicate Scaled(x: real, bm25: real, most: real) {
    x * most == -bm25
  }

  /** The relevance of a row, as a share of that of the most relevant one. */
  ghost predicate Relevance(rows: seq<Match>, m: Match, x: real) {
    exists best :: best in rows && (forall n :: n in rows ==> best.bm25 <= n.bm25) && x * best.bm25 == m.bm25
  }

  /** The id is that of a returned row, and this is its relevance. */
  ghost predicate RelevantAs(t: LexicalIndex.Tables, rows: seq<Match>, id: Id, x: real) {
    exists m :: m in rows && m.rid in t.rows && t.rows[m.rid].id == id && Relevance(rows, m, x)
  }

  lemma ScaledIsRelevance(rows: seq<Match>, at: nat, m: Match, x: real)
    requires at < |rows| && (forall k :: 0 <= k < |rows| ==> -rows[k].bm25 <= -rows[at].bm25)
    requires Scaled(x, m.bm25, -rows[at].bm25)
    ensures Relevance(rows, m, x)
  {
    var best := rows[at];
    forall n | n in rows ensures best.bm25 <= n.bm25 {
      var k :| 0 <= k < |rows| && rows[k] == n;
    }
    assert x * best.bm25 == -(x * -best.bm25);
  }

  ghost predicate InProportion(out: seq<(Id, real)>, rows: seq<Match>, most: real) {
    |out| <= |rows| && forall i :: 0 <= i < |out| ==> Scaled(out[i].1, rows[i].bm25, most)
  }

  lemma AllRelevant(rows: seq<Match>, at: nat, out: seq<(Id, real)>)
    requires at < |rows| && (forall k :: 0 <= k < |rows| ==> -rows[k].bm25 <= -rows[at].bm25)
    requires InProportion(out, rows, -rows[at].bm25)
    ensures forall i :: 0 <= i < |out| ==> Relevance(rows, rows[i], out[i].1)
  {
    forall i | 0 <= i < |out| ensures Relevance(rows, rows[i], out[i].1) {
      ScaledIsRelevance(rows, at, rows[i], out[i].1);
    }
  }

  lemma PairsAreRelevant(t: LexicalIndex.Tables, rows: seq<Match>, found: seq<(Id, real)>, pairs: seq<(Id, real)>)
    requires |found| == |rows| && (forall m :: m in rows ==> m.rid in t.rows) && forall p :: p in pairs ==> p in found
    requires forall i :: 0 <= i < |rows| ==>
               found[i].0 == t.rows[rows[i].rid].id && Relevance(rows, rows[i], found[i].1)
    ensures forall p :: p in pairs ==> RelevantAs(t, rows, p.0, p.1)
  {
    forall p | p in pairs ensures RelevantAs(t, rows, p.0, p.1) {
      var i :| 0 <= i < |found| && found[i] == p;
      assert rows[i] in rows;
    }
  }

  lemma ResultsAreRelevant(t: LexicalIndex.Tables, rows: seq<Match>, pairs: seq<(Id, real)>, found: seq<Retrieved>,
                           limit: nat)
    requires forall p :: p in pairs ==> RelevantAs(t, rows, p.0, p.1)
    requires forall r :: r in found ==> r.lexical.Some? && (r.id, r.lexical.value) in pairs
    ensures forall r :: r in Cut(found, limit) ==> r.lexical.Some? && RelevantAs(t, rows, r.id, r.lexical.value)
  {
    CutIsBest(found, limit);
    forall r | r in Cut(found, limit) ensures r.lexical.Some? && RelevantAs(t, rows, r.id, r.lexical.value) {
      assert (r.id, r.lexical.value) in pairs;
    }
  }

  function Share(bm25: real, most: real): (x: real)
    requires bm25 < 0.0 && -bm25 <= most
    ensures 0.0 < x <= 1.0 && Scaled(x, bm25, most) && (-bm25 == most ==> x == 1.0)
  {
    Tfidf.Ratio(-bm25, most);
    assert (-bm25 / most) * most == -bm25;
    if -bm25 / most > 1.0 then 1.0 else -bm25 / most
  }

  /** The index's search: the matching ids with their relevance scaled into (0, 1]; the most relevant
      gets 1. */
  method IndexSearch(t: LexicalIndex.Tables, rows: seq<Match>) returns (out: seq<(Id, real)>)
    requires forall m :: m in rows ==> m.rid in t.rows && m.bm25 < 0.0
    ensures |out| == |rows|
    ensures forall i :: 0 <= i < |rows| ==> out[i].0 == t.rows[rows[i].rid].id && 0.0 < out[i].1 <= 1.0
    ensures rows != [] ==> exists most :: InProportion(out, rows, most)
    ensures rows != [] ==> exists i :: 0 <= i < |rows| && out[i].1 == 1.0
    ensures forall i :: 0 <= i < |rows| ==> Relevance(rows, rows[i], out[i].1)
  {
    out := [];
    if rows == [] {
      return;
    }
    var most, at := -rows[0].bm25, 0;
    for i := 1 to |rows|
      invariant 0 <= at < |rows| && most == -rows[at].bm25
      invariant forall k :: 0 <= k < i ==> -rows[k].bm25 <= most
    {
      if -rows[i].bm25 > most {
        most, at := -rows[i].bm25, i;
      }
    }
    for i := 0 to |rows|
      invariant |out| == i
      invariant forall k :: 0 <= k < i ==> out[k].0 == t.rows[rows[k].rid].id && 0.0 < out[k].1 <= 1.0
      invariant InProportion(out, rows, most)
      invariant at < i ==> out[at].1 == 1.0
    {
      assert rows[i] in rows;
      out := out + [(t.rows[rows[i].rid].id, Share(rows[i].bm25, most))];
    }
    AllRelevant(rows, at, out);
  }

  predicate Paired(pairs: seq<(Id, real)>, id: Id) {
    exists p :: p in pairs && p.0 == id
  }

  ghost predicate DistinctIds(pairs: seq<(Id, real)>) {
    forall i, j :: 0 <= i < j < |pairs| ==> pairs[i].0 != pairs[j].0
  }

  lemma PairedMore(pairs: seq<(Id, real)>, p: (Id, real), id: Id)
    ensures Paired(pairs + [p], id) <==> Paired(pairs, id) || id == p.0
  {
    assert p in pairs + [p];
    if Paired(pairs, id) {
      var s :| s in pairs && s.0 == id;
      assert s in pairs + [p];
    }
  }

  /** Every row of exact tables is the row of the one object it names. */
  lemma RowOwner(objs: Objects, t: LexicalIndex.Tables, rid: int)
    requires LexicalIndex.Exact(objs, t) && rid in t.rows && forall id :: id in objs ==> objs[id].id == id
    ensures var id := t.rows[rid].id;
            id in objs && id in t.rids && t.rids[id] == rid && t.rows[rid] == LexicalIndex.RowOf(objs[id])
  {
    assert rid in t.rids.Values;
    var id :| id in t.rids && t.rids[id] == rid;
    assert t.rows[t.rids[id]] == LexicalIndex.RowOf(objs[id]);
  }

  /** The row of an object that hits is selected. */
  lemma HitIsSelected(tok: Tokenizer, objs: Objects, t: LexicalIndex.Tables, q: Query, a: Asker, id: Id)
    requires LexicalIndex.Exact(objs, t) && id in objs && Terms(tok, q) != [] && IndexedHit(tok, q, a, objs[id])
    ensures id in t.rids && t.rids[id] in Selected(tok, q, a, t) && t.rows[t.rids[id]].id == objs[id].id
  {
    assert LexicalIndex.Searchable(objs[id]);
    assert t.rows[t.rids[id]] == LexicalIndex.RowOf(objs[id]);
  }

  /** Of the ids the index returns, those the retriever goes on with. */
  method Kept(objs: Objects, found: seq<(Id, real)>, q: Query, a: Asker) returns (pairs: seq<(Id, real)>)
    requires DistinctIds(found)
    ensures DistinctIds(pairs) && forall p :: p in pairs ==> p in found
    ensures forall id :: Paired(pairs, id) <==>
              Paired(found, id) && id in objs && Admitted(q, a, objs[id]) && MatchesStructural(q, objs[id])
  {
    pairs := [];
    for i := 0 to |found|
      invariant DistinctIds(pairs) && forall p :: p in pairs ==> p in found[..i]
      invariant forall id :: Paired(pairs, id) <==>
                  Paired(found[..i], id) && id in objs && Admitted(q, a, objs[id]) && MatchesStructural(q, objs[id])
    {
      assert found[..i + 1] == found[..i] + [found[i]];
      var id := found[i].0;
      forall x ensures Paired(found[..i + 1], x) <==> Paired(found[..i], x) || x == id {
        PairedMore(found[..i], found[i], x);
      }
      if id !in objs || !Admitted(q, a, objs[id]) || !MatchesStructural(q, objs[id]) {
        continue;
      }
      forall x ensures Paired(pairs + [found[i]], x) <==> Paired(pairs, x) || x == id {
        PairedMore(pairs, found[i], x);
      }
      pairs := pairs + [found[i]];
    }
    assert found[..|found|] == found;
  }

  /** What the index returns: ids of objects that hit, all of them when none is missing. */
  lemma RowsAreHits(tok: Tokenizer, objs: Objects, t: LexicalIndex.Tables, rows: seq<Match>, q: Query, a: Asker,
                    found: seq<(Id, real)>)
    requires LexicalIndex.Exact(objs, t) && Terms(tok, q) != [] && (forall id :: id in objs ==> objs[id].id == id)
    requires Answers(tok, q, a, t, CANDIDATE_POOL, rows)
    requires |found| == |rows| && forall i :: 0 <= i < |rows| ==> found[i].0 == t.rows[rows[i].rid].id
    ensures DistinctIds(found)
    ensures forall id :: Paired(found, id) ==> id in objs && Hits(tok, Terms(tok, q), ObjectText(objs[id]))
    ensures |Selected(tok, q, a, t)| <= CANDIDATE_POOL ==>
              forall id :: id in objs && IndexedHit(tok, q, a, objs[id]) ==> Paired(found, id)
  {
    forall i | 0 <= i < |rows|
      ensures found[i].0 in t.rids && t.rids[found[i].0] == rows[i].rid && found[i].0 in objs
      ensures Hits(tok, Terms(tok, q), ObjectText(objs[found[i].0]))
    {
      assert rows[i] in rows;
      RowOwner(objs, t, rows[i].rid);
    }
    if |Selected(tok, q, a, t)| <= CANDIDATE_POOL {
      NothingMissing(tok, q, a, t, CANDIDATE_POOL, rows);
      forall id | id in objs && IndexedHit(tok, q, a, objs[id]) ensures Paired(found, id) {
        HitIsSelected(tok, objs, t, q, a, id);
        var m :| m in rows && m.rid == t.rids[id];
        var k :| 0 <= k < |rows| && rows[k] == m;
        assert found[k] in found && found[k].0 == id;
      }
    }
  }

  method FromRows(tok: Tokenizer, objs: Objects, t: LexicalIndex.Tables, rows: seq<Match>, q: Query, a: Asker)
    returns (pairs: seq<(Id, real)>)
    requires LexicalIndex.Exact(objs, t) && Terms(tok, q) != [] && (forall id :: id in objs ==> objs[id].id == id)
    requires Answers(tok, q, a, t, CANDIDATE_POOL, rows)
    ensures forall p :: p in pairs ==> p.0 in objs && IndexedHit(tok, q, a, objs[p.0]) && 0.0 < p.1 <= 1.0
    ensures DistinctIds(pairs)
    ensures |Selected(tok, q, a, t)| <= CANDIDATE_POOL ==>
              forall id :: id in objs && IndexedHit(tok, q, a, objs[id]) ==> Paired(pairs, id)
    ensures forall p :: p in pairs ==> RelevantAs(t, rows, p.0, p.1)
  {
    var found := IndexSearch(t, rows);
    RowsAreHits(tok, objs, t, rows, q, a, found);
    pairs := Kept(objs, found, q, a);
    PairsAreRelevant(t, rows, found, pairs);
    KeptAreHits(tok, objs, q, a, found, pairs);
  }

  lemma KeptAreHits(tok: Tokenizer, objs: Objects, q: Query, a: Asker, found: seq<(Id, real)>, pairs: seq<(Id, real)>)
    requires Terms(tok, q) != []
    requires forall id :: Paired(found, id) ==> id in objs && Hits(tok, Terms(tok, q), ObjectText(objs[id]))
    requires forall id :: Paired(pairs, id) ==>
               Paired(found, id) && id in objs && Admitted(q, a, objs[id]) && MatchesStructural(q, objs[id])
    ensures forall p :: p in pairs ==> p.0 in objs && IndexedHit(tok, q, a, objs[p.0])
  {
    forall p | p in pairs ensures p.0 in objs && IndexedHit(tok, q, a, objs[p.0]) {
      assert Paired(pairs, p.0);
    }
  }

  method FromObjects(tok: Tokenizer, objs: Objects, order: seq<Id>, q: Query, a: Asker) returns (pairs: seq<(Id, real)>)
    requires Listed(objs, order) && Terms(tok, q) == []
    ensures forall p :: p in pairs ==> p.0 in objs && IndexedHit(tok, q, a, objs[p.0]) && p.1 == 0.0
    ensures DistinctIds(pairs)
    ensures forall id :: id in objs && IndexedHit(tok, q, a, objs[id]) ==> Paired(pairs, id)
  {
    pairs := [];
    for i := 0 to |order|
      invariant forall p :: p in pairs ==> p.0 in order[..i] && IndexedHit(tok, q, a, objs[p.0]) && p.1 == 0.0
      invariant DistinctIds(pairs)
      invariant forall id :: id in order[..i] && IndexedHit(tok, q, a, objs[id]) ==> Paired(pairs, id)
    {
      assert order[..i + 1] == order[..i] + [order[i]];
      var o := objs[order[i]];
      if AnyNonempty(q) && !(o.kind == Fact && MeetsAll(q, o)) {
        continue;
      }
      if Control(o.kind) || !Admitted(q, a, o) {
        continue;
      }
      ghost var before := pairs;
      pairs := pairs + [(order[i], 0.0)];
      forall id | id in order[..i + 1] && IndexedHit(tok, q, a, objs[id]) ensures Paired(pairs, id) {
        PairedMore(before, (order[i], 0.0), id);
      }
    }
    assert order[..|order|] == order;
  }

  /** Only indexed hits, each once; all of them when the selected rows fit the pool. */
  ghost predicate FoundByIndex(tok: Tokenizer, w: Weights, objs: Objects, t: LexicalIndex.Tables, q: Query, a: Asker,
                               found: seq<Retrieved>)
  {
    && (forall id :: Finds(found, id) ==> id in objs && IndexedHit(tok, q, a, objs[id]))
    && (Terms(tok, q) == [] || |Selected(tok, q, a, t)| <= CANDIDATE_POOL ==>
          forall id :: id in objs && IndexedHit(tok, q, a, objs[id]) ==> Finds(found, id))
    && NoTwice(found)
    && (forall r :: r in found ==> Scored(objs, w, q, a, r))
    && (forall r :: r in found ==>
          if Terms(tok, q) == [] then r.lexical.None? else r.lexical.Some? && 0.0 < r.lexical.value <= 1.0)
  }

  /** The results of the indexed search: what it finds, ranked and cut. */
  ghost predicate AnsweredByIndex(tok: Tokenizer, w: Weights, objs: Objects, t: LexicalIndex.Tables, q: Query, a: Asker,
                                  limit: nat, results: seq<Retrieved>)
  {
    exists found :: FoundByIndex(tok, w, objs, t, q, a, found) && results == Cut(found, limit)
  }

  method IndexedSearch(tok: Tokenizer, w: Weights, objs: Objects, order: seq<Id>, t: LexicalIndex.Tables,
                       rows: seq<Match>,
                       q: Query, a: Asker, limit: nat)
    returns (results: seq<Retrieved>)
    requires Ordinary(w) && Listed(objs, order) && Trusting(objs) && LexicalIndex.Exact(objs, t)
    requires Answers(tok, q, a, t, CANDIDATE_POOL, rows)
    ensures AnsweredByIndex(tok, w, objs, t, q, a, limit, results)
    ensures Terms(tok, q) != [] ==>
              forall r :: r in results ==> r.lexical.Some? && RelevantAs(t, rows, r.id, r.lexical.value)
  {
    var terms := QueryTerms(tok, q.text);
    var pairs;
    if terms != [] {
      pairs := FromRows(tok, objs, t, rows, q, a);
    } else {
      pairs := FromObjects(tok, objs, order, q, a);
    }
    var found := Score(tok, w, objs, q, a, pairs);
    results := Cut(found, limit);
    if terms != [] {
      ResultsAreRelevant(t, rows, pairs, found, limit);
    }
  }

  method Score(tok: Tokenizer, w: Weights, objs: Objects, q: Query, a: Asker, pairs: seq<(Id, real)>)
    returns (found: seq<Retrieved>)
    requires Ordinary(w) && Trusting(objs) && (forall id :: id in objs ==> objs[id].id == id)
    requires forall p :: p in pairs ==> p.0 in objs && if Terms(tok, q) == [] then p.1 == 0.0 else 0.0 < p.1 <= 1.0
    requires DistinctIds(pairs)
    ensures forall id :: Finds(found, id) <==> Paired(pairs, id)
    ensures NoTwice(found)
    ensures forall r :: r in found ==> Scored(objs, w, q, a, r)
    ensures forall r :: r in found ==>
              if Terms(tok, q) == [] then r.lexical.None? else r.lexical.Some? && 0.0 < r.lexical.value <= 1.0
    ensures forall r :: r in found && r.lexical.Some? ==> (r.id, r.lexical.value) in pairs
  {
    found := [];
    for i := 0 to |pairs|
      invariant forall id :: Finds(found, id) <==> Paired(pairs[..i], id)
      invariant NoTwice(found)
      invariant forall r :: r in found ==> Scored(objs, w, q, a, r)
      invariant forall r :: r in found ==>
                  if Terms(tok, q) == [] then r.lexical.None? else r.lexical.Some? && 0.0 < r.lexical.value <= 1.0
      invariant forall r :: r in found && r.lexical.Some? ==> (r.id, r.lexical.value) in pairs
    {
      assert pairs[..i + 1] == pairs[..i] + [pairs[i]];
      assert pairs[i] in pairs;
      var o := objs[pairs[i].0];
      var parts := Nonlexical(q, a, o, Temporal.SourceTrust(objs, o));
      var lexical := if pairs[i].1 == 0.0 then None else Some(pairs[i].1);
      var total := Total(w, parts, lexical);
      ScoresArePositive(w, q, a, o, Temporal.SourceTrust(objs, o), lexical);
      if total <= 0.0 {
        continue;
      }
      ghost var before := found;
      found := found + [Retrieved(o.id, total, parts, lexical)];
      forall id ensures Finds(found, id) <==> Paired(pairs[..i + 1], id) {
        FindsMore(before, found[|before|], id);
        PairedMore(pairs[..i], pairs[i], id);
      }
      assert !Paired(pairs[..i], o.id);
      Fresh(before, found[|before|]);
    }
    assert pairs[..|pairs|] == pairs;
  }

  /** The selected rows fit the pool; or, for a query without a searchable text, its constraints are absent
      or one of them is not the empty string. */
  ghost predicate Comparable(tok: Tokenizer, t: LexicalIndex.Tables, q: Query, a: Asker) {
    if Terms(tok, q) != [] then |Selected(tok, q, a, t)| <= CANDIDATE_POOL else NoConstraint(q) || AnyNonempty(q)
  }

  function IndexHits(tok: Tokenizer, q: Query, a: Asker, objs: Objects): set<Id> {
    set id | id in objs && IndexedHit(tok, q, a, objs[id])
  }

  lemma IndexedHits(tok: Tokenizer, w: Weights, objs: Objects, t: LexicalIndex.Tables, q: Query, a: Asker, limit: nat,
                    results: seq<Retrieved>)
    requires AnsweredByIndex(tok, w, objs, t, q, a, limit, results)
    ensures Comparable(tok, t, q, a) && Uncut(results, IndexHits(tok, q, a, objs), limit) ==>
              forall id :: id in objs && !Control(objs[id].kind) ==>
                (Finds(results, id) <==> ScanHit(tok, q, a, objs[id]))
    ensures forall r :: r in results ==> Scored(objs, w, q, a, r)
  {
    var found :| FoundByIndex(tok, w, objs, t, q, a, found) && results == Cut(found, limit);
    if Comparable(tok, t, q, a) && Uncut(results, IndexHits(tok, q, a, objs), limit) {
      forall r: Retrieved | r in found ensures r.id in IndexHits(tok, q, a, objs) {
        assert Finds(found, r.id);
      }
      FoundFits(found, IndexHits(tok, q, a, objs));
      UncutIsAll(found, limit);
      forall id | id in objs && !Control(objs[id].kind) ensures Finds(results, id) <==> ScanHit(tok, q, a, objs[id]) {
        ParityOfHits(tok, q, a, objs[id]);
      }
    }
    CutIsBest(found, limit);
  }

  /** Search parity: for a comparable query whose limit cuts neither answer, the two retrievers return the
      same knowledge objects, with equal parts other than the lexical one. */
  lemma SearchParity(tok: Tokenizer, w: Weights, objs: Objects, t: LexicalIndex.Tables, q: Query, a: Asker, limit: nat,
                     scanned: seq<Retrieved>, indexed: seq<Retrieved>, id: Id)
    requires AnsweredByScan(tok, w, objs, q, a, limit, scanned) &&
             AnsweredByIndex(tok, w, objs, t, q, a, limit, indexed)
    requires Uncut(scanned, ScanHits(tok, q, a, objs), limit) && Uncut(indexed, IndexHits(tok, q, a, objs), limit)
    requires Comparable(tok, t, q, a) && id in objs && !Control(objs[id].kind)
    ensures Finds(scanned, id) <==> Finds(indexed, id)
    ensures forall r, s :: r in scanned && s in indexed && r.id == id && s.id == id ==> r.parts == s.parts
  {
    ScannedHits(tok, w, objs, q, a, limit, scanned);
    IndexedHits(tok, w, objs, t, q, a, limit, indexed);
    forall r, s | r in scanned && s in indexed && r.id == id && s.id == id ensures r.parts == s.parts {
      assert Scored(objs, w, q, a, r) && Scored(objs, w, q, a, s);
    }
  }

  /** The engine's search: through the index while it is healthy, by the scan otherwise and whenever the
      index raises. The answer to a comparable query that the limit does not cut is that of the scan. */
  method Search(index: LexicalIndex.Index, ln: real -> real, tok: Tokenizer, w: Weights, objs: Objects, order: seq<Id>,
                rows: seq<Match>, q: Query, a: Asker, limit: nat)
    returns (results: seq<Retrieved>)
    requires Tfidf.LogLike(ln) && Ordinary(w) && Listed(objs, order) && Trusting(objs)
    requires index.state == IndexHealth.Healthy ==>
               LexicalIndex.Exact(objs, index.tables) && Answers(tok, q, a, index.tables, CANDIDATE_POOL, rows)
    modifies index`state
    ensures || index.state == old(index.state)
            || (old(index.state) == IndexHealth.Healthy && index.state == IndexHealth.Degraded)
    ensures || AnsweredByScan(tok, w, objs, q, a, limit, results)
            || AnsweredByIndex(tok, w, objs, index.tables, q, a, limit, results)
    ensures Comparable(tok, index.tables, q, a) &&
            Uncut(results, ScanHits(tok, q, a, objs), limit) && Uncut(results, IndexHits(tok, q, a, objs), limit) ==>
              forall id :: id in objs && !Control(objs[id].kind) ==>
                (Finds(results, id) <==> ScanHit(tok, q, a, objs[id]))
  {
    if index.state == IndexHealth.Healthy {
      var raised: bool := *;
      if !raised {
        results := IndexedSearch(tok, w, objs, order, index.tables, rows, q, a, limit);
        IndexedHits(tok, w, objs, index.tables, q, a, limit, results);
        return;
      }
      index.MarkDegraded();
    }
    results := ScanSearch(ln, tok, w, objs, order, q, a, limit);
    ScannedHits(tok, w, objs, q, a, limit, results);
  }

  /** One empty constraint and no text: the scan filters by it, the index does not. */
  lemma EmptyConstraintDiffers(tok: Tokenizer, o: Obj)
    requires o.kind == Fact && o.body.subject == Some("Alice")
    ensures var q := Query(None, Some(""), None, None, None, false, None, None);
            var a := Asker(o.tenant, o.namespace, (x: Obj) => true, 0);
            !ScanHit(tok, q, a, o) && IndexedHit(tok, q, a, o)
  {
    var q := Query(None, Some(""), None, None, None, false, None, None);
    assert Distinct([]) == [] && Terms(tok, q) == [];
    assert Constraints(q)[0] == Some("") && Fields(o)[0] == Some("Alice");
    assert Constraints(q) == [Some(""), None, None];
  }
}
