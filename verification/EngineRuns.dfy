/** The engine serving calls one at a time, with its indexes failing, rolled back, rebuilt and checked as it goes: its
    answers do not depend on them. */
module EngineRuns {
  import opened Model
  import opened Projection
  import opened Operations
  import opened IndexedEngine
  import opened IndexHealth
  import Effects
  import Explain
  import ExplainRuns
  import IndexedRetrieval
  import Ledger
  import LexicalIndex
  import ProvenanceIndex
  import Retrieval
  import Runs
  import Serial
  import Store
  import Text
  import Tfidf

  /** The engine has served these calls, and the provenance index's flag is beyond doubt. */
  ghost predicate HasServed(e: Engine, calls: seq<Call>)
    reads e, e.store, e.prov, e.lex
  {
    && e.Valid() && e.store.depth == 0 && !e.provLife.now.doubtful
    && Serial.ClockOrdered(calls)
    && e.store.ledger == Serial.Served(e.h, calls).ledger
    && e.store.objects == Serial.Served(e.h, calls).objects
  }

  /** A new engine has served nothing. */
  lemma NewEngine(e: Engine)
    requires e.Valid() && e.store.View() == Store.EMPTY && !e.provLife.now.doubtful
    ensures HasServed(e, [])
  {
  }

  /** Serves a call: its check, and the commit of its events in one transaction. */
  method Serve(e: Engine, minted: set<Id>, c: Call, ghost calls: seq<Call>)
    requires HasServed(e, calls) && Serial.ClockOrdered(calls + [c])
    requires minted == Serial.Served(e.h, calls).used
    modifies e, e.store, e.prov, e.lex
    ensures HasServed(e, calls + [c])
    ensures if Effects.TakesEffect(Serial.Served(e.h, calls), c)
            then Effects.Does(old(e.store.objects), e.store.objects, c)
            else e.store.objects == old(e.store.objects)
  {
    ghost var s := Serial.Served(e.h, calls);
    Effects.ServedDoes(e.h, calls, c);
    Serial.ServedSerene(e.h, calls);
    Serial.ServeInvariant(e.h, s, c);
    Serial.ServedNext(e.h, calls, c);
    if Runs.Fresh(minted, c.request) && Guard(e.store.objects, c) {
      var ok := e.Commit(Plan(e.store.objects, c));
    }
  }

  lemma ServedReplays(h: Ledger.Hash, calls: seq<Call>)
    requires Serial.ClockOrdered(calls)
    ensures Replay(Serial.Served(h, calls).ledger) == Some(Serial.Served(h, calls).objects)
  {
    Serial.ServedSerene(h, calls);
  }

  /** Rebuilding the projection changes nothing that was served, and succeeds unless clearing an index raised. */
  method RebuildProjection(e: Engine, ghost calls: seq<Call>) returns (ok: bool, ghost cleared: bool)
    requires HasServed(e, calls)
    modifies e, e.store, e.prov, e.lex
    ensures HasServed(e, calls)
    ensures ok <==> cleared
    ensures e.prov.state == Unavailable && e.lex.state == Unavailable ==> cleared
  {
    ServedReplays(e.h, calls);
    var count;
    ok, count, cleared := e.RebuildProjection();
  }

  /** Importing what an engine recorded while it served some calls makes an empty engine one that has served them. */
  method ImportServed(f: Engine, records: seq<Record>, ghost calls: seq<Call>) returns (ok: bool)
    requires f.Valid() && f.store.depth == 0 && f.store.ledger == [] && !f.provLife.now.doubtful
    requires Serial.ClockOrdered(calls) && records == Serial.Served(f.h, calls).ledger
    modifies f, f.store, f.prov, f.lex
    ensures ok && HasServed(f, calls)
    ensures f.store.ledger == records && f.store.objects == Serial.Served(f.h, calls).objects
    ensures old(f.store.objects) == map[] && f.lexLife.now.doubtful ==> old(f.lexLife.now.doubtful)
  {
    Serial.ServedSerene(f.h, calls);
    ok := f.ImportEvents(records);
  }

  method RebuildIndexes(e: Engine, order: seq<Id>, ghost calls: seq<Call>) returns (ok: bool)
    requires HasServed(e, calls) && forall id :: id in order <==> id in e.store.objects
    modifies e, e.prov, e.lex
    ensures HasServed(e, calls)
  {
    ok := e.RebuildIndexes(order);
  }

  method VerifyIndexes(e: Engine, ghost calls: seq<Call>) returns (ok: bool)
    requires HasServed(e, calls)
    modifies e, e.prov, e.lex
    ensures HasServed(e, calls)
  {
    ok := e.VerifyIndexes();
  }

  /** The views of the engine meet what the indexed walk needs. */
  lemma ServedIsUsable(e: Engine, v: Explain.View, calls: seq<Call>)
    requires HasServed(e, calls)
    requires v.ledger == e.store.ledger && v.objs == e.store.objects && Explain.Enumerates(v.order, v.objs)
    ensures Explain.Usable(v, e.prov.state, e.prov.rows)
  {
    ExplainRuns.SerialViewIsUsable(e.h, calls, v);
    forall id ensures Explain.ListedAsAsserted(v, id) {
      Explain.OneIsListed(v, id);
    }
    e.HealthyAreExact();
  }

  /** Explains on views that meet what the indexed walk needs; a query that fails costs the index no more than its
      flag. */
  method ExplainUsable(e: Engine, v: Explain.View, id: Id, depth: int, seen: set<Id>)
    returns (node: Explain.Node, seen': set<Id>)
    requires e.Valid() && Explain.Usable(v, e.prov.state, e.prov.rows)
    modifies e, e.prov
    ensures e.Valid() && e.provLife.now.doubtful == old(e.provLife.now.doubtful)
    ensures Explain.Genealogy(v, id, depth, seen, node, seen')
    ensures (node, seen') == Explain.Explained(v, id, depth, seen)
  {
    ghost var before := e.prov.state;
    node, seen' := Explain.Explain(v, e.prov, id, depth, seen);
    e.NoteQuery(before);
  }

  /** Index independence: whatever statements of the indexes failed, were rolled back, rebuilt or restored on the way
      and whatever queries fail now, the tree is the one that scanning ledger and objects gives. */
  method ExplainServed(e: Engine, v: Explain.View, id: Id, depth: int, seen: set<Id>, ghost calls: seq<Call>)
    returns (node: Explain.Node, seen': set<Id>)
    requires HasServed(e, calls)
    requires v.ledger == e.store.ledger && v.objs == e.store.objects && Explain.Enumerates(v.order, v.objs)
    modifies e, e.prov
    ensures HasServed(e, calls)
    ensures Explain.Genealogy(v, id, depth, seen, node, seen')
    ensures (node, seen') == Explain.Explained(v, id, depth, seen)
  {
    ServedIsUsable(e, v, calls);
    node, seen' := ExplainUsable(e, v, id, depth, seen);
  }

  /** The engine's search while the flag of the lexical index is beyond doubt: after any commits, failing statements,
      rollbacks and rebuilds the answer to a comparable query that the limit does not cut is that of the scan. */
  method SearchServed(e: Engine, ln: real -> real, tok: Text.Tokenizer, w: Retrieval.Weights, order: seq<Id>,
                      rows: seq<IndexedRetrieval.Match>, q: Retrieval.Query, a: Retrieval.Asker, limit: nat)
    returns (results: seq<Retrieval.Retrieved>)
    requires e.Valid() && !e.lexLife.now.doubtful
    requires Tfidf.LogLike(ln) && Retrieval.Ordinary(w)
    requires Retrieval.Listed(e.store.objects, order) && Retrieval.Trusting(e.store.objects)
    requires e.lex.state == Healthy ==>
               IndexedRetrieval.Answers(tok, q, a, e.lex.tables, IndexedRetrieval.CANDIDATE_POOL, rows)
    modifies e, e.lex
    ensures e.Valid() && !e.lexLife.now.doubtful
    ensures var objs := e.store.objects;
            IndexedRetrieval.Comparable(tok, e.lex.tables, q, a) &&
            Retrieval.Uncut(results, Retrieval.ScanHits(tok, q, a, objs), limit) &&
            Retrieval.Uncut(results, IndexedRetrieval.IndexHits(tok, q, a, objs), limit) ==>
              forall id :: id in objs && !Retrieval.Control(objs[id].kind) ==>
                (Retrieval.Finds(results, id) <==> Retrieval.ScanHit(tok, q, a, objs[id]))
  {
    e.HealthyAreExact();
    ghost var before := e.lex.state;
    results := IndexedRetrieval.Search(e.lex, ln, tok, w, e.store.objects, order, rows, q, a, limit);
    if e.lex.state != before {
      e.NoteLex(Degrade);
    }
  }
}
