/** What a confirmation does to the answer about a past instant. */
module Confirmations {
  import opened Model
  import opened Projection
  import opened Operations
  import opened Live
  import opened Temporal
  import opened Past
  import Ledger
  import Runs
  import Serial

  /******* The other candidates *******/

  function Others(facts: seq<Obj>, id: Id): (r: seq<Obj>)
    ensures forall f :: f in r <==> f in facts && f.id != id
    decreases |facts|
  {
    if facts == [] then []
    else
      var rest, f := Others(facts[..|facts| - 1], id), facts[|facts| - 1];
      assert facts == facts[..|facts| - 1] + [f];
      if f.id == id then rest else rest + [f]
  }

  /** The facts that compete with this one for the answer. */
  function Rivals(facts: seq<Obj>, id: Id, q: Query): seq<Obj> {
    Others(Candidates(facts, Some(q.atTx), Some(q.atValid)), id)
  }

  /** The fact ranks above the best of its rivals. */
  predicate Beats(f: Obj, rivals: seq<Obj>, trustOf: Obj -> real)
    requires rivals != []
  {
    RankLess(RankOf(Best(rivals, trustOf), trustOf), RankOf(f, trustOf))
  }

  predicate Competes(objs: Objects, id: Id, q: Query, canRead: Access -> bool) {
    Relevant(objs, id, q, canRead) && Candidate(objs[id], Some(q.atTx), Some(q.atValid), true)
  }

  /** What a caller can check before confirming a fact up to `raised`: the fact does not compete for the answer,
      or it has no rival, or its best rival has the same value, or it ranks above or below that rival both before
      and after. */
  predicate Unmoved(facts: seq<Obj>, objs: Objects, id: Id, raised: real, q: Query, canRead: Access -> bool)
    requires id in objs
  {
    var rivals, g, trustOf := Rivals(facts, id, q), objs[id], TrustIn(objs);
    || !Competes(objs, id, q, canRead)
    || rivals == []
    || Best(rivals, trustOf).body.target == g.body.target
    || (Beats(g, rivals, trustOf) <==> Beats(g.(confidence := raised), rivals, trustOf))
  }

  /******* One confirmation *******/

  /** The objects before and after, apart from the annotation. */
  ghost predicate Confirmed(objs: Objects, later: Objects, id: Id, raised: real) {
    && id in objs && objs[id].kind == Fact && later.Keys == objs.Keys
    && (forall x :: x in objs && x != id ==> later[x] == objs[x])
    && later[id] == objs[id].(confidence := raised, meta := later[id].meta)
  }

  lemma ConfirmationIs(objs: Objects, e: Event)
    requires Proper(objs, e) && e.payload.FactConfirm? && Apply(objs, e).ok && Keyed(objs)
    ensures Confirmed(objs, Apply(objs, e).objects, e.payload.confirmed, e.payload.confidence)
    ensures Keyed(Apply(objs, e).objects)
  {
    SingleEdit(objs, e);
  }

  lemma TrustStays(objs: Objects, later: Objects, id: Id, raised: real, f: Obj)
    requires Confirmed(objs, later, id, raised)
    ensures TrustIn(later)(f) == TrustIn(objs)(f)
  {
  }

  lemma ControlStays(objs: Objects, later: Objects, id: Id, raised: real)
    requires Confirmed(objs, later, id, raised)
    ensures ControlPlane(later) == ControlPlane(objs)
  {
  }

  lemma CompetesStays(objs: Objects, later: Objects, id: Id, raised: real, q: Query, canRead: Access -> bool, x: Id)
    requires Confirmed(objs, later, id, raised)
    ensures Competes(later, x, q, canRead) <==> Competes(objs, x, q, canRead)
  {
    ControlStays(objs, later, id, raised);
    if x in objs {
      assert AccessTo(later, later[x]) == AccessTo(objs, objs[x]);
    }
  }

  lemma {:induction false} SameBest(facts: seq<Obj>, trustX: Obj -> real, trustY: Obj -> real)
    requires facts != [] && forall f :: trustX(f) == trustY(f)
    ensures Best(facts, trustX) == Best(facts, trustY)
    decreases |facts|
  {
    if |facts| > 1 {
      SameBest(facts[..|facts| - 1], trustX, trustY);
    }
  }

  /** The winner among the rivals and one more fact. */
  lemma BestOfWith(facts: seq<Obj>, rivals: seq<Obj>, g: Obj, trustOf: Obj -> real)
    requires DistinctIds(facts) && forall f :: f in facts <==> f in rivals || f == g
    requires forall f :: f in rivals ==> f.id != g.id
    ensures facts != []
    ensures Best(facts, trustOf) == if rivals == [] || Beats(g, rivals, trustOf) then g else Best(rivals, trustOf)
  {
    assert g in facts;
    BestIsBest(facts, trustOf);
    var b := Best(facts, trustOf);
    if rivals != [] {
      assert DistinctIds(rivals);
      BestIsBest(rivals, trustOf);
      var r := Best(rivals, trustOf);
      assert r in facts;
      RankTotal(RankOf(r, trustOf), RankOf(g, trustOf));
      RankTotal(RankOf(r, trustOf), RankOf(b, trustOf));
      RankTotal(RankOf(g, trustOf), RankOf(b, trustOf));
    } else {
      assert b in facts;
    }
  }

  /** The answer, in terms of one competing fact and its rivals. */
  lemma AnswerWith(facts: seq<Obj>, objs: Objects, g: Obj, rivals: seq<Obj>, q: Query, canRead: Access -> bool)
    requires Lists(facts, objs, q, canRead)
    requires forall f :: f in Candidates(facts, Some(q.atTx), Some(q.atValid)) <==> f in rivals || f == g
    requires forall f :: f in rivals ==> f.id != g.id
    ensures Answer(facts, objs, q) ==
            (if rivals == [] || Beats(g, rivals, TrustIn(objs)) then g else Best(rivals, TrustIn(objs))).body.target
  {
    var c := Candidates(facts, Some(q.atTx), Some(q.atValid));
    CandidatesDistinct(facts, objs, q, canRead);
    BestOfWith(c, rivals, g, TrustIn(objs));
  }

  /** After the confirmation the same rivals compete with the confirmed fact. */
  lemma RivalsStay(facts: seq<Obj>, objs: Objects, newFacts: seq<Obj>, later: Objects, id: Id, raised: real,
                   q: Query, canRead: Access -> bool)
    requires Keyed(objs) && Keyed(later) && Confirmed(objs, later, id, raised) && Competes(objs, id, q, canRead)
    requires Lists(facts, objs, q, canRead) && Lists(newFacts, later, q, canRead)
    ensures forall f :: f in Candidates(newFacts, Some(q.atTx), Some(q.atValid)) <==>
                        f in Rivals(facts, id, q) || f == later[id]
    ensures forall f :: f in Candidates(facts, Some(q.atTx), Some(q.atValid)) <==>
                        f in Rivals(facts, id, q) || f == objs[id]
    ensures forall f :: f in Rivals(facts, id, q) ==> f.id != id
  {
    CandidatesAre(facts, Some(q.atTx), Some(q.atValid));
    CandidatesAre(newFacts, Some(q.atTx), Some(q.atValid));
    forall x | x in objs ensures Competes(later, x, q, canRead) <==> Competes(objs, x, q, canRead) {
      CompetesStays(objs, later, id, raised, q, canRead, x);
    }
    CandidatesById(facts, objs, q, canRead, id);
    CandidatesById(newFacts, later, q, canRead, id);
    forall f ensures f in Candidates(newFacts, Some(q.atTx), Some(q.atValid)) <==>
                     f in Rivals(facts, id, q) || f == later[id]
    {
      if f.id in objs {
        CandidatesById(facts, objs, q, canRead, f.id);
        CandidatesById(newFacts, later, q, canRead, f.id);
      }
    }
  }

  /** A confirmation of a fact that does not compete changes nothing. */
  lemma AsideStays(facts: seq<Obj>, objs: Objects, newFacts: seq<Obj>, later: Objects, id: Id, raised: real,
                   q: Query, canRead: Access -> bool)
    requires Keyed(objs) && Keyed(later) && Confirmed(objs, later, id, raised) && !Competes(objs, id, q, canRead)
    requires Lists(facts, objs, q, canRead) && Lists(newFacts, later, q, canRead)
    ensures Answer(newFacts, later, q) == Answer(facts, objs, q)
  {
    var cx := Candidates(facts, Some(q.atTx), Some(q.atValid));
    var cy := Candidates(newFacts, Some(q.atTx), Some(q.atValid));
    CandidatesAre(facts, Some(q.atTx), Some(q.atValid));
    CandidatesAre(newFacts, Some(q.atTx), Some(q.atValid));
    forall f ensures f in cx <==> f in cy {
      if f.id in objs {
        CompetesStays(objs, later, id, raised, q, canRead, f.id);
      }
    }
    forall f ensures TrustIn(later)(f) == TrustIn(objs)(f) {
      TrustStays(objs, later, id, raised, f);
    }
    CandidatesDistinct(facts, objs, q, canRead);
    assert cx != [] ==> cx[0] in cy;
    assert cy != [] ==> cy[0] in cx;
    if cx != [] {
      SameBest(cx, TrustIn(objs), TrustIn(later));
      BestIsBest(cx, TrustIn(later));
      BestIsBest(cy, TrustIn(later));
      RankTotal(RankOf(Best(cx, TrustIn(later)), TrustIn(later)), RankOf(Best(cy, TrustIn(later)), TrustIn(later)));
    }
  }

  lemma RivalryDecides(facts: seq<Obj>, objs: Objects, newFacts: seq<Obj>, later: Objects, id: Id, raised: real,
                       q: Query, canRead: Access -> bool)
    requires Keyed(objs) && Keyed(later) && Confirmed(objs, later, id, raised) && Competes(objs, id, q, canRead)
    requires Lists(facts, objs, q, canRead) && Lists(newFacts, later, q, canRead)
    ensures Answer(newFacts, later, q) == Answer(facts, objs, q) <==> Unmoved(facts, objs, id, raised, q, canRead)
  {
    var rivals := Rivals(facts, id, q);
    RivalsStay(facts, objs, newFacts, later, id, raised, q, canRead);
    AnswerWith(facts, objs, objs[id], rivals, q, canRead);
    AnswerWith(newFacts, later, later[id], rivals, q, canRead);
    if rivals != [] {
      forall f ensures TrustIn(later)(f) == TrustIn(objs)(f) {
        TrustStays(objs, later, id, raised, f);
      }
      SameBest(rivals, TrustIn(objs), TrustIn(later));
      assert RankOf(later[id], TrustIn(objs)) == RankOf(objs[id].(confidence := raised), TrustIn(objs));
    }
  }

  /** Exactly when a confirmation leaves the answer about a past instant unchanged. */
  lemma ConfirmationMovesIff(objs: Objects, e: Event, facts: seq<Obj>, newFacts: seq<Obj>, q: Query,
                             canRead: Access -> bool)
    requires Tidy(objs) && Proper(objs, e) && e.payload.FactConfirm? && Apply(objs, e).ok
    requires Lists(facts, objs, q, canRead) && Lists(newFacts, Apply(objs, e).objects, q, canRead)
    ensures Answer(newFacts, Apply(objs, e).objects, q) == Answer(facts, objs, q) <==>
            Unmoved(facts, objs, e.payload.confirmed, e.payload.confidence, q, canRead)
  {
    var id, raised, later := e.payload.confirmed, e.payload.confidence, Apply(objs, e).objects;
    ConfirmationIs(objs, e);
    if Competes(objs, id, q, canRead) {
      RivalryDecides(facts, objs, newFacts, later, id, raised, q, canRead);
    } else {
      AsideStays(facts, objs, newFacts, later, id, raised, q, canRead);
    }
  }

  /******* A run in which a confirmation reaches back *******/

  /** A fact believed from `ts` on, without a source. */
  predicate NewFact(o: Obj, who: Who, ts: Time, known: Objects) {
    && Minted(o.id) && NewObject(o, Fact, who, ts) && o.body.supersedes == [] && o.body.source.None?
    && ValidInterval(o) && RefsInScope(known, who, o)
  }

  /** Two facts about one subject and predicate that disagree. The second, less certain at first, is confirmed
      above the first. */
  predicate Contenders(f: Obj, g: Obj, who: Who, delta: real) {
    && f.id != g.id && NewFact(f, who, 1, map[]) && NewFact(g, who, 2, map[f.id := f])
    && f.body.subject == g.body.subject && f.body.subject.Some?
    && f.body.pred == g.body.pred && f.body.pred.Some?
    && ValidAt(f, 3) && ValidAt(g, 3) && f.body.target != g.body.target
    && delta >= 0.0 && g.confidence < f.confidence < Raised(g.confidence, delta)
  }

  function AssertCall(o: Obj, who: Who, ts: Time): Call {
    Call(who, ts, Create(FactAsserted, o), true)
  }

  function ConfirmCall(g: Id, backing: Id, delta: real, who: Who): Call {
    Call(who, 5, ConfirmFact(g, backing, delta), true)
  }

  lemma ServeFact(h: Ledger.Hash, s: Runs.System, o: Obj, who: Who, ts: Time)
    requires Runs.Invariant(h, s) && s.pending == map[] && o.id !in s.used && NewFact(o, who, ts, s.objects)
    ensures var later := Serial.Serve(h, s, AssertCall(o, who, ts));
            && Runs.Invariant(h, later) && later.pending == map[] && later.objects == s.objects[o.id := o]
            && later.used == s.used + {o.id} && s.ledger <= later.ledger
  {
    Serial.ServePut(h, s, AssertCall(o, who, ts), o);
  }

  lemma ConfirmationApplies(objs: Objects, g: Id, backing: Id, delta: real, who: Who)
    requires Keyed(objs) && OfKind(objs, who, g, Fact) && RefInScope(objs, who, backing) && delta >= 0.0
    ensures var c := ConfirmCall(g, backing, delta, who);
            && Guard(objs, c) && |Plan(objs, c)| == 1 && Apply(objs, Plan(objs, c)[0]).ok
            && Confirmed(objs, Apply(objs, Plan(objs, c)[0]).objects, g, Raised(objs[g].confidence, delta))
  {
    SingleEdit(objs, Plan(objs, ConfirmCall(g, backing, delta, who))[0]);
  }

  lemma ServeConfirmation(h: Ledger.Hash, s: Runs.System, g: Id, backing: Id, delta: real, who: Who)
    requires Runs.Invariant(h, s) && s.pending == map[] && delta >= 0.0
    requires OfKind(s.objects, who, g, Fact) && RefInScope(s.objects, who, backing)
    ensures var later := Serial.Serve(h, s, ConfirmCall(g, backing, delta, who));
            && Runs.Invariant(h, later) && s.ledger <= later.ledger
            && Confirmed(s.objects, later.objects, g, Raised(s.objects[g].confidence, delta))
  {
    ConfirmationApplies(s.objects, g, backing, delta, who);
    Serial.ServeOne(h, s, ConfirmCall(g, backing, delta, who));
  }

  /** Of two competing facts without a source the more certain one answers. */
  lemma PairAnswers(facts: seq<Obj>, objs: Objects, f: Obj, g: Obj, q: Query, canRead: Access -> bool)
    requires f.id != g.id && objs == map[f.id := f, g.id := g] && Lists(facts, objs, q, canRead)
    requires Competes(objs, f.id, q, canRead) && Competes(objs, g.id, q, canRead)
    requires f.body.source.None? && g.body.source.None? && f.confidence != g.confidence
    ensures Answer(facts, objs, q) == if f.confidence < g.confidence then g.body.target else f.body.target
  {
    CandidatesAre(facts, Some(q.atTx), Some(q.atValid));
    forall x ensures x in Candidates(facts, Some(q.atTx), Some(q.atValid)) <==> x in [f] || x == g {}
    AnswerWith(facts, objs, g, [f], q, canRead);
  }

  /** The system after the two facts were asserted, and after the second was confirmed as well. */
  function Before(h: Ledger.Hash, f: Obj, g: Obj, who: Who): Runs.System {
    Serial.Served(h, [AssertCall(f, who, 1), AssertCall(g, who, 2)])
  }

  function Afterwards(h: Ledger.Hash, f: Obj, g: Obj, who: Who, delta: real): Runs.System {
    Serial.Served(h, [AssertCall(f, who, 1), AssertCall(g, who, 2), ConfirmCall(g.id, f.id, delta, who)])
  }

  lemma TwoFacts(h: Ledger.Hash, s: Runs.System, mid: Runs.System, f: Obj, g: Obj, who: Who)
    requires Runs.Invariant(h, s) && s.pending == map[] && mid == Serial.Serve(h, s, AssertCall(f, who, 1))
    requires f.id !in s.used && g.id !in s.used && f.id != g.id
    requires NewFact(f, who, 1, s.objects) && NewFact(g, who, 2, s.objects[f.id := f])
    ensures var later := Serial.Serve(h, mid, AssertCall(g, who, 2));
            Runs.Invariant(h, later) && later.pending == map[] && later.objects == s.objects[f.id := f][g.id := g]
  {
    ServeFact(h, s, f, who, 1);
    ServeFact(h, mid, g, who, 2);
  }

  lemma ContendersServed(h: Ledger.Hash, f: Obj, g: Obj, who: Who, delta: real)
    requires Contenders(f, g, who, delta)
    ensures var s := Before(h, f, g, who);
            Runs.Invariant(h, s) && s.pending == map[] && s.objects == map[f.id := f, g.id := g]
    ensures Afterwards(h, f, g, who, delta) ==
            Serial.Serve(h, Before(h, f, g, who), ConfirmCall(g.id, f.id, delta, who))
  {
    Serial.ServedThree(h, AssertCall(f, who, 1), AssertCall(g, who, 2), ConfirmCall(g.id, f.id, delta, who));
    Serial.StartSerene(h, 0);
    TwoFacts(h, Runs.START, Serial.Serve(h, Runs.START, AssertCall(f, who, 1)), f, g, who);
    assert map[][f.id := f][g.id := g] == map[f.id := f, g.id := g];
  }

  lemma ContendersCompete(objs: Objects, f: Obj, g: Obj, who: Who, delta: real, canRead: Access -> bool)
    requires Contenders(f, g, who, delta) && (forall a :: canRead(a)) && objs == map[f.id := f, g.id := g]
    ensures var q := Query(who, f.body.subject.value, f.body.pred.value, 3, 3);
            Competes(objs, f.id, q, canRead) && Competes(objs, g.id, q, canRead)
    ensures OfKind(objs, who, g.id, Fact) && RefInScope(objs, who, f.id)
  {
  }

  lemma ConfirmedPair(objs: Objects, later: Objects, f: Obj, g: Obj, raised: real, q: Query, canRead: Access -> bool)
    requires f.id != g.id && objs == map[f.id := f, g.id := g] && Confirmed(objs, later, g.id, raised)
    requires Competes(objs, f.id, q, canRead) && Competes(objs, g.id, q, canRead)
    ensures later == map[f.id := f, g.id := later[g.id]]
    ensures Competes(later, f.id, q, canRead) && Competes(later, g.id, q, canRead)
  {
    CompetesStays(objs, later, g.id, raised, q, canRead, f.id);
    CompetesStays(objs, later, g.id, raised, q, canRead, g.id);
  }

  /** A confirmation reaches back: at a past instant the answer was the first fact's value, and once the second
      fact has been confirmed, in a later record, it is the second fact's. */
  lemma ConfirmationReachesBack(h: Ledger.Hash, f: Obj, g: Obj, who: Who, delta: real, facts: seq<Obj>,
                                newFacts: seq<Obj>, canRead: Access -> bool)
    requires Contenders(f, g, who, delta) && forall a :: canRead(a)
    requires var q := Query(who, f.body.subject.value, f.body.pred.value, 3, 3);
             && Lists(facts, Before(h, f, g, who).objects, q, canRead)
             && Lists(newFacts, Afterwards(h, f, g, who, delta).objects, q, canRead)
    ensures var q := Query(who, f.body.subject.value, f.body.pred.value, 3, 3);
            var before, later := Before(h, f, g, who), Afterwards(h, f, g, who, delta);
            && LiveLedger(later.ledger) && before.ledger <= later.ledger
            && Answer(facts, before.objects, q) == f.body.target
            && Answer(newFacts, later.objects, q) == g.body.target
  {
    var q := Query(who, f.body.subject.value, f.body.pred.value, 3, 3);
    ContendersServed(h, f, g, who, delta);
    var before, later := Before(h, f, g, who), Afterwards(h, f, g, who, delta);
    ContendersCompete(before.objects, f, g, who, delta, canRead);
    ServeConfirmation(h, before, g.id, f.id, delta, who);
    PairAnswers(facts, before.objects, f, g, q, canRead);
    ConfirmedPair(before.objects, later.objects, f, g, Raised(g.confidence, delta), q, canRead);
    PairAnswers(newFacts, later.objects, f, later.objects[g.id], q, canRead);
  }
}
