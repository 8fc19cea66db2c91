/** What the system knew at a past instant: an answer that later records do not change. */
module Past {
  import opened Model
  import opened Projection
  import opened Operations
  import opened Live
  import opened Temporal

  /******* Reading *******/

  /** What the read decision may consult: the object's scope, owner and spaces, and the spaces
      and grants. The decision itself is left open. */
  datatype Control = Control(kind: Kind, tenant: string, owner: string, visibility: Json, active: bool)
  datatype Access = Access(tenant: string, namespace: string, owner: string, spaces: seq<Id>, control: map<Id, Control>)

  function ControlPlane(objs: Objects): map<Id, Control> {
    map id | id in objs && (objs[id].kind == Space || objs[id].kind == Grant) ::
      Control(objs[id].kind, objs[id].tenant, objs[id].owner, objs[id].body.other, objs[id].active)
  }

  function AccessTo(objs: Objects, o: Obj): Access {
    Access(o.tenant, o.namespace, o.owner, o.spaces, ControlPlane(objs))
  }

  datatype Query = Query(who: Who, subject: string, pred: string, atValid: Time, atTx: Time)

  /** The facts of the caller's scope about this subject and predicate that it may read. */
  predicate Relevant(objs: Objects, id: Id, q: Query, canRead: Access -> bool) {
    id in objs && objs[id].kind == Fact && InScope(objs[id], q.who.tenant, q.who.namespace) &&
    objs[id].body.subject == Some(q.subject) && objs[id].body.pred == Some(q.pred) &&
    canRead(AccessTo(objs, objs[id]))
  }

  function TrustIn(objs: Objects): Obj -> real {
    (f: Obj) => SourceTrust(objs, f)
  }

  /** A listing of the relevant facts, in whatever order the store gives them. */
  ghost predicate Lists(facts: seq<Obj>, objs: Objects, q: Query, canRead: Access -> bool) {
    forall f :: f in facts <==> Relevant(objs, f.id, q, canRead) && objs[f.id] == f
  }

  /** The value believed at `atTx` about the world at `atValid`. */
  function Answer(facts: seq<Obj>, objs: Objects, q: Query): Option<string> {
    var best := ResolveCurrent(facts, Some(q.atValid), Some(q.atTx), TrustIn(objs));
    if best.Some? then best.value.body.target else None
  }

  /** The answer comes from the relevant fact, believed and valid then, to which every other such fact has to give way;
      there is none exactly when there is no such fact, or it says that the relation ended. */
  lemma AnswerWins(facts: seq<Obj>, objs: Objects, q: Query, canRead: Access -> bool)
    requires Lists(facts, objs, q, canRead) && Keyed(objs)
    ensures var r := Answer(facts, objs, q);
            && (r.Some? ==> exists b :: WinsAnswer(b, objs, q, canRead) && b.body.target == r)
            && (r.None? ==> (forall id :: Relevant(objs, id, q, canRead) ==> !InTime(objs[id], q)) ||
                            exists b :: WinsAnswer(b, objs, q, canRead) && b.body.target.None?)
  {
    CurrentWins(facts, Some(q.atValid), Some(q.atTx), TrustIn(objs));
    forall b | Wins(b, facts, Some(q.atValid), Some(q.atTx), TrustIn(objs)) ensures WinsAnswer(b, objs, q, canRead) {
      WinsThere(b, facts, objs, q, canRead);
    }
    assert forall id :: Relevant(objs, id, q, canRead) ==> objs[id] in facts;
  }

  lemma WinsThere(b: Obj, facts: seq<Obj>, objs: Objects, q: Query, canRead: Access -> bool)
    requires Lists(facts, objs, q, canRead) && Keyed(objs)
    requires Wins(b, facts, Some(q.atValid), Some(q.atTx), TrustIn(objs))
    ensures WinsAnswer(b, objs, q, canRead)
  {
    forall id | Relevant(objs, id, q, canRead) && id != b.id && InTime(objs[id], q)
      ensures GivesWay(objs[id], b, TrustIn(objs))
    {
      assert objs[id] in facts;
    }
  }

  /** The fact holds at the asked instants. */
  predicate InTime(f: Obj, q: Query) {
    Holds(f, Some(q.atTx), Some(q.atValid))
  }

  ghost predicate WinsAnswer(b: Obj, objs: Objects, q: Query, canRead: Access -> bool) {
    && Relevant(objs, b.id, q, canRead) && objs[b.id] == b && InTime(b, q)
    && forall id :: Relevant(objs, id, q, canRead) && id != b.id && InTime(objs[id], q) ==>
         GivesWay(objs[id], b, TrustIn(objs))
  }

  /******* Records that do not reach back *******/

  /** Every operation but the confirmations, which raise a confidence, and the changes of who
      may read what. */
  predicate Quiet(op: Op) {
    op != FactConfirmed && op != KnowledgeShared && op != KnowledgePromoted &&
    op != SpaceCreated && op != CapabilityGranted && op != CapabilityRevoked
  }

  /** The same object, except that an open belief may have ended after `t`. */
  ghost predicate Settled(o: Obj, r: Obj, t: Time) {
    && r.id == o.id && r.kind == o.kind && r.tenant == o.tenant && r.namespace == o.namespace
    && r.owner == o.owner && r.body == o.body && r.confidence == o.confidence
    && r.spaces == o.spaces && r.active == o.active
    && (o.kind == Fact ==> r.txTo == o.txTo || (o.txTo.None? && r.txTo.Some? && t < r.txTo.value))
  }

  /** Later objects: the old ones are settled, and new facts began after `t`. */
  ghost predicate SettledAll(objs: Objects, later: Objects, t: Time) {
    && (forall id :: id in objs ==> id in later && Settled(objs[id], later[id], t))
    && (forall id :: id in later && id !in objs ==>
          later[id].kind != Space && later[id].kind != Grant &&
          (later[id].kind == Fact ==> later[id].body.txFrom.Some? && t < later[id].body.txFrom.value))
  }

  lemma SettledTransitive(a: Objects, b: Objects, c: Objects, t: Time)
    requires SettledAll(a, b, t) && SettledAll(b, c, t)
    ensures SettledAll(a, c, t)
  {
    forall id | id in a ensures id in c && Settled(a[id], c[id], t) {
      assert Settled(a[id], b[id], t) && Settled(b[id], c[id], t);
    }
    forall id | id in c && id !in a
      ensures c[id].kind != Space && c[id].kind != Grant &&
              (c[id].kind == Fact ==> c[id].body.txFrom.Some? && t < c[id].body.txFrom.value)
    {
      if id in b {
        assert Settled(b[id], c[id], t);
      }
    }
  }

  predicate QuietEdit(e: Edit, t: Time) {
    match e
    case Put(o) =>
      o.kind != Space && o.kind != Grant && (o.kind == Fact ==> o.body.txFrom.Some? && t < o.body.txFrom.value)
    case Modify(_, c) =>
      !c.Corroborate? && !c.PlaceIn? && !c.Deactivate? && (c.CloseFact? ==> c.factTxTo.Some? && t < c.factTxTo.value)
    case ModifyIfPresent(_, _) => false
  }

  lemma QuietEditSettles(objs: Objects, tenant: string, namespace: string, e: Edit, t: Time)
    requires Keyed(objs) && Fits(objs, tenant, e) && QuietEdit(e, t)
    ensures SettledAll(objs, ApplyEdit(objs, tenant, namespace, e).objects, t)
  {
    match e
    case Modify(id, c) =>
      if id in objs {
        assert Settled(objs[id], Perform(objs[id], c), t);
      }
    case _ =>
  }

  lemma {:induction false} QuietEditsSettle(objs: Objects, tenant: string, namespace: string, es: seq<Edit>, t: Time)
    requires Keyed(objs) && AllFit(objs, tenant, es) && forall k :: 0 <= k < |es| ==> QuietEdit(es[k], t)
    ensures SettledAll(objs, ApplyEdits(objs, tenant, namespace, es).objects, t)
    decreases |es|
  {
    if es != [] {
      var a := ApplyEdit(objs, tenant, namespace, es[0]);
      assert Fits(objs, tenant, es[0]);
      QuietEditSettles(objs, tenant, namespace, es[0], t);
      if a.ok {
        forall k | 0 <= k < |es[1..]| ensures Fits(a.objects, tenant, es[1..][k]) {
          assert Fits(objs, tenant, es[k + 1]);
        }
        QuietEditsSettle(a.objects, tenant, namespace, es[1..], t);
        SettledTransitive(objs, a.objects, ApplyEdits(objs, tenant, namespace, es).objects, t);
      }
    }
  }

  lemma QuietPut(objs: Objects, e: Event, t: Time)
    requires Proper(objs, e) && Quiet(e.op) && t < e.ts && e.payload.Whole?
    ensures QuietEdit(Put(e.payload.obj), t)
  {
  }

  lemma QuietFirstEdit(objs: Objects, e: Event, t: Time)
    requires Proper(objs, e) && Quiet(e.op) && t < e.ts && Edits(e) != []
    ensures QuietEdit(Edits(e)[0], t)
  {
    if e.payload.Whole? {
      QuietPut(objs, e, t);
    }
  }

  lemma QuietRecordEdits(objs: Objects, e: Event, t: Time)
    requires Proper(objs, e) && Quiet(e.op) && t < e.ts
    ensures forall k :: 0 <= k < |Edits(e)| ==> QuietEdit(Edits(e)[k], t)
  {
    forall k | 0 <= k < |Edits(e)| ensures QuietEdit(Edits(e)[k], t) {
      if k == 0 {
        QuietFirstEdit(objs, e, t);
      } else {
        LaterEdit(e, k);
        assert e.payload.Split? ==> ProperNew(objs, e.payload.into[k - 1], e);
      }
    }
  }

  lemma QuietRecordSettles(objs: Objects, e: Event, t: Time)
    requires Tidy(objs) && Proper(objs, e) && Quiet(e.op) && t < e.ts
    ensures SettledAll(objs, Apply(objs, e).objects, t)
  {
    ProperFits(objs, e);
    QuietRecordEdits(objs, e, t);
    QuietEditsSettle(objs, e.tenant, e.namespace, Edits(e), t);
  }

  /** A ledger's later records, from the n-th on, are quiet and stamped after `t`. */
  predicate QuietAfter(ledger: seq<Record>, n: nat, t: Time) {
    forall i :: n <= i < |ledger| ==> Quiet(ledger[i].event.op) && t < ledger[i].event.ts
  }

  lemma {:induction false} QuietLedgerSettles(ledger: seq<Record>, n: nat, t: Time)
    requires LiveLedger(ledger) && n <= |ledger| && QuietAfter(ledger, n, t)
    ensures Replay(ledger[..n]).Some? && Replay(ledger).Some?
    ensures SettledAll(Replay(ledger[..n]).value, Replay(ledger).value, t)
    decreases |ledger|
  {
    LiveTidy(ledger);
    if n < |ledger| {
      var front := ledger[..|ledger| - 1];
      assert front[..n] == ledger[..n];
      QuietLedgerSettles(front, n, t);
      LiveTidy(front);
      QuietRecordSettles(Replay(front).value, ledger[|ledger| - 1].event, t);
      SettledTransitive(Replay(ledger[..n]).value, Replay(front).value, Replay(ledger).value, t);
    } else {
      assert ledger[..n] == ledger;
    }
  }

  /******* The past is stable *******/

  lemma ControlSettled(objs: Objects, later: Objects, t: Time)
    requires SettledAll(objs, later, t)
    ensures ControlPlane(later) == ControlPlane(objs)
  {
    forall id | id in objs ensures Settled(objs[id], later[id], t) {}
  }

  lemma TrustSettled(objs: Objects, later: Objects, id: Id, t: Time)
    requires Tidy(objs) && SettledAll(objs, later, t) && id in objs && objs[id].kind == Fact
    ensures TrustIn(later)(later[id]) == TrustIn(objs)(objs[id])
  {
    assert Settled(objs[id], later[id], t);
    if objs[id].body.source.Some? {
      var src := objs[id].body.source.value;
      assert SourceKnown(objs, objs[id]);
      assert Settled(objs[src], later[src], t);
    }
  }

  /** The same facts are candidates at `t`, with the same rank and the same value. */
  lemma CandidateSettled(objs: Objects, later: Objects, q: Query, canRead: Access -> bool, id: Id)
    requires Tidy(objs) && SettledAll(objs, later, q.atTx)
    ensures (Relevant(later, id, q, canRead) && Candidate(later[id], Some(q.atTx), Some(q.atValid), true)) <==>
            (Relevant(objs, id, q, canRead) && Candidate(objs[id], Some(q.atTx), Some(q.atValid), true))
    ensures Relevant(objs, id, q, canRead) ==>
              RankOf(later[id], TrustIn(later)) == RankOf(objs[id], TrustIn(objs)) &&
              later[id].body.target == objs[id].body.target
  {
    ControlSettled(objs, later, q.atTx);
    if id in objs {
      assert Settled(objs[id], later[id], q.atTx);
      assert AccessTo(later, later[id]) == AccessTo(objs, objs[id]);
      if objs[id].kind == Fact {
        TrustSettled(objs, later, id, q.atTx);
      }
    }
  }

  /** Each element of a list has a counterpart of the same rank and value in another. */
  ghost predicate Mirrored(xs: seq<Obj>, trustX: Obj -> real, ys: seq<Obj>, trustY: Obj -> real) {
    forall f {:trigger HasTwin(f, trustX, ys, trustY)} :: f in xs ==> HasTwin(f, trustX, ys, trustY)
  }

  ghost predicate HasTwin(f: Obj, trustX: Obj -> real, ys: seq<Obj>, trustY: Obj -> real) {
    exists g :: g in ys && RankOf(g, trustY) == RankOf(f, trustX) && g.body.target == f.body.target
  }

  /** Two lists that mirror each other have the same most current value. */
  lemma BestAgrees(xs: seq<Obj>, ys: seq<Obj>, trustX: Obj -> real, trustY: Obj -> real)
    requires xs != [] && ys != [] && DistinctIds(xs) && DistinctIds(ys)
    requires Mirrored(xs, trustX, ys, trustY) && Mirrored(ys, trustY, xs, trustX)
    ensures Best(xs, trustX).body.target == Best(ys, trustY).body.target
  {
    BestIsBest(xs, trustX);
    BestIsBest(ys, trustY);
    var bx, b := Best(xs, trustX), Best(ys, trustY);
    assert HasTwin(bx, trustX, ys, trustY) && HasTwin(b, trustY, xs, trustX);
    var g :| g in ys && RankOf(g, trustY) == RankOf(bx, trustX) && g.body.target == bx.body.target;
    var f :| f in xs && RankOf(f, trustX) == RankOf(b, trustY) && f.body.target == b.body.target;
    RankTotal(RankOf(bx, trustX), RankOf(b, trustY));
  }

  /** The candidates of a listing, by id. */
  lemma CandidatesById(facts: seq<Obj>, objs: Objects, q: Query, canRead: Access -> bool, id: Id)
    requires Keyed(objs) && Lists(facts, objs, q, canRead) && id in objs
    ensures objs[id] in Candidates(facts, Some(q.atTx), Some(q.atValid)) <==>
            Relevant(objs, id, q, canRead) && Candidate(objs[id], Some(q.atTx), Some(q.atValid), true)
  {
    CandidatesAre(facts, Some(q.atTx), Some(q.atValid));
  }

  lemma Forward(facts: seq<Obj>, objs: Objects, newFacts: seq<Obj>, later: Objects, q: Query, canRead: Access -> bool)
    requires Tidy(objs) && Keyed(later) && SettledAll(objs, later, q.atTx)
    requires Lists(facts, objs, q, canRead) && Lists(newFacts, later, q, canRead)
    ensures Mirrored(Candidates(facts, Some(q.atTx), Some(q.atValid)), TrustIn(objs),
                     Candidates(newFacts, Some(q.atTx), Some(q.atValid)), TrustIn(later))
  {
    var cx := Candidates(facts, Some(q.atTx), Some(q.atValid));
    CandidatesAre(facts, Some(q.atTx), Some(q.atValid));
    forall f | f in cx
      ensures HasTwin(f, TrustIn(objs), Candidates(newFacts, Some(q.atTx), Some(q.atValid)), TrustIn(later))
    {
      CandidateSettled(objs, later, q, canRead, f.id);
      CandidatesById(newFacts, later, q, canRead, f.id);
      assert later[f.id] in Candidates(newFacts, Some(q.atTx), Some(q.atValid));
    }
  }

  lemma Backward(facts: seq<Obj>, objs: Objects, newFacts: seq<Obj>, later: Objects, q: Query, canRead: Access -> bool)
    requires Tidy(objs) && Keyed(later) && SettledAll(objs, later, q.atTx)
    requires Lists(facts, objs, q, canRead) && Lists(newFacts, later, q, canRead)
    ensures Mirrored(Candidates(newFacts, Some(q.atTx), Some(q.atValid)), TrustIn(later),
                     Candidates(facts, Some(q.atTx), Some(q.atValid)), TrustIn(objs))
  {
    var cy := Candidates(newFacts, Some(q.atTx), Some(q.atValid));
    CandidatesAre(newFacts, Some(q.atTx), Some(q.atValid));
    forall g | g in cy
      ensures HasTwin(g, TrustIn(later), Candidates(facts, Some(q.atTx), Some(q.atValid)), TrustIn(objs))
    {
      CandidateSettled(objs, later, q, canRead, g.id);
      CandidatesById(facts, objs, q, canRead, g.id);
      assert objs[g.id] in Candidates(facts, Some(q.atTx), Some(q.atValid));
    }
  }

  lemma CandidatesDistinct(facts: seq<Obj>, objs: Objects, q: Query, canRead: Access -> bool)
    requires Lists(facts, objs, q, canRead)
    ensures DistinctIds(Candidates(facts, Some(q.atTx), Some(q.atValid)))
  {
    CandidatesAre(facts, Some(q.atTx), Some(q.atValid));
  }

  lemma AnswerSettled(facts: seq<Obj>, objs: Objects, newFacts: seq<Obj>, later: Objects, q: Query,
                      canRead: Access -> bool)
    requires Tidy(objs) && Keyed(later) && SettledAll(objs, later, q.atTx)
    requires Lists(facts, objs, q, canRead) && Lists(newFacts, later, q, canRead)
    ensures Answer(newFacts, later, q) == Answer(facts, objs, q)
  {
    var cx := Candidates(facts, Some(q.atTx), Some(q.atValid));
    var cy := Candidates(newFacts, Some(q.atTx), Some(q.atValid));
    Forward(facts, objs, newFacts, later, q, canRead);
    Backward(facts, objs, newFacts, later, q, canRead);
    CandidatesDistinct(facts, objs, q, canRead);
    CandidatesDistinct(newFacts, later, q, canRead);
    TopAgrees(cx, cy, TrustIn(objs), TrustIn(later));
  }

  lemma TopAgrees(xs: seq<Obj>, ys: seq<Obj>, trustX: Obj -> real, trustY: Obj -> real)
    requires DistinctIds(xs) && DistinctIds(ys)
    requires Mirrored(xs, trustX, ys, trustY) && Mirrored(ys, trustY, xs, trustX)
    ensures xs == [] <==> ys == []
    ensures xs != [] ==> Best(xs, trustX).body.target == Best(ys, trustY).body.target
  {
    assert xs != [] ==> HasTwin(xs[0], trustX, ys, trustY);
    assert ys != [] ==> HasTwin(ys[0], trustY, xs, trustX);
    if xs != [] && ys != [] {
      BestAgrees(xs, ys, trustX, trustY);
    }
  }

  /** The past is stable: whatever the order of listing and whatever quiet records follow, the
      answer about an explicit past instant stays what it was. */
  lemma PastIsStable(ledger: seq<Record>, n: nat, facts: seq<Obj>, newFacts: seq<Obj>, q: Query,
                     canRead: Access -> bool)
    requires LiveLedger(ledger) && n <= |ledger| && QuietAfter(ledger, n, q.atTx)
    requires Replay(ledger[..n]).Some? && Replay(ledger).Some?
    requires Lists(facts, Replay(ledger[..n]).value, q, canRead)
    requires Lists(newFacts, Replay(ledger).value, q, canRead)
    ensures Answer(newFacts, Replay(ledger).value, q) == Answer(facts, Replay(ledger[..n]).value, q)
  {
    LivePrefix(ledger, n);
    LiveTidy(ledger[..n]);
    LiveTidy(ledger);
    QuietLedgerSettles(ledger, n, q.atTx);
    AnswerSettled(facts, Replay(ledger[..n]).value, newFacts, Replay(ledger).value, q, canRead);
  }
}
