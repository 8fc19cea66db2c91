/** What committed events do to the beliefs that the fact objects record. */
module FactBeliefs {
  import opened Model
  import opened Projection
  import opened Ledger
  import opened Store
  import opened Operations
  import opened Live
  import opened Runs
  import opened Lineage
  import Temporal

  /******* The beliefs recorded by the objects *******/

  predicate IsFact(objs: Objects, id: Id) {
    id in objs && objs[id].kind == Fact
  }

  function BeliefOf(o: Obj): Belief {
    Belief(Or(o.body.txFrom, 0), o.txTo, o.status,
           if o.body.supersedes == [] then None else Some(o.body.supersedes[0]))
  }

  function BeliefsOf(objs: Objects): Beliefs {
    map id | id in objs && objs[id].kind == Fact :: BeliefOf(objs[id])
  }

  ghost predicate Dated(objs: Objects) {
    forall id :: IsFact(objs, id) ==> objs[id].body.txFrom.Some?
  }

  /** A belief holds exactly when its fact is believed. */
  lemma BelievedIsHeld(objs: Objects, id: Id, t: Time)
    requires IsFact(objs, id) && Dated(objs)
    ensures Holds(BeliefsOf(objs)[id], t) <==> Temporal.BelievedAt(objs[id], t)
  {
  }

  /******* Edits that leave them alone *******/

  predicate Neutral(e: Edit) {
    match e
    case Put(o) => o.kind != Fact
    case Modify(_, c) => !c.CloseFact?
    case ModifyIfPresent(_, c) => !c.CloseFact?
  }

  lemma NeutralEditKeeps(objs: Objects, tenant: string, namespace: string, e: Edit)
    requires Keyed(objs) && Fits(objs, tenant, e) && Neutral(e)
    ensures BeliefsOf(ApplyEdit(objs, tenant, namespace, e).objects) == BeliefsOf(objs)
  {
    match e
    case Put(o) => BeliefsWith(objs, o.id, o);
    case Modify(id, c) =>
      if id in objs {
        NeutralChange(objs[id], c);
        BeliefsWith(objs, id, Perform(objs[id], c));
      }
    case ModifyIfPresent(id, c) =>
      if id in objs {
        NeutralChange(objs[id], c);
        BeliefsWith(objs, id, Perform(objs[id], c));
      }
  }

  lemma BeliefsWith(objs: Objects, id: Id, o: Obj)
    requires id in objs ==> (objs[id].kind == Fact <==> o.kind == Fact)
    requires o.kind == Fact ==> id in objs && BeliefOf(o) == BeliefOf(objs[id])
    ensures BeliefsOf(objs[id := o]) == BeliefsOf(objs)
  {
  }

  lemma NeutralChange(o: Obj, c: Change)
    requires !c.CloseFact? && (c.CloseClaim? ==> o.kind == Claim)
    ensures Perform(o, c).kind == o.kind && (o.kind == Fact ==> BeliefOf(Perform(o, c)) == BeliefOf(o))
  {
  }

  lemma {:induction false} NeutralEditsKeep(objs: Objects, tenant: string, namespace: string, es: seq<Edit>)
    requires Keyed(objs) && AllFit(objs, tenant, es) && forall k :: 0 <= k < |es| ==> Neutral(es[k])
    ensures BeliefsOf(ApplyEdits(objs, tenant, namespace, es).objects) == BeliefsOf(objs)
    decreases |es|
  {
    if es != [] {
      var a := ApplyEdit(objs, tenant, namespace, es[0]);
      assert Fits(objs, tenant, es[0]) && Neutral(es[0]);
      NeutralEditKeeps(objs, tenant, namespace, es[0]);
      if a.ok {
        EditsKeep(objs, tenant, namespace, es[..1]);
        forall k | 0 <= k < |es[1..]| ensures Fits(a.objects, tenant, es[1..][k]) {
          assert Fits(objs, tenant, es[k + 1]);
        }
        NeutralEditsKeep(a.objects, tenant, namespace, es[1..]);
      }
    }
  }

  /******* One event *******/

  /** The beliefs after a proper event. */
  function After(bs: Beliefs, e: Event): Beliefs {
    match e.payload
    case Whole(o) => if o.kind == Fact then bs[o.id := BeliefOf(o)] else bs
    case FactClosed(f, txTo, status, _, _) =>
      if f in bs && bs[f].until.None? then bs[f := bs[f].(until := txTo, status := status)] else bs
    case _ => bs
  }

  lemma NeutralFirst(objs: Objects, e: Event)
    requires Proper(objs, e) && !e.payload.FactClosed? && !(e.payload.Whole? && e.payload.obj.kind == Fact)
    requires Edits(e) != []
    ensures Neutral(Edits(e)[0])
  {
  }

  lemma EventBeliefs(objs: Objects, e: Event)
    requires Tidy(objs) && Proper(objs, e) && Apply(objs, e).ok
    ensures BeliefsOf(Apply(objs, e).objects) == After(BeliefsOf(objs), e)
  {
    if e.payload.FactClosed? {
      ClosingBeliefs(objs, e);
    } else if e.payload.Whole? && e.payload.obj.kind == Fact {
      SingleEdit(objs, e);
    } else {
      NeutralEvent(objs, e);
    }
  }

  lemma NeutralEvent(objs: Objects, e: Event)
    requires Tidy(objs) && Proper(objs, e) && !e.payload.FactClosed? &&
             !(e.payload.Whole? && e.payload.obj.kind == Fact)
    ensures BeliefsOf(Apply(objs, e).objects) == BeliefsOf(objs)
  {
    NeutralEdits(objs, e);
    ProperFits(objs, e);
    NeutralEditsKeep(objs, e.tenant, e.namespace, Edits(e));
  }

  lemma NeutralEdits(objs: Objects, e: Event)
    requires Proper(objs, e) && !e.payload.FactClosed? && !(e.payload.Whole? && e.payload.obj.kind == Fact)
    ensures forall k :: 0 <= k < |Edits(e)| ==> Neutral(Edits(e)[k])
  {
    forall k | 0 <= k < |Edits(e)| ensures Neutral(Edits(e)[k]) {
      if k == 0 {
        NeutralFirst(objs, e);
      } else {
        LaterEdit(e, k);
        assert e.payload.Split? ==> e.payload.into[k - 1].kind == Entity;
      }
    }
  }

  lemma ClosingBeliefs(objs: Objects, e: Event)
    requires Proper(objs, e) && e.payload.FactClosed? && Apply(objs, e).ok
    ensures BeliefsOf(Apply(objs, e).objects) == After(BeliefsOf(objs), e)
  {
    var f := e.payload.factId;
    SingleEdit(objs, e);
    assert BeliefsOf(objs)[f := BeliefOf(objs[f])] == BeliefsOf(objs);
  }

  /******* The events of one call *******/

  /** A replacement: the closing of a fact, then the fact that supersedes it, at the same instant. */
  predicate Replacing(es: seq<Event>) {
    && |es| == 2 && es[0].op == FactSuperseded && es[0].payload.FactClosed?
    && es[1].op == FactAsserted && es[1].payload.Whole? && es[1].payload.obj.kind == Fact
    && es[1].payload.obj.body.supersedes == [es[0].payload.factId]
    && es[0].ts == es[1].ts
  }

  /** Any other call: one event, which supersedes nothing. */
  predicate Single(es: seq<Event>) {
    && |es| == 1 && es[0].op != FactSuperseded
    && (es[0].payload.Whole? && es[0].payload.obj.kind == Fact ==> es[0].payload.obj.body.supersedes == [])
  }

  predicate Planned(es: seq<Event>) {
    Replacing(es) || Single(es)
  }

  lemma PlanIsPlanned(objs: Objects, c: Call)
    requires Keyed(objs) && Guard(objs, c)
    ensures Planned(Plan(objs, c)) && Plan(objs, c)[0].ts == c.ts
    ensures Replacing(Plan(objs, c)) ==> IsFact(objs, Plan(objs, c)[0].payload.factId) &&
                                         objs[Plan(objs, c)[0].payload.factId].txTo.None?
  {
    var es := Plan(objs, c);
    match c.request
    case Supersede(_, _, _, _, _) => assert Replacing(es);
    case CorrectValidity(_, _, _, _, _, _) => assert Replacing(es);
    case Create(_, _) => assert Single(es);
    case GrantCapability(_, _, _) => assert Single(es);
    case _ => assert Single(es);
  }

  /** The replacement finds the fact it closes still open. */
  predicate Timely(objs: Objects, es: seq<Event>) {
    Replacing(es) ==>
      var f := es[0].payload.factId; f in objs && objs[f].txTo.None?
  }

  /** The beliefs after the events of a call. */
  function Committed(bs: Beliefs, es: seq<Event>): Beliefs
    requires Planned(es)
  {
    if |es| == 1 then After(bs, es[0]) else After(After(bs, es[0]), es[1])
  }

  lemma SingleTransacted(objs: Objects, e: Event)
    ensures Transacted(objs, [e]) == Apply(objs, e)
  {
    assert [e][1..] == [];
  }

  lemma CommitBeliefs(objs: Objects, es: seq<Event>)
    requires Tidy(objs) && Prepared(objs, es) && Planned(es) && Transacted(objs, es).ok
    ensures BeliefsOf(Transacted(objs, es).objects) == Committed(BeliefsOf(objs), es)
  {
    assert Proper(objs, es[0]);
    EventBeliefs(objs, es[0]);
    if |es| == 1 {
      assert es == [es[0]];
      SingleTransacted(objs, es[0]);
    } else {
      SecondBeliefs(objs, es);
    }
  }

  lemma SecondBeliefs(objs: Objects, es: seq<Event>)
    requires Tidy(objs) && Prepared(objs, es) && |es| == 2 && Transacted(objs, es).ok
    ensures BeliefsOf(Transacted(objs, es).objects) == After(BeliefsOf(Apply(objs, es[0]).objects), es[1])
  {
    var mid := Apply(objs, es[0]).objects;
    FirstCommitted(objs, es);
    assert es[1..] == [es[1]];
    SingleTransacted(mid, es[1]);
    assert Proper(mid, es[1..][0]);
    EventBeliefs(mid, es[1]);
  }

  /******* Coherence *******/

  lemma SingleCoheres(objs: Objects, es: seq<Event>, now: Time)
    requires Prepared(objs, es) && Single(es) && now <= es[0].ts
    requires Coherence(BeliefsOf(objs), now) && AllInLineages(BeliefsOf(objs))
    ensures var bs := Committed(BeliefsOf(objs), es); Coherence(bs, es[0].ts) && AllInLineages(bs)
  {
    var bs, e := BeliefsOf(objs), es[0];
    assert Proper(objs, e);
    CoherenceLater(bs, now, e.ts);
    match e.payload
    case Whole(o) =>
      if o.kind == Fact {
        RootCoheres(bs, o.id, now, e.ts);
        RootLineages(bs, o.id, now, e.ts);
        assert After(bs, e) == Rooted(bs, o.id, e.ts);
      }
    case FactClosed(f, _, _, _, _) =>
      if bs[f].until.None? {
        RetractCoheres(bs, f, now, e.ts);
        RetractLineages(bs, f, e.ts);
      }
    case _ =>
  }

  /** A timely replacement continues the lineage of the fact it replaces. */
  lemma ReplacingCoheres(objs: Objects, es: seq<Event>, now: Time)
    requires Prepared(objs, es) && Replacing(es) && now <= es[0].ts && Timely(objs, es)
    requires Coherence(BeliefsOf(objs), now) && AllInLineages(BeliefsOf(objs))
    ensures var bs := Committed(BeliefsOf(objs), es); Coherence(bs, es[0].ts) && AllInLineages(bs)
  {
    var bs, f, r := BeliefsOf(objs), es[0].payload.factId, es[1].payload.obj;
    assert Proper(objs, es[0]) && Proper(objs, es[1]);
    ReplaceCoheres(bs, f, r.id, now, es[0].ts);
    ReplaceLineages(bs, f, r.id, now, es[0].ts);
    assert Committed(bs, es) == Replaced(bs, f, r.id, es[0].ts);
  }

  lemma CommitCoheres(objs: Objects, es: seq<Event>, now: Time)
    requires Prepared(objs, es) && Planned(es) && now <= es[0].ts && Timely(objs, es)
    requires Coherence(BeliefsOf(objs), now) && AllInLineages(BeliefsOf(objs))
    ensures var bs := Committed(BeliefsOf(objs), es); Coherence(bs, es[0].ts) && AllInLineages(bs)
  {
    if Replacing(es) {
      ReplacingCoheres(objs, es, now);
    } else {
      SingleCoheres(objs, es, now);
    }
  }

  /******* Tiling, in terms of the objects *******/

  ghost predicate OneBelieved(objs: Objects, c: seq<Id>, t: Time) {
    exists i :: 0 <= i < |c| && c[i] in objs && Temporal.BelievedAt(objs[c[i]], t) &&
      forall j :: 0 <= j < |c| && j != i ==> c[j] in objs && !Temporal.BelievedAt(objs[c[j]], t)
  }

  ghost predicate NoneBelieved(objs: Objects, c: seq<Id>, t: Time) {
    forall j :: 0 <= j < |c| ==> c[j] in objs && !Temporal.BelievedAt(objs[c[j]], t)
  }

  /** From the root's beginning on exactly one fact is believed at every instant, for ever or until the last
      fact was retracted; at all other instants none is. */
  ghost predicate TilesTime(objs: Objects, c: seq<Id>) {
    && c != [] && (forall i :: 0 <= i < |c| ==> IsFact(objs, c[i]))
    && var first, last := objs[c[0]], objs[c[|c| - 1]];
    && (last.status == Retracted || last.status == Asserted)
    && (last.status == Retracted <==> last.txTo.Some?)
    && first.body.txFrom.Some?
    && forall t :: if first.body.txFrom.value <= t && (last.status == Retracted ==> t < last.txTo.value)
                   then OneBelieved(objs, c, t) else NoneBelieved(objs, c, t)
  }

  lemma LineageTilesTime(objs: Objects, c: seq<Id>, now: Time)
    requires Dated(objs) && Coherence(BeliefsOf(objs), now) && IsLineage(BeliefsOf(objs), c)
    ensures TilesTime(objs, c)
  {
    var bs := BeliefsOf(objs);
    LastIsOpenOrRetracted(bs, c, now);
    var first, last := objs[c[0]], objs[c[|c| - 1]];
    forall t ensures if first.body.txFrom.value <= t && (last.status == Retracted ==> t < last.txTo.value)
                     then OneBelieved(objs, c, t) else NoneBelieved(objs, c, t)
    {
      CoherentLineageTiles(bs, c, now, t);
      HeldAreBelieved(objs, c, t);
    }
  }

  lemma HeldAreBelieved(objs: Objects, c: seq<Id>, t: Time)
    requires Dated(objs) && forall i :: 0 <= i < |c| ==> IsFact(objs, c[i])
    ensures ExactlyOne(BeliefsOf(objs), c, t) ==> OneBelieved(objs, c, t)
    ensures (forall j :: 0 <= j < |c| ==> !Holds(BeliefsOf(objs)[c[j]], t)) ==> NoneBelieved(objs, c, t)
  {
    forall j | 0 <= j < |c| ensures Holds(BeliefsOf(objs)[c[j]], t) <==> Temporal.BelievedAt(objs[c[j]], t) {
      BelievedIsHeld(objs, c[j], t);
    }
    if ExactlyOne(BeliefsOf(objs), c, t) {
      var i :| 0 <= i < |c| && Holds(BeliefsOf(objs)[c[i]], t) &&
        forall j :: 0 <= j < |c| && j != i ==> !Holds(BeliefsOf(objs)[c[j]], t);
      assert Temporal.BelievedAt(objs[c[i]], t);
    }
  }

  /** Coherent beliefs in lineages: each fact lies in a lineage that tiles transaction time. */
  lemma FactTiles(objs: Objects, id: Id, now: Time)
    requires Dated(objs) && Coherence(BeliefsOf(objs), now) && AllInLineages(BeliefsOf(objs)) && IsFact(objs, id)
    ensures exists c :: IsLineage(BeliefsOf(objs), c) && id in c && TilesTime(objs, c)
  {
    assert InLineage(BeliefsOf(objs), id);
    var c :| IsLineage(BeliefsOf(objs), c) && id in c;
    LineageTilesTime(objs, c, now);
  }

  /******* Facts carry their transaction time *******/

  /** What the new facts carry: their transaction time. */
  lemma DatedStays(objs: Objects, es: seq<Event>)
    requires Tidy(objs) && Dated(objs) && Prepared(objs, es) && Transacted(objs, es).ok
    ensures Dated(Transacted(objs, es).objects)
    decreases |es|
  {
    if es != [] {
      assert Proper(objs, es[0]);
      FirstCommitted(objs, es);
      DatedOne(objs, es[0]);
      DatedStays(Apply(objs, es[0]).objects, es[1..]);
    }
  }

  lemma DatedOne(objs: Objects, e: Event)
    requires Tidy(objs) && Dated(objs) && Proper(objs, e) && Apply(objs, e).ok
    ensures Dated(Apply(objs, e).objects)
  {
    ProperFits(objs, e);
    DatedEdits(objs, e);
  }

  lemma DatedEdits(objs: Objects, e: Event)
    requires Keyed(objs) && Dated(objs) && Proper(objs, e) && AllFit(objs, e.tenant, Edits(e)) && Apply(objs, e).ok
    ensures Dated(Apply(objs, e).objects)
  {
    var later := Apply(objs, e).objects;
    FittingEditsEvolve(objs, e.tenant, e.namespace, Edits(e));
    FittingEditsAdd(objs, e.tenant, e.namespace, Edits(e));
    forall id | IsFact(later, id) ensures later[id].body.txFrom.Some? {
      if id in objs {
        assert Evolves(objs[id], later[id]);
      } else {
        var k :| 0 <= k < |Edits(e)| && Edits(e)[k].Put? && Edits(e)[k].obj.id == id &&
          Evolves(Edits(e)[k].obj, later[id]);
      }
    }
  }
}
