/** The ledgers the engine itself produces, and what every object keeps while they grow. */
module Live {
  import opened Model
  import opened Projection
  import opened Operations
  import Scopes

  /******* Events the operations emit *******/

  /** The grant id names a space of this tenant. */
  ghost predicate Tied(objs: Objects, id: Id, tenant: string) {
    exists s, a :: id == GrantId(s, a) && |s| == SPACE_ID_LENGTH &&
      s in objs && objs[s].kind == Space && objs[s].tenant == tenant
  }

  /** The source of a new fact exists, and it supersedes nothing or one fact of its scope. */
  ghost predicate NewFactLinks(objs: Objects, o: Obj, tenant: string, namespace: string) {
    (o.kind == Fact && o.body.source.Some? ==> o.body.source.value in objs) &&
    (o.body.supersedes == [] ||
    (o.kind == Fact && |o.body.supersedes| == 1 &&
     var p := o.body.supersedes[0]; p in objs && objs[p].kind == Fact && InScope(objs[p], tenant, namespace)))
  }

  /** An object of the scope, or a grant of its tenant. */
  predicate EndNear(objs: Objects, end: Option<Id>, tenant: string, namespace: string) {
    && end.Some? && end.value in objs && objs[end.value].tenant == tenant
    && (objs[end.value].kind != Grant ==> objs[end.value].namespace == namespace)
  }

  /** A relation joins two objects that exist. */
  predicate EndsNear(objs: Objects, o: Obj, tenant: string, namespace: string) {
    o.kind == Relation ==>
      EndNear(objs, o.body.sourceEntity, tenant, namespace) && EndNear(objs, o.body.targetEntity, tenant, namespace)
  }

  ghost predicate ProperNew(objs: Objects, o: Obj, e: Event) {
    && o.id !in objs && Minted(o.id) && o.kind != Grant
    && o.txTo.None? && o.status == FirstStatus(o.kind)
    && (o.kind == Fact || o.kind == Claim ==> o.body.txFrom == Some(e.ts))
    && (o.kind == Space ==> |o.id| == SPACE_ID_LENGTH)
    && NewFactLinks(objs, o, e.tenant, e.namespace)
    && EndsNear(objs, o, e.tenant, e.namespace)
  }

  /** What every emitted event satisfies when it is committed, whatever committed in between. */
  ghost predicate Proper(objs: Objects, e: Event) {
    Readable(e.op, e.payload) &&
    match e.payload
    case Whole(o) =>
      if e.op == CapabilityGranted then o.kind == Grant && o.txTo.None? && Tied(objs, o.id, e.tenant)
      else CreatedKind(e.op) == Some(o.kind) && ProperNew(objs, o, e)
    case FactClosed(f, txTo, status, _, _) =>
      f in objs && objs[f].kind == Fact && txTo == Some(e.ts) &&
      status == (if e.op == FactSuperseded then Superseded else Retracted)
    case FactConfirm(f, _, _) => f in objs && objs[f].kind == Fact
    case Split(_, into) =>
      (forall i :: 0 <= i < |into| ==> into[i].kind == Entity && ProperNew(objs, into[i], e)) &&
      (forall i, j :: 0 <= i < j < |into| ==> into[i].id != into[j].id)
    case ClaimClosed(c, status, txTo, _) =>
      c in objs && objs[c].kind == Claim && e.op == ClaimRetracted && status == Retracted && txTo == Some(e.ts)
    case Attach(c, _, _) => c in objs && objs[c].kind == Claim
    case Govern(c, _) => c in objs && objs[c].kind == Claim
    case _ => true
  }

  ghost predicate LiveLedger(ledger: seq<Record>)
    decreases |ledger|
  {
    ledger == [] ||
    (LiveLedger(ledger[..|ledger| - 1]) &&
     Replay(ledger).Some? &&
     Proper(Replay(ledger[..|ledger| - 1]).value, ledger[|ledger| - 1].event))
  }

  /** Timestamps do not decrease along the ledger. */
  predicate NonDecreasing(ledger: seq<Record>) {
    forall i, j :: 0 <= i <= j < |ledger| ==> ledger[i].event.ts <= ledger[j].event.ts
  }

  /******* What an object keeps *******/

  /** A later state of the same object: identity and creation stay, and a closed belief or claim
      stays closed as it was. Only a grant may be written anew, and only within its tenant. */
  predicate Evolves(o: Obj, r: Obj) {
    && r.id == o.id && r.kind == o.kind && r.tenant == o.tenant
    && (o.kind != Grant ==>
          r.namespace == o.namespace && r.owner == o.owner && r.createdAt == o.createdAt && r.body == o.body)
    && (o.kind == Fact && o.txTo.Some? ==> r.txTo == o.txTo && r.status == o.status)
    && (o.kind == Claim && o.status != Open ==> r.txTo == o.txTo && r.status == o.status)
  }

  predicate AllEvolve(objs: Objects, later: Objects) {
    forall id :: id in objs ==> id in later && Evolves(objs[id], later[id])
  }

  lemma EndsStay(objs: Objects, later: Objects, o: Obj, tenant: string, namespace: string)
    requires EndsNear(objs, o, tenant, namespace) && AllEvolve(objs, later)
    ensures EndsNear(later, o, tenant, namespace)
  {
    if o.kind == Relation {
      var a, b := o.body.sourceEntity.value, o.body.targetEntity.value;
      assert Evolves(objs[a], later[a]) && Evolves(objs[b], later[b]);
    }
  }

  lemma EvolveTransitive(a: Objects, b: Objects, c: Objects)
    requires AllEvolve(a, b) && AllEvolve(b, c)
    ensures AllEvolve(a, c)
  {
    forall id | id in a ensures id in c && Evolves(a[id], c[id]) {
      assert Evolves(a[id], b[id]) && Evolves(b[id], c[id]);
    }
  }

  /** Invariant of the objects of a live ledger. */
  ghost predicate Tidy(objs: Objects) {
    && Keyed(objs)
    && (forall id :: id in objs ==>
          if objs[id].kind == Grant then Tied(objs, id, objs[id].tenant) else Minted(id))
    && (forall id :: id in objs && objs[id].kind == Space ==> |id| == SPACE_ID_LENGTH)
    && (forall id :: id in objs && objs[id].kind == Fact ==> SourceKnown(objs, objs[id]))
  }

  predicate SourceKnown(objs: Objects, o: Obj) {
    o.body.source.Some? ==> o.body.source.value in objs
  }

  predicate ClosesRightKind(o: Obj, c: Change) {
    (c.CloseFact? ==> o.kind == Fact) && (c.CloseClaim? ==> o.kind == Claim)
  }

  /** An edit that overwrites nothing but a grant of its tenant, and closes only what it should. */
  ghost predicate Fits(objs: Objects, tenant: string, e: Edit) {
    match e
    case Put(o) => o.id in objs ==> o.kind == Grant && objs[o.id].kind == Grant && objs[o.id].tenant == tenant
    case Modify(id, c) =>
      (c.CloseFact? || c.CloseClaim?) ==> id in objs && ClosesRightKind(objs[id], c)
    case ModifyIfPresent(_, c) => !c.CloseFact? && !c.CloseClaim?
  }

  ghost predicate AllFit(objs: Objects, tenant: string, es: seq<Edit>) {
    && (forall k :: 0 <= k < |es| ==> Fits(objs, tenant, es[k]))
    && (forall i, j :: 0 <= i < j < |es| && es[i].Put? && es[j].Put? ==> es[i].obj.id != es[j].obj.id)
  }

  lemma {:induction false} FittingEditsEvolve(objs: Objects, tenant: string, namespace: string, es: seq<Edit>)
    requires Keyed(objs) && AllFit(objs, tenant, es)
    ensures AllEvolve(objs, ApplyEdits(objs, tenant, namespace, es).objects)
    decreases |es|
  {
    if es != [] {
      var a := ApplyEdit(objs, tenant, namespace, es[0]);
      assert Fits(objs, tenant, es[0]);
      FittingEditEvolves(objs, tenant, namespace, es[0]);
      if a.ok {
        RestFits(objs, tenant, namespace, es);
        FittingEditsEvolve(a.objects, tenant, namespace, es[1..]);
        EvolveTransitive(objs, a.objects, ApplyEdits(objs, tenant, namespace, es).objects);
      }
    }
  }

  lemma FittingEditEvolves(objs: Objects, tenant: string, namespace: string, e: Edit)
    requires Keyed(objs) && Fits(objs, tenant, e)
    ensures Keyed(ApplyEdit(objs, tenant, namespace, e).objects)
    ensures AllEvolve(objs, ApplyEdit(objs, tenant, namespace, e).objects)
  {
  }

  lemma RestFits(objs: Objects, tenant: string, namespace: string, es: seq<Edit>)
    requires AllFit(objs, tenant, es) && es != [] && ApplyEdit(objs, tenant, namespace, es[0]).ok
    ensures AllFit(ApplyEdit(objs, tenant, namespace, es[0]).objects, tenant, es[1..])
  {
    var a := ApplyEdit(objs, tenant, namespace, es[0]);
    forall k | 0 <= k < |es[1..]| ensures Fits(a.objects, tenant, es[1..][k]) {
      assert Fits(objs, tenant, es[k + 1]);
    }
  }

  /** A tied grant id in use belongs to a grant of the same tenant. */
  lemma TiedSameTenant(objs: Objects, id: Id, tenant: string)
    requires Tidy(objs) && Tied(objs, id, tenant) && id in objs
    ensures objs[id].kind == Grant && objs[id].tenant == tenant
  {
    var s, a :| id == GrantId(s, a) && |s| == SPACE_ID_LENGTH &&
      s in objs && objs[s].kind == Space && objs[s].tenant == tenant;
    var s2, a2 :| id == GrantId(s2, a2) && |s2| == SPACE_ID_LENGTH &&
      s2 in objs && objs[s2].kind == Space && objs[s2].tenant == objs[id].tenant;
    GrantIdSpace(s, a, s2, a2);
  }

  lemma ProperFits(objs: Objects, e: Event)
    requires Tidy(objs) && Proper(objs, e)
    ensures AllFit(objs, e.tenant, Edits(e))
  {
    if e.payload.Whole? && e.op == CapabilityGranted {
      if e.payload.obj.id in objs {
        TiedSameTenant(objs, e.payload.obj.id, e.tenant);
      }
    } else {
      OrdinaryFits(objs, e);
    }
  }

  lemma OrdinaryFits(objs: Objects, e: Event)
    requires Proper(objs, e) && !(e.payload.Whole? && e.op == CapabilityGranted)
    ensures AllFit(objs, e.tenant, Edits(e))
  {
    var es := Edits(e);
    forall k | 0 <= k < |es| ensures Fits(objs, e.tenant, es[k]) {
      if k == 0 {
        FirstFits(objs, e);
      } else {
        LaterEdit(e, k);
        assert e.payload.Split? ==> ProperNew(objs, e.payload.into[k - 1], e);
      }
    }
    forall i, j | 0 <= i < j < |es| && es[i].Put? && es[j].Put? ensures es[i].obj.id != es[j].obj.id {
      LaterEdit(e, j);
      if i > 0 {
        LaterEdit(e, i);
      }
    }
  }

  lemma FirstFits(objs: Objects, e: Event)
    requires Proper(objs, e) && !(e.payload.Whole? && e.op == CapabilityGranted) && Edits(e) != []
    ensures Fits(objs, e.tenant, Edits(e)[0])
  {
  }

  lemma TiedStays(objs: Objects, later: Objects, id: Id, tenant: string)
    requires Tied(objs, id, tenant) && AllEvolve(objs, later)
    ensures Tied(later, id, tenant)
  {
    var s, a :| id == GrantId(s, a) && |s| == SPACE_ID_LENGTH &&
      s in objs && objs[s].kind == Space && objs[s].tenant == tenant;
    assert Evolves(objs[s], later[s]);
  }

  /** Whatever is not an older object was put by this record. */
  lemma {:induction false} FittingEditsAdd(objs: Objects, tenant: string, namespace: string, es: seq<Edit>)
    requires Keyed(objs) && AllFit(objs, tenant, es)
    ensures var r := ApplyEdits(objs, tenant, namespace, es).objects;
            forall id :: id in r && id !in objs ==>
              exists k :: 0 <= k < |es| && es[k].Put? && es[k].obj.id == id && Evolves(es[k].obj, r[id])
    decreases |es|
  {
    if es != [] {
      var a := ApplyEdit(objs, tenant, namespace, es[0]);
      assert Fits(objs, tenant, es[0]);
      if a.ok {
        forall k | 0 <= k < |es[1..]| ensures Fits(a.objects, tenant, es[1..][k]) {
          assert Fits(objs, tenant, es[k + 1]);
        }
        FittingEditsEvolve(a.objects, tenant, namespace, es[1..]);
        FittingEditsAdd(a.objects, tenant, namespace, es[1..]);
        var r := ApplyEdits(objs, tenant, namespace, es).objects;
        forall id | id in r && id !in objs
          ensures exists k :: 0 <= k < |es| && es[k].Put? && es[k].obj.id == id && Evolves(es[k].obj, r[id])
        {
          if id in a.objects {
            assert es[0].Put? && es[0].obj.id == id && Evolves(es[0].obj, r[id]);
          } else {
            var k :| 0 <= k < |es[1..]| && es[1..][k].Put? && es[1..][k].obj.id == id &&
              Evolves(es[1..][k].obj, r[id]);
            assert es[k + 1] == es[1..][k];
          }
        }
      }
    }
  }

  /** A record that applies only puts objects of its own scope. */
  lemma {:induction false} PutInScope(objs: Objects, tenant: string, namespace: string, es: seq<Edit>, k: nat)
    requires ApplyEdits(objs, tenant, namespace, es).ok && k < |es| && es[k].Put?
    ensures InScope(es[k].obj, tenant, namespace)
    decreases |es|
  {
    if k > 0 {
      PutInScope(ApplyEdit(objs, tenant, namespace, es[0]).objects, tenant, namespace, es[1..], k - 1);
    }
  }

  lemma PutIsTidy(objs: Objects, e: Event, k: nat)
    requires Proper(objs, e) && k < |Edits(e)| && Edits(e)[k].Put?
    ensures var o := Edits(e)[k].obj;
            && (if o.kind == Grant then Tied(objs, o.id, e.tenant) else Minted(o.id))
            && (o.kind == Space ==> |o.id| == SPACE_ID_LENGTH)
            && (o.kind == Fact ==> SourceKnown(objs, o))
  {
    if e.payload.Split? {
      assert Edits(e)[k].obj == e.payload.into[k - 1];
    }
  }

  /** One proper record: the objects stay tidy and every object evolves. */
  lemma ProperKeepsTidy(objs: Objects, e: Event)
    requires Tidy(objs) && Proper(objs, e) && Apply(objs, e).ok
    ensures Tidy(Apply(objs, e).objects) && AllEvolve(objs, Apply(objs, e).objects)
  {
    var es := Edits(e);
    ProperFits(objs, e);
    FittingEditsKeepTidy(objs, e, es);
  }

  lemma FittingEditsKeepTidy(objs: Objects, e: Event, es: seq<Edit>)
    requires Tidy(objs) && Proper(objs, e) && es == Edits(e)
    requires AllFit(objs, e.tenant, es) && ApplyEdits(objs, e.tenant, e.namespace, es).ok
    ensures var later := ApplyEdits(objs, e.tenant, e.namespace, es).objects;
            Tidy(later) && AllEvolve(objs, later)
  {
    var later := ApplyEdits(objs, e.tenant, e.namespace, es).objects;
    EditsKeep(objs, e.tenant, e.namespace, es);
    FittingEditsEvolve(objs, e.tenant, e.namespace, es);
    FittingEditsAdd(objs, e.tenant, e.namespace, es);
    forall id | id in later
      ensures if later[id].kind == Grant then Tied(later, id, later[id].tenant) else Minted(id)
      ensures later[id].kind == Space ==> |id| == SPACE_ID_LENGTH
      ensures later[id].kind == Fact ==> SourceKnown(later, later[id])
    {
      if id in objs {
        assert Evolves(objs[id], later[id]);
        if later[id].kind == Grant {
          TiedStays(objs, later, id, later[id].tenant);
        }
      } else {
        var k :| 0 <= k < |es| && es[k].Put? && es[k].obj.id == id && Evolves(es[k].obj, later[id]);
        PutIsTidy(objs, e, k);
        PutInScope(objs, e.tenant, e.namespace, es, k);
        if later[id].kind == Grant {
          TiedStays(objs, later, id, e.tenant);
        }
      }
    }
  }

  /******* Whole ledgers *******/

  lemma {:induction false} LiveTidy(ledger: seq<Record>)
    requires LiveLedger(ledger)
    ensures Replay(ledger).Some? && Tidy(Replay(ledger).value)
    decreases |ledger|
  {
    if ledger != [] {
      var front := ledger[..|ledger| - 1];
      LiveTidy(front);
      ProperKeepsTidy(Replay(front).value, ledger[|ledger| - 1].event);
    }
  }

  lemma {:induction false} LivePrefix(ledger: seq<Record>, n: nat)
    requires LiveLedger(ledger) && n <= |ledger|
    ensures LiveLedger(ledger[..n])
    decreases |ledger|
  {
    if n < |ledger| {
      var front := ledger[..|ledger| - 1];
      assert front[..n] == ledger[..n];
      LivePrefix(front, n);
    } else {
      assert ledger[..n] == ledger;
    }
  }

  lemma LastRecordEvolves(ledger: seq<Record>)
    requires LiveLedger(ledger) && ledger != []
    ensures var front := ledger[..|ledger| - 1];
            Replay(front).Some? && Replay(ledger).Some? && AllEvolve(Replay(front).value, Replay(ledger).value)
  {
    var front := ledger[..|ledger| - 1];
    LiveTidy(front);
    ProperKeepsTidy(Replay(front).value, ledger[|ledger| - 1].event);
  }

  /** Write-once, over every pair of states of a live ledger: no object is lost or changes identity,
      scope or creation; a closed fact keeps its end and its status, and a claim leaves the open
      state at most once. */
  lemma {:induction false} WriteOnce(ledger: seq<Record>, n: nat)
    requires LiveLedger(ledger) && n <= |ledger|
    ensures Replay(ledger[..n]).Some? && Replay(ledger).Some?
    ensures AllEvolve(Replay(ledger[..n]).value, Replay(ledger).value)
    decreases |ledger|
  {
    if n < |ledger| {
      var front := ledger[..|ledger| - 1];
      assert front[..n] == ledger[..n];
      WriteOnce(front, n);
      LastRecordEvolves(ledger);
      EvolveTransitive(Replay(ledger[..n]).value, Replay(front).value, Replay(ledger).value);
    } else {
      assert ledger[..n] == ledger;
      LiveTidy(ledger);
      ItselfEvolves(Replay(ledger).value);
    }
  }

  lemma ItselfEvolves(objs: Objects)
    ensures AllEvolve(objs, objs)
  {
  }

  lemma PutterOwns(objs: Objects, e: Event, id: Id)
    requires Tidy(objs) && Proper(objs, e) && Apply(objs, e).ok && Scopes.Puts(e, id)
    requires id in Apply(objs, e).objects
    ensures Apply(objs, e).objects[id].tenant == e.tenant
  {
    var es := Edits(e);
    var later := Apply(objs, e).objects;
    ProperFits(objs, e);
    FittingEditsEvolve(objs, e.tenant, e.namespace, es);
    var k :| 0 <= k < |es| && es[k].Put? && es[k].obj.id == id;
    assert Fits(objs, e.tenant, es[k]);
    if id in objs {
      assert Evolves(objs[id], later[id]);
    } else {
      NewIsOwned(objs, e.tenant, e.namespace, es, id);
    }
  }

  lemma NewIsOwned(objs: Objects, tenant: string, namespace: string, es: seq<Edit>, id: Id)
    requires Keyed(objs) && AllFit(objs, tenant, es) && ApplyEdits(objs, tenant, namespace, es).ok
    requires id !in objs && id in ApplyEdits(objs, tenant, namespace, es).objects
    ensures ApplyEdits(objs, tenant, namespace, es).objects[id].tenant == tenant
  {
    FittingEditsAdd(objs, tenant, namespace, es);
    var later := ApplyEdits(objs, tenant, namespace, es).objects;
    var j :| 0 <= j < |es| && es[j].Put? && es[j].obj.id == id && Evolves(es[j].obj, later[id]);
    PutInScope(objs, tenant, namespace, es, j);
  }

  /** The tenant that creates an id is the tenant of its object ever after. */
  lemma {:induction false} CreatorsTenant(ledger: seq<Record>, i: nat, id: Id)
    requires LiveLedger(ledger) && i < |ledger| && Scopes.Puts(ledger[i].event, id)
    ensures Replay(ledger).Some? && id in Replay(ledger).value
    ensures Replay(ledger).value[id].tenant == ledger[i].event.tenant
  {
    WriteOnce(ledger, i + 1);
    LivePrefix(ledger, i + 1);
    var upto := ledger[..i + 1];
    assert upto[..i] == ledger[..i] && upto[i] == ledger[i];
    LiveTidy(ledger[..i]);
    Scopes.PutStays(upto, i, id);
    PutterOwns(Replay(ledger[..i]).value, ledger[i].event, id);
    assert Evolves(Replay(upto).value[id], Replay(ledger).value[id]);
  }

  /** Tenant decomposition of live ledgers: a tenant's objects are the replay of its own records. */
  lemma TenantDecomposes(ledger: seq<Record>, tenant: string)
    requires LiveLedger(ledger)
    ensures Replay(ledger).Some? && Scopes.Decomposes(ledger, (t: string, n: string) => t == tenant)
  {
    var mine: Scopes.Scopes := (t: string, n: string) => t == tenant;
    LiveTidy(ledger);
    forall i, j, id | 0 <= i < |ledger| && 0 <= j < |ledger| &&
        Scopes.Puts(ledger[i].event, id) && Scopes.Puts(ledger[j].event, id)
      ensures Scopes.Covers(mine, ledger[i].event) == Scopes.Covers(mine, ledger[j].event)
    {
      CreatorsTenant(ledger, i, id);
      CreatorsTenant(ledger, j, id);
    }
    Scopes.SeparatedDecomposes(ledger, mine);
  }
}
