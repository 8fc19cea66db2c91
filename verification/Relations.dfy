/** The relations of live ledgers: the walks over them need not fail. */
module Relations {
  import opened Model
  import opened Projection
  import opened Operations
  import opened Live
  import opened Reach
  import Graph

  /** Every relation joins two objects of its scope, or grants of its tenant. */
  ghost predicate AllJoined(objs: Objects) {
    forall id :: id in objs ==> EndsNear(objs, objs[id], objs[id].tenant, objs[id].namespace)
  }

  lemma PutJoins(objs: Objects, e: Event, k: nat)
    requires Proper(objs, e) && k < |Edits(e)| && Edits(e)[k].Put?
    ensures EndsNear(objs, Edits(e)[k].obj, e.tenant, e.namespace)
  {
    if e.payload.Split? {
      assert ProperNew(objs, e.payload.into[k - 1], e);
    }
  }

  lemma RecordJoins(objs: Objects, e: Event)
    requires Tidy(objs) && Proper(objs, e) && Apply(objs, e).ok && AllJoined(objs)
    ensures AllJoined(Apply(objs, e).objects)
  {
    ProperFits(objs, e);
    FittingEditsEvolve(objs, e.tenant, e.namespace, Edits(e));
    FittingEditsAdd(objs, e.tenant, e.namespace, Edits(e));
    var later := Apply(objs, e).objects;
    forall id | id in later && later[id].kind == Relation
      ensures EndsNear(later, later[id], later[id].tenant, later[id].namespace)
    {
      if id in objs {
        assert Evolves(objs[id], later[id]);
        EndsStay(objs, later, objs[id], objs[id].tenant, objs[id].namespace);
      } else {
        var k :| 0 <= k < |Edits(e)| && Edits(e)[k].Put? && Edits(e)[k].obj.id == id &&
          Evolves(Edits(e)[k].obj, later[id]);
        PutJoins(objs, e, k);
        PutInScope(objs, e.tenant, e.namespace, Edits(e), k);
        EndsStay(objs, later, Edits(e)[k].obj, e.tenant, e.namespace);
      }
    }
  }

  lemma {:induction false} LiveJoined(ledger: seq<Record>)
    requires LiveLedger(ledger)
    ensures Replay(ledger).Some? && AllJoined(Replay(ledger).value)
    decreases |ledger|
  {
    LiveTidy(ledger);
    if ledger != [] {
      var front := ledger[..|ledger| - 1];
      LiveJoined(front);
      LiveTidy(front);
      RecordJoins(Replay(front).value, ledger[|ledger| - 1].event);
    }
  }

  /** A relation of the view's scope ends in a grant last written from another namespace. */
  predicate EndsInStray(v: Graph.View, id: Id, n: Id) {
    && id in v.objs && v.objs[id].kind == Relation && Graph.InScope(v, v.objs[id]) && n in Graph.Ends(v.objs[id])
    && n in v.objs && v.objs[n].kind == Grant && v.objs[n].namespace != v.namespace
  }

  lemma EndsOfJoined(objs: Objects, id: Id, n: Id)
    requires AllJoined(objs) && id in objs && objs[id].kind == Relation && n in Graph.Ends(objs[id])
    ensures n in objs && objs[n].tenant == objs[id].tenant
    ensures objs[n].kind != Grant ==> objs[n].namespace == objs[id].namespace
  {
    assert EndsNear(objs, objs[id], objs[id].tenant, objs[id].namespace);
  }

  lemma JoinedViewClosed(v: Graph.View)
    requires AllJoined(v.objs)
    ensures Graph.Closed(v) <==> forall id, n :: !EndsInStray(v, id, n)
  {
    if Graph.Closed(v) {
      forall id, n ensures !EndsInStray(v, id, n) {}
    }
    if forall id, n :: !EndsInStray(v, id, n) {
      forall id, n | id in v.objs && v.objs[id].kind == Relation && Graph.InScope(v, v.objs[id]) &&
                     n in Graph.Ends(v.objs[id])
        ensures n in v.objs && Graph.InScope(v, v.objs[n])
      {
        EndsOfJoined(v.objs, id, n);
        assert !EndsInStray(v, id, n);
      }
    }
  }

  /** Over the objects of a live ledger every relation names two objects, and the relations of a scope are closed
      if and only if none of them ends in a grant that another namespace of the tenant wrote last. */
  lemma LiveViewClosed(ledger: seq<Record>, v: Graph.View)
    requires LiveLedger(ledger) && Replay(ledger) == Some(v.objs)
    ensures Graph.WellFormed(v)
    ensures Graph.Closed(v) <==> forall id, n :: !EndsInStray(v, id, n)
  {
    ReplayKeyed(ledger);
    LiveJoined(ledger);
    JoinedViewClosed(v);
    forall id | id in v.objs && v.objs[id].kind == Relation
      ensures v.objs[id].body.sourceEntity.Some? && v.objs[id].body.targetEntity.Some?
    {
      assert EndsNear(v.objs, v.objs[id], v.objs[id].tenant, v.objs[id].namespace);
    }
  }

  /******* When a walk over a live ledger fails *******/

  /** A node reached over the relations of a scope: the start, or a readable object of the tenant that is in the
      scope, or else a grant. */
  predicate ReachedNear(v: Graph.View, start: Id, n: Id) {
    n == start || (n in v.objs && v.canRead(v.objs[n]) && (Graph.InScope(v, v.objs[n]) || IsStrayGrant(v, n)))
  }

  predicate IsStrayGrant(v: Graph.View, n: Id) {
    n in v.objs && v.objs[n].kind == Grant && !Graph.InScope(v, v.objs[n])
  }

  lemma StepIsNear(v: Graph.View, start: Id, m: Id, n: Id)
    requires AllJoined(v.objs) && ReachedNear(v, start, m) && n in Graph.Adjacent(v)(m)
    ensures ReachedNear(v, start, n)
  {
    var id :| id in Graph.Incident(v, m) && n in Graph.Ends(v.objs[id]);
    EndsOfJoined(v.objs, id, n);
    assert n == m || Graph.Far(v.objs[id], m) == Some(n);
  }

  lemma StepsAreNear(v: Graph.View, start: Id, nearer: set<Id>)
    requires AllJoined(v.objs) && forall m :: m in nearer ==> ReachedNear(v, start, m)
    ensures forall n :: n in StepAll(Graph.Adjacent(v), nearer) ==> ReachedNear(v, start, n)
  {
    forall n | n in StepAll(Graph.Adjacent(v), nearer) ensures ReachedNear(v, start, n) {
      var m :| m in nearer && n in Graph.Adjacent(v)(m);
      StepIsNear(v, start, m, n);
    }
  }

  lemma {:induction false} ReachIsNear(v: Graph.View, start: Id, k: nat)
    requires AllJoined(v.objs)
    ensures forall n :: n in Within(Graph.Adjacent(v), start, k) ==> ReachedNear(v, start, n)
    decreases k
  {
    if k > 0 {
      ReachIsNear(v, start, k - 1);
      StepsAreNear(v, start, Within(Graph.Adjacent(v), start, k - 1));
    }
  }

  /** A grant of another namespace is reached before the last step. */
  ghost predicate MeetsStray(v: Graph.View, start: Id, k: nat) {
    exists n :: n in Within(Graph.Adjacent(v), start, k) && IsStrayGrant(v, n)
  }

  lemma NearestVisible(v: Graph.View, start: Id, k: nat)
    requires AllJoined(v.objs) && start in v.objs && Graph.InScope(v, v.objs[start])
    ensures Within(Graph.Adjacent(v), start, k) <= Graph.VisibleNodes(v) <==>
              v.canRead(v.objs[start]) && !MeetsStray(v, start, k)
  {
    ReachIsNear(v, start, k);
    WithinGrows(Graph.Adjacent(v), start, 0, k);
    assert start in Within(Graph.Adjacent(v), start, 0);
    forall n | n in Within(Graph.Adjacent(v), start, k)
      ensures n in Graph.VisibleNodes(v) <==> if n == start then v.canRead(v.objs[start]) else !IsStrayGrant(v, n)
    {
      assert ReachedNear(v, start, n);
    }
  }

  lemma ClearIff(v: Graph.View, start: Id, k: nat, hops: nat)
    requires AllJoined(v.objs) && start in v.objs && Graph.InScope(v, v.objs[start]) && hops == k + 1
    ensures Graph.Clear(v, start, hops) <==> v.canRead(v.objs[start]) && !MeetsStray(v, start, k)
  {
    NearestVisible(v, start, k);
    Graph.NearerAfter(Graph.Adjacent(v), start, k, Within(Graph.Adjacent(v), start, k));
  }

  lemma JoinedStrays(v: Graph.View, start: Id, hops: nat)
    requires AllJoined(v.objs)
    ensures Graph.Strays(v, start, hops) <==>
              || start !in v.objs || !Graph.InScope(v, v.objs[start])
              || (hops > 0 && (!v.canRead(v.objs[start]) || MeetsStray(v, start, hops - 1)))
  {
    if start in v.objs && Graph.InScope(v, v.objs[start]) && hops > 0 {
      ClearIff(v, start, hops - 1, hops);
    }
  }

  /** Over the objects of a live ledger a walk strays if and only if it starts out of scope or, having a step to
      make, from an object that may not be read, or meets a grant of another namespace before the last step. */
  lemma StraysIff(ledger: seq<Record>, v: Graph.View, start: Id, hops: nat)
    requires LiveLedger(ledger) && Replay(ledger) == Some(v.objs)
    ensures Graph.Strays(v, start, hops) <==>
              || start !in v.objs || !Graph.InScope(v, v.objs[start])
              || (hops > 0 && (!v.canRead(v.objs[start]) || MeetsStray(v, start, hops - 1)))
  {
    LiveJoined(ledger);
    JoinedStrays(v, start, hops);
  }
}
