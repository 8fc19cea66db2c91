/** A tenant's objects depend on that tenant's records alone. */
module Scopes {
  import opened Model
  import opened Projection

  /** A set of (tenant, namespace) scopes. */
  type Scopes = (string, string) -> bool

  predicate Covers(mine: Scopes, e: Event) {
    mine(e.tenant, e.namespace)
  }

  function Slice(ledger: seq<Record>, mine: Scopes): seq<Record>
    decreases |ledger|
  {
    if ledger == [] then []
    else
      var r := ledger[|ledger| - 1];
      var front := Slice(ledger[..|ledger| - 1], mine);
      if Covers(mine, r.event) then front + [r] else front
  }

  predicate Owns(mine: Scopes, o: Obj) {
    mine(o.tenant, o.namespace)
  }

  function Restrict(objs: Objects, mine: Scopes): Objects {
    map id | id in objs && Owns(mine, objs[id]) :: objs[id]
  }

  predicate Puts(e: Event, id: Id) {
    exists k :: 0 <= k < |Edits(e)| && Edits(e)[k].Put? && Edits(e)[k].obj.id == id
  }

  /** No id is created both by a record inside these scopes and by a record outside them. */
  ghost predicate Separated(ledger: seq<Record>, mine: Scopes) {
    forall i, j, id :: 0 <= i < |ledger| && 0 <= j < |ledger| &&
      Puts(ledger[i].event, id) && Puts(ledger[j].event, id)
      ==> Covers(mine, ledger[i].event) == Covers(mine, ledger[j].event)
  }

  /** Replaying only the records of these scopes yields exactly the objects of these scopes. */
  ghost predicate Decomposes(ledger: seq<Record>, mine: Scopes)
    requires Replay(ledger).Some?
  {
    Replay(Slice(ledger, mine)) == Some(Restrict(Replay(ledger).value, mine))
  }

  function Outside(mine: Scopes): Scopes {
    (tenant, namespace) => !mine(tenant, namespace)
  }

  /******* Each record reads and writes inside its own scope *******/

  /** Every object a list of edits would overwrite lies on the record's own side of the split. */
  ghost predicate Disjoint(objs: Objects, tenant: string, namespace: string, es: seq<Edit>, mine: Scopes) {
    forall k :: 0 <= k < |es| && es[k].Put? && es[k].obj.id in objs
      ==> Owns(mine, objs[es[k].obj.id]) == mine(tenant, namespace)
  }

  lemma EditSplits(objs: Objects, tenant: string, namespace: string, e: Edit, mine: Scopes)
    requires ApplyEdit(objs, tenant, namespace, e).ok
    requires e.Put? && e.obj.id in objs ==> Owns(mine, objs[e.obj.id]) == mine(tenant, namespace)
    ensures var a := ApplyEdit(objs, tenant, namespace, e);
            if mine(tenant, namespace)
            then ApplyEdit(Restrict(objs, mine), tenant, namespace, e) == Applied(Restrict(a.objects, mine), true)
            else Restrict(a.objects, mine) == Restrict(objs, mine)
  {
    var a := ApplyEdit(objs, tenant, namespace, e);
    if mine(tenant, namespace) {
      assert ApplyEdit(Restrict(objs, mine), tenant, namespace, e).objects == Restrict(a.objects, mine);
    } else {
      assert Restrict(a.objects, mine) == Restrict(objs, mine);
    }
  }

  /** Records of these scopes act on the restricted objects as they act on all of them; records
      of other scopes leave the restricted objects alone. */
  lemma {:induction false} RecordSplits(objs: Objects, tenant: string, namespace: string, es: seq<Edit>, mine: Scopes)
    requires ApplyEdits(objs, tenant, namespace, es).ok
    requires Disjoint(objs, tenant, namespace, es, mine)
    ensures var a := ApplyEdits(objs, tenant, namespace, es);
            if mine(tenant, namespace)
            then ApplyEdits(Restrict(objs, mine), tenant, namespace, es) == Applied(Restrict(a.objects, mine), true)
            else Restrict(a.objects, mine) == Restrict(objs, mine)
    decreases |es|
  {
    if es != [] {
      EditSplits(objs, tenant, namespace, es[0], mine);
      var a := ApplyEdit(objs, tenant, namespace, es[0]);
      RecordSplits(a.objects, tenant, namespace, es[1..], mine);
    }
  }

  /** Where an object came from: a record that created its id, on the object's side of the split. */
  ghost predicate Created(ledger: seq<Record>, objs: Objects, mine: Scopes) {
    forall id :: id in objs ==>
      exists i :: 0 <= i < |ledger| && Puts(ledger[i].event, id) &&
        Covers(mine, ledger[i].event) == Owns(mine, objs[id])
  }

  lemma {:induction false} EditsCreate(objs: Objects, e: Event, es: seq<Edit>, mine: Scopes)
    requires forall k :: 0 <= k < |es| ==> es[k] in Edits(e)
    ensures var a := ApplyEdits(objs, e.tenant, e.namespace, es);
            forall id :: id in a.objects ==>
              || (id in objs && Owns(mine, objs[id]) == Owns(mine, a.objects[id]))
              || (Puts(e, id) && Owns(mine, a.objects[id]) == Covers(mine, e))
    decreases |es|
  {
    if es != [] {
      assert es[0] in Edits(e);
      var a := ApplyEdit(objs, e.tenant, e.namespace, es[0]);
      if a.ok {
        EditsCreate(a.objects, e, es[1..], mine);
      }
    }
  }

  lemma {:induction false} ReplayCreated(ledger: seq<Record>, mine: Scopes)
    requires Replay(ledger).Some?
    ensures Created(ledger, Replay(ledger).value, mine)
    decreases |ledger|
  {
    if ledger != [] {
      var n := |ledger| - 1;
      var front, e := ledger[..n], ledger[n].event;
      ReplayCreated(front, mine);
      var before := Replay(front).value;
      EditsCreate(before, e, Edits(e), mine);
      var after := Replay(ledger).value;
      forall id | id in after
        ensures exists i :: 0 <= i < |ledger| && Puts(ledger[i].event, id) &&
                  Covers(mine, ledger[i].event) == Owns(mine, after[id])
      {
        if id in before && Owns(mine, before[id]) == Owns(mine, after[id]) {
          var i :| 0 <= i < |front| && Puts(front[i].event, id) &&
            Covers(mine, front[i].event) == Owns(mine, before[id]);
          assert ledger[i] == front[i];
        } else {
          assert Puts(ledger[n].event, id);
        }
      }
    }
  }

  lemma {:induction false} SeparatedDecomposes(ledger: seq<Record>, mine: Scopes)
    requires Replay(ledger).Some? && Separated(ledger, mine)
    ensures Decomposes(ledger, mine)
    decreases |ledger|
  {
    if ledger == [] {
      assert Restrict(map[], mine) == map[];
    } else {
      var n := |ledger| - 1;
      var front, r := ledger[..n], ledger[n];
      var e := r.event;
      assert forall i :: 0 <= i < n ==> front[i] == ledger[i];
      SeparatedDecomposes(front, mine);
      var before := Replay(front).value;
      ReplayCreated(front, mine);
      forall k | 0 <= k < |Edits(e)| && Edits(e)[k].Put? && Edits(e)[k].obj.id in before
        ensures Owns(mine, before[Edits(e)[k].obj.id]) == Covers(mine, e)
      {
        var id := Edits(e)[k].obj.id;
        assert Puts(ledger[n].event, id);
        var i :| 0 <= i < |front| && Puts(front[i].event, id) &&
          Covers(mine, front[i].event) == Owns(mine, before[id]);
        assert Puts(ledger[i].event, id);
      }
      RecordSplits(before, e.tenant, e.namespace, Edits(e), mine);
      if Covers(mine, e) {
        ReplaySnoc(Slice(front, mine), r);
      }
    }
  }

  /******* The converse: a shared id breaks the decomposition *******/

  lemma {:induction false} EditsPut(objs: Objects, tenant: string, namespace: string, es: seq<Edit>, k: nat)
    requires k < |es| && es[k].Put? && ApplyEdits(objs, tenant, namespace, es).ok && Keyed(objs)
    ensures es[k].obj.id in ApplyEdits(objs, tenant, namespace, es).objects
    decreases |es|
  {
    var a := ApplyEdit(objs, tenant, namespace, es[0]);
    if k == 0 {
      EditsKeep(a.objects, tenant, namespace, es[1..]);
    } else {
      EditsPut(a.objects, tenant, namespace, es[1..], k - 1);
    }
  }

  lemma {:induction false} PutStays(ledger: seq<Record>, i: nat, id: Id)
    requires Replay(ledger).Some? && i < |ledger| && Puts(ledger[i].event, id)
    ensures id in Replay(ledger).value
    decreases |ledger|
  {
    var n := |ledger| - 1;
    var front, e := ledger[..n], ledger[n].event;
    var before := Replay(front).value;
    ReplayKeyed(front);
    if i == n {
      var k :| 0 <= k < |Edits(e)| && Edits(e)[k].Put? && Edits(e)[k].obj.id == id;
      EditsPut(before, e.tenant, e.namespace, Edits(e), k);
    } else {
      assert front[i] == ledger[i];
      PutStays(front, i, id);
      EditsKeep(before, e.tenant, e.namespace, Edits(e));
    }
  }

  lemma {:induction false} SliceHas(ledger: seq<Record>, mine: Scopes, i: nat)
    requires i < |ledger| && Covers(mine, ledger[i].event)
    ensures exists j :: 0 <= j < |Slice(ledger, mine)| && Slice(ledger, mine)[j] == ledger[i]
    decreases |ledger|
  {
    var n := |ledger| - 1;
    var front := ledger[..n];
    var s := Slice(ledger, mine);
    if i == n {
      assert s[|s| - 1] == ledger[i];
    } else {
      assert front[i] == ledger[i];
      SliceHas(front, mine, i);
      var j :| 0 <= j < |Slice(front, mine)| && Slice(front, mine)[j] == front[i];
      assert s[j] == ledger[i];
    }
  }

  /** An object created by a record of these scopes ends up owned by them, if they decompose. */
  lemma CreatorKeeps(ledger: seq<Record>, mine: Scopes, i: nat, id: Id)
    requires Replay(ledger).Some? && Decomposes(ledger, mine)
    requires i < |ledger| && Covers(mine, ledger[i].event) && Puts(ledger[i].event, id)
    ensures id in Replay(ledger).value && Owns(mine, Replay(ledger).value[id])
  {
    SliceHas(ledger, mine, i);
    var s := Slice(ledger, mine);
    var j :| 0 <= j < |s| && s[j] == ledger[i];
    PutStays(s, j, id);
    assert id in Restrict(Replay(ledger).value, mine);
  }

  /** Splitting the scopes in two splits the projection in two exactly when no id is shared. */
  lemma DecompositionIffSeparated(ledger: seq<Record>, mine: Scopes)
    requires Replay(ledger).Some?
    ensures (Decomposes(ledger, mine) && Decomposes(ledger, Outside(mine))) <==> Separated(ledger, mine)
  {
    var rest := Outside(mine);
    if Separated(ledger, mine) {
      SeparatedDecomposes(ledger, mine);
      assert Separated(ledger, rest) by {
        forall i, j, id | 0 <= i < |ledger| && 0 <= j < |ledger| &&
            Puts(ledger[i].event, id) && Puts(ledger[j].event, id)
          ensures Covers(rest, ledger[i].event) == Covers(rest, ledger[j].event)
        {
          assert Covers(mine, ledger[i].event) == Covers(mine, ledger[j].event);
        }
      }
      SeparatedDecomposes(ledger, rest);
    }
    if Decomposes(ledger, mine) && Decomposes(ledger, rest) {
      forall i, j, id | 0 <= i < |ledger| && 0 <= j < |ledger| &&
          Puts(ledger[i].event, id) && Puts(ledger[j].event, id)
        ensures Covers(mine, ledger[i].event) == Covers(mine, ledger[j].event)
      {
        var si := if Covers(mine, ledger[i].event) then mine else rest;
        var sj := if Covers(mine, ledger[j].event) then mine else rest;
        CreatorKeeps(ledger, si, i, id);
        CreatorKeeps(ledger, sj, j, id);
      }
    }
  }
}
