/** The views of the engine's own runs meet what the indexed walk needs. */
module ExplainRuns {
  import opened Model
  import opened Projection
  import opened Operations
  import opened Live
  import opened Explain
  import FactBeliefs
  import Ledger
  import Lineage
  import Runs
  import Serial
  import Store

  /** The fact that one proper record asserts is new, and becomes the object with its id. */
  lemma AssertedFact(objs: Objects, e: Event, o: Obj)
    requires Keyed(objs) && Proper(objs, e) && Apply(objs, e).ok && e.payload == Whole(o) && o.kind == Fact
    ensures o.id !in objs && Apply(objs, e).objects == objs[o.id := o] && InScope(o, e.tenant, e.namespace)
  {
    SingleEdit(objs, e);
  }

  /** Every other record keeps the facts and adds none. */
  lemma OtherRecord(objs: Objects, e: Event)
    requires Tidy(objs) && Proper(objs, e) && Apply(objs, e).ok && !(e.payload.Whole? && e.payload.obj.kind == Fact)
    ensures var later := Apply(objs, e).objects;
            && (forall id :: id in later && later[id].kind == Fact ==> id in objs && objs[id].kind == Fact)
            && (forall id :: id in objs && objs[id].kind == Fact ==>
                  id in later && later[id].kind == Fact && later[id].body == objs[id].body &&
                  InScope(later[id], objs[id].tenant, objs[id].namespace))
  {
    ProperFits(objs, e);
    OtherEdits(objs, e);
  }

  lemma OtherEdits(objs: Objects, e: Event)
    requires Keyed(objs) && AllFit(objs, e.tenant, Edits(e)) && Apply(objs, e).ok
    requires Proper(objs, e) && !(e.payload.Whole? && e.payload.obj.kind == Fact)
    ensures var later := Apply(objs, e).objects;
            && AllEvolve(objs, later)
            && (forall id :: id in later && later[id].kind == Fact ==> id in objs)
  {
    FittingEditsEvolve(objs, e.tenant, e.namespace, Edits(e));
    FittingEditsAdd(objs, e.tenant, e.namespace, Edits(e));
    var later := Apply(objs, e).objects;
    forall id | id in later && later[id].kind == Fact ensures id in objs {
      if id !in objs {
        var k :| 0 <= k < |Edits(e)| && Edits(e)[k].Put? && Edits(e)[k].obj.id == id &&
          Evolves(Edits(e)[k].obj, later[id]);
        PutsNoFact(objs, e, k);
        assert false;
      }
    }
  }

  lemma PutsNoFact(objs: Objects, e: Event, k: nat)
    requires Proper(objs, e) && !(e.payload.Whole? && e.payload.obj.kind == Fact)
    requires k < |Edits(e)| && Edits(e)[k].Put?
    ensures Edits(e)[k].obj.kind != Fact
  {
  }

  lemma AssertionRecorded(ledger: seq<Record>, objs: Objects, r: Record, o: Obj)
    requires FactsRecorded(ledger, objs) && r.event.payload == Whole(o) && o.kind == Fact && o.id !in objs
    requires InScope(o, r.event.tenant, r.event.namespace)
    ensures FactsRecorded(ledger + [r], objs[o.id := o])
  {
    var longer, later := ledger + [r], objs[o.id := o];
    assert forall i :: 0 <= i < |ledger| ==> longer[i] == ledger[i];
    forall id | id in later && later[id].kind == Fact ensures exists i :: 0 <= i < |longer| && Asserts(longer[i], id) {
      if id == o.id {
        assert Asserts(longer[|ledger|], id);
      } else {
        var i :| 0 <= i < |ledger| && Asserts(ledger[i], id);
        assert Asserts(longer[i], id);
      }
    }
    forall i | 0 <= i < |ledger| ensures !Asserts(ledger[i], o.id) {}
  }

  lemma OtherRecorded(ledger: seq<Record>, objs: Objects, r: Record, later: Objects)
    requires FactsRecorded(ledger, objs) && !(r.event.payload.Whole? && r.event.payload.obj.kind == Fact)
    requires forall id :: id in later && later[id].kind == Fact ==> id in objs && objs[id].kind == Fact
    requires forall id :: id in objs && objs[id].kind == Fact ==>
               id in later && later[id].kind == Fact && later[id].body == objs[id].body &&
               InScope(later[id], objs[id].tenant, objs[id].namespace)
    ensures FactsRecorded(ledger + [r], later)
  {
    var longer := ledger + [r];
    assert forall i :: 0 <= i < |ledger| ==> longer[i] == ledger[i];
    forall id | id in later && later[id].kind == Fact ensures exists i :: 0 <= i < |longer| && Asserts(longer[i], id) {
      var i :| 0 <= i < |ledger| && Asserts(ledger[i], id);
      assert Asserts(longer[i], id);
    }
  }

  lemma {:induction false} LiveFactsRecorded(ledger: seq<Record>)
    requires LiveLedger(ledger)
    ensures Replay(ledger).Some? && FactsRecorded(ledger, Replay(ledger).value)
    decreases |ledger|
  {
    LiveTidy(ledger);
    if ledger != [] {
      var n := |ledger| - 1;
      var front, r := ledger[..n], ledger[n];
      LiveFactsRecorded(front);
      LiveTidy(front);
      assert ledger == front + [r];
      RecordRecorded(front, Replay(front).value, r);
    }
  }

  lemma RecordRecorded(ledger: seq<Record>, objs: Objects, r: Record)
    requires Tidy(objs) && FactsRecorded(ledger, objs) && Proper(objs, r.event) && Apply(objs, r.event).ok
    ensures FactsRecorded(ledger + [r], Apply(objs, r.event).objects)
  {
    if r.event.payload.Whole? && r.event.payload.obj.kind == Fact {
      AssertedFact(objs, r.event, r.event.payload.obj);
      AssertionRecorded(ledger, objs, r, r.event.payload.obj);
    } else {
      OtherRecord(objs, r.event);
      OtherRecorded(ledger, objs, r, Apply(objs, r.event).objects);
    }
  }

  /** Any view of any state of an interleaved run is sound: only the order of several superseders
      of one fact can tell the index from the scan. */
  lemma RunViewIsSound(h: Ledger.Hash, steps: seq<Runs.Step>, v: View)
    requires v.ledger == Runs.Run(h, steps).ledger && v.objs == Runs.Run(h, steps).objects
    requires Enumerates(v.order, v.objs)
    ensures SoundView(v)
  {
    Runs.RunInvariant(h, steps);
    LiveFactsRecorded(v.ledger);
    Store.ChainNumbers(h, v.ledger);
  }

  lemma {:induction false} LiveLinks(ledger: seq<Record>)
    requires LiveLedger(ledger)
    ensures Replay(ledger).Some?
    ensures forall id :: id in Replay(ledger).value && Replay(ledger).value[id].kind == Fact ==>
              |Replay(ledger).value[id].body.supersedes| <= 1
    decreases |ledger|
  {
    LiveTidy(ledger);
    if ledger != [] {
      var n := |ledger| - 1;
      var front, e := ledger[..n], ledger[n].event;
      LiveLinks(front);
      LiveTidy(front);
      var objs := Replay(front).value;
      if e.payload.Whole? && e.payload.obj.kind == Fact {
        AssertedFact(objs, e, e.payload.obj);
      } else {
        OtherRecord(objs, e);
      }
    }
  }

  /** In a serial run each fact has at most one superseder, so the indexed walk of every view is
      usable: its tree is the scanned one, list orders included. */
  lemma SerialViewIsUsable(h: Ledger.Hash, calls: seq<Call>, v: View)
    requires Serial.ClockOrdered(calls)
    requires v.ledger == Serial.Served(h, calls).ledger && v.objs == Serial.Served(h, calls).objects
    requires Enumerates(v.order, v.objs)
    ensures SoundView(v) && OneSuperseder(v.objs)
  {
    Serial.ServedSerene(h, calls);
    LiveFactsRecorded(v.ledger);
    LiveLinks(v.ledger);
    Store.ChainNumbers(h, v.ledger);
    OneFromBeliefs(v.objs);
  }

  lemma OneFromBeliefs(objs: Objects)
    requires Lineage.OneSuccessor(FactBeliefs.BeliefsOf(objs))
    requires forall id :: id in objs && objs[id].kind == Fact ==> |objs[id].body.supersedes| <= 1
    ensures OneSuperseder(objs)
  {
    var bs := FactBeliefs.BeliefsOf(objs);
    forall a, b, id | a in objs && b in objs && Supersedes(objs[a], id) && Supersedes(objs[b], id) ensures a == b {
      assert objs[a].body.supersedes[0] == id && objs[b].body.supersedes[0] == id;
      assert bs[a].prior == Some(id) && bs[b].prior == Some(id);
    }
  }
}
