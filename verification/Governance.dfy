/** The governance markers that replay leaves on claims: when the panel's counters agree with derived belief. */
module Governance {
  import opened Model
  import opened Projection
  import opened Belief

  /** Every marker is the record of a governed decision. */
  predicate Decided(o: Obj) {
    (o.meta.accepted.Some? ==> o.meta.accepted.value.Governed?) &&
    (o.meta.rejected.Some? ==> o.meta.rejected.value.Governed?)
  }

  predicate DecidedEdit(e: Edit) {
    match e
    case Put(o) => Decided(o)
    case Modify(_, c) => c.Mark? ==> c.marker.Governed?
    case ModifyIfPresent(_, c) => c.Mark? ==> c.marker.Governed?
  }

  ghost predicate AllDecided(objs: Objects) {
    forall id :: id in objs ==> Decided(objs[id])
  }

  /** No caller presets a marker in the metadata of what it records. */
  predicate NoMarkerPreset(e: Event) {
    match e.payload
    case Whole(o) => Decided(o)
    case Split(_, into) => forall i :: 0 <= i < |into| ==> Decided(into[i])
    case _ => true
  }

  lemma EditDecided(objs: Objects, tenant: string, namespace: string, e: Edit)
    requires AllDecided(objs) && DecidedEdit(e)
    ensures AllDecided(ApplyEdit(objs, tenant, namespace, e).objects)
  {
  }

  lemma {:induction false} EditsDecided(objs: Objects, tenant: string, namespace: string, es: seq<Edit>)
    requires AllDecided(objs) && forall k :: 0 <= k < |es| ==> DecidedEdit(es[k])
    ensures AllDecided(ApplyEdits(objs, tenant, namespace, es).objects)
    decreases |es|
  {
    if es != [] {
      assert DecidedEdit(es[0]);
      EditDecided(objs, tenant, namespace, es[0]);
      var a := ApplyEdit(objs, tenant, namespace, es[0]);
      if a.ok {
        EditsDecided(a.objects, tenant, namespace, es[1..]);
      }
    }
  }

  lemma RecordEditsDecided(e: Event)
    requires NoMarkerPreset(e)
    ensures forall k :: 0 <= k < |Edits(e)| ==> DecidedEdit(Edits(e)[k])
  {
    forall k | 0 <= k < |Edits(e)| ensures DecidedEdit(Edits(e)[k]) {
      if k > 0 {
        LaterEdit(e, k);
      }
    }
  }

  /** A ledger without preset markers replays to objects that carry none but real decisions. */
  lemma {:induction false} ReplayDecided(ledger: seq<Record>)
    requires Replay(ledger).Some? && forall i :: 0 <= i < |ledger| ==> NoMarkerPreset(ledger[i].event)
    ensures AllDecided(Replay(ledger).value)
    decreases |ledger|
  {
    if ledger != [] {
      var n := |ledger| - 1;
      var front, e := ledger[..n], ledger[n].event;
      assert forall i :: 0 <= i < n ==> front[i] == ledger[i];
      ReplayDecided(front);
      RecordEditsDecided(e);
      EditsDecided(Replay(front).value, e.tenant, e.namespace, Edits(e));
    }
  }

  /** Over such a ledger the panel counts what belief derives, for any choice of claims and reviews. */
  lemma PanelCountsBelief(ledger: seq<Record>, claims: seq<Obj>, reviews: seq<Obj>, s: State)
    requires Replay(ledger).Some? && forall i :: 0 <= i < |ledger| ==> NoMarkerPreset(ledger[i].event)
    requires forall c :: c in claims ==> c.id in Replay(ledger).value && c == Replay(ledger).value[c.id]
    ensures Tallied(claims, reviews, s) == Count(claims, reviews, s)
  {
    ReplayDecided(ledger);
    forall c | c in claims ensures PlainMarkers(c) {
      GovernedIsPlain(c);
    }
    TalliedIsCount(claims, reviews, s);
  }
}
