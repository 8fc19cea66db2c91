/** How a sealed record is projected onto the objects, and the fold of that step over a ledger. */
module Projection {
  import opened Model

  // The projected annotation lists keep only the most recent entries.
  const MAX_ANNOTATIONS := 256

  /** One in-place change of an object that a record asks for. */
  datatype Change =
    | CloseFact(factTxTo: Option<Time>, factStatus: Status)
    | CloseClaim(claimStatus: Status, claimTxTo: Option<Time>)
    | Corroborate(confidence: real, entry: Corroboration)
    | Contest(other: Id, note: Option<string>, ts: Time)
    | Absorb(names: seq<string>, duplicates: seq<Id>)
    | JoinInto(canonical: Id, at: Time)
    | SplitOff(ids: seq<Id>)
    | Deactivate(revokedAt: Time)
    | PlaceIn(destination: Id)
    | LinkEvidence(link: Link)
    | Mark(accepted: bool, marker: Marker)

  datatype Edit =
    | Put(obj: Obj)
    | Modify(id: Id, change: Change)
    | ModifyIfPresent(id: Id, change: Change)

  /** Objects after an edit; when `ok` is false an integrity error was raised, and the objects
      are whatever had been written before it. */
  datatype Applied = Applied(objects: Objects, ok: bool)

  function Last<T>(s: seq<T>, n: nat): (r: seq<T>)
    ensures |r| <= n
  {
    if |s| <= n then s else s[|s| - n..]
  }

  function AddNew<T(==,!new)>(xs: seq<T>, y: T): (r: seq<T>)
    ensures forall x :: x in r <==> x in xs || x == y
  {
    if y in xs then xs else xs + [y]
  }

  function AddAllNew<T(==,!new)>(xs: seq<T>, ys: seq<T>): (r: seq<T>)
    ensures forall x :: x in r <==> x in xs || x in ys
    decreases |ys|
  {
    if ys == [] then xs else AddAllNew(AddNew(xs, ys[0]), ys[1..])
  }

  /** The object after a change. Whatever the change, the object's identity, scope, kind and
      creation fields stay. */
  function Perform(o: Obj, c: Change): (r: Obj)
    ensures r.id == o.id && r.kind == o.kind && r.tenant == o.tenant && r.namespace == o.namespace
    ensures r.owner == o.owner && r.createdAt == o.createdAt && r.body == o.body
  {
    match c
    case CloseFact(txTo, status) =>
      if o.txTo.None? then o.(txTo := txTo, status := status) else o
    case CloseClaim(status, txTo) =>
      if o.status == Open then o.(status := status, txTo := txTo) else o
    case Corroborate(confidence, entry) =>
      o.(confidence := confidence,
         meta := o.meta.(corroborations := Last(o.meta.corroborations + [entry], MAX_ANNOTATIONS)))
    case Contest(other, note, ts) =>
      var contested := o.(contradicts := AddNew(o.contradicts, other));
      if note.Some? && note.value != "" then
        var notes := o.meta.contradictionNotes + [Note(other, note.value, ts)];
        contested.(meta := o.meta.(contradictionNotes := Last(notes, MAX_ANNOTATIONS)))
      else
        contested
    case Absorb(names, duplicates) =>
      o.(aliases := AddAllNew(o.aliases, names),
         meta := o.meta.(mergedFrom := AddAllNew(o.meta.mergedFrom, duplicates)))
    case JoinInto(canonical, at) =>
      o.(meta := o.meta.(mergedInto := Some(canonical), mergedAt := Some(at)))
    case SplitOff(ids) =>
      o.(meta := o.meta.(splitInto := ids))
    case Deactivate(at) =>
      o.(active := false, revokedAt := Some(at))
    case PlaceIn(destination) =>
      o.(spaces := AddNew(o.spaces, destination))
    case LinkEvidence(link) =>
      o.(meta := o.meta.(evidenceLinks := Last(AddNew(o.meta.evidenceLinks, link), MAX_ANNOTATIONS)))
    case Mark(accepted, marker) =>
      if accepted then o.(meta := o.meta.(accepted := Some(marker)))
      else o.(meta := o.meta.(rejected := Some(marker)))
  }

  predicate InScope(o: Obj, tenant: string, namespace: string) {
    o.tenant == tenant && o.namespace == namespace
  }

  function ApplyEdit(objs: Objects, tenant: string, namespace: string, e: Edit): Applied {
    match e
    case Put(obj) =>
      if InScope(obj, tenant, namespace) then Applied(objs[obj.id := obj], true)
      else Applied(objs, false)
    case Modify(id, change) =>
      if id in objs && InScope(objs[id], tenant, namespace)
      then Applied(objs[id := Perform(objs[id], change)], true)
      else Applied(objs, false)
    case ModifyIfPresent(id, change) =>
      if id !in objs then Applied(objs, true)
      else if InScope(objs[id], tenant, namespace)
      then Applied(objs[id := Perform(objs[id], change)], true)
      else Applied(objs, false)
  }

  function ApplyEdits(objs: Objects, tenant: string, namespace: string, es: seq<Edit>): Applied
    decreases |es|
  {
    if es == [] then Applied(objs, true)
    else
      var a := ApplyEdit(objs, tenant, namespace, es[0]);
      if a.ok then ApplyEdits(a.objects, tenant, namespace, es[1..]) else a
  }

  /** The operations whose payload is a whole object. */
  predicate PutsWhole(op: Op) {
    match op
    case SourceAdded | ObservationRecorded | DocumentIngested | FactAsserted | EntityAdded
       | RelationAdded | DecisionRecorded | EpisodeRecorded | SpaceCreated | CapabilityGranted
       | ClaimAsserted | EvidenceRecorded | ClaimReviewed => true
    case _ => false
  }

  /** Does the payload hold the keys its operation reads? */
  predicate Readable(op: Op, p: Payload) {
    match p
    case Whole(_) => PutsWhole(op)
    case FactClosed(_, _, _, _, _) => op == FactSuperseded || op == FactRetracted
    case FactConfirm(_, _, _) => op == FactConfirmed
    case Contradiction(_, _, _) => op == ContradictionRecorded
    case Merge(_, _, _) => op == EntityMerged
    case Split(_, _) => op == EntitySplit
    case Revoke(_, _, _) => op == CapabilityRevoked
    case Place(_, _, _, _, _) => op == KnowledgeShared || op == KnowledgePromoted
    case ClaimClosed(_, _, _, _) => op == ClaimRetracted || op == ClaimSuperseded
    case Attach(_, _, _) => op == EvidenceAttached
    case Govern(_, _) => op == ClaimAccepted || op == ClaimRejected
  }

  /** The edits a record asks for, in the order they are written. */
  function Edits(e: Event): seq<Edit> {
    match e.payload
    case Whole(obj) => [Put(obj)]
    case FactClosed(f, txTo, status, _, _) => [Modify(f, CloseFact(txTo, status))]
    case FactConfirm(f, source, confidence) =>
      [Modify(f, Corroborate(confidence, Corroboration(source, e.ts)))]
    case Contradiction(a, b, note) =>
      [Modify(a, Contest(b, note, e.ts)), Modify(b, Contest(a, note, e.ts))]
    case Merge(canonical, duplicates, aliases) =>
      [Modify(canonical, Absorb(aliases, duplicates))] +
      seq(|duplicates|, i requires 0 <= i < |duplicates| => Modify(duplicates[i], JoinInto(canonical, e.ts)))
    case Split(entity, into) =>
      [Modify(entity, SplitOff(seq(|into|, i requires 0 <= i < |into| => into[i].id)))] +
      seq(|into|, i requires 0 <= i < |into| => Put(into[i]))
    case Revoke(grant, _, _) => [ModifyIfPresent(grant, Deactivate(e.ts))]
    case Place(placed, destination, _, _, _) => [Modify(placed, PlaceIn(destination))]
    case ClaimClosed(c, status, txTo, _) => [Modify(c, CloseClaim(status, txTo))]
    case Attach(c, ev, relation) => [Modify(c, LinkEvidence(Link(ev, relation)))]
    case Govern(c, reason) =>
      [Modify(c, Mark(e.op == ClaimAccepted, Governed(e.actor, e.ts, reason)))]
  }

  /** Beyond the first edit there are only duplicates to join, new entities to put, and the other side of a
      contradiction. */
  lemma LaterEdit(e: Event, k: nat)
    requires 0 < k < |Edits(e)|
    ensures e.payload.Merge? ==>
              k <= |e.payload.duplicates| &&
              Edits(e)[k] == Modify(e.payload.duplicates[k - 1], JoinInto(e.payload.canonical, e.ts))
    ensures e.payload.Split? ==> k <= |e.payload.into| && Edits(e)[k] == Put(e.payload.into[k - 1])
    ensures e.payload.Merge? || e.payload.Split? || e.payload.Contradiction?
  {
  }

  /** Objects are put after the others were changed. */
  predicate PutsLast(es: seq<Edit>) {
    forall i, j :: 0 <= i < j < |es| && es[i].Put? ==> es[j].Put?
  }

  lemma EventPutsLast(e: Event)
    ensures PutsLast(Edits(e))
  {
    forall i, j | 0 <= i < j < |Edits(e)| && Edits(e)[i].Put? ensures Edits(e)[j].Put? {
      LaterEdit(e, j);
      if i > 0 {
        LaterEdit(e, i);
      }
    }
  }

  function Apply(objs: Objects, e: Event): Applied {
    if Readable(e.op, e.payload) then ApplyEdits(objs, e.tenant, e.namespace, Edits(e))
    else Applied(objs, false)
  }

  /** The objects a ledger projects to, from empty; None when some record does not apply. */
  function Replay(ledger: seq<Record>): Option<Objects>
    decreases |ledger|
  {
    if ledger == [] then Some(map[])
    else match Replay(ledger[..|ledger| - 1])
      case None => None
      case Some(objs) =>
        var a := Apply(objs, ledger[|ledger| - 1].event);
        if a.ok then Some(a.objects) else None
  }

  /** A record with one edit applies as that edit. */
  lemma SingleEdit(objs: Objects, e: Event)
    requires Readable(e.op, e.payload) && |Edits(e)| == 1
    ensures Apply(objs, e) == ApplyEdit(objs, e.tenant, e.namespace, Edits(e)[0])
  {
    var a := ApplyEdit(objs, e.tenant, e.namespace, Edits(e)[0]);
    assert Edits(e)[1..] == [];
    assert ApplyEdits(a.objects, e.tenant, e.namespace, []) == Applied(a.objects, true);
  }

  /******* What replay keeps *******/

  lemma ReplaySnoc(ledger: seq<Record>, r: Record)
    ensures Replay(ledger + [r]) ==
      match Replay(ledger)
      case None => None
      case Some(objs) => if Apply(objs, r.event).ok then Some(Apply(objs, r.event).objects) else None
  {
    assert (ledger + [r])[..|ledger|] == ledger;
  }

  /** A ledger that replays has only prefixes that replay. */
  lemma {:induction false} ReplayPrefix(ledger: seq<Record>, n: nat)
    requires n <= |ledger| && Replay(ledger).Some?
    ensures Replay(ledger[..n]).Some?
    decreases |ledger|
  {
    if n < |ledger| {
      var front := ledger[..|ledger| - 1];
      assert front[..n] == ledger[..n];
      ReplayPrefix(front, n);
    } else {
      assert ledger[..n] == ledger;
    }
  }

  /** Objects are never removed, and an id always maps to the object carrying it. */
  ghost predicate Keyed(objs: Objects) {
    forall id :: id in objs ==> objs[id].id == id
  }

  lemma {:induction false} EditsKeep(objs: Objects, tenant: string, namespace: string, es: seq<Edit>)
    requires Keyed(objs)
    ensures var a := ApplyEdits(objs, tenant, namespace, es);
            Keyed(a.objects) && objs.Keys <= a.objects.Keys
    decreases |es|
  {
    if es != [] {
      var a := ApplyEdit(objs, tenant, namespace, es[0]);
      if a.ok {
        EditsKeep(a.objects, tenant, namespace, es[1..]);
      }
    }
  }

  lemma {:induction false} ReplayKeyed(ledger: seq<Record>)
    requires Replay(ledger).Some?
    ensures Keyed(Replay(ledger).value)
    decreases |ledger|
  {
    if ledger != [] {
      var front := ledger[..|ledger| - 1];
      ReplayKeyed(front);
      var e := ledger[|ledger| - 1].event;
      EditsKeep(Replay(front).value, e.tenant, e.namespace, Edits(e));
    }
  }

  lemma {:induction false} ReplayGrows(ledger: seq<Record>, n: nat)
    requires n <= |ledger| && Replay(ledger).Some? && Replay(ledger[..n]).Some?
    ensures Replay(ledger[..n]).value.Keys <= Replay(ledger).value.Keys
    decreases |ledger|
  {
    if n < |ledger| {
      var front := ledger[..|ledger| - 1];
      assert front[..n] == ledger[..n];
      ReplayGrows(front, n);
      ReplayKeyed(front);
      var e := ledger[|ledger| - 1].event;
      EditsKeep(Replay(front).value, e.tenant, e.namespace, Edits(e));
    } else {
      assert ledger[..n] == ledger;
    }
  }
}
