/** The panel's time travel: one scan of the ledger, compared with replaying the records up to
    the same instant. */
module TimeTravel {
  import opened Model
  import opened Projection
  import opened Operations
  import opened Live
  import opened Selection
  import Scopes

  /** Lifecycle and link state collected from the records stamped up to an instant. */
  datatype AsOf = AsOf(
    existed: set<Id>, retracted: set<Id>, superseded: set<Id>, factEnded: set<Id>, links: map<Id, seq<Link>>)

  const NOTHING := AsOf({}, {}, {}, {}, map[])

  /** The payload's claim id, when it has one. */
  function ClaimKey(p: Payload): Option<Id> {
    match p
    case ClaimClosed(c, _, _, _) => Some(c)
    case Attach(c, _, _) => Some(c)
    case Govern(c, _) => Some(c)
    case Whole(o) => o.body.claimId
    case _ => None
  }

  /** The payload's fact id, or failing that its object id. */
  function FactKey(p: Payload): Option<Id> {
    match p
    case FactClosed(f, _, _, _, _) => Some(f)
    case FactConfirm(f, _, _) => Some(f)
    case Contradiction(f, _, _) => Some(f)
    case Whole(o) => Some(o.id)
    case _ => None
  }

  function LinksOf(links: map<Id, seq<Link>>, c: Id): seq<Link> {
    if c in links then links[c] else []
  }

  function Seen(a: AsOf, e: Event): AsOf {
    var b := if e.payload.Whole? then a.(existed := a.existed + {e.payload.obj.id}) else a;
    var claim, fact := ClaimKey(e.payload), FactKey(e.payload);
    if e.op == ClaimRetracted && claim.Some? then b.(retracted := b.retracted + {claim.value})
    else if e.op == ClaimSuperseded && claim.Some? then b.(superseded := b.superseded + {claim.value})
    else if e.op == FactRetracted || e.op == FactSuperseded then
      if fact.Some? then b.(factEnded := b.factEnded + {fact.value}) else b
    else if e.op == EvidenceAttached && claim.Some? && e.payload.Attach? then
      b.(links := b.links[claim.value := LinksOf(b.links, claim.value) +
                                         [Link(e.payload.attachEvidence, e.payload.attachRelation)]])
    else b
  }

  /** The fold of `Seen` over the records stamped up to `t`. */
  function Collected(ledger: seq<Record>, t: Time): AsOf
    decreases |ledger|
  {
    if ledger == [] then NOTHING
    else
      var a := Collected(ledger[..|ledger| - 1], t);
      var e := ledger[|ledger| - 1].event;
      if e.ts > t then a else Seen(a, e)
  }

  /******* What the scan collects, said of the records alone *******/

  /** The payload carries this claim id: the claim a record closes, attaches to or governs, or that its object is of. */
  predicate HasClaimId(p: Payload, c: Id) {
    match p
    case ClaimClosed(x, _, _, _) => x == c
    case Attach(x, _, _) => x == c
    case Govern(x, _) => x == c
    case Whole(o) => o.body.claimId == Some(c)
    case _ => false
  }

  /** The payload carries this fact id, or, without one, this object id. */
  predicate HasFactId(p: Payload, f: Id) {
    match p
    case FactClosed(x, _, _, _, _) => x == f
    case FactConfirm(x, _, _) => x == f
    case Contradiction(x, _, _) => x == f
    case Whole(o) => o.id == f
    case _ => false
  }

  predicate Stamped(r: Record, t: Time, op: Op) {
    r.event.ts <= t && r.event.op == op
  }

  predicate Makes(r: Record, t: Time, id: Id) {
    r.event.ts <= t && r.event.payload.Whole? && r.event.payload.obj.id == id
  }

  predicate ClosesClaim(r: Record, t: Time, op: Op, c: Id) {
    Stamped(r, t, op) && HasClaimId(r.event.payload, c)
  }

  predicate EndsFact(r: Record, t: Time, f: Id) {
    (Stamped(r, t, FactRetracted) || Stamped(r, t, FactSuperseded)) && HasFactId(r.event.payload, f)
  }

  predicate AttachesTo(r: Record, t: Time, c: Id) {
    Stamped(r, t, EvidenceAttached) && r.event.payload.Attach? && r.event.payload.attachClaim == c
  }

  ghost predicate Somewhere(ledger: seq<Record>, p: Record -> bool) {
    exists i :: 0 <= i < |ledger| && p(ledger[i])
  }

  lemma SomewhereSnoc(front: seq<Record>, r: Record, p: Record -> bool)
    ensures Somewhere(front + [r], p) <==> Somewhere(front, p) || p(r)
  {
    var all := front + [r];
    if i :| 0 <= i < |front| && p(front[i]) {
      assert p(all[i]);
    }
    assert all[|front|] == r;
  }

  function Making(t: Time, id: Id): Record -> bool {
    (r: Record) => Makes(r, t, id)
  }

  function Closing(t: Time, op: Op, c: Id): Record -> bool {
    (r: Record) => ClosesClaim(r, t, op, c)
  }

  function Ending(t: Time, f: Id): Record -> bool {
    (r: Record) => EndsFact(r, t, f)
  }

  function Attaching(t: Time, c: Id): Record -> bool {
    (r: Record) => AttachesTo(r, t, c)
  }

  lemma SeenIs(a: AsOf, r: Record, t: Time, id: Id)
    requires r.event.ts <= t
    ensures var b := Seen(a, r.event);
            && (id in b.existed <==> id in a.existed || Makes(r, t, id))
            && (id in b.retracted <==> id in a.retracted || ClosesClaim(r, t, ClaimRetracted, id))
            && (id in b.superseded <==> id in a.superseded || ClosesClaim(r, t, ClaimSuperseded, id))
            && (id in b.factEnded <==> id in a.factEnded || EndsFact(r, t, id))
  {
  }

  /** The scan collects the objects that a record up to the instant makes, the claims that one retracts or supersedes,
      and the facts that one ends. */
  lemma {:induction false} CollectedIs(ledger: seq<Record>, t: Time, id: Id)
    ensures var a := Collected(ledger, t);
            && (id in a.existed <==> Somewhere(ledger, Making(t, id)))
            && (id in a.retracted <==> Somewhere(ledger, Closing(t, ClaimRetracted, id)))
            && (id in a.superseded <==> Somewhere(ledger, Closing(t, ClaimSuperseded, id)))
            && (id in a.factEnded <==> Somewhere(ledger, Ending(t, id)))
    decreases |ledger|
  {
    if ledger != [] {
      var front, r := ledger[..|ledger| - 1], ledger[|ledger| - 1];
      assert front + [r] == ledger;
      CollectedIs(front, t, id);
      if r.event.ts <= t {
        SeenIs(Collected(front, t), r, t, id);
      }
      SomewhereSnoc(front, r, Making(t, id));
      SomewhereSnoc(front, r, Closing(t, ClaimRetracted, id));
      SomewhereSnoc(front, r, Closing(t, ClaimSuperseded, id));
      SomewhereSnoc(front, r, Ending(t, id));
    }
  }

  /** The links are those of the attaching records at these positions. */
  predicate LinkedAt(ledger: seq<Record>, links: seq<Link>, at: seq<nat>) {
    |links| == |at| &&
    forall k :: 0 <= k < |at| ==>
      at[k] < |ledger| && ledger[at[k]].event.payload.Attach? &&
      links[k] == Link(ledger[at[k]].event.payload.attachEvidence, ledger[at[k]].event.payload.attachRelation)
  }

  lemma SeenLinks(a: AsOf, r: Record, t: Time, c: Id)
    requires r.event.ts <= t
    ensures var links := LinksOf(Seen(a, r.event).links, c);
            if AttachesTo(r, t, c)
            then links == LinksOf(a.links, c) +
                          [Link(r.event.payload.attachEvidence, r.event.payload.attachRelation)]
            else links == LinksOf(a.links, c)
  {
  }

  /** The links of a claim are those of the records up to the instant that attach to it, in order. */
  lemma {:induction false} CollectedLinks(ledger: seq<Record>, t: Time, c: Id) returns (at: seq<nat>)
    ensures Keeps(ledger, Attaching(t, c), at)
    ensures LinkedAt(ledger, LinksOf(Collected(ledger, t).links, c), at)
    decreases |ledger|
  {
    if ledger == [] {
      at := [];
    } else {
      var front, r := ledger[..|ledger| - 1], ledger[|ledger| - 1];
      assert front + [r] == ledger;
      var before := CollectedLinks(front, t, c);
      at := if Attaching(t, c)(r) then before + [|front|] else before;
      KeepsSnoc(front, r, Attaching(t, c), before);
      LinkedSnoc(front, r, LinksOf(Collected(front, t).links, c), before);
      if r.event.ts <= t {
        SeenLinks(Collected(front, t), r, t, c);
      }
    }
  }

  lemma LinkedSnoc(front: seq<Record>, r: Record, links: seq<Link>, at: seq<nat>)
    requires LinkedAt(front, links, at)
    ensures LinkedAt(front + [r], links, at)
    ensures r.event.payload.Attach? ==>
              LinkedAt(front + [r], links + [Link(r.event.payload.attachEvidence, r.event.payload.attachRelation)],
                       at + [|front|])
  {
    assert forall i :: 0 <= i < |front| ==> (front + [r])[i] == front[i];
  }

  method AsOfState(ledger: seq<Record>, t: Time) returns (a: AsOf)
    ensures a == Collected(ledger, t)
  {
    var existed, retracted, superseded, factEnded, links := {}, {}, {}, {}, map[];
    for i := 0 to |ledger|
      invariant AsOf(existed, retracted, superseded, factEnded, links) == Collected(ledger[..i], t)
    {
      assert ledger[..i + 1][..i] == ledger[..i];
      var e := ledger[i].event;
      if e.ts > t { continue; }
      if e.payload.Whole? {
        existed := existed + {e.payload.obj.id};
      }
      var claim := ClaimKey(e.payload);
      if e.op == ClaimRetracted && claim.Some? {
        retracted := retracted + {claim.value};
      } else if e.op == ClaimSuperseded && claim.Some? {
        superseded := superseded + {claim.value};
      } else if e.op == FactRetracted || e.op == FactSuperseded {
        var fact := FactKey(e.payload);
        if fact.Some? {
          factEnded := factEnded + {fact.value};
        }
      } else if e.op == EvidenceAttached && claim.Some? && e.payload.Attach? {
        links := links[claim.value := LinksOf(links, claim.value) +
                                      [Link(e.payload.attachEvidence, e.payload.attachRelation)]];
      }
    }
    assert ledger[..|ledger|] == ledger;
    a := AsOf(existed, retracted, superseded, factEnded, links);
  }

  /** What the panel shows for a claim and for a fact. */
  function ShownStatus(a: AsOf, claim: Id): Status {
    if claim in a.superseded then Superseded else if claim in a.retracted then Retracted else Open
  }

  predicate ShownBelieved(a: AsOf, fact: Id) {
    fact !in a.factEnded
  }

  /******* What one record does to the tracked fields *******/

  datatype Track = Track(kind: Kind, status: Status, txTo: Option<Time>, links: seq<Link>)
  type Tracks = map<Id, Track>

  function TrackOf(o: Obj): Track {
    Track(o.kind, o.status, o.txTo, o.meta.evidenceLinks)
  }

  /** The tracked fields of the facts and claims. */
  function TracksOf(objs: Objects): Tracks {
    map id | id in objs && (objs[id].kind == Fact || objs[id].kind == Claim) :: TrackOf(objs[id])
  }

  predicate Untracked(e: Edit) {
    match e
    case Put(o) => o.kind != Fact && o.kind != Claim
    case Modify(_, c) => !c.CloseFact? && !c.CloseClaim? && !c.LinkEvidence?
    case ModifyIfPresent(_, c) => !c.CloseFact? && !c.CloseClaim? && !c.LinkEvidence?
  }

  lemma UntrackedEditKeeps(objs: Objects, tenant: string, namespace: string, e: Edit)
    requires Keyed(objs) && Fits(objs, tenant, e) && Untracked(e)
    ensures TracksOf(ApplyEdit(objs, tenant, namespace, e).objects) == TracksOf(objs)
  {
    match e
    case Put(_) =>
    case Modify(id, c) =>
      if id in objs {
        assert TrackOf(Perform(objs[id], c)) == TrackOf(objs[id]);
      }
    case ModifyIfPresent(id, c) =>
      if id in objs {
        assert TrackOf(Perform(objs[id], c)) == TrackOf(objs[id]);
      }
  }

  lemma {:induction false} UntrackedEditsKeep(objs: Objects, tenant: string, namespace: string, es: seq<Edit>)
    requires Keyed(objs) && AllFit(objs, tenant, es) && forall k :: 0 <= k < |es| ==> Untracked(es[k])
    ensures TracksOf(ApplyEdits(objs, tenant, namespace, es).objects) == TracksOf(objs)
    decreases |es|
  {
    if es != [] {
      var a := ApplyEdit(objs, tenant, namespace, es[0]);
      assert Fits(objs, tenant, es[0]) && Untracked(es[0]);
      UntrackedEditKeeps(objs, tenant, namespace, es[0]);
      if a.ok {
        EditsKeep(objs, tenant, namespace, es[..1]);
        forall k | 0 <= k < |es[1..]| ensures Fits(a.objects, tenant, es[1..][k]) {
          assert Fits(objs, tenant, es[k + 1]);
        }
        UntrackedEditsKeep(a.objects, tenant, namespace, es[1..]);
      }
    }
  }

  /** The tracked fields after a record. */
  function Stepped(ts: Tracks, e: Event): Tracks {
    match e.payload
    case Whole(o) => if o.kind == Fact || o.kind == Claim then ts[o.id := TrackOf(o)] else ts
    case FactClosed(f, txTo, status, _, _) =>
      if f in ts && ts[f].txTo.None? then ts[f := ts[f].(txTo := txTo, status := status)] else ts
    case ClaimClosed(c, status, txTo, _) =>
      if c in ts && ts[c].status == Open then ts[c := ts[c].(txTo := txTo, status := status)] else ts
    case Attach(c, ev, relation) =>
      if c in ts
      then ts[c := ts[c].(links := Last(AddNew(ts[c].links, Link(ev, relation)), MAX_ANNOTATIONS))]
      else ts
    case _ => ts
  }

  predicate Tracking(p: Payload) {
    p.FactClosed? || p.ClaimClosed? || p.Attach? || (p.Whole? && (p.obj.kind == Fact || p.obj.kind == Claim))
  }

  lemma UntrackedEdits(objs: Objects, e: Event)
    requires Proper(objs, e) && !Tracking(e.payload)
    ensures forall k :: 0 <= k < |Edits(e)| ==> Untracked(Edits(e)[k])
  {
    forall k | 0 <= k < |Edits(e)| ensures Untracked(Edits(e)[k]) {
      if k == 0 {
        UntrackedFirst(objs, e);
      } else {
        LaterEdit(e, k);
        assert e.payload.Split? ==> e.payload.into[k - 1].kind == Entity;
      }
    }
  }

  lemma UntrackedFirst(objs: Objects, e: Event)
    requires Proper(objs, e) && !Tracking(e.payload) && Edits(e) != []
    ensures Untracked(Edits(e)[0])
  {
  }

  /** What a proper record says about the facts and claims. */
  predicate ProperTrack(ts: Tracks, e: Event) {
    Readable(e.op, e.payload) &&
    match e.payload
    case Whole(o) =>
      (o.kind == Fact || o.kind == Claim ==>
         o.id !in ts && o.txTo.None? && (o.kind == Claim ==> o.status == Open))
    case FactClosed(f, txTo, _, _, _) => f in ts && ts[f].kind == Fact && txTo.Some?
    case ClaimClosed(c, status, _, _) =>
      c in ts && ts[c].kind == Claim && e.op == ClaimRetracted && status == Retracted
    case Attach(c, _, _) => c in ts && ts[c].kind == Claim
    case _ => true
  }

  lemma ProperTracks(objs: Objects, e: Event)
    requires Proper(objs, e)
    ensures ProperTrack(TracksOf(objs), e)
  {
  }

  lemma TracksWith(objs: Objects, id: Id, o: Obj)
    requires o.kind == Fact || o.kind == Claim
    ensures TracksOf(objs[id := o]) == TracksOf(objs)[id := TrackOf(o)]
  {
  }

  lemma TrackingRecord(objs: Objects, e: Event)
    requires Keyed(objs) && ProperTrack(TracksOf(objs), e) && Apply(objs, e).ok && Tracking(e.payload)
    ensures TracksOf(Apply(objs, e).objects) == Stepped(TracksOf(objs), e)
  {
    SingleEdit(objs, e);
    match e.payload
    case Whole(o) => TracksWith(objs, o.id, o);
    case FactClosed(f, txTo, status, _, _) => ClosedFactTracks(objs, f, txTo, status);
    case ClaimClosed(c, status, txTo, _) => ClosedClaimTracks(objs, c, status, txTo);
    case Attach(c, ev, relation) => LinkedTracks(objs, c, Link(ev, relation));
  }

  lemma LinkedTracks(objs: Objects, c: Id, link: Link)
    requires c in objs && objs[c].kind == Claim
    ensures TracksOf(objs[c := Perform(objs[c], LinkEvidence(link))]) ==
            TracksOf(objs)[c := TrackOf(objs[c]).(links := Last(AddNew(TrackOf(objs[c]).links, link), MAX_ANNOTATIONS))]
  {
    TracksWith(objs, c, Perform(objs[c], LinkEvidence(link)));
  }

  lemma ClosedFactTracks(objs: Objects, f: Id, txTo: Option<Time>, status: Status)
    requires f in objs && objs[f].kind == Fact
    ensures TracksOf(objs[f := Perform(objs[f], CloseFact(txTo, status))]) ==
            if objs[f].txTo.None? then TracksOf(objs)[f := TrackOf(objs[f]).(txTo := txTo, status := status)]
            else TracksOf(objs)
  {
    TracksWith(objs, f, Perform(objs[f], CloseFact(txTo, status)));
    assert TracksOf(objs)[f := TrackOf(objs[f])] == TracksOf(objs);
  }

  lemma ClosedClaimTracks(objs: Objects, c: Id, status: Status, txTo: Option<Time>)
    requires c in objs && objs[c].kind == Claim
    ensures TracksOf(objs[c := Perform(objs[c], CloseClaim(status, txTo))]) ==
            if objs[c].status == Open then TracksOf(objs)[c := TrackOf(objs[c]).(txTo := txTo, status := status)]
            else TracksOf(objs)
  {
    TracksWith(objs, c, Perform(objs[c], CloseClaim(status, txTo)));
    assert TracksOf(objs)[c := TrackOf(objs[c])] == TracksOf(objs);
  }

  lemma RecordTracks(objs: Objects, e: Event)
    requires Tidy(objs) && Proper(objs, e) && Apply(objs, e).ok
    ensures TracksOf(Apply(objs, e).objects) == Stepped(TracksOf(objs), e)
  {
    if Tracking(e.payload) {
      ProperTracks(objs, e);
      TrackingRecord(objs, e);
    } else {
      ProperFits(objs, e);
      UntrackedEdits(objs, e);
      UntrackedEditsKeep(objs, e.tenant, e.namespace, Edits(e));
    }
  }

  /******* The scan agrees with the replay *******/

  function Set<T>(s: seq<T>): set<T> {
    set x | x in s
  }

  predicate NoRepeat<T(==)>(s: seq<T>) {
    forall i, j :: 0 <= i < j < |s| ==> s[i] != s[j]
  }

  /** The projected list holds the distinct links while they are few, and never more than the cap. */
  ghost predicate LinksAgree(projected: seq<Link>, collected: seq<Link>) {
    && |projected| <= MAX_ANNOTATIONS
    && NoRepeat(projected)
    && (|Set(collected)| <= MAX_ANNOTATIONS ==> Set(projected) == Set(collected))
  }

  /** Everything the scan collects concerns facts and claims that the replay holds. */
  ghost predicate Known(ts: Tracks, a: AsOf) {
    && a.retracted <= ts.Keys && a.factEnded <= ts.Keys && a.links.Keys <= ts.Keys && a.superseded == {}
    && ts.Keys <= a.existed
  }

  predicate ClosureAgrees(t: Track, a: AsOf, id: Id) {
    if t.kind == Claim then t.status == ShownStatus(a, id) else t.txTo.None? <==> ShownBelieved(a, id)
  }

  ghost predicate TrackAgrees(t: Track, a: AsOf, id: Id) {
    ClosureAgrees(t, a, id) && (t.kind == Claim ==> LinksAgree(t.links, LinksOf(a.links, id)))
  }

  ghost predicate Agrees(ts: Tracks, a: AsOf) {
    Known(ts, a) && forall id :: id in ts ==> TrackAgrees(ts[id], a, id)
  }

  /** No claim is created with evidence links already in its metadata. */
  predicate NonePreset(ledger: seq<Record>) {
    forall i :: 0 <= i < |ledger| && ledger[i].event.payload.Whole? ==>
      ledger[i].event.payload.obj.meta.evidenceLinks == []
  }

  lemma SetAppend<T>(s: seq<T>, x: T)
    ensures Set(s + [x]) == Set(s) + {x}
  {
  }

  lemma {:induction false} NoRepeatCard<T>(s: seq<T>)
    requires NoRepeat(s)
    ensures |Set(s)| == |s|
    decreases |s|
  {
    if s == [] {
      assert Set(s) == {};
    } else {
      var front, x := s[..|s| - 1], s[|s| - 1];
      assert s == front + [x];
      NoRepeatCard(front);
      SetAppend(front, x);
      assert x !in Set(front);
    }
  }

  lemma LinkStep(projected: seq<Link>, collected: seq<Link>, link: Link)
    requires LinksAgree(projected, collected)
    ensures LinksAgree(Last(AddNew(projected, link), MAX_ANNOTATIONS), collected + [link])
  {
    SetAppend(collected, link);
    SetAppend(projected, link);
    var added := AddNew(projected, link);
    if |Set(collected + [link])| <= MAX_ANNOTATIONS {
      assert Set(collected) <= Set(collected + [link]);
      CardMonotone(Set(collected), Set(collected + [link]));
      assert Set(added) == Set(collected + [link]);
      NoRepeatCard(added);
      assert Last(added, MAX_ANNOTATIONS) == added;
    }
  }

  lemma {:induction false} CardMonotone<T>(a: set<T>, b: set<T>)
    requires a <= b
    ensures |a| <= |b|
  {
    assert b == a + (b - a);
  }

  lemma RecordKnown(ts: Tracks, a: AsOf, e: Event)
    requires ProperTrack(ts, e) && Known(ts, a)
    ensures Known(Stepped(ts, e), Seen(a, e))
  {
  }

  lemma TrackStep(ts: Tracks, a: AsOf, e: Event, id: Id)
    requires ProperTrack(ts, e) && Agrees(ts, a) && id in Stepped(ts, e)
    requires e.payload.Whole? ==> e.payload.obj.meta.evidenceLinks == []
    ensures TrackAgrees(Stepped(ts, e)[id], Seen(a, e), id)
  {
    if id in ts {
      assert TrackAgrees(ts[id], a, id);
      if e.payload.Attach? {
        LinkedAgrees(ts, a, e, id);
      } else {
        OldTrackAgrees(ts, a, e, id);
      }
    } else {
      NewTrackAgrees(ts, a, e, id);
    }
  }

  lemma LinkedAgrees(ts: Tracks, a: AsOf, e: Event, id: Id)
    requires ProperTrack(ts, e) && id in ts && TrackAgrees(ts[id], a, id) && e.payload.Attach?
    ensures id in Stepped(ts, e) && TrackAgrees(Stepped(ts, e)[id], Seen(a, e), id)
  {
    if e.payload.attachClaim == id {
      LinkStep(ts[id].links, LinksOf(a.links, id), Link(e.payload.attachEvidence, e.payload.attachRelation));
    }
  }

  lemma OldTrackAgrees(ts: Tracks, a: AsOf, e: Event, id: Id)
    requires ProperTrack(ts, e) && id in ts && TrackAgrees(ts[id], a, id) && !e.payload.Attach?
    requires Known(ts, a)
    ensures id in Stepped(ts, e) && TrackAgrees(Stepped(ts, e)[id], Seen(a, e), id)
  {
    ClosureStep(ts, a, e, id);
  }

  lemma ClosureStep(ts: Tracks, a: AsOf, e: Event, id: Id)
    requires ProperTrack(ts, e) && id in ts && ClosureAgrees(ts[id], a, id) && !e.payload.Attach?
    requires a.superseded == {}
    ensures id in Stepped(ts, e) && ClosureAgrees(Stepped(ts, e)[id], Seen(a, e), id)
    ensures Stepped(ts, e)[id].kind == ts[id].kind && Stepped(ts, e)[id].links == ts[id].links
    ensures LinksOf(Seen(a, e).links, id) == LinksOf(a.links, id)
  {
  }

  /** Nothing was collected yet about an object that a record creates. */
  lemma NewTrackAgrees(ts: Tracks, a: AsOf, e: Event, id: Id)
    requires ProperTrack(ts, e) && Known(ts, a) && id in Stepped(ts, e) && id !in ts
    requires e.payload.Whole? ==> e.payload.obj.meta.evidenceLinks == []
    ensures TrackAgrees(Stepped(ts, e)[id], Seen(a, e), id)
  {
  }

  lemma RecordAgrees(ts: Tracks, a: AsOf, e: Event)
    requires ProperTrack(ts, e) && Agrees(ts, a)
    requires e.payload.Whole? ==> e.payload.obj.meta.evidenceLinks == []
    ensures Agrees(Stepped(ts, e), Seen(a, e))
  {
    RecordKnown(ts, a, e);
    forall id | id in Stepped(ts, e) ensures TrackAgrees(Stepped(ts, e)[id], Seen(a, e), id) {
      TrackStep(ts, a, e, id);
    }
  }

  lemma {:induction false} AllCollectedAgrees(ledger: seq<Record>, t: Time)
    requires LiveLedger(ledger) && NonePreset(ledger)
    requires forall i :: 0 <= i < |ledger| ==> ledger[i].event.ts <= t
    ensures Replay(ledger).Some? && Agrees(TracksOf(Replay(ledger).value), Collected(ledger, t))
    decreases |ledger|
  {
    LiveTidy(ledger);
    if ledger != [] {
      var n := |ledger| - 1;
      var front := ledger[..n];
      assert forall i :: 0 <= i < n ==> front[i] == ledger[i];
      AllCollectedAgrees(front, t);
      LiveTidy(front);
      var objs, e := Replay(front).value, ledger[n].event;
      RecordTracks(objs, e);
      ProperTracks(objs, e);
      RecordAgrees(TracksOf(objs), Collected(front, t), e);
    }
  }

  /******* Which objects the scan saw created *******/

  predicate MadeBySplit(e: Event, id: Id) {
    e.payload.Split? && exists j :: 0 <= j < |e.payload.into| && e.payload.into[j].id == id
  }

  /** A record of the ledger made this object by splitting an entity. */
  predicate SplitMade(ledger: seq<Record>, id: Id) {
    exists i :: 0 <= i < |ledger| && MadeBySplit(ledger[i].event, id)
  }

  /** The objects after a record are the objects before it and those it puts. */
  lemma RecordKeys(objs: Objects, e: Event, id: Id)
    requires Tidy(objs) && Proper(objs, e) && Apply(objs, e).ok
    ensures id in Apply(objs, e).objects <==> id in objs || Scopes.Puts(e, id)
  {
    ProperFits(objs, e);
    EditsKeep(objs, e.tenant, e.namespace, Edits(e));
    FittingEditsAdd(objs, e.tenant, e.namespace, Edits(e));
    if Scopes.Puts(e, id) {
      var k :| 0 <= k < |Edits(e)| && Edits(e)[k].Put? && Edits(e)[k].obj.id == id;
      Scopes.EditsPut(objs, e.tenant, e.namespace, Edits(e), k);
    }
  }

  /** A record puts the whole object it carries, or the entities it splits off. */
  lemma PutsAre(e: Event, id: Id)
    ensures Scopes.Puts(e, id) <==> (e.payload.Whole? && e.payload.obj.id == id) || MadeBySplit(e, id)
  {
    if Scopes.Puts(e, id) {
      var k :| 0 <= k < |Edits(e)| && Edits(e)[k].Put? && Edits(e)[k].obj.id == id;
      if k > 0 {
        LaterEdit(e, k);
        assert e.payload.into[k - 1].id == id;
      }
    }
    if e.payload.Whole? {
      assert Edits(e)[0] == Put(e.payload.obj);
    }
    if MadeBySplit(e, id) {
      var j :| 0 <= j < |e.payload.into| && e.payload.into[j].id == id;
      assert Edits(e)[j + 1] == Put(e.payload.into[j]);
    }
  }

  /** What the records made by a split is new, and no later record writes a whole object in its place. */
  lemma WholeIsNotSplit(objs: Objects, e: Event, id: Id)
    requires Tidy(objs) && Proper(objs, e) && e.payload.Whole? && e.payload.obj.id == id && id in objs
    ensures !Minted(id)
  {
    ProperFits(objs, e);
    assert Fits(objs, e.tenant, Edits(e)[0]);
    assert objs[id].kind == Grant;
  }

  lemma SplitIsNew(objs: Objects, e: Event, id: Id)
    requires Proper(objs, e) && MadeBySplit(e, id)
    ensures id !in objs && Minted(id)
  {
    var j :| 0 <= j < |e.payload.into| && e.payload.into[j].id == id;
    assert ProperNew(objs, e.payload.into[j], e);
  }

  /** What a split made is minted, and held. */
  ghost predicate SplitsHeld(ledger: seq<Record>, objs: Objects) {
    forall id :: SplitMade(ledger, id) ==> id in objs && Minted(id)
  }

  lemma SplitMadeSnoc(ledger: seq<Record>, id: Id)
    requires ledger != []
    ensures var n := |ledger| - 1;
            SplitMade(ledger, id) <==> SplitMade(ledger[..n], id) || MadeBySplit(ledger[n].event, id)
  {
    var n := |ledger| - 1;
    if SplitMade(ledger[..n], id) {
      var i :| 0 <= i < n && MadeBySplit(ledger[..n][i].event, id);
      assert MadeBySplit(ledger[i].event, id);
    }
    if SplitMade(ledger, id) && !MadeBySplit(ledger[n].event, id) {
      var i :| 0 <= i < |ledger| && MadeBySplit(ledger[i].event, id);
      assert MadeBySplit(ledger[..n][i].event, id);
    }
  }

  lemma ExistedStep(objs: Objects, a: AsOf, e: Event, id: Id, made: bool)
    requires Tidy(objs) && Proper(objs, e) && Apply(objs, e).ok
    requires id in a.existed <==> id in objs && !made
    requires made ==> id in objs && Minted(id)
    ensures id in Seen(a, e).existed <==> id in Apply(objs, e).objects && !(made || MadeBySplit(e, id))
    ensures made || MadeBySplit(e, id) ==> id in Apply(objs, e).objects && Minted(id)
  {
    RecordKeys(objs, e, id);
    PutsAre(e, id);
    SeenExisted(a, e, id);
    if MadeBySplit(e, id) {
      SplitIsNew(objs, e, id);
    } else if e.payload.Whole? {
      if e.payload.obj.id == id && id in objs {
        WholeIsNotSplit(objs, e, id);
      }
    }
  }

  lemma SeenExisted(a: AsOf, e: Event, id: Id)
    ensures id in Seen(a, e).existed <==> id in a.existed || (e.payload.Whole? && e.payload.obj.id == id)
  {
  }

  lemma {:induction false} AllExisted(ledger: seq<Record>, t: Time)
    requires LiveLedger(ledger) && forall i :: 0 <= i < |ledger| ==> ledger[i].event.ts <= t
    ensures Replay(ledger).Some? && SplitsHeld(ledger, Replay(ledger).value)
    ensures forall id :: id in Collected(ledger, t).existed <==>
                         id in Replay(ledger).value && !SplitMade(ledger, id)
    decreases |ledger|
  {
    LiveTidy(ledger);
    if ledger != [] {
      var n := |ledger| - 1;
      var front, e := ledger[..n], ledger[n].event;
      assert forall i :: 0 <= i < n ==> front[i] == ledger[i];
      AllExisted(front, t);
      LiveTidy(front);
      forall id
        ensures SplitMade(ledger, id) ==> id in Replay(ledger).value && Minted(id)
        ensures id in Collected(ledger, t).existed <==> id in Replay(ledger).value && !SplitMade(ledger, id)
      {
        SplitMadeSnoc(ledger, id);
        ExistedStep(Replay(front).value, Collected(front, t), e, id, SplitMade(front, id));
      }
    }
  }

  /** What a split made is an entity. */
  lemma {:induction false} SplitIsEntity(ledger: seq<Record>, id: Id)
    requires LiveLedger(ledger) && SplitMade(ledger, id)
    ensures Replay(ledger).Some? && id in Replay(ledger).value && Replay(ledger).value[id].kind == Entity
    decreases |ledger|
  {
    var n := |ledger| - 1;
    LiveTidy(ledger);
    SplitMadeSnoc(ledger, id);
    LiveTidy(ledger[..n]);
    var objs, e := Replay(ledger[..n]).value, ledger[n].event;
    if SplitMade(ledger[..n], id) {
      SplitIsEntity(ledger[..n], id);
      LastRecordEvolves(ledger);
      assert Evolves(objs[id], Replay(ledger).value[id]);
    } else {
      SplitAddsEntity(objs, e, id);
    }
  }

  lemma SplitPutsEntity(objs: Objects, e: Event, k: nat)
    requires Proper(objs, e) && e.payload.Split? && k < |Edits(e)| && Edits(e)[k].Put?
    ensures Edits(e)[k].obj.kind == Entity
  {
    if k > 0 {
      LaterEdit(e, k);
    }
  }

  lemma SplitAddsEntity(objs: Objects, e: Event, id: Id)
    requires Tidy(objs) && Proper(objs, e) && Apply(objs, e).ok && MadeBySplit(e, id)
    ensures id in Apply(objs, e).objects && Apply(objs, e).objects[id].kind == Entity
  {
    SplitIsNew(objs, e, id);
    PutsAre(e, id);
    RecordKeys(objs, e, id);
    ProperFits(objs, e);
    AddedEntity(objs, e, id);
  }

  lemma AddedEntity(objs: Objects, e: Event, id: Id)
    requires Keyed(objs) && AllFit(objs, e.tenant, Edits(e)) && Proper(objs, e) && e.payload.Split?
    requires id !in objs && id in Apply(objs, e).objects
    ensures Apply(objs, e).objects[id].kind == Entity
  {
    FittingEditsAdd(objs, e.tenant, e.namespace, Edits(e));
    var later := Apply(objs, e).objects;
    var k :| 0 <= k < |Edits(e)| && Edits(e)[k].Put? && Edits(e)[k].obj.id == id &&
      Evolves(Edits(e)[k].obj, later[id]);
    SplitPutsEntity(objs, e, k);
  }

  /******* The beginnings of facts and claims *******/

  ghost predicate BegunBy(objs: Objects, t: Time) {
    forall id :: id in objs && (objs[id].kind == Fact || objs[id].kind == Claim) ==>
      objs[id].body.txFrom.Some? && objs[id].body.txFrom.value <= t
  }

  lemma RecordBegins(objs: Objects, e: Event, t: Time)
    requires Tidy(objs) && Proper(objs, e) && Apply(objs, e).ok && BegunBy(objs, t) && e.ts <= t
    ensures BegunBy(Apply(objs, e).objects, t)
  {
    ProperFits(objs, e);
    FittingEditsEvolve(objs, e.tenant, e.namespace, Edits(e));
    FittingEditsAdd(objs, e.tenant, e.namespace, Edits(e));
    var later := Apply(objs, e).objects;
    EditsKeep(objs, e.tenant, e.namespace, Edits(e));
    forall id | id in later && (later[id].kind == Fact || later[id].kind == Claim)
      ensures later[id].body.txFrom.Some? && later[id].body.txFrom.value <= t
    {
      if id in objs {
        assert Evolves(objs[id], later[id]);
      } else {
        NewBegins(objs, e, later[id]);
      }
    }
  }

  lemma NewBegins(objs: Objects, e: Event, o: Obj)
    requires Proper(objs, e) && (o.kind == Fact || o.kind == Claim)
    requires exists k :: 0 <= k < |Edits(e)| && Edits(e)[k].Put? && Edits(e)[k].obj.id == o.id &&
                         Evolves(Edits(e)[k].obj, o)
    ensures o.body.txFrom == Some(e.ts)
  {
    var k :| 0 <= k < |Edits(e)| && Edits(e)[k].Put? && Edits(e)[k].obj.id == o.id && Evolves(Edits(e)[k].obj, o);
    PutBegins(objs, e, k);
  }

  lemma PutBegins(objs: Objects, e: Event, k: nat)
    requires Proper(objs, e) && k < |Edits(e)| && Edits(e)[k].Put?
    ensures var o := Edits(e)[k].obj; o.kind == Fact || o.kind == Claim ==> o.body.txFrom == Some(e.ts)
  {
    if e.payload.Split? {
      assert ProperNew(objs, e.payload.into[k - 1], e);
    }
  }

  lemma {:induction false} AllBegun(ledger: seq<Record>, t: Time)
    requires LiveLedger(ledger) && forall i :: 0 <= i < |ledger| ==> ledger[i].event.ts <= t
    ensures Replay(ledger).Some? && BegunBy(Replay(ledger).value, t)
    decreases |ledger|
  {
    LiveTidy(ledger);
    if ledger != [] {
      var n := |ledger| - 1;
      var front := ledger[..n];
      assert forall i :: 0 <= i < n ==> front[i] == ledger[i];
      AllBegun(front, t);
      LiveTidy(front);
      RecordBegins(Replay(front).value, ledger[n].event, t);
    }
  }

  /******* Cutting the ledger at an instant *******/

  /** How many records are stamped up to `t`, when timestamps do not decrease. */
  function Cut(ledger: seq<Record>, t: Time): (n: nat)
    ensures n <= |ledger|
    decreases |ledger|
  {
    if ledger == [] || ledger[|ledger| - 1].event.ts <= t then |ledger| else Cut(ledger[..|ledger| - 1], t)
  }

  lemma {:induction false} CutSplits(ledger: seq<Record>, t: Time)
    requires NonDecreasing(ledger)
    ensures forall i :: 0 <= i < |ledger| ==> (i < Cut(ledger, t) <==> ledger[i].event.ts <= t)
    decreases |ledger|
  {
    if ledger != [] && ledger[|ledger| - 1].event.ts > t {
      var front := ledger[..|ledger| - 1];
      CutSplits(front, t);
      assert forall i :: 0 <= i < |front| ==> front[i] == ledger[i];
    }
  }

  /** Records stamped after `t` never change what is shown at `t`. */
  lemma {:induction false} FutureIsInvisible(ledger: seq<Record>, n: nat, t: Time)
    requires n <= |ledger| && forall i :: n <= i < |ledger| ==> ledger[i].event.ts > t
    ensures Collected(ledger, t) == Collected(ledger[..n], t)
    decreases |ledger|
  {
    if n < |ledger| {
      var front := ledger[..|ledger| - 1];
      assert front[..n] == ledger[..n];
      FutureIsInvisible(front, n, t);
    } else {
      assert ledger[..n] == ledger;
    }
  }

  /** When an object began: its transaction time, or failing that its creation. */
  function Began(o: Obj): Time {
    if o.body.txFrom.Some? then o.body.txFrom.value else o.createdAt
  }

  /** The panel shows an object of the present among those of the instant `t`. */
  predicate ShownNode(now: Objects, a: AsOf, id: Id, t: Time) {
    id in now && Began(now[id]) <= t && id in a.existed
  }

  /** Time travel equals prefix replay: for every claim and fact that the records up to `t`
      project, the status, the belief and the evidence links shown at `t` are those of the replay
      of just these records. The links agree exactly when at most 256 distinct ones were attached.
      The objects that exist at `t` are those of that replay, except the entities made by a split. */
  lemma TimeTravelIsReplay(ledger: seq<Record>, t: Time)
    requires LiveLedger(ledger) && NonDecreasing(ledger) && NonePreset(ledger)
    ensures var past, shown := Replay(ledger[..Cut(ledger, t)]), Collected(ledger, t);
            && past.Some?
            && (forall c :: c in past.value && past.value[c].kind == Claim ==>
                  && past.value[c].status == ShownStatus(shown, c)
                  && (Set(past.value[c].meta.evidenceLinks) == Set(LinksOf(shown.links, c)) <==>
                        |Set(LinksOf(shown.links, c))| <= MAX_ANNOTATIONS))
            && (forall f :: f in past.value && past.value[f].kind == Fact ==>
                  (past.value[f].txTo.None? <==> ShownBelieved(shown, f)))
            && (forall id :: id in shown.existed <==> id in past.value && !SplitMade(ledger[..Cut(ledger, t)], id))
  {
    var n := Cut(ledger, t);
    CutSplits(ledger, t);
    FutureIsInvisible(ledger, n, t);
    LivePrefix(ledger, n);
    AllCollectedAgrees(ledger[..n], t);
    AllExisted(ledger[..n], t);
    var past, shown := Replay(ledger[..n]).value, Collected(ledger, t);
    forall c | c in past && past[c].kind == Claim
      ensures past[c].status == ShownStatus(shown, c)
      ensures Set(past[c].meta.evidenceLinks) == Set(LinksOf(shown.links, c)) <==>
                |Set(LinksOf(shown.links, c))| <= MAX_ANNOTATIONS
    {
      assert TrackAgrees(TracksOf(past)[c], shown, c);
      NoRepeatCard(past[c].meta.evidenceLinks);
    }
    forall f | f in past && past[f].kind == Fact ensures past[f].txTo.None? <==> ShownBelieved(shown, f) {
      assert TrackAgrees(TracksOf(past)[f], shown, f);
    }
  }

  /** The facts and claims that the panel shows at an instant are those that the records up to then project. */
  lemma ShownFactsAndClaims(ledger: seq<Record>, t: Time, id: Id)
    requires LiveLedger(ledger) && NonDecreasing(ledger)
    requires Replay(ledger).Some? && Replay(ledger[..Cut(ledger, t)]).Some? && id in Replay(ledger).value
    requires Replay(ledger).value[id].kind == Fact || Replay(ledger).value[id].kind == Claim
    ensures ShownNode(Replay(ledger).value, Collected(ledger, t), id, t) <==>
            id in Replay(ledger[..Cut(ledger, t)]).value
  {
    var n := Cut(ledger, t);
    CutSplits(ledger, t);
    FutureIsInvisible(ledger, n, t);
    LivePrefix(ledger, n);
    AllExisted(ledger[..n], t);
    AllBegun(ledger[..n], t);
    WriteOnce(ledger, n);
    var past, now := Replay(ledger[..n]).value, Replay(ledger).value;
    if id in past {
      assert Evolves(past[id], now[id]);
      if SplitMade(ledger[..n], id) {
        SplitIsEntity(ledger[..n], id);
      }
    }
  }

  /** An entity made by a split is projected from then on and never shown. */
  lemma SplitEntitiesUnseen(ledger: seq<Record>, t: Time, id: Id)
    requires LiveLedger(ledger) && NonDecreasing(ledger) && SplitMade(ledger[..Cut(ledger, t)], id)
    ensures var past := Replay(ledger[..Cut(ledger, t)]);
            past.Some? && id in past.value && past.value[id].kind == Entity
    ensures id !in Collected(ledger, t).existed
  {
    var n := Cut(ledger, t);
    CutSplits(ledger, t);
    FutureIsInvisible(ledger, n, t);
    LivePrefix(ledger, n);
    AllExisted(ledger[..n], t);
    SplitIsEntity(ledger[..n], id);
  }
}
