/** Runs of served calls after which the panel shows something else than the objects say: a marker preset empty, more
    links than a claim keeps, more events than a feed reads. */
module PanelRuns {
  import opened Model
  import opened Projection
  import opened Ledger
  import opened Operations
  import opened Live
  import opened Runs
  import opened Commits
  import opened TimeTravel
  import Belief
  import Serial
  import Store
  import Stream
  import Tally

  /******* Making one object that refers to none *******/

  /** A new object of the scope, without references, made at the instant 1. */
  predicate Lone(o: Obj, kind: Kind, who: Who) {
    && Minted(o.id) && NewObject(o, kind, who, 1) && o.body.supersedes == []
    && ValidInterval(o) && RefsInScope(map[], who, o)
  }

  lemma KindsMade()
    ensures CreatedKind(ClaimAsserted) == Some(Claim) && CreatedKind(EvidenceRecorded) == Some(Evidence)
  {
  }

  lemma LoneIsReady(objs: Objects, used: set<Id>, op: Op, kind: Kind, o: Obj, who: Who)
    requires CreatedKind(op) == Some(kind) && Lone(o, kind, who) && o.id !in used
    ensures Ready(objs, used, op, o, who, 1)
  {
  }

  lemma ServeLone(h: Hash, s: System, op: Op, kind: Kind, o: Obj, who: Who)
    requires Quiet(h, s) && o.id !in s.used
    requires CreatedKind(op) == Some(kind) && Lone(o, kind, who)
    ensures var later := Serial.Serve(h, s, MakeCall(op, o, who, 1));
            && Quiet(h, later) && later.objects == s.objects[o.id := o] && later.used == s.used + {o.id}
            && later.ledger == s.ledger + [SealedAfter(h, s.ledger, MadeEvent(op, o, who, 1))]
  {
    LoneIsReady(s.objects, s.used, op, kind, o, who);
    ServeMade(h, s, op, o, who, 1);
  }

  /******* A marker preset empty *******/

  lemma ServeFirst(h: Hash, claim: Obj, who: Who)
    requires Lone(claim, Claim, who)
    ensures var s := Serial.Served(h, [MakeCall(ClaimAsserted, claim, who, 1)]);
            && Quiet(h, s) && s.objects == map[claim.id := claim] && s.used == {claim.id}
            && s.ledger == [SealedAfter(h, [], MadeEvent(ClaimAsserted, claim, who, 1))]
  {
    KindsMade();
    LoneIsReady(map[], {}, ClaimAsserted, Claim, claim, who);
    FirstMade(h, ClaimAsserted, claim, who, 1);
    Serial.ServedOne(h, MakeCall(ClaimAsserted, claim, who, 1));
  }

  /** A claim whose caller preset an empty acceptance in its metadata is derived to be accepted, and counted by the
      panel as proposed. */
  lemma EmptyMarkerCounts(h: Hash, claim: Obj, who: Who)
    requires Lone(claim, Claim, who) && claim.meta.accepted == Some(Empty) && claim.meta.rejected.None?
    ensures Serial.Served(h, [MakeCall(ClaimAsserted, claim, who, 1)]).objects == map[claim.id := claim]
    ensures Belief.Count([claim], [], Belief.BAccepted) == 1 && Belief.Tallied([claim], [], Belief.BAccepted) == 0
    ensures Belief.Tallied([claim], [], Belief.BProposed) == 1
  {
    ServeFirst(h, claim, who);
    EmptyIsTallied(claim);
  }

  lemma EmptyIsTallied(claim: Obj)
    requires claim.status == Open && claim.meta.accepted == Some(Empty) && claim.meta.rejected.None?
    ensures Belief.Count([claim], [], Belief.BAccepted) == 1 && Belief.Tallied([claim], [], Belief.BAccepted) == 0
    ensures Belief.Tallied([claim], [], Belief.BProposed) == 1
  {
    OneTerm(Belief.Is([], Belief.BAccepted), claim);
    OneTerm(Belief.Seems([], Belief.BAccepted), claim);
    OneTerm(Belief.Seems([], Belief.BProposed), claim);
  }

  lemma OneTerm<T>(f: T -> nat, x: T)
    ensures Tally.Sum(f, [x]) == f(x)
  {
    assert [x][..0] == [];
  }

  /******* A claim, and evidence attached to it again and again *******/

  function AttachCall(claim: Id, evidence: Id, who: Who): Call {
    Call(who, 1, AttachEvidence(claim, evidence, Supports), true)
  }

  function AttachEvent(claim: Id, evidence: Id, who: Who): Event {
    EventOf(AttachCall(claim, evidence, who), EvidenceAttached, Attach(claim, evidence, Supports))
  }

  /** The claim is asserted, and each piece of evidence is recorded and attached in turn. */
  function LinkCalls(claim: Obj, evs: seq<Obj>, who: Who): seq<Call>
    decreases |evs|
  {
    if evs == [] then [MakeCall(ClaimAsserted, claim, who, 1)]
    else
      var ev := evs[|evs| - 1];
      LinkCalls(claim, evs[..|evs| - 1], who) + [MakeCall(EvidenceRecorded, ev, who, 1)] +
      [AttachCall(claim.id, ev.id, who)]
  }

  function IdsOf(evs: seq<Obj>): set<Id> {
    set i | 0 <= i < |evs| :: evs[i].id
  }

  /** A claim and distinct pieces of evidence, none of them with links of its own. */
  predicate Attachable(claim: Obj, evs: seq<Obj>, who: Who) {
    && Lone(claim, Claim, who) && claim.meta.evidenceLinks == []
    && (forall i :: 0 <= i < |evs| ==>
          Lone(evs[i], Evidence, who) && evs[i].meta.evidenceLinks == [] && evs[i].id != claim.id)
    && (forall i, j :: 0 <= i < j < |evs| ==> evs[i].id != evs[j].id)
  }

  function Links(evs: seq<Obj>): seq<Link> {
    seq(|evs|, i requires 0 <= i < |evs| => Link(evs[i].id, Supports))
  }

  /** A record of the run: of an object that is known, or of an attachment to the claim. */
  predicate RecordOf(e: Event, claim: Id, known: set<Id>, who: Who) {
    && e.ts == 1 && e.tenant == who.tenant && e.namespace == who.namespace
    && match e.payload {
         case Whole(o) => o.id in known && o.body.claimId.None? && o.meta.evidenceLinks == []
         case Attach(c, _, _) => c == claim && c in known
         case _ => false
       }
  }

  /** The ledger holds so many records of the run, and the panel collects these links from them. */
  ghost predicate Holds(ledger: seq<Record>, claim: Id, known: set<Id>, who: Who, n: nat, links: seq<Link>) {
    && |ledger| == n && (forall i :: 0 <= i < n ==> RecordOf(ledger[i].event, claim, known, who))
    && LinksOf(Collected(ledger, 1).links, claim) == links
  }

  lemma HoldsMore(ledger: seq<Record>, claim: Id, known: set<Id>, who: Who, n: nat, links: seq<Link>, r: Record)
    requires Holds(ledger, claim, known, who, n, links) && r.event.payload.Whole? && r.event.op != EvidenceAttached
    requires RecordOf(r.event, claim, known + {r.event.payload.obj.id}, who)
    ensures Holds(ledger + [r], claim, known + {r.event.payload.obj.id}, who, n + 1, links)
  {
    assert (ledger + [r])[..n] == ledger;
    forall i | 0 <= i < n ensures RecordOf(ledger[i].event, claim, known + {r.event.payload.obj.id}, who) {
      assert RecordOf(ledger[i].event, claim, known, who);
    }
  }

  lemma HoldsLink(ledger: seq<Record>, claim: Id, known: set<Id>, who: Who, n: nat, links: seq<Link>, r: Record)
    requires Holds(ledger, claim, known, who, n, links) && r.event.payload.Attach? && r.event.op == EvidenceAttached
    requires RecordOf(r.event, claim, known, who)
    ensures var p := r.event.payload;
            Holds(ledger + [r], claim, known, who, n + 1, links + [Link(p.attachEvidence, p.attachRelation)])
  {
    assert (ledger + [r])[..n] == ledger;
  }

  /** The state after so many attachments. */
  ghost predicate Attached(s: System, claim: Id, known: set<Id>, who: Who, n: nat, links: seq<Link>) {
    && s.used == known && s.objects.Keys == known && OfKind(s.objects, who, claim, Claim)
    && Holds(s.ledger, claim, known, who, n, links)
  }

  lemma AttachApplies(objs: Objects, claim: Id, ev: Id, who: Who)
    requires OfKind(objs, who, claim, Claim) && OfKind(objs, who, ev, Evidence)
    ensures var a := Apply(objs, AttachEvent(claim, ev, who));
            a.ok && a.objects.Keys == objs.Keys && OfKind(a.objects, who, claim, Claim)
  {
    SingleEdit(objs, AttachEvent(claim, ev, who));
  }

  lemma AttachPlanned(objs: Objects, used: set<Id>, claim: Id, ev: Id, who: Who)
    requires OfKind(objs, who, claim, Claim) && OfKind(objs, who, ev, Evidence)
    ensures var c := AttachCall(claim, ev, who);
            && Guard(objs, c) && Plan(objs, c) == [AttachEvent(claim, ev, who)]
            && Fresh(used, c.request) && used + NewIds(c.request) == used
  {
  }

  lemma ServeAttach(h: Hash, s: System, claim: Id, ev: Id, who: Who)
    requires Quiet(h, s) && OfKind(s.objects, who, claim, Claim) && OfKind(s.objects, who, ev, Evidence)
    ensures var later := Serial.Serve(h, s, AttachCall(claim, ev, who));
            && Quiet(h, later) && later.used == s.used
            && later.objects.Keys == s.objects.Keys && OfKind(later.objects, who, claim, Claim)
            && later.ledger == s.ledger + [SealedAfter(h, s.ledger, AttachEvent(claim, ev, who))]
  {
    AttachPlanned(s.objects, s.used, claim, ev, who);
    AttachApplies(s.objects, claim, ev, who);
    Serial.ServeEvent(h, s, AttachCall(claim, ev, who), AttachEvent(claim, ev, who));
  }

  lemma BothThere(objs: Objects, later: Objects, claim: Id, ev: Obj, who: Who)
    requires OfKind(objs, who, claim, Claim) && Lone(ev, Evidence, who) && ev.id !in objs && later == objs[ev.id := ev]
    ensures later.Keys == objs.Keys + {ev.id} && OfKind(later, who, claim, Claim)
    ensures OfKind(later, who, ev.id, Evidence)
  {
  }

  lemma LoneIsOfRun(o: Obj, kind: Kind, op: Op, who: Who, claim: Id, known: set<Id>)
    requires Lone(o, kind, who) && o.meta.evidenceLinks == [] && o.id in known
    ensures RecordOf(MadeEvent(op, o, who, 1), claim, known, who)
  {
  }

  lemma HoldsMade(h: Hash, ledger: seq<Record>, claim: Id, known: set<Id>, who: Who, n: nat, links: seq<Link>,
                  op: Op, kind: Kind, o: Obj)
    requires Holds(ledger, claim, known, who, n, links) && Lone(o, kind, who) && o.meta.evidenceLinks == []
    requires op != EvidenceAttached
    ensures Holds(ledger + [SealedAfter(h, ledger, MadeEvent(op, o, who, 1))], claim, known + {o.id}, who, n + 1, links)
  {
    LoneIsOfRun(o, kind, op, who, claim, known + {o.id});
    HoldsMore(ledger, claim, known, who, n, links, SealedAfter(h, ledger, MadeEvent(op, o, who, 1)));
  }

  lemma EvidenceMade(h: Hash, s: System, mid: System, claim: Id, known: set<Id>, who: Who, n: nat, links: seq<Link>,
                     ev: Obj)
    requires Attached(s, claim, known, who, n, links)
    requires Lone(ev, Evidence, who) && ev.meta.evidenceLinks == [] && ev.id !in known
    requires mid.objects == s.objects[ev.id := ev] && mid.used == s.used + {ev.id}
    requires mid.ledger == s.ledger + [SealedAfter(h, s.ledger, MadeEvent(EvidenceRecorded, ev, who, 1))]
    ensures Attached(mid, claim, known + {ev.id}, who, n + 1, links) && OfKind(mid.objects, who, ev.id, Evidence)
  {
    BothThere(s.objects, mid.objects, claim, ev, who);
    HoldsMade(h, s.ledger, claim, known, who, n, links, EvidenceRecorded, Evidence, ev);
  }

  lemma AttachOne(h: Hash, s: System, claim: Id, known: set<Id>, who: Who, n: nat, links: seq<Link>, ev: Obj)
    requires Quiet(h, s) && Attached(s, claim, known, who, n, links)
    requires Lone(ev, Evidence, who) && ev.meta.evidenceLinks == [] && ev.id !in known
    ensures var mid := Serial.Serve(h, s, MakeCall(EvidenceRecorded, ev, who, 1));
            && Quiet(h, mid) && Attached(mid, claim, known + {ev.id}, who, n + 1, links)
            && OfKind(mid.objects, who, ev.id, Evidence)
  {
    KindsMade();
    ServeLone(h, s, EvidenceRecorded, Evidence, ev, who);
    var mid := Serial.Serve(h, s, MakeCall(EvidenceRecorded, ev, who, 1));
    EvidenceMade(h, s, mid, claim, known, who, n, links, ev);
  }

  lemma LinkOne(h: Hash, s: System, claim: Id, known: set<Id>, who: Who, n: nat, links: seq<Link>, ev: Id)
    requires Quiet(h, s) && Attached(s, claim, known, who, n, links) && OfKind(s.objects, who, ev, Evidence)
    ensures var later := Serial.Serve(h, s, AttachCall(claim, ev, who));
            Quiet(h, later) && Attached(later, claim, known, who, n + 1, links + [Link(ev, Supports)])
  {
    ServeAttach(h, s, claim, ev, who);
    HoldsLink(s.ledger, claim, known, who, n, links, SealedAfter(h, s.ledger, AttachEvent(claim, ev, who)));
  }

  lemma ClaimMade(h: Hash, claim: Obj, who: Who)
    requires Lone(claim, Claim, who) && claim.meta.evidenceLinks == []
    ensures var s := Serial.Served(h, [MakeCall(ClaimAsserted, claim, who, 1)]);
            Quiet(h, s) && Attached(s, claim.id, {claim.id}, who, 1, [])
  {
    ServeFirst(h, claim, who);
    HoldsMade(h, [], claim.id, {}, who, 0, [], ClaimAsserted, Claim, claim);
  }

  lemma LinkStep(h: Hash, calls: seq<Call>, claim: Id, known: set<Id>, who: Who, n: nat, links: seq<Link>, ev: Obj)
    requires Quiet(h, Serial.Served(h, calls))
    requires Attached(Serial.Served(h, calls), claim, known, who, n, links)
    requires Lone(ev, Evidence, who) && ev.meta.evidenceLinks == [] && ev.id !in known
    ensures var more := calls + [MakeCall(EvidenceRecorded, ev, who, 1)] + [AttachCall(claim, ev.id, who)];
            && Quiet(h, Serial.Served(h, more))
            && Attached(Serial.Served(h, more), claim, known + {ev.id}, who, n + 2, links + [Link(ev.id, Supports)])
  {
    var mid := calls + [MakeCall(EvidenceRecorded, ev, who, 1)];
    AttachOne(h, Serial.Served(h, calls), claim, known, who, n, links, ev);
    Serial.ServedNext(h, calls, MakeCall(EvidenceRecorded, ev, who, 1));
    LinkOne(h, Serial.Served(h, mid), claim, known + {ev.id}, who, n + 1, links, ev.id);
    Serial.ServedNext(h, mid, AttachCall(claim, ev.id, who));
  }

  lemma LastAttachable(claim: Obj, evs: seq<Obj>, who: Who)
    requires Attachable(claim, evs, who) && evs != []
    ensures var front, ev := evs[..|evs| - 1], evs[|evs| - 1];
            && Attachable(claim, front, who) && Lone(ev, Evidence, who) && ev.meta.evidenceLinks == []
            && ev.id !in {claim.id} + IdsOf(front)
  {
    var front := evs[..|evs| - 1];
    assert forall i :: 0 <= i < |front| ==> front[i] == evs[i];
  }

  lemma LastLinked(claim: Id, evs: seq<Obj>)
    requires evs != []
    ensures var front, ev := evs[..|evs| - 1], evs[|evs| - 1];
            && {claim} + IdsOf(evs) == {claim} + IdsOf(front) + {ev.id}
            && Links(evs) == Links(front) + [Link(ev.id, Supports)]
  {
    var front, ev := evs[..|evs| - 1], evs[|evs| - 1];
    assert IdsOf(evs) == IdsOf(front) + {ev.id};
  }

  /** The run led to the state after attaching all the evidence. */
  ghost predicate AllAttached(h: Hash, claim: Obj, evs: seq<Obj>, who: Who) {
    var s := Serial.Served(h, LinkCalls(claim, evs, who));
    Quiet(h, s) && Attached(s, claim.id, {claim.id} + IdsOf(evs), who, 2 * |evs| + 1, Links(evs))
  }

  lemma AttachNone(h: Hash, claim: Obj, who: Who)
    requires Lone(claim, Claim, who) && claim.meta.evidenceLinks == []
    ensures AllAttached(h, claim, [], who)
  {
    ClaimMade(h, claim, who);
    assert {claim.id} + IdsOf([]) == {claim.id} && Links([]) == [];
  }

  lemma AttachLast(h: Hash, claim: Obj, evs: seq<Obj>, who: Who)
    requires Attachable(claim, evs, who) && evs != [] && AllAttached(h, claim, evs[..|evs| - 1], who)
    ensures AllAttached(h, claim, evs, who)
  {
    var front, ev := evs[..|evs| - 1], evs[|evs| - 1];
    LastAttachable(claim, evs, who);
    LastLinked(claim.id, evs);
    LinkStep(h, LinkCalls(claim, front, who), claim.id, {claim.id} + IdsOf(front), who, 2 * |front| + 1,
             Links(front), ev);
  }

  /** The run records and attaches every piece of evidence. */
  lemma {:induction false} LinkRun(h: Hash, claim: Obj, evs: seq<Obj>, who: Who)
    requires Attachable(claim, evs, who)
    ensures AllAttached(h, claim, evs, who)
    decreases |evs|
  {
    if evs == [] {
      AttachNone(h, claim, who);
    } else {
      LastAttachable(claim, evs, who);
      LinkRun(h, claim, evs[..|evs| - 1], who);
      AttachLast(h, claim, evs, who);
    }
  }

  lemma LinksDiffer(claim: Obj, evs: seq<Obj>, who: Who)
    requires Attachable(claim, evs, who)
    ensures |Set(Links(evs))| == |evs|
  {
    NoRepeatCard(Links(evs));
  }

  /** After more than 256 attachments of distinct evidence the panel shows links that the claim no longer keeps. */
  lemma MoreLinksThanKept(h: Hash, claim: Obj, evs: seq<Obj>, who: Who)
    requires Attachable(claim, evs, who) && |evs| > MAX_ANNOTATIONS
    ensures var s := Serial.Served(h, LinkCalls(claim, evs, who));
            && claim.id in s.objects
            && Set(s.objects[claim.id].meta.evidenceLinks) != Set(LinksOf(Collected(s.ledger, 1).links, claim.id))
  {
    LinkRun(h, claim, evs, who);
    LinksDiffer(claim, evs, who);
    HeldTimeTravel(Serial.Served(h, LinkCalls(claim, evs, who)), h, claim.id, {claim.id} + IdsOf(evs), who,
                   2 * |evs| + 1, Links(evs));
  }

  lemma HeldTimeTravel(s: System, h: Hash, claim: Id, known: set<Id>, who: Who, n: nat, links: seq<Link>)
    requires Quiet(h, s) && Attached(s, claim, known, who, n, links) && |Set(links)| > MAX_ANNOTATIONS
    ensures Set(s.objects[claim].meta.evidenceLinks) != Set(LinksOf(Collected(s.ledger, 1).links, claim))
  {
    forall i | 0 <= i < |s.ledger| ensures s.ledger[i].event.ts == 1 {
      assert RecordOf(s.ledger[i].event, claim, known, who);
    }
    assert s.ledger[..Cut(s.ledger, 1)] == s.ledger;
    TimeTravelIsReplay(s.ledger, 1);
  }

  /******* A feed that reads only the first events *******/

  lemma {:induction false} AllSeen(ledger: seq<Record>, see: Stream.Sight)
    requires forall i :: 0 <= i < |ledger| ==> see(ledger[i]).Some? && ledger[i].seqno > 0
    ensures Stream.After(ledger, see, 0) == ledger
    decreases |ledger|
  {
    if ledger != [] {
      AllSeen(ledger[..|ledger| - 1], see);
    }
  }

  lemma RunIsSeen(r: Record, claim: Id, known: set<Id>, who: Who, v: Stream.Reader)
    requires RecordOf(r.event, claim, known, who) && known == v.objs.Keys
    requires v.tenant == who.tenant && v.namespace == who.namespace
    requires forall id :: id in v.objs ==> v.canRead(v.objs[id])
    ensures Stream.Redacted(v, r).Some?
  {
    Stream.SeenIs(v, r);
    Stream.ConcernedIs(r.event.payload);
  }

  lemma AllRunSeen(ledger: seq<Record>, claim: Id, known: set<Id>, who: Who, v: Stream.Reader)
    requires forall i :: 0 <= i < |ledger| ==> RecordOf(ledger[i].event, claim, known, who) && ledger[i].seqno == i + 1
    requires v.tenant == who.tenant && v.namespace == who.namespace && known == v.objs.Keys
    requires forall id :: id in v.objs ==> v.canRead(v.objs[id])
    ensures Stream.Ascending(ledger) && Stream.After(ledger, Stream.SightOf(v), 0) == ledger
  {
    forall i | 0 <= i < |ledger| ensures Stream.SightOf(v)(ledger[i]).Some? {
      RunIsSeen(ledger[i], claim, known, who, v);
    }
    AllSeen(ledger, Stream.SightOf(v));
  }

  lemma HeldSeen(h: Hash, s: System, claim: Id, known: set<Id>, who: Who, n: nat, links: seq<Link>, v: Stream.Reader)
    requires Chain(h, s.ledger) && Attached(s, claim, known, who, n, links)
    requires v.tenant == who.tenant && v.namespace == who.namespace && v.objs == s.objects
    requires forall id :: id in v.objs ==> v.canRead(v.objs[id])
    ensures Stream.Ascending(s.ledger) && Stream.After(s.ledger, Stream.SightOf(v), 0) == s.ledger
  {
    Store.ChainNumbers(h, s.ledger);
    AllRunSeen(s.ledger, claim, known, who, v);
  }

  /** After 250 attachments a reader of everything is shown a feed without the newest events. */
  lemma FeedMissesNewest(h: Hash, claim: Obj, evs: seq<Obj>, who: Who, v: Stream.Reader, limit: int)
    requires Attachable(claim, evs, who) && |evs| >= 250 && limit >= 1
    requires v.tenant == who.tenant && v.namespace == who.namespace
    requires v.objs == Serial.Served(h, LinkCalls(claim, evs, who)).objects
    requires forall id :: id in v.objs ==> v.canRead(v.objs[id])
    ensures var ledger, see := Serial.Served(h, LinkCalls(claim, evs, who)).ledger, Stream.SightOf(v);
            Stream.Activity(ledger, see, 0, limit) !=
            Stream.Newest(Stream.After(ledger, see, 0), Stream.Least(limit, Stream.MAX_ACTIVITY))
  {
    LinkRun(h, claim, evs, who);
    var s := Serial.Served(h, LinkCalls(claim, evs, who));
    HeldSeen(h, s, claim.id, {claim.id} + IdsOf(evs), who, 2 * |evs| + 1, Links(evs), v);
    Stream.ActivityIsNewest(s.ledger, Stream.SightOf(v), 0, limit);
  }
}
