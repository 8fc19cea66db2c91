/** Runs of the engine by any number of threads. A call's check reads the objects one at a time, outside the
    transaction that commits its events, so other calls may commit between its reads, and after them. */
module Runs {
  import opened Model
  import opened Projection
  import opened Ledger
  import opened Store
  import opened Operations
  import opened Live
  import Scopes

  /** `pending` holds, for each thread, the events of a call that was checked and not yet
      committed; `used` all ids minted so far. */
  datatype System = System(ledger: seq<Record>, objects: Objects, pending: map<nat, seq<Event>>, used: set<Id>)

  /** `seen` are the objects as a check read them, each at an instant of its own: all that is known of them is that
      they have become what they are now. */
  datatype Step =
    | Check(thread: nat, call: Call, seen: Objects)
    | Commit(thread: nat)
    | Abandon(thread: nat)

  const START := System([], map[], map[], {})

  /** Minted ids are new and well shaped. */
  predicate Fresh(used: set<Id>, r: Request) {
    NewIds(r) !! used && forall id :: id in NewIds(r) ==> Minted(id)
  }

  function Next(h: Hash, s: System, step: Step): System {
    match step
    case Check(t, c, seen) =>
      if t !in s.pending && Fresh(s.used, c.request) && AllEvolve(seen, s.objects) && Guard(seen, c)
      then s.(pending := s.pending[t := Plan(seen, c)], used := s.used + NewIds(c.request))
      else s
    case Commit(t) =>
      if t !in s.pending then s
      else
        var a := Transacted(s.objects, s.pending[t]);
        var rest := s.pending - {t};
        if a.ok then System(Extended(h, s.ledger, s.pending[t]), a.objects, rest, s.used)
        else s.(pending := rest)
    case Abandon(t) => s.(pending := s.pending - {t})
  }

  function Run(h: Hash, steps: seq<Step>): System
    decreases |steps|
  {
    if steps == [] then START else Next(h, Run(h, steps[..|steps| - 1]), steps[|steps| - 1])
  }

  /******* Invariant *******/

  predicate Creates(e: Event, id: Id) {
    e.op != CapabilityGranted && Scopes.Puts(e, id)
  }

  /** Events that satisfy what their checks established, on these objects, and create different ids. */
  ghost predicate Prepared(objs: Objects, es: seq<Event>) {
    && (forall i :: 0 <= i < |es| ==> Proper(objs, es[i]))
    && (forall i, j, id :: 0 <= i < j < |es| && Creates(es[i], id) ==> !Creates(es[j], id))
  }

  ghost predicate CreatesIn(es: seq<Event>, ids: set<Id>) {
    forall i, id :: 0 <= i < |es| && Creates(es[i], id) ==> id in ids
  }

  ghost predicate Independent(es: seq<Event>, fs: seq<Event>) {
    forall i, j, id :: 0 <= i < |es| && 0 <= j < |fs| && Creates(es[i], id) ==> !Creates(fs[j], id)
  }

  ghost predicate Invariant(h: Hash, s: System) {
    && Chain(h, s.ledger)
    && LiveLedger(s.ledger)
    && Replay(s.ledger) == Some(s.objects)
    && Tidy(s.objects)
    && (forall id :: id in s.objects && s.objects[id].kind != Grant ==> id in s.used)
    && (forall t :: t in s.pending ==> Prepared(s.objects, s.pending[t]) && CreatesIn(s.pending[t], s.used))
    && (forall t, u :: t in s.pending && u in s.pending && t != u ==> Independent(s.pending[t], s.pending[u]))
  }

  lemma ProperNewStays(objs: Objects, later: Objects, o: Obj, e: Event)
    requires ProperNew(objs, o, e) && AllEvolve(objs, later) && o.id !in later
    ensures ProperNew(later, o, e)
  {
    EndsStay(objs, later, o, e.tenant, e.namespace);
    if o.body.supersedes != [] {
      assert Evolves(objs[o.body.supersedes[0]], later[o.body.supersedes[0]]);
    }
  }

  /** A checked event stays proper while other calls commit. */
  lemma ProperStays(objs: Objects, later: Objects, e: Event)
    requires Proper(objs, e) && AllEvolve(objs, later)
    requires forall id :: Creates(e, id) ==> id !in later
    ensures Proper(later, e)
  {
    match e.payload
    case Whole(o) =>
      if e.op == CapabilityGranted {
        TiedStays(objs, later, o.id, e.tenant);
      } else {
        assert Edits(e)[0] == Put(o);
        assert Creates(e, o.id);
        ProperNewStays(objs, later, o, e);
      }
    case Split(_, into) =>
      forall i | 0 <= i < |into| ensures ProperNew(later, into[i], e) {
        assert ProperNew(objs, into[i], e);
        assert Edits(e)[i + 1] == Put(into[i]);
        assert Creates(e, into[i].id);
        ProperNewStays(objs, later, into[i], e);
      }
    case FactClosed(f, _, _, _, _) => assert Evolves(objs[f], later[f]);
    case FactConfirm(f, _, _) => assert Evolves(objs[f], later[f]);
    case ClaimClosed(c, _, _, _) => assert Evolves(objs[c], later[c]);
    case Attach(c, _, _) => assert Evolves(objs[c], later[c]);
    case Govern(c, _) => assert Evolves(objs[c], later[c]);
    case _ =>
  }

  ghost predicate AddedBy(objs: Objects, later: Objects, e: Event) {
    forall id :: id in later && id !in objs ==> Creates(e, id) || later[id].kind == Grant
  }

  /** What one proper record adds was created by it, or is a grant. */
  lemma ProperAdds(objs: Objects, e: Event)
    requires Tidy(objs) && Proper(objs, e) && Apply(objs, e).ok
    ensures AddedBy(objs, Apply(objs, e).objects, e)
  {
    ProperFits(objs, e);
    FittingEditsAdd(objs, e.tenant, e.namespace, Edits(e));
    var later := Apply(objs, e).objects;
    forall id | id in later && id !in objs ensures Creates(e, id) || later[id].kind == Grant {
      var k :| 0 <= k < |Edits(e)| && Edits(e)[k].Put? && Edits(e)[k].obj.id == id &&
        Evolves(Edits(e)[k].obj, later[id]);
      if e.op == CapabilityGranted {
        assert e.payload.Whole?;
      }
    }
  }

  /** The events that remain stay prepared after the first has been applied. */
  lemma RestPrepared(objs: Objects, es: seq<Event>)
    requires Tidy(objs) && es != [] && Prepared(objs, es) && Apply(objs, es[0]).ok
    ensures Prepared(Apply(objs, es[0]).objects, es[1..])
  {
    var mid := Apply(objs, es[0]).objects;
    assert Proper(objs, es[0]);
    ProperKeepsTidy(objs, es[0]);
    ProperAdds(objs, es[0]);
    forall i | 0 <= i < |es[1..]| ensures Proper(mid, es[1..][i]) {
      assert Proper(objs, es[i + 1]);
      forall id | Creates(es[i + 1], id) ensures id !in mid {
        CreatedIsNew(objs, es[i + 1], id);
        CreatedIsMinted(objs, es[i + 1], id);
        if id in mid {
          GrantsAreNotMinted(mid, id);
        }
      }
      ProperStays(objs, mid, es[i + 1]);
    }
    forall i, j, id | 0 <= i < j < |es[1..]| && Creates(es[1..][i], id) ensures !Creates(es[1..][j], id) {
      assert Creates(es[i + 1], id);
      assert !Creates(es[j + 1], id);
    }
  }

  /** The objects a list of events adds. */
  ghost predicate AddsOnly(objs: Objects, later: Objects, es: seq<Event>) {
    forall id :: id in later && id !in objs ==>
      later[id].kind == Grant || exists i :: 0 <= i < |es| && Creates(es[i], id)
  }

  lemma AddsTransitive(a: Objects, b: Objects, c: Objects, es: seq<Event>)
    requires es != [] && AddedBy(a, b, es[0]) && AddsOnly(b, c, es[1..]) && AllEvolve(b, c)
    ensures AddsOnly(a, c, es)
  {
    forall id | id in c && id !in a && c[id].kind != Grant
      ensures exists i :: 0 <= i < |es| && Creates(es[i], id)
    {
      if id in b {
        assert Evolves(b[id], c[id]);
        assert Creates(es[0], id);
      } else {
        var i :| 0 <= i < |es[1..]| && Creates(es[1..][i], id);
        assert Creates(es[i + 1], id);
      }
    }
  }

  lemma AppendLive(h: Hash, ledger: seq<Record>, objs: Objects, e: Event)
    requires LiveLedger(ledger) && Replay(ledger) == Some(objs) && Proper(objs, e) && Apply(objs, e).ok
    ensures var longer := ledger + [Seal(h, |ledger| + 1, e, Head(ledger))];
            LiveLedger(longer) && Replay(longer) == Some(Apply(objs, e).objects)
  {
    var r := Seal(h, |ledger| + 1, e, Head(ledger));
    ReplaySnoc(ledger, r);
    assert (ledger + [r])[..|ledger|] == ledger;
  }

  lemma FirstCommitted(objs: Objects, es: seq<Event>)
    requires Tidy(objs) && es != [] && Prepared(objs, es) && Apply(objs, es[0]).ok
    ensures var mid := Apply(objs, es[0]).objects;
            Tidy(mid) && AllEvolve(objs, mid) && AddedBy(objs, mid, es[0]) && Prepared(mid, es[1..])
  {
    assert Proper(objs, es[0]);
    ProperKeepsTidy(objs, es[0]);
    ProperAdds(objs, es[0]);
    RestPrepared(objs, es);
  }

  /** Committing keeps the ledger live and the objects its replay. */
  lemma {:induction false} CommitKeeps(h: Hash, ledger: seq<Record>, objs: Objects, es: seq<Event>)
    requires LiveLedger(ledger) && Replay(ledger) == Some(objs) && Tidy(objs)
    requires Prepared(objs, es) && Transacted(objs, es).ok
    ensures var longer, later := Extended(h, ledger, es), Transacted(objs, es).objects;
            LiveLedger(longer) && Replay(longer) == Some(later)
    decreases |es|
  {
    if es != [] {
      AppendLive(h, ledger, objs, es[0]);
      FirstCommitted(objs, es);
      CommitKeeps(h, ledger + [Seal(h, |ledger| + 1, es[0], Head(ledger))], Apply(objs, es[0]).objects, es[1..]);
    }
  }

  /** Committing keeps the objects tidy, and every object evolving. */
  lemma {:induction false} CommitEvolves(objs: Objects, es: seq<Event>)
    requires Tidy(objs) && Prepared(objs, es) && Transacted(objs, es).ok
    ensures var later := Transacted(objs, es).objects;
            Tidy(later) && AllEvolve(objs, later) && AddsOnly(objs, later, es)
    decreases |es|
  {
    if es != [] {
      var mid, later := Apply(objs, es[0]).objects, Transacted(objs, es).objects;
      FirstCommitted(objs, es);
      CommitEvolves(mid, es[1..]);
      assert later == Transacted(mid, es[1..]).objects;
      EvolveTransitive(objs, mid, later);
      AddsTransitive(objs, mid, later, es);
    }
  }

  lemma CreatedIsNew(objs: Objects, e: Event, id: Id)
    requires Proper(objs, e) && Creates(e, id)
    ensures id !in objs
  {
    var k :| 0 <= k < |Edits(e)| && Edits(e)[k].Put? && Edits(e)[k].obj.id == id;
    if e.payload.Split? {
      assert ProperNew(objs, e.payload.into[k - 1], e);
    }
  }

  lemma CreatedIsMinted(objs: Objects, e: Event, id: Id)
    requires Proper(objs, e) && Creates(e, id)
    ensures Minted(id)
  {
    var k :| 0 <= k < |Edits(e)| && Edits(e)[k].Put? && Edits(e)[k].obj.id == id;
    if e.payload.Split? {
      assert ProperNew(objs, e.payload.into[k - 1], e);
    }
  }

  lemma GrantsAreNotMinted(objs: Objects, id: Id)
    requires Tidy(objs) && id in objs && Minted(id)
    ensures objs[id].kind != Grant
  {
  }

  /******* The plan of a guarded call *******/

  lemma PlanCreates(objs: Objects, c: Call)
    requires Guard(objs, c)
    ensures CreatesIn(Plan(objs, c), NewIds(c.request))
  {
  }

  lemma ReplacePrepared(objs: Objects, c: Call, f: Id, reason: Option<string>, r: Obj)
    requires OpenBelief(objs, c.who, f)
    requires r.id !in objs && Minted(r.id) && r.kind == Fact && r.txTo.None? && r.status == Asserted
    requires r.body.txFrom == Some(c.ts) && r.body.supersedes == [f] && SourceKnown(objs, r)
    ensures Prepared(objs, Replace(c, f, reason, r))
  {
    var es := Replace(c, f, reason, r);
    assert Proper(objs, es[0]);
    assert Proper(objs, es[1]);
    assert forall id :: !Creates(es[0], id);
  }

  lemma NewIdsAreNew(objs: Objects, used: set<Id>, c: Call)
    requires Tidy(objs) && Fresh(used, c.request) && forall id :: id in objs && objs[id].kind != Grant ==> id in used
    ensures forall id :: id in NewIds(c.request) ==> id !in objs && Minted(id)
  {
    forall id | id in NewIds(c.request) ensures id !in objs && Minted(id) {
      if id in objs {
        GrantsAreNotMinted(objs, id);
      }
    }
  }

  lemma PlanPrepared(objs: Objects, used: set<Id>, c: Call)
    requires Tidy(objs) && Guard(objs, c) && Fresh(used, c.request)
    requires forall id :: id in objs && objs[id].kind != Grant ==> id in used
    ensures Prepared(objs, Plan(objs, c))
  {
    NewIdsAreNew(objs, used, c);
    if c.request.Supersede? || c.request.CorrectValidity? {
      ReplacingPrepared(objs, c);
    } else {
      SingleProper(objs, c);
    }
  }

  lemma ReplacingPrepared(objs: Objects, c: Call)
    requires Tidy(objs) && Guard(objs, c) && (c.request.Supersede? || c.request.CorrectValidity?)
    requires forall id :: id in NewIds(c.request) ==> id !in objs && Minted(id)
    ensures Prepared(objs, Plan(objs, c))
  {
    match c.request
    case Supersede(f, newId, v, source, reason) =>
      assert newId in NewIds(c.request);
      ReplacePrepared(objs, c, f, reason, Replacement(objs[f], newId, c.ts, v, source));
    case CorrectValidity(f, newId, vf, vt, source, reason) =>
      assert newId in NewIds(c.request);
      ReplacePrepared(objs, c, f, reason, Corrected(objs[f], newId, c.ts, vf, vt, source, reason));
  }

  lemma CreateProper(objs: Objects, c: Call)
    requires Tidy(objs) && Guard(objs, c) && c.request.Create?
    requires c.request.obj.id !in objs && Minted(c.request.obj.id)
    ensures |Plan(objs, c)| == 1 && Proper(objs, Plan(objs, c)[0])
  {
  }

  lemma SplitProper(objs: Objects, c: Call)
    requires Tidy(objs) && Guard(objs, c) && c.request.SplitEntity?
    requires forall i :: 0 <= i < |c.request.into| ==> c.request.into[i].id !in objs && Minted(c.request.into[i].id)
    ensures |Plan(objs, c)| == 1 && Proper(objs, Plan(objs, c)[0])
  {
  }

  lemma GrantProper(objs: Objects, c: Call)
    requires Tidy(objs) && Guard(objs, c) && c.request.GrantCapability?
    ensures |Plan(objs, c)| == 1 && Proper(objs, Plan(objs, c)[0])
  {
    assert |c.request.space| == SPACE_ID_LENGTH;
  }

  /** Every other plan is one proper event. */
  lemma SingleProper(objs: Objects, c: Call)
    requires Tidy(objs) && Guard(objs, c) && !c.request.Supersede? && !c.request.CorrectValidity?
    requires forall id :: id in NewIds(c.request) ==> id !in objs && Minted(id)
    ensures |Plan(objs, c)| == 1 && Proper(objs, Plan(objs, c)[0])
  {
    match c.request
    case Create(_, obj) =>
      assert obj.id in NewIds(c.request);
      CreateProper(objs, c);
    case SplitEntity(_, into) =>
      forall i | 0 <= i < |into| ensures into[i].id !in objs && Minted(into[i].id) {
        assert into[i].id in NewIds(c.request);
      }
      SplitProper(objs, c);
    case GrantCapability(_, _, _) => GrantProper(objs, c);
    case _ =>
  }

  /******* Every run *******/

  /** The pending events of another thread stay prepared. */
  lemma OthersStay(objs: Objects, later: Objects, es: seq<Event>, fs: seq<Event>)
    requires Tidy(later) && AllEvolve(objs, later) && AddsOnly(objs, later, es)
    requires Prepared(objs, fs) && Independent(fs, es)
    ensures Prepared(later, fs)
  {
    forall i | 0 <= i < |fs| ensures Proper(later, fs[i]) {
      assert Proper(objs, fs[i]);
      forall id | Creates(fs[i], id) ensures id !in later {
        CreatedIsNew(objs, fs[i], id);
        CreatedIsMinted(objs, fs[i], id);
        if id in later {
          GrantsAreNotMinted(later, id);
        }
      }
      ProperStays(objs, later, fs[i]);
    }
  }

  lemma ViewEvolves(seen: Objects, objs: Objects)
    requires AllEvolve(seen, objs)
    ensures AllEvolve(objs + seen, objs) && (objs + seen).Keys == objs.Keys
  {
    ItselfEvolves(objs);
    forall id | id in objs + seen ensures id in objs && Evolves((objs + seen)[id], objs[id]) {
      assert id in objs ==> Evolves(objs[id], objs[id]);
    }
  }

  /** Objects read at different instants, completed by those that were not read, are tidy like the present ones. */
  lemma ViewIsTidy(seen: Objects, objs: Objects)
    requires Tidy(objs) && AllEvolve(seen, objs)
    ensures Tidy(objs + seen) && AllEvolve(objs + seen, objs) && (objs + seen).Keys == objs.Keys
  {
    ViewEvolves(seen, objs);
    EarlierIsTidy(objs + seen, objs);
  }

  lemma EarlierIsTidy(view: Objects, objs: Objects)
    requires Tidy(objs) && AllEvolve(view, objs) && view.Keys == objs.Keys
    ensures Tidy(view)
  {
    forall id | id in view
      ensures view[id].id == id
      ensures if view[id].kind == Grant then Tied(view, id, view[id].tenant) else Minted(id)
      ensures view[id].kind == Space ==> |id| == SPACE_ID_LENGTH
      ensures view[id].kind == Fact ==> SourceKnown(view, view[id])
    {
      assert Evolves(view[id], objs[id]);
      if view[id].kind == Grant {
        TiedBefore(view, objs, id, objs[id].tenant);
      }
    }
  }

  lemma TiedBefore(view: Objects, objs: Objects, id: Id, tenant: string)
    requires AllEvolve(view, objs) && view.Keys == objs.Keys && Tied(objs, id, tenant)
    ensures Tied(view, id, tenant)
  {
    var s, a :| id == GrantId(s, a) && |s| == SPACE_ID_LENGTH &&
      s in objs && objs[s].kind == Space && objs[s].tenant == tenant;
    assert Evolves(view[s], objs[s]);
  }

  /** A check asks for what is there, and never for what is not: with more objects it passes all the same, and plans
      the same events. */
  lemma GuardGrows(seen: Objects, more: Objects, c: Call)
    requires Guard(seen, c) && forall id :: id in seen ==> id in more && more[id] == seen[id]
    ensures Guard(more, c) && Plan(more, c) == Plan(seen, c)
  {
  }

  /** What is prepared on an earlier view is prepared now. */
  lemma PreparedNow(view: Objects, objs: Objects, es: seq<Event>)
    requires AllEvolve(view, objs) && view.Keys == objs.Keys && Prepared(view, es)
    ensures Prepared(objs, es)
  {
    forall i | 0 <= i < |es| ensures Proper(objs, es[i]) {
      assert Proper(view, es[i]);
      forall id | Creates(es[i], id) ensures id !in objs {
        CreatedIsNew(view, es[i], id);
      }
      ProperStays(view, objs, es[i]);
    }
  }

  /** A checked plan is prepared, creates only new ids, and is independent of all pending events. */
  lemma CheckedPlan(h: Hash, s: System, c: Call, seen: Objects)
    requires Invariant(h, s) && Fresh(s.used, c.request) && AllEvolve(seen, s.objects) && Guard(seen, c)
    ensures Prepared(s.objects, Plan(seen, c)) && CreatesIn(Plan(seen, c), NewIds(c.request))
    ensures forall u :: u in s.pending ==>
              Independent(Plan(seen, c), s.pending[u]) && Independent(s.pending[u], Plan(seen, c))
  {
    var es := Plan(seen, c);
    PlannedNow(s.objects, s.used, c, seen);
    PlanCreates(seen, c);
    forall u | u in s.pending ensures Independent(es, s.pending[u]) && Independent(s.pending[u], es) {
      ReservedApart(es, s.pending[u], NewIds(c.request), s.used);
    }
  }

  lemma PlannedNow(objs: Objects, used: set<Id>, c: Call, seen: Objects)
    requires Tidy(objs) && Fresh(used, c.request) && AllEvolve(seen, objs) && Guard(seen, c)
    requires forall id :: id in objs && objs[id].kind != Grant ==> id in used
    ensures Prepared(objs, Plan(seen, c))
  {
    var view := objs + seen;
    ViewIsTidy(seen, objs);
    GuardGrows(seen, view, c);
    forall id | id in view && view[id].kind != Grant ensures id in used {
      assert Evolves(view[id], objs[id]);
    }
    PlanPrepared(view, used, c);
    PreparedNow(view, objs, Plan(view, c));
  }

  lemma CheckKeeps(h: Hash, s: System, t: nat, c: Call, seen: Objects)
    requires Invariant(h, s) && t !in s.pending && Fresh(s.used, c.request)
    requires AllEvolve(seen, s.objects) && Guard(seen, c)
    ensures Invariant(h, Next(h, s, Check(t, c, seen)))
  {
    var es := Plan(seen, c);
    CheckedPlan(h, s, c, seen);
    var pending := s.pending[t := es];
    forall u | u in pending
      ensures Prepared(s.objects, pending[u]) && CreatesIn(pending[u], s.used + NewIds(c.request))
    {
      assert u != t ==> CreatesIn(s.pending[u], s.used);
    }
  }

  /** Events that create only new ids are independent of events that create only ids in use. */
  lemma ReservedApart(es: seq<Event>, fs: seq<Event>, new_: set<Id>, used: set<Id>)
    requires CreatesIn(es, new_) && CreatesIn(fs, used) && new_ !! used
    ensures Independent(es, fs) && Independent(fs, es)
  {
    forall i, j, id | 0 <= i < |es| && 0 <= j < |fs| && Creates(es[i], id) ensures !Creates(fs[j], id) {
      assert id in new_;
    }
  }

  lemma CommitInvariant(h: Hash, s: System, t: nat)
    requires Invariant(h, s) && t in s.pending
    ensures Invariant(h, Next(h, s, Commit(t)))
  {
    var es := s.pending[t];
    if Transacted(s.objects, es).ok {
      var later := Transacted(s.objects, es).objects;
      CommitKeeps(h, s.ledger, s.objects, es);
      CommitEvolves(s.objects, es);
      ExtendedIsReplayed(h, s.ledger, es);
      forall u | u in s.pending && u != t ensures Prepared(later, s.pending[u]) {
        OthersStay(s.objects, later, es, s.pending[u]);
      }
      forall id | id in later && later[id].kind != Grant ensures id in s.used {
        if id in s.objects {
          assert Evolves(s.objects[id], later[id]);
        }
      }
    }
  }

  /** Every state of every interleaving: the ledger is a valid chain of proper records, and the
      objects are its replay. */
  lemma {:induction false} RunInvariant(h: Hash, steps: seq<Step>)
    ensures Invariant(h, Run(h, steps))
    decreases |steps|
  {
    if steps != [] {
      var before := Run(h, steps[..|steps| - 1]);
      RunInvariant(h, steps[..|steps| - 1]);
      match steps[|steps| - 1]
      case Check(t, c, seen) =>
        if t !in before.pending && Fresh(before.used, c.request) && AllEvolve(seen, before.objects) && Guard(seen, c) {
          CheckKeeps(h, before, t, c, seen);
        }
      case Commit(t) =>
        if t in before.pending {
          CommitInvariant(h, before, t);
        }
      case Abandon(t) =>
    }
  }

  lemma {:induction false} LedgerGrows(h: Hash, steps: seq<Step>, n: nat)
    requires n <= |steps|
    ensures Run(h, steps[..n]).ledger <= Run(h, steps).ledger
    decreases |steps|
  {
    if n < |steps| {
      var front := steps[..|steps| - 1];
      assert front[..n] == steps[..n];
      LedgerGrows(h, front, n);
      RunInvariant(h, front);
      var s := Run(h, front);
      var last := steps[|steps| - 1];
      if last.Commit? && last.thread in s.pending {
        ExtendedIsReplayed(h, s.ledger, s.pending[last.thread]);
      }
    } else {
      assert steps[..n] == steps;
    }
  }

  /** Write-once under interleaving: between any two states of any run, no matter how the checks
      and commits of the threads interleave, every object evolves: a closed fact never changes its
      end or status again, and a claim that left the open state never changes status again.
      The records are numbered 1..n, and the chain is valid. */
  lemma InterleavedWriteOnce(h: Hash, steps: seq<Step>, n: nat)
    requires n <= |steps|
    ensures AllEvolve(Run(h, steps[..n]).objects, Run(h, steps).objects)
    ensures Chain(h, Run(h, steps).ledger)
    ensures forall i :: 0 <= i < |Run(h, steps).ledger| ==> Run(h, steps).ledger[i].seqno == i + 1
  {
    RunInvariant(h, steps);
    RunInvariant(h, steps[..n]);
    LedgerGrows(h, steps, n);
    var early, late := Run(h, steps[..n]), Run(h, steps);
    WriteOnce(late.ledger, |early.ledger|);
    assert late.ledger[..|early.ledger|] == early.ledger;
    ChainNumbers(h, late.ledger);
  }

  /** Whatever a check reads, object by object, in states of the run that may all be different, is something that a
      check step may have seen. */
  lemma ReadsMayDiffer(h: Hash, steps: seq<Step>, seen: Objects, readAt: Id -> nat)
    requires forall id :: id in seen ==>
               && readAt(id) <= |steps|
               && id in Run(h, steps[..readAt(id)]).objects && seen[id] == Run(h, steps[..readAt(id)]).objects[id]
    ensures AllEvolve(seen, Run(h, steps).objects)
  {
    forall id | id in seen ensures id in Run(h, steps).objects && Evolves(seen[id], Run(h, steps).objects[id]) {
      InterleavedWriteOnce(h, steps, readAt(id));
    }
  }
}
