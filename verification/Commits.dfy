/** Which checked calls commit, whatever other calls committed since their check. */
module Commits {
  import opened Model
  import opened Projection
  import opened Ledger
  import opened Store
  import opened Operations
  import opened Live
  import opened Runs
  import opened FactBeliefs
  import Interleaving
  import Scopes
  import Serial

  /******* Edits that a check brought into scope *******/

  /** What a check establishes about the scope of an edit. Only the namespace of a grant may change later. */
  ghost predicate ScopedEdit(objs: Objects, tenant: string, namespace: string, e: Edit) {
    match e
    case Put(o) => InScope(o, tenant, namespace)
    case Modify(id, _) => id in objs && NearScope(objs[id], tenant, namespace)
    case ModifyIfPresent(id, _) => Tied(objs, id, tenant)
  }

  predicate NearScope(o: Obj, tenant: string, namespace: string) {
    o.tenant == tenant && (o.kind != Grant ==> o.namespace == namespace)
  }

  ghost predicate ScopedEvent(objs: Objects, e: Event) {
    forall k :: 0 <= k < |Edits(e)| ==> ScopedEdit(objs, e.tenant, e.namespace, Edits(e)[k])
  }

  ghost predicate AllScoped(objs: Objects, es: seq<Event>) {
    forall i :: 0 <= i < |es| ==> ScopedEvent(objs, es[i])
  }

  lemma ScopedStays(objs: Objects, later: Objects, es: seq<Event>)
    requires AllScoped(objs, es) && AllEvolve(objs, later)
    ensures AllScoped(later, es)
  {
    forall i, k | 0 <= i < |es| && 0 <= k < |Edits(es[i])|
      ensures ScopedEdit(later, es[i].tenant, es[i].namespace, Edits(es[i])[k])
    {
      assert ScopedEvent(objs, es[i]);
      ScopedEditStays(objs, later, es[i].tenant, es[i].namespace, Edits(es[i])[k]);
    }
  }

  lemma ScopedEditStays(objs: Objects, later: Objects, tenant: string, namespace: string, e: Edit)
    requires ScopedEdit(objs, tenant, namespace, e) && AllEvolve(objs, later)
    ensures ScopedEdit(later, tenant, namespace, e)
  {
    match e
    case Put(_) =>
    case Modify(id, _) => assert Evolves(objs[id], later[id]);
    case ModifyIfPresent(id, _) => TiedStays(objs, later, id, tenant);
  }

  /******* Grants written from another namespace *******/

  predicate IsStray(objs: Objects, namespace: string, id: Id) {
    id in objs && objs[id].kind == Grant && objs[id].namespace != namespace
  }

  predicate StrayEdit(objs: Objects, namespace: string, e: Edit) {
    !e.Put? && IsStray(objs, namespace, e.id)
  }

  /** The event changes a grant that was last written from another namespace. */
  predicate Strays(objs: Objects, e: Event) {
    exists k :: 0 <= k < |Edits(e)| && StrayEdit(objs, e.namespace, Edits(e)[k])
  }

  /** What a scoped edit finds: an object of its scope, or a grant of its tenant. */
  predicate NearEdit(objs: Objects, tenant: string, namespace: string, e: Edit) {
    match e
    case Put(o) => InScope(o, tenant, namespace)
    case Modify(id, _) => id in objs && NearScope(objs[id], tenant, namespace)
    case ModifyIfPresent(id, _) => id in objs ==> NearScope(objs[id], tenant, namespace)
  }

  lemma EditApplies(objs: Objects, tenant: string, namespace: string, e: Edit)
    requires Keyed(objs) && NearEdit(objs, tenant, namespace, e)
    ensures ApplyEdit(objs, tenant, namespace, e).ok <==> !StrayEdit(objs, namespace, e)
    ensures Keyed(ApplyEdit(objs, tenant, namespace, e).objects)
  {
  }

  /** An edit that puts nothing leaves the scopes as they are. */
  lemma ScopesStay(objs: Objects, tenant: string, namespace: string, e: Edit, f: Edit)
    requires ApplyEdit(objs, tenant, namespace, e).ok && (!f.Put? ==> !e.Put?)
    ensures var later := ApplyEdit(objs, tenant, namespace, e).objects;
            && (NearEdit(objs, tenant, namespace, f) ==> NearEdit(later, tenant, namespace, f))
            && (StrayEdit(objs, namespace, f) <==> StrayEdit(later, namespace, f))
  {
  }

  lemma {:induction false} EditsApply(objs: Objects, tenant: string, namespace: string, es: seq<Edit>)
    requires Keyed(objs) && PutsLast(es)
    requires forall k :: 0 <= k < |es| ==> NearEdit(objs, tenant, namespace, es[k])
    ensures ApplyEdits(objs, tenant, namespace, es).ok <==>
            forall k :: 0 <= k < |es| ==> !StrayEdit(objs, namespace, es[k])
    decreases |es|
  {
    if es != [] {
      assert NearEdit(objs, tenant, namespace, es[0]);
      EditApplies(objs, tenant, namespace, es[0]);
      if !StrayEdit(objs, namespace, es[0]) {
        var mid := ApplyEdit(objs, tenant, namespace, es[0]).objects;
        forall k | 0 <= k < |es[1..]|
          ensures NearEdit(mid, tenant, namespace, es[1..][k])
          ensures StrayEdit(mid, namespace, es[1..][k]) <==> StrayEdit(objs, namespace, es[k + 1])
        {
          assert NearEdit(objs, tenant, namespace, es[k + 1]);
          ScopesStay(objs, tenant, namespace, es[0], es[k + 1]);
        }
        EditsApply(mid, tenant, namespace, es[1..]);
        assert (forall k :: 0 <= k < |es| ==> !StrayEdit(objs, namespace, es[k])) <==>
               (forall k :: 0 <= k < |es[1..]| ==> !StrayEdit(mid, namespace, es[1..][k])) by {
          assert forall k :: 0 < k < |es| ==> es[k] == es[1..][k - 1];
        }
      }
    }
  }

  /** A scoped event applies exactly when it changes no grant written from another namespace. */
  lemma ScopedApplies(objs: Objects, e: Event)
    requires Tidy(objs) && Readable(e.op, e.payload) && ScopedEvent(objs, e)
    ensures Apply(objs, e).ok <==> !Strays(objs, e)
  {
    EventPutsLast(e);
    forall k | 0 <= k < |Edits(e)| ensures NearEdit(objs, e.tenant, e.namespace, Edits(e)[k]) {
      assert ScopedEdit(objs, e.tenant, e.namespace, Edits(e)[k]);
      if Edits(e)[k].ModifyIfPresent? && Edits(e)[k].id in objs {
        TiedSameTenant(objs, Edits(e)[k].id, e.tenant);
      }
    }
    EditsApply(objs, e.tenant, e.namespace, Edits(e));
  }

  /******* The events of one call *******/

  predicate AnyStrays(objs: Objects, es: seq<Event>) {
    exists i :: 0 <= i < |es| && Strays(objs, es[i])
  }

  lemma CommitApplies(objs: Objects, es: seq<Event>)
    requires Tidy(objs) && Prepared(objs, es) && Planned(es) && AllScoped(objs, es)
    ensures Transacted(objs, es).ok <==> !AnyStrays(objs, es)
  {
    assert Proper(objs, es[0]) && ScopedEvent(objs, es[0]);
    ScopedApplies(objs, es[0]);
    if |es| == 1 {
      assert es == [es[0]];
      SingleTransacted(objs, es[0]);
    } else {
      ReplacementApplies(objs, es);
    }
  }

  lemma ReplacementApplies(objs: Objects, es: seq<Event>)
    requires Tidy(objs) && Prepared(objs, es) && Replacing(es) && AllScoped(objs, es)
    ensures Transacted(objs, es).ok && !AnyStrays(objs, es)
  {
    assert Proper(objs, es[0]) && Proper(objs, es[1]) && ScopedEvent(objs, es[0]) && ScopedEvent(objs, es[1]);
    ClosingApplies(objs, es[0]);
    PuttingApplies(objs, Apply(objs, es[0]).objects, es[1]);
    PairTransacted(objs, es);
    NeitherStrays(objs, es);
  }

  lemma NeitherStrays(objs: Objects, es: seq<Event>)
    requires |es| == 2 && !Strays(objs, es[0]) && !Strays(objs, es[1])
    ensures !AnyStrays(objs, es)
  {
  }

  lemma PairTransacted(objs: Objects, es: seq<Event>)
    requires |es| == 2 && Apply(objs, es[0]).ok
    ensures Transacted(objs, es) == Apply(Apply(objs, es[0]).objects, es[1])
  {
    assert es[1..] == [es[1]];
    SingleTransacted(Apply(objs, es[0]).objects, es[1]);
  }

  /** No closing of a fact can stray. */
  lemma ClosingApplies(objs: Objects, e: Event)
    requires Tidy(objs) && Proper(objs, e) && ScopedEvent(objs, e) && e.payload.FactClosed?
    ensures Apply(objs, e).ok && !Strays(objs, e)
  {
    assert forall k :: 0 <= k < |Edits(e)| ==> !StrayEdit(objs, e.namespace, Edits(e)[k]);
    ScopedApplies(objs, e);
  }

  lemma PuttingApplies(objs: Objects, mid: Objects, e: Event)
    requires e.payload.Whole? && Readable(e.op, e.payload) && ScopedEvent(objs, e)
    ensures Apply(mid, e).ok && !Strays(objs, e)
  {
    assert ScopedEdit(objs, e.tenant, e.namespace, Edits(e)[0]);
    SingleEdit(mid, e);
  }

  /******* Every run *******/

  lemma PlanScoped(objs: Objects, c: Call)
    requires Tidy(objs) && Guard(objs, c)
    ensures AllScoped(objs, Plan(objs, c))
  {
    if c.request.Supersede? || c.request.CorrectValidity? {
      ReplacingScoped(objs, c);
    } else {
      SingleScoped(objs, c);
      PayloadScoped(objs, Plan(objs, c)[0]);
    }
  }

  /** The objects an event finds in scope, given what its check established about its payload. */
  ghost predicate ScopedPayload(objs: Objects, e: Event) {
    match e.payload
    case Whole(o) => InScope(o, e.tenant, e.namespace)
    case FactClosed(f, _, _, _, _) => Near(objs, e, f)
    case FactConfirm(f, _, _) => Near(objs, e, f)
    case Contradiction(a, b, _) => Near(objs, e, a) && Near(objs, e, b)
    case Merge(c, duplicates, _) => Near(objs, e, c) && forall d :: d in duplicates ==> Near(objs, e, d)
    case Split(x, into) => Near(objs, e, x) && forall o :: o in into ==> InScope(o, e.tenant, e.namespace)
    case Revoke(g, _, _) => Tied(objs, g, e.tenant)
    case Place(x, _, _, _, _) => Near(objs, e, x)
    case ClaimClosed(c, _, _, _) => Near(objs, e, c)
    case Attach(c, _, _) => Near(objs, e, c)
    case Govern(c, _) => Near(objs, e, c)
  }

  predicate Near(objs: Objects, e: Event, id: Id) {
    id in objs && NearScope(objs[id], e.tenant, e.namespace)
  }

  lemma PayloadScoped(objs: Objects, e: Event)
    requires ScopedPayload(objs, e)
    ensures ScopedEvent(objs, e)
  {
    forall k | 0 <= k < |Edits(e)| ensures ScopedEdit(objs, e.tenant, e.namespace, Edits(e)[k]) {
      if k > 0 {
        LaterEdit(e, k);
        assert e.payload.Merge? ==> e.payload.duplicates[k - 1] in e.payload.duplicates;
        assert e.payload.Split? ==> e.payload.into[k - 1] in e.payload.into;
        assert e.payload.Contradiction? ==> Near(objs, e, e.payload.second);
      }
    }
  }

  lemma SingleScoped(objs: Objects, c: Call)
    requires Tidy(objs) && Guard(objs, c) && !c.request.Supersede? && !c.request.CorrectValidity?
    ensures |Plan(objs, c)| == 1 && ScopedPayload(objs, Plan(objs, c)[0])
  {
    if c.request.RevokeCapability? {
      assert |c.request.space| == SPACE_ID_LENGTH;
    }
  }

  lemma ReplacingScoped(objs: Objects, c: Call)
    requires Guard(objs, c) && (c.request.Supersede? || c.request.CorrectValidity?)
    ensures AllScoped(objs, Plan(objs, c))
  {
    match c.request
    case Supersede(f, newId, v, source, reason) =>
      ReplaceScoped(objs, c, f, reason, Replacement(objs[f], newId, c.ts, v, source));
    case CorrectValidity(f, newId, vf, vt, source, reason) =>
      ReplaceScoped(objs, c, f, reason, Corrected(objs[f], newId, c.ts, vf, vt, source, reason));
  }

  lemma ReplaceScoped(objs: Objects, c: Call, f: Id, reason: Option<string>, r: Obj)
    requires RefInScope(objs, c.who, f) && InScope(r, c.who.tenant, c.who.namespace)
    ensures AllScoped(objs, Replace(c, f, reason, r))
  {
    var es := Replace(c, f, reason, r);
    assert ScopedEvent(objs, es[0]);
    assert ScopedEvent(objs, es[1]);
  }

  ghost predicate PendingScoped(s: System) {
    forall t :: t in s.pending ==> AllScoped(s.objects, s.pending[t])
  }

  lemma SeenScoped(objs: Objects, c: Call, seen: Objects)
    requires Tidy(objs) && AllEvolve(seen, objs) && Guard(seen, c)
    ensures AllScoped(objs, Plan(seen, c))
  {
    ViewIsTidy(seen, objs);
    GuardGrows(seen, objs + seen, c);
    PlanScoped(objs + seen, c);
    ScopedStays(objs + seen, objs, Plan(seen, c));
  }

  lemma CheckScoped(h: Hash, s: System, t: nat, c: Call, seen: Objects)
    requires Tidy(s.objects) && PendingScoped(s) && AllEvolve(seen, s.objects) && Guard(seen, c)
    ensures PendingScoped(Next(h, s, Check(t, c, seen)))
  {
    SeenScoped(s.objects, c, seen);
  }

  lemma StepScoped(h: Hash, s: System, step: Step)
    requires Invariant(h, s) && PendingScoped(s)
    ensures PendingScoped(Next(h, s, step))
  {
    match step
    case Check(t, c, seen) =>
      if AllEvolve(seen, s.objects) && Guard(seen, c) {
        CheckScoped(h, s, t, c, seen);
      }
    case Commit(t) =>
      if t in s.pending && Transacted(s.objects, s.pending[t]).ok {
        CommitScoped(s, t);
      }
    case Abandon(_) =>
  }

  lemma CommitScoped(s: System, t: nat)
    requires Tidy(s.objects) && PendingScoped(s) && t in s.pending
    requires Prepared(s.objects, s.pending[t]) && Transacted(s.objects, s.pending[t]).ok
    ensures forall u :: u in s.pending ==> AllScoped(Transacted(s.objects, s.pending[t]).objects, s.pending[u])
  {
    CommitEvolves(s.objects, s.pending[t]);
    forall u | u in s.pending ensures AllScoped(Transacted(s.objects, s.pending[t]).objects, s.pending[u]) {
      ScopedStays(s.objects, Transacted(s.objects, s.pending[t]).objects, s.pending[u]);
    }
  }

  lemma {:induction false} RunScoped(h: Hash, steps: seq<Step>)
    ensures PendingScoped(Run(h, steps))
    decreases |steps|
  {
    if steps != [] {
      RunInvariant(h, steps[..|steps| - 1]);
      RunScoped(h, steps[..|steps| - 1]);
      StepScoped(h, Run(h, steps[..|steps| - 1]), steps[|steps| - 1]);
    }
  }

  /** Under any interleaving, a call that passed its check commits if and only if none of its events changes
      a grant that is by then last written from another namespace of the tenant: nothing else that commits
      in between can make a checked call raise an integrity error. */
  lemma PendingCommits(h: Hash, steps: seq<Step>, t: nat)
    requires t in Run(h, steps).pending
    ensures var s := Run(h, steps); Transacted(s.objects, s.pending[t]).ok <==> !AnyStrays(s.objects, s.pending[t])
  {
    RunScoped(h, steps);
    Interleaving.RunSteady(h, steps);
    CommitApplies(Run(h, steps).objects, Run(h, steps).pending[t]);
  }

  /******* A call committed on the objects its check saw *******/

  /** The grant to be revoked was last written from another namespace of the tenant. */
  predicate RegrantedElsewhere(objs: Objects, c: Call) {
    c.request.RevokeCapability? && IsStray(objs, c.who.namespace, GrantId(c.request.space, c.request.agent))
  }

  /** A call that passed its check commits, unless it revokes a grant that was last written from
      another namespace: the guards keep integrity errors out of every other operation. */
  lemma CheckedCallCommits(objs: Objects, used: set<Id>, c: Call)
    requires Tidy(objs) && Guard(objs, c) && Fresh(used, c.request)
    requires forall id :: id in objs && objs[id].kind != Grant ==> id in used
    ensures Transacted(objs, Plan(objs, c)).ok <==> !RegrantedElsewhere(objs, c)
  {
    PlanPrepared(objs, used, c);
    PlanIsPlanned(objs, c);
    PlanScoped(objs, c);
    CommitApplies(objs, Plan(objs, c));
    if c.request.RevokeCapability? {
      RevokeStrays(objs, c);
    } else if Replacing(Plan(objs, c)) {
      ReplacementApplies(objs, Plan(objs, c));
    } else {
      OthersKeepHome(objs, c);
    }
  }

  lemma RevokeStrays(objs: Objects, c: Call)
    requires Guard(objs, c) && c.request.RevokeCapability?
    ensures AnyStrays(objs, Plan(objs, c)) <==> RegrantedElsewhere(objs, c)
  {
    var e := Plan(objs, c)[0];
    assert Edits(e)[0].id == GrantId(c.request.space, c.request.agent);
    assert StrayEdit(objs, e.namespace, Edits(e)[0]) ==> Strays(objs, e);
  }

  lemma OthersKeepHome(objs: Objects, c: Call)
    requires Guard(objs, c) && !c.request.RevokeCapability? && |Plan(objs, c)| == 1
    ensures !AnyStrays(objs, Plan(objs, c))
  {
    var e := Plan(objs, c)[0];
    forall k | 0 <= k < |Edits(e)| ensures !StrayEdit(objs, e.namespace, Edits(e)[k]) {
      if k > 0 {
        LaterEdit(e, k);
      }
    }
  }

  /******* Serving the making of one object *******/

  function MakeCall(op: Op, o: Obj, who: Who, ts: Time): Call {
    Call(who, ts, Create(op, o), true)
  }

  function MadeEvent(op: Op, o: Obj, who: Who, ts: Time): Event {
    EventOf(MakeCall(op, o, who, ts), op, Whole(o))
  }

  function SealedAfter(h: Hash, ledger: seq<Record>, e: Event): Record {
    Seal(h, |ledger| + 1, e, Head(ledger))
  }

  /** A reachable state with no call pending. */
  ghost predicate Quiet(h: Hash, s: System) {
    Invariant(h, s) && s.pending == map[]
  }

  /** A new object that may be made. */
  predicate Ready(objs: Objects, used: set<Id>, op: Op, o: Obj, who: Who, ts: Time) {
    && Minted(o.id) && o.id !in used
    && CreatedKind(op).Some? && NewObject(o, CreatedKind(op).value, who, ts) && o.body.supersedes == []
    && ValidInterval(o) && RefsInScope(objs, who, o)
  }

  lemma MadePlanned(objs: Objects, used: set<Id>, op: Op, o: Obj, who: Who, ts: Time)
    requires Ready(objs, used, op, o, who, ts)
    ensures var c := MakeCall(op, o, who, ts);
            && Guard(objs, c) && Plan(objs, c) == [MadeEvent(op, o, who, ts)]
            && Fresh(used, c.request) && NewIds(c.request) == {o.id}
  {
  }

  lemma MadeApplies(objs: Objects, used: set<Id>, op: Op, o: Obj, who: Who, ts: Time)
    requires Ready(objs, used, op, o, who, ts)
    ensures Apply(objs, MadeEvent(op, o, who, ts)) == Applied(objs[o.id := o], true)
  {
    SingleEdit(objs, MadeEvent(op, o, who, ts));
  }

  lemma ServeMade(h: Hash, s: System, op: Op, o: Obj, who: Who, ts: Time)
    requires Quiet(h, s) && Ready(s.objects, s.used, op, o, who, ts)
    ensures var later := Serial.Serve(h, s, MakeCall(op, o, who, ts));
            && Quiet(h, later) && later.objects == s.objects[o.id := o] && later.used == s.used + {o.id}
            && later.ledger == s.ledger + [SealedAfter(h, s.ledger, MadeEvent(op, o, who, ts))]
  {
    MadePlanned(s.objects, s.used, op, o, who, ts);
    MadeApplies(s.objects, s.used, op, o, who, ts);
    Serial.ServeEvent(h, s, MakeCall(op, o, who, ts), MadeEvent(op, o, who, ts));
  }

  lemma AddFirst(s: System, later: System, o: Obj, r: Record)
    requires s.objects == map[] && s.used == {} && s.ledger == []
    requires later.objects == s.objects[o.id := o] && later.used == s.used + {o.id} && later.ledger == s.ledger + [r]
    ensures later.objects == map[o.id := o] && later.used == {o.id} && later.ledger == [r]
  {
  }

  lemma StartQuiet(h: Hash, s: System)
    requires s == START
    ensures Quiet(h, s) && s.objects == map[] && s.used == {} && s.ledger == []
  {
    Serial.StartSerene(h, 0);
  }

  lemma MadeFirst(h: Hash, s: System, op: Op, o: Obj, who: Who, ts: Time)
    requires Quiet(h, s) && s.objects == map[] && s.used == {} && s.ledger == []
    requires Ready(map[], {}, op, o, who, ts)
    ensures var later := Serial.Serve(h, s, MakeCall(op, o, who, ts));
            && Quiet(h, later) && later.objects == map[o.id := o] && later.used == {o.id}
            && later.ledger == [SealedAfter(h, [], MadeEvent(op, o, who, ts))]
  {
    ServeMade(h, s, op, o, who, ts);
    AddFirst(s, Serial.Serve(h, s, MakeCall(op, o, who, ts)), o, SealedAfter(h, [], MadeEvent(op, o, who, ts)));
  }

  /** The first call makes an object. */
  lemma FirstMade(h: Hash, op: Op, o: Obj, who: Who, ts: Time)
    requires Ready(map[], {}, op, o, who, ts)
    ensures var s := Serial.Serve(h, START, MakeCall(op, o, who, ts));
            && Quiet(h, s) && s.objects == map[o.id := o] && s.used == {o.id}
            && s.ledger == [SealedAfter(h, [], MadeEvent(op, o, who, ts))]
  {
    StartQuiet(h, START);
    MadeFirst(h, START, op, o, who, ts);
  }

  /******* Two namespaces of a tenant grant the same space to the same agent *******/

  predicate FirstGrant(g: Obj, who: Who, ts: Time, space: Id, agent: string) {
    NewObject(g, Grant, who, ts) && g.id == GrantId(space, agent) && g.active && g.body.supersedes == []
  }

  /** A space made in one namespace, and the grants of it to one agent made in that namespace and in another. */
  predicate Regrants(space: Obj, one: Obj, two: Obj, a: Who, b: Who, agent: string) {
    && a.tenant == b.tenant && a.namespace != b.namespace
    && Minted(space.id) && NewObject(space, Space, a, 1) && space.body.supersedes == []
    && ValidInterval(space) && RefsInScope(map[], a, space)
    && FirstGrant(one, a, 2, space.id, agent) && FirstGrant(two, b, 3, space.id, agent)
  }

  function SpaceCall(space: Obj, who: Who): Call {
    MakeCall(SpaceCreated, space, who, 1)
  }

  function GrantCall(space: Id, agent: string, g: Obj, who: Who, ts: Time): Call {
    Call(who, ts, GrantCapability(space, agent, g), true)
  }

  /** One more record, that of a whole object. */
  ghost predicate Recorded(was: seq<Record>, ledger: seq<Record>, o: Obj, who: Who) {
    && |ledger| == |was| + 1 && was <= ledger
    && ledger[|was|].event.payload == Whole(o)
    && ledger[|was|].event.tenant == who.tenant && ledger[|was|].event.namespace == who.namespace
  }

  lemma SpaceReady(space: Obj, who: Who)
    requires Minted(space.id) && NewObject(space, Space, who, 1) && space.body.supersedes == []
    requires ValidInterval(space) && RefsInScope(map[], who, space)
    ensures Ready(map[], {}, SpaceCreated, space, who, 1)
  {
  }

  lemma ServeSpace(h: Hash, space: Obj, who: Who)
    requires Minted(space.id) && NewObject(space, Space, who, 1) && space.body.supersedes == []
    requires ValidInterval(space) && RefsInScope(map[], who, space)
    ensures var s := Serial.Serve(h, START, SpaceCall(space, who));
            Quiet(h, s) && s.objects == map[space.id := space] && Recorded([], s.ledger, space, who) &&
            s.used == {space.id}
  {
    SpaceReady(space, who);
    FirstMade(h, SpaceCreated, space, who, 1);
  }

  function GrantEvent(space: Id, agent: string, g: Obj, who: Who, ts: Time): Event {
    EventOf(GrantCall(space, agent, g, who, ts), CapabilityGranted, Whole(g))
  }

  lemma GrantPlanned(objs: Objects, used: set<Id>, space: Id, agent: string, g: Obj, who: Who, ts: Time)
    requires SpaceOfTenant(objs, who, space) && FirstGrant(g, who, ts, space, agent)
    ensures var c := GrantCall(space, agent, g, who, ts);
            && Guard(objs, c) && Plan(objs, c) == [GrantEvent(space, agent, g, who, ts)]
            && Fresh(used, c.request) && used + NewIds(c.request) == used
  {
  }

  lemma GrantApplies(objs: Objects, space: Id, agent: string, g: Obj, who: Who, ts: Time)
    requires FirstGrant(g, who, ts, space, agent)
    ensures Apply(objs, GrantEvent(space, agent, g, who, ts)) == Applied(objs[g.id := g], true)
  {
    SingleEdit(objs, GrantEvent(space, agent, g, who, ts));
  }

  lemma ServeGrant(h: Hash, s: System, space: Id, agent: string, g: Obj, who: Who, ts: Time)
    requires Quiet(h, s) && SpaceOfTenant(s.objects, who, space) && FirstGrant(g, who, ts, space, agent)
    ensures var later := Serial.Serve(h, s, GrantCall(space, agent, g, who, ts));
            Quiet(h, later) && later.objects == s.objects[g.id := g] && Recorded(s.ledger, later.ledger, g, who) &&
            later.used == s.used
  {
    GrantPlanned(s.objects, s.used, space, agent, g, who, ts);
    GrantApplies(s.objects, space, agent, g, who, ts);
    Serial.ServeEvent(h, s, GrantCall(space, agent, g, who, ts), GrantEvent(space, agent, g, who, ts));
  }

  lemma RegrantedObjects(space: Obj, one: Obj, two: Obj, a: Who, b: Who, agent: string)
    requires Regrants(space, one, two, a, b, agent)
    ensures var objs := map[space.id := space];
            && SpaceOfTenant(objs, a, space.id) && SpaceOfTenant(objs[one.id := one], b, space.id)
            && objs[one.id := one][two.id := two] == map[space.id := space, two.id := two]
            && IsStray(objs[one.id := one][two.id := two], a.namespace, GrantId(space.id, agent))
            && SpaceOfTenant(objs[one.id := one][two.id := two], a, space.id)
  {
    assert space.id != one.id && one.id == two.id;
  }

  lemma TwoGrants(h: Hash, s: System, mid: System, space: Id, agent: string, one: Obj, a: Who, two: Obj, b: Who)
    requires Quiet(h, s) && mid == Serial.Serve(h, s, GrantCall(space, agent, one, a, 2))
    requires SpaceOfTenant(s.objects, a, space) && SpaceOfTenant(s.objects[one.id := one], b, space)
    requires FirstGrant(one, a, 2, space, agent) && FirstGrant(two, b, 3, space, agent)
    ensures var later := Serial.Serve(h, mid, GrantCall(space, agent, two, b, 3));
            && Quiet(h, later) && later.objects == s.objects[one.id := one][two.id := two]
            && Recorded(s.ledger, mid.ledger, one, a) && Recorded(mid.ledger, later.ledger, two, b)
  {
    ServeGrant(h, s, space, agent, one, a, 2);
    ServeGrant(h, mid, space, agent, two, b, 3);
  }

  /** The state after the space was made and granted twice. */
  function Regranted(h: Hash, space: Obj, one: Obj, two: Obj, a: Who, b: Who, agent: string): System {
    Serial.Served(h, [SpaceCall(space, a), GrantCall(space.id, agent, one, a, 2),
                      GrantCall(space.id, agent, two, b, 3)])
  }

  lemma RegrantRun(h: Hash, space: Obj, one: Obj, two: Obj, a: Who, b: Who, agent: string)
    requires Regrants(space, one, two, a, b, agent)
    ensures var s := Regranted(h, space, one, two, a, b, agent);
            && Quiet(h, s) && s.objects == map[space.id := space, two.id := two]
            && SpaceOfTenant(s.objects, a, space.id) && IsStray(s.objects, a.namespace, GrantId(space.id, agent))
            && exists was, mid :: Recorded(was, mid, one, a) && Recorded(mid, s.ledger, two, b)
  {
    RegrantedObjects(space, one, two, a, b, agent);
    Serial.ServedThree(h, SpaceCall(space, a), GrantCall(space.id, agent, one, a, 2),
                       GrantCall(space.id, agent, two, b, 3));
    ServeSpace(h, space, a);
    var s1 := Serial.Serve(h, START, SpaceCall(space, a));
    var s2 := Serial.Serve(h, s1, GrantCall(space.id, agent, one, a, 2));
    TwoGrants(h, s1, s2, space.id, agent, one, a, two, b);
  }

  /** A scope whose record put an object that another scope holds now does not replay alone. */
  lemma LostToAnother(ledger: seq<Record>, mine: Scopes.Scopes, i: nat, o: Obj)
    requires Replay(ledger).Some? && i < |ledger| && ledger[i].event.payload == Whole(o)
    requires Scopes.Covers(mine, ledger[i].event)
    requires o.id in Replay(ledger).value && !Scopes.Owns(mine, Replay(ledger).value[o.id])
    ensures !Scopes.Decomposes(ledger, mine)
  {
    assert Edits(ledger[i].event)[0] == Put(o);
    if Scopes.Decomposes(ledger, mine) {
      Scopes.CreatorKeeps(ledger, mine, i, o.id);
    }
  }

  /** Decomposition by namespace fails for a live ledger: of a space granted to one agent from two namespaces
      of its tenant, the first namespace's records alone replay to a grant that it no longer holds. */
  lemma NamespaceDecompositionFails(h: Hash, space: Obj, one: Obj, two: Obj, a: Who, b: Who, agent: string)
    requires Regrants(space, one, two, a, b, agent)
    ensures var ledger := Regranted(h, space, one, two, a, b, agent).ledger;
            LiveLedger(ledger) && Replay(ledger).Some? &&
            !Scopes.Decomposes(ledger, (t: string, n: string) => t == a.tenant && n == a.namespace)
  {
    RegrantRun(h, space, one, two, a, b, agent);
    var s := Regranted(h, space, one, two, a, b, agent);
    var was, mid :| Recorded(was, mid, one, a) && Recorded(mid, s.ledger, two, b);
    assert s.ledger[|was|] == mid[|was|];
    LostToAnother(s.ledger, (t: string, n: string) => t == a.tenant && n == a.namespace, |was|, one);
  }

  lemma RevokeElsewhere(h: Hash, s: System, space: Id, a: Who, agent: string)
    requires Quiet(h, s) && SpaceOfTenant(s.objects, a, space)
    requires IsStray(s.objects, a.namespace, GrantId(space, agent))
    ensures var c := Call(a, 4, RevokeCapability(space, agent), true);
            Guard(s.objects, c) && !Transacted(s.objects, Plan(s.objects, c)).ok
  {
    var c := Call(a, 4, RevokeCapability(space, agent), true);
    CheckedCallCommits(s.objects, s.used, c);
    assert RegrantedElsewhere(s.objects, c);
  }

  /** After the same run a revocation from the first namespace passes its check and cannot commit. */
  lemma RevocationFails(h: Hash, space: Obj, one: Obj, two: Obj, a: Who, b: Who, agent: string)
    requires Regrants(space, one, two, a, b, agent)
    ensures var s := Regranted(h, space, one, two, a, b, agent);
            var c := Call(a, 4, RevokeCapability(space.id, agent), true);
            Guard(s.objects, c) && !Transacted(s.objects, Plan(s.objects, c)).ok
  {
    RegrantRun(h, space, one, two, a, b, agent);
    var s := Regranted(h, space, one, two, a, b, agent);
    RevokeElsewhere(h, s, space.id, a, agent);
  }
}
