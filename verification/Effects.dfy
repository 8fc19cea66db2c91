/** What the mutating operations do, said of the objects before and after a served call alone. */
module Effects {
  import opened Model
  import opened Projection
  import opened Ledger
  import opened Store
  import opened Operations
  import opened Live
  import opened Runs
  import opened Selection
  import Commits
  import FactBeliefs
  import Serial

  /******* What each request asks for *******/

  /** Nothing else is made, lost or changed. */
  ghost predicate OnlyAt(before: Objects, after: Objects, ids: set<Id>) {
    forall id :: id !in ids ==> (id in after <==> id in before) && (id in before ==> after[id] == before[id])
  }

  /** A list cut to its latest entries, at most 256. */
  predicate LatestOf<T(==)>(kept: seq<T>, all: seq<T>) {
    |kept| == (if |all| < 256 then |all| else 256) && kept == all[|all| - |kept|..]
  }

  /** Further elements follow the old ones, each new one once, in the order in which they first come. */
  ghost predicate AddedInTurn<T>(old0: seq<T>, more: seq<T>, all: seq<T>) {
    old0 <= all && exists at :: FirstsAt(old0, more, at) && Picked(more, at, all[|old0|..])
  }

  /** The object now lists the other one as contradicting, with the note if there is one. */
  predicate Contests(o: Obj, r: Obj, other: Id, note: Option<string>, ts: Time) {
    && r == o.(contradicts := r.contradicts, meta := o.meta.(contradictionNotes := r.meta.contradictionNotes))
    && r.contradicts == (if other in o.contradicts then o.contradicts else o.contradicts + [other])
    && (if note.None? || note.value == "" then r.meta.contradictionNotes == o.meta.contradictionNotes
        else LatestOf(r.meta.contradictionNotes, o.meta.contradictionNotes + [Note(other, note.value, ts)]))
  }

  predicate Corroborated(o: Obj, r: Obj, source: Id, delta: real, ts: Time) {
    && r == o.(confidence := r.confidence, meta := o.meta.(corroborations := r.meta.corroborations))
    && r.confidence == (if o.confidence + delta > 1.0 then 1.0
                        else if o.confidence + delta < 0.0 then 0.0
                        else o.confidence + delta)
    && LatestOf(r.meta.corroborations, o.meta.corroborations + [Model.Corroboration(Some(source), ts)])
  }

  ghost predicate Absorbed(o: Obj, r: Obj, names: seq<string>, duplicates: seq<Id>) {
    && r == o.(aliases := r.aliases, meta := o.meta.(mergedFrom := r.meta.mergedFrom))
    && AddedInTurn(o.aliases, names, r.aliases)
    && AddedInTurn(o.meta.mergedFrom, duplicates, r.meta.mergedFrom)
  }

  predicate Joined(o: Obj, r: Obj, canonical: Id, ts: Time) {
    r == o.(meta := o.meta.(mergedInto := Some(canonical), mergedAt := Some(ts)))
  }

  predicate Linked(o: Obj, r: Obj, link: Link) {
    && r == o.(meta := o.meta.(evidenceLinks := r.meta.evidenceLinks))
    && LatestOf(r.meta.evidenceLinks, if link in o.meta.evidenceLinks then o.meta.evidenceLinks
                                      else o.meta.evidenceLinks + [link])
  }

  /** A new fact in the place of another: of the same audience and descent, believed from the call's time on. */
  predicate Replaces(o: Obj, n: Obj, f: Id, newId: Id, ts: Time, source: Option<Id>) {
    && n.id == newId && n.kind == Fact && n.tenant == o.tenant && n.namespace == o.namespace
    && n.owner == o.owner && n.spaces == o.spaces && n.createdAt == ts
    && n.body.txFrom == Some(ts) && n.txTo.None? && n.status == Asserted
    && n.body.supersedes == [f] && n.body.derivedFrom == o.body.derivedFrom
    && n.body.source == (if source.Some? then source else o.body.source)
    && n.contradicts == [] && n.aliases == [] && !n.active && n.revokedAt.None?
    && n.body == o.body.(source := n.body.source, supersedes := n.body.supersedes, subject := n.body.subject,
                         pred := n.body.pred, target := n.body.target, validFrom := n.body.validFrom,
                         validTo := n.body.validTo, txFrom := n.body.txFrom)
  }

  /** The value is the new one; what is not given stays, but for the value and the end of validity. */
  predicate NewValued(o: Obj, n: Obj, v: NewValue, ts: Time) {
    && n.body.subject == (if v.subject.Some? then v.subject else o.body.subject)
    && n.body.pred == (if v.pred.Some? then v.pred else o.body.pred)
    && n.body.target == v.target
    && n.body.validFrom == (if v.validFrom.Some? then v.validFrom.value else Some(ts))
    && n.body.validTo == v.validTo
    && n.confidence == (if v.confidence.Some? then v.confidence.value else o.confidence)
    && n.meta == v.meta
  }

  /** The value stays; each bound of validity is the given one or else the old one. */
  predicate Redated(o: Obj, n: Obj, validFrom: Option<Option<Time>>, validTo: Option<Option<Time>>) {
    && n.body.subject == o.body.subject && n.body.pred == o.body.pred && n.body.target == o.body.target
    && n.confidence == o.confidence
    && n.body.validFrom == (if validFrom.Some? then validFrom.value else o.body.validFrom)
    && n.body.validTo == (if validTo.Some? then validTo.value else o.body.validTo)
  }

  predicate NamesCorrected(meta: Meta, f: Id, reason: Option<string>) {
    && meta.user.Dict? && meta.user.fields != [] && meta.user.fields[0] == Field("correction_of", Str(f))
    && meta == Meta([], [], [], None, None, [], None, None, [], None, meta.user)
    && (if reason.None? || reason.value == "" then |meta.user.fields| == 1
        else |meta.user.fields| == 2 && meta.user.fields[1] == Field("reason", Str(reason.value)))
  }

  /** What becomes of the objects when the call takes effect. */
  ghost predicate Does(before: Objects, after: Objects, c: Call) {
    match c.request
    case Create(_, obj) => after == before[obj.id := obj]
    case Supersede(f, newId, v, source, _) =>
      && f in before && newId !in before && {f, newId} <= after.Keys && OnlyAt(before, after, {f, newId})
      && after[f] == before[f].(txTo := Some(c.ts), status := Superseded)
      && Replaces(before[f], after[newId], f, newId, c.ts, source) && NewValued(before[f], after[newId], v, c.ts)
    case CorrectValidity(f, newId, validFrom, validTo, source, reason) =>
      && f in before && newId !in before && {f, newId} <= after.Keys && OnlyAt(before, after, {f, newId})
      && after[f] == before[f].(txTo := Some(c.ts), status := Superseded)
      && Replaces(before[f], after[newId], f, newId, c.ts, source)
      && Redated(before[f], after[newId], validFrom, validTo) && NamesCorrected(after[newId].meta, f, reason)
    case Retract(f, _) =>
      && f in before && f in after && OnlyAt(before, after, {f})
      && after[f] == before[f].(txTo := Some(c.ts), status := Retracted)
    case Contradict(a, b, note) =>
      && a in before && b in before && {a, b} <= after.Keys && OnlyAt(before, after, {a, b})
      && Contests(before[a], after[a], b, note, c.ts) && Contests(before[b], after[b], a, note, c.ts)
    case ConfirmFact(f, backing, delta) =>
      f in before && f in after && OnlyAt(before, after, {f}) &&
      Corroborated(before[f], after[f], backing, delta, c.ts)
    case MergeEntities(canonical, duplicates, names) =>
      && canonical in before && canonical in after && Absorbed(before[canonical], after[canonical], names, duplicates)
      && (forall d :: d in duplicates ==> d in before && d in after && Joined(before[d], after[d], canonical, c.ts))
      && OnlyAt(before, after, {canonical} + set d | d in duplicates)
    case SplitEntity(entity, into) =>
      && entity in before && entity in after
      && after[entity] == before[entity].(meta := before[entity].meta.(splitInto := after[entity].meta.splitInto))
      && |after[entity].meta.splitInto| == |into|
      && (forall i :: 0 <= i < |into| ==>
            after[entity].meta.splitInto[i] == into[i].id && into[i].id in after && after[into[i].id] == into[i])
      && OnlyAt(before, after, {entity} + set o | o in into :: o.id)
    case GrantCapability(_, _, grant) => after == before[grant.id := grant]
    case RevokeCapability(space, agent) =>
      var g := "grant_" + space + "_" + agent;
      && OnlyAt(before, after, {g})
      && (if g in before then g in after && after[g] == before[g].(active := false, revokedAt := Some(c.ts))
          else g !in after)
    case PlaceObject(_, placed, destination, _) =>
      && placed in before && placed in after && OnlyAt(before, after, {placed})
      && after[placed] == before[placed].(spaces := if destination in before[placed].spaces then before[placed].spaces
                                                    else before[placed].spaces + [destination])
    case RetractClaim(claim, _) =>
      && claim in before && claim in after && OnlyAt(before, after, {claim})
      && after[claim] == before[claim].(txTo := Some(c.ts), status := Retracted)
    case AttachEvidence(claim, evidence, relation) =>
      && claim in before && claim in after && OnlyAt(before, after, {claim})
      && Linked(before[claim], after[claim], Link(evidence, relation))
    case GovernClaim(accept, claim, reason) =>
      && claim in before && claim in after && OnlyAt(before, after, {claim})
      && (if accept
          then after[claim] ==
               before[claim].(meta := before[claim].meta.(accepted := Some(Governed(c.who.agent, c.ts, reason))))
          else after[claim] ==
               before[claim].(meta := before[claim].meta.(rejected := Some(Governed(c.who.agent, c.ts, reason)))))
  }

  /******* Lists that grow *******/

  lemma AddAllSnoc<T(!new)>(xs: seq<T>, ys: seq<T>, y: T)
    ensures AddAllNew(xs, ys + [y]) == AddNew(AddAllNew(xs, ys), y)
    decreases |ys|
  {
    if ys == [] {
      assert ys + [y] == [y] && [y][1..] == [];
    } else {
      assert (ys + [y])[1..] == ys[1..] + [y];
      AddAllSnoc(AddNew(xs, ys[0]), ys[1..], y);
    }
  }

  /** Adding all that is new adds it in turn. */
  lemma {:induction false} AddsInTurn<T(!new)>(xs: seq<T>, ys: seq<T>) returns (at: seq<nat>)
    ensures var all := AddAllNew(xs, ys);
            xs <= all && FirstsAt(xs, ys, at) && Picked(ys, at, all[|xs|..])
    decreases |ys|
  {
    if ys == [] {
      at := [];
      assert AddAllNew(xs, ys)[|xs|..] == [];
    } else {
      var n := |ys| - 1;
      var front, y := ys[..n], ys[n];
      assert front + [y] == ys;
      var before := AddsInTurn(xs, front);
      AddAllSnoc(xs, front, y);
      at := if IsFirst(xs, ys, n) then before + [n] else before;
      FirstsSnoc(xs, front, y, before);
      NewIsFirst(xs, front, y);
      PickedMore(xs, front, y, before, AddAllNew(xs, front));
    }
  }

  lemma NewIsFirst<T(!new)>(xs: seq<T>, front: seq<T>, y: T)
    ensures IsFirst(xs, front + [y], |front|) <==> y !in AddAllNew(xs, front)
  {
    assert (front + [y])[..|front|] == front;
  }

  lemma PickedMore<T>(xs: seq<T>, front: seq<T>, y: T, at: seq<nat>, all: seq<T>)
    requires xs <= all && Picked(front, at, all[|xs|..])
    ensures Picked(front + [y], at, all[|xs|..])
    ensures xs <= all + [y] && Picked(front + [y], at + [|front|], (all + [y])[|xs|..])
  {
    PickedSnoc(front, y, at, all[|xs|..]);
    assert (all + [y])[|xs|..] == all[|xs|..] + [y];
  }

  lemma {:induction false} AddAllOld<T(!new)>(xs: seq<T>, ys: seq<T>)
    requires forall y :: y in ys ==> y in xs
    ensures AddAllNew(xs, ys) == xs
    decreases |ys|
  {
    if ys != [] {
      assert ys[0] in ys;
      AddAllOld(xs, ys[1..]);
    }
  }

  lemma {:induction false} AddAllAgain<T(!new)>(xs: seq<T>, ys: seq<T>)
    ensures AddAllNew(xs, AddAllNew(xs, ys)) == AddAllNew(xs, ys)
    decreases |ys|
  {
    if ys == [] {
      AddAllOld(xs, xs);
    } else {
      var n := |ys| - 1;
      assert ys[..n] + [ys[n]] == ys;
      AddAllAgain(xs, ys[..n]);
      AddAllSnoc(xs, ys[..n], ys[n]);
      if ys[n] !in AddAllNew(xs, ys[..n]) {
        AddAllSnoc(xs, AddAllNew(xs, ys[..n]), ys[n]);
      }
    }
  }

  lemma LastIsLatest<T>(all: seq<T>)
    ensures LatestOf(Last(all, MAX_ANNOTATIONS), all)
  {
  }

  /******* Calls of one edit *******/

  /** The one event of the call, and what its one edit makes of the objects. */
  lemma OneEdit(objs: Objects, e: Event, edit: Edit)
    requires Readable(e.op, e.payload) && Edits(e) == [edit]
    ensures Transacted(objs, [e]) == ApplyEdit(objs, e.tenant, e.namespace, edit)
  {
    FactBeliefs.SingleTransacted(objs, e);
    SingleEdit(objs, e);
  }

  /** The call committed: its events applied, and these are the objects after it. */
  ghost predicate Leaves(objs: Objects, c: Call, after: Objects) {
    Guard(objs, c) && Transacted(objs, Plan(objs, c)) == Applied(after, true)
  }

  lemma PutDone(objs: Objects, c: Call, after: Objects)
    requires Leaves(objs, c, after) && (c.request.Create? || c.request.GrantCapability?)
    ensures Does(objs, after, c)
  {
    var o := if c.request.Create? then c.request.obj else c.request.grant;
    OneEdit(objs, Plan(objs, c)[0], Put(o));
  }

  lemma RetractDone(objs: Objects, c: Call, after: Objects)
    requires Leaves(objs, c, after) && c.request.Retract?
    ensures Does(objs, after, c)
  {
    OneEdit(objs, Plan(objs, c)[0], Modify(c.request.factId, CloseFact(Some(c.ts), Retracted)));
  }

  lemma ConfirmDone(objs: Objects, c: Call, after: Objects)
    requires Leaves(objs, c, after) && c.request.ConfirmFact?
    ensures Does(objs, after, c)
  {
    var f, entry := c.request.factId, Model.Corroboration(Some(c.request.backing), c.ts);
    OneEdit(objs, Plan(objs, c)[0], Modify(f, Corroborate(Raised(objs[f].confidence, c.request.delta), entry)));
    LastIsLatest(objs[f].meta.corroborations + [entry]);
  }

  lemma RevokeDone(objs: Objects, c: Call, after: Objects)
    requires Leaves(objs, c, after) && c.request.RevokeCapability?
    ensures Does(objs, after, c)
  {
    var g := "grant_" + c.request.space + "_" + c.request.agent;
    assert g == GrantId(c.request.space, c.request.agent);
    OneEdit(objs, Plan(objs, c)[0], ModifyIfPresent(g, Deactivate(c.ts)));
  }

  lemma PlaceDone(objs: Objects, c: Call, after: Objects)
    requires Leaves(objs, c, after) && c.request.PlaceObject?
    ensures Does(objs, after, c)
  {
    OneEdit(objs, Plan(objs, c)[0], Modify(c.request.objectId, PlaceIn(c.request.destination)));
  }

  lemma RetractClaimDone(objs: Objects, c: Call, after: Objects)
    requires Leaves(objs, c, after) && c.request.RetractClaim?
    ensures Does(objs, after, c)
  {
    OneEdit(objs, Plan(objs, c)[0], Modify(c.request.claimId, CloseClaim(Retracted, Some(c.ts))));
  }

  lemma LinkedNow(o: Obj, link: Link)
    ensures Linked(o, Perform(o, LinkEvidence(link)), link)
  {
    LastIsLatest(AddNew(o.meta.evidenceLinks, link));
  }

  lemma AttachDone(objs: Objects, c: Call, after: Objects)
    requires Leaves(objs, c, after) && c.request.AttachEvidence?
    ensures Does(objs, after, c)
  {
    var claim, link := c.request.claimId, Link(c.request.evidenceId, c.request.relation);
    OneEdit(objs, Plan(objs, c)[0], Modify(claim, LinkEvidence(link)));
    LinkedNow(objs[claim], link);
  }

  lemma MarkedNow(o: Obj, accept: bool, marker: Marker)
    ensures Perform(o, Mark(accept, marker)) ==
            if accept then o.(meta := o.meta.(accepted := Some(marker)))
            else o.(meta := o.meta.(rejected := Some(marker)))
  {
  }

  lemma GovernDone(objs: Objects, c: Call, after: Objects)
    requires Leaves(objs, c, after) && c.request.GovernClaim?
    ensures Does(objs, after, c)
  {
    var claim, marker := c.request.claimId, Governed(c.who.agent, c.ts, c.request.reason);
    OneEdit(objs, Plan(objs, c)[0], Modify(claim, Mark(c.request.accept, marker)));
    MarkedNow(objs[claim], c.request.accept, marker);
  }

  /******* Calls of several edits *******/

  lemma FirstEdit(objs: Objects, e: Event, edit: Edit, others: seq<Edit>)
    requires Readable(e.op, e.payload) && Edits(e) == [edit] + others && Transacted(objs, [e]).ok
    ensures var a := ApplyEdit(objs, e.tenant, e.namespace, edit);
            a.ok && Transacted(objs, [e]) == ApplyEdits(a.objects, e.tenant, e.namespace, others)
  {
    FactBeliefs.SingleTransacted(objs, e);
    assert ([edit] + others)[1..] == others;
  }

  lemma ContestedNow(o: Obj, other: Id, note: Option<string>, ts: Time)
    ensures Contests(o, Perform(o, Contest(other, note, ts)), other, note, ts)
  {
    if note.Some? && note.value != "" {
      LastIsLatest(o.meta.contradictionNotes + [Note(other, note.value, ts)]);
    }
  }

  lemma ContradictDone(objs: Objects, c: Call, after: Objects)
    requires Leaves(objs, c, after) && c.request.Contradict?
    ensures Does(objs, after, c)
  {
    var a, b, note := c.request.factId, c.request.other, c.request.note;
    var e := Plan(objs, c)[0];
    var x, y := Modify(a, Contest(b, note, c.ts)), Modify(b, Contest(a, note, c.ts));
    assert Edits(e) == [x] + [y];
    FirstEdit(objs, e, x, [y]);
    assert [y][1..] == [];
    ContestedNow(objs[a], b, note, c.ts);
    ContestedNow(objs[b], a, note, c.ts);
  }

  function JoinEdits(duplicates: seq<Id>, canonical: Id, ts: Time): seq<Edit> {
    seq(|duplicates|, i requires 0 <= i < |duplicates| => Modify(duplicates[i], JoinInto(canonical, ts)))
  }

  ghost predicate AllJoined(before: Objects, after: Objects, duplicates: seq<Id>, canonical: Id, ts: Time) {
    && (forall d :: d in duplicates ==> d in before && d in after && Joined(before[d], after[d], canonical, ts))
    && OnlyAt(before, after, set d | d in duplicates)
  }

  lemma {:induction false} JoinsAll(objs: Objects, tenant: string, namespace: string, duplicates: seq<Id>,
                                    canonical: Id, ts: Time)
    requires ApplyEdits(objs, tenant, namespace, JoinEdits(duplicates, canonical, ts)).ok
    ensures AllJoined(objs, ApplyEdits(objs, tenant, namespace, JoinEdits(duplicates, canonical, ts)).objects,
                      duplicates, canonical, ts)
    decreases |duplicates|
  {
    var edits := JoinEdits(duplicates, canonical, ts);
    if duplicates != [] {
      var d, others := duplicates[0], duplicates[1..];
      assert edits[1..] == JoinEdits(others, canonical, ts);
      var mid := ApplyEdit(objs, tenant, namespace, edits[0]).objects;
      JoinsAll(mid, tenant, namespace, others, canonical, ts);
      JoinedMore(objs, mid, ApplyEdits(objs, tenant, namespace, edits).objects, d, others, canonical, ts);
      assert [d] + others == duplicates;
    }
  }

  lemma JoinedMore(before: Objects, mid: Objects, after: Objects, d: Id, others: seq<Id>, canonical: Id, ts: Time)
    requires d in before && mid == before[d := Perform(before[d], JoinInto(canonical, ts))]
    requires AllJoined(mid, after, others, canonical, ts)
    ensures AllJoined(before, after, [d] + others, canonical, ts)
  {
    assert Joined(before[d], mid[d], canonical, ts);
    forall x | x in [d] + others ensures x in before && x in after && Joined(before[x], after[x], canonical, ts) {
      if x in others {
        assert Joined(mid[x], after[x], canonical, ts);
      }
    }
  }

  lemma AbsorbedNow(o: Obj, names: seq<string>, duplicates: seq<Id>, aliases: seq<string>)
    requires aliases == AddAllNew(o.aliases, names) && AddAllNew(o.aliases, aliases) == aliases
    ensures Absorbed(o, Perform(o, Absorb(aliases, duplicates)), names, duplicates)
  {
    var merged := AddAllNew(o.meta.mergedFrom, duplicates);
    assert Perform(o, Absorb(aliases, duplicates)) ==
           o.(aliases := aliases, meta := o.meta.(mergedFrom := merged));
    AbsorbedAs(o, names, duplicates, aliases, merged);
  }

  lemma AbsorbedAs(o: Obj, names: seq<string>, duplicates: seq<Id>, aliases: seq<string>, merged: seq<Id>)
    requires aliases == AddAllNew(o.aliases, names) && merged == AddAllNew(o.meta.mergedFrom, duplicates)
    ensures Absorbed(o, o.(aliases := aliases, meta := o.meta.(mergedFrom := merged)), names, duplicates)
  {
    TakesTurns(o.aliases, names);
    TakesTurns(o.meta.mergedFrom, duplicates);
  }

  lemma TakesTurns<T(!new)>(xs: seq<T>, ys: seq<T>)
    ensures AddedInTurn(xs, ys, AddAllNew(xs, ys))
  {
    var at := AddsInTurn(xs, ys);
  }

  lemma MergeDone(objs: Objects, c: Call, after: Objects)
    requires Leaves(objs, c, after) && c.request.MergeEntities?
    ensures Does(objs, after, c)
  {
    var canonical, duplicates, names := c.request.canonical, c.request.duplicates, c.request.names;
    var e := Plan(objs, c)[0];
    var aliases := AddAllNew(objs[canonical].aliases, names);
    var x, others := Modify(canonical, Absorb(aliases, duplicates)), JoinEdits(duplicates, canonical, c.ts);
    assert Edits(e) == [x] + others;
    FirstEdit(objs, e, x, others);
    var mid := objs[canonical := Perform(objs[canonical], Absorb(aliases, duplicates))];
    JoinsAll(mid, e.tenant, e.namespace, duplicates, canonical, c.ts);
    AddAllAgain(objs[canonical].aliases, names);
    AbsorbedNow(objs[canonical], names, duplicates, aliases);
    MergedTogether(objs, mid, after, canonical, duplicates, c.ts);
  }

  lemma MergedTogether(before: Objects, mid: Objects, after: Objects, canonical: Id, duplicates: seq<Id>, ts: Time)
    requires canonical in before && canonical !in duplicates && canonical in mid
    requires mid == before[canonical := mid[canonical]] && AllJoined(mid, after, duplicates, canonical, ts)
    ensures canonical in after && after[canonical] == mid[canonical]
    ensures forall d :: d in duplicates ==> d in before && d in after && Joined(before[d], after[d], canonical, ts)
    ensures OnlyAt(before, after, {canonical} + set d | d in duplicates)
  {
    forall d | d in duplicates ensures d in before && d in after && Joined(before[d], after[d], canonical, ts) {
      assert Joined(mid[d], after[d], canonical, ts);
    }
  }

  function PutEdits(into: seq<Obj>): seq<Edit> {
    seq(|into|, i requires 0 <= i < |into| => Put(into[i]))
  }

  ghost predicate AllPut(before: Objects, after: Objects, into: seq<Obj>) {
    && (forall i :: 0 <= i < |into| ==> into[i].id in after && after[into[i].id] == into[i])
    && OnlyAt(before, after, set o | o in into :: o.id)
  }

  lemma {:induction false} PutsAll(objs: Objects, tenant: string, namespace: string, into: seq<Obj>)
    requires ApplyEdits(objs, tenant, namespace, PutEdits(into)).ok
    requires forall i, j :: 0 <= i < j < |into| ==> into[i].id != into[j].id
    ensures AllPut(objs, ApplyEdits(objs, tenant, namespace, PutEdits(into)).objects, into)
    decreases |into|
  {
    var edits := PutEdits(into);
    if into != [] {
      assert edits[1..] == PutEdits(into[1..]);
      var mid := ApplyEdit(objs, tenant, namespace, edits[0]).objects;
      PutsAll(mid, tenant, namespace, into[1..]);
      PutMore(objs, mid, ApplyEdits(objs, tenant, namespace, edits).objects, into);
    }
  }

  lemma PutMore(before: Objects, mid: Objects, after: Objects, into: seq<Obj>)
    requires into != [] && mid == before[into[0].id := into[0]] && AllPut(mid, after, into[1..])
    requires forall i, j :: 0 <= i < j < |into| ==> into[i].id != into[j].id
    ensures AllPut(before, after, into)
  {
    var others := into[1..];
    forall o | o in others ensures o.id != into[0].id && o in into {
      var i :| 0 <= i < |others| && others[i] == o;
      assert into[i + 1] == o;
    }
    forall i | 0 <= i < |into| ensures into[i].id in after && after[into[i].id] == into[i] {
      if i > 0 {
        assert others[i - 1] == into[i];
      } else {
        assert into[0].id !in set o | o in others :: o.id;
      }
    }
    assert into[0] in into;
  }

  function IdList(into: seq<Obj>): (ids: seq<Id>)
    ensures |ids| == |into| && forall i :: 0 <= i < |into| ==> ids[i] == into[i].id
  {
    seq(|into|, i requires 0 <= i < |into| => into[i].id)
  }

  lemma SplitEdits(e: Event, entity: Id, into: seq<Obj>)
    requires e.payload == Split(entity, into)
    ensures Edits(e) == [Modify(entity, SplitOff(IdList(into)))] + PutEdits(into)
  {
  }

  lemma SplitDone(objs: Objects, c: Call, after: Objects)
    requires Leaves(objs, c, after) && c.request.SplitEntity? && NewIds(c.request) !! objs.Keys
    ensures Does(objs, after, c)
  {
    var entity, into := c.request.entity, c.request.into;
    var mid := SplitFirst(objs, c, after);
    NoneThere(objs, c);
    SplitTogether(objs, mid, after, entity, into);
  }

  lemma SplitPlanned(objs: Objects, c: Call)
    requires Guard(objs, c) && c.request.SplitEntity?
    ensures Plan(objs, c) == [EventOf(c, EntitySplit, Split(c.request.entity, c.request.into))]
    ensures c.request.entity in objs
    ensures var into := c.request.into; forall i, j :: 0 <= i < j < |into| ==> into[i].id != into[j].id
  {
  }

  lemma SplitFirst(objs: Objects, c: Call, after: Objects) returns (mid: Objects)
    requires Leaves(objs, c, after) && c.request.SplitEntity?
    ensures var entity, into := c.request.entity, c.request.into;
            && entity in objs && AllPut(mid, after, into)
            && mid == objs[entity := objs[entity].(meta := objs[entity].meta.(splitInto := IdList(into)))]
  {
    SplitPlanned(objs, c);
    mid := SplitEvent(objs, EventOf(c, EntitySplit, Split(c.request.entity, c.request.into)), c.request.entity,
                      c.request.into, after);
  }

  lemma SplitEvent(objs: Objects, e: Event, entity: Id, into: seq<Obj>, after: Objects) returns (mid: Objects)
    requires e.op == EntitySplit && e.payload == Split(entity, into) && entity in objs
    requires forall i, j :: 0 <= i < j < |into| ==> into[i].id != into[j].id
    requires Transacted(objs, [e]) == Applied(after, true)
    ensures AllPut(mid, after, into)
    ensures mid == objs[entity := objs[entity].(meta := objs[entity].meta.(splitInto := IdList(into)))]
  {
    SplitEdits(e, entity, into);
    FirstEdit(objs, e, Modify(entity, SplitOff(IdList(into))), PutEdits(into));
    mid := objs[entity := Perform(objs[entity], SplitOff(IdList(into)))];
    PutsAll(mid, e.tenant, e.namespace, into);
  }

  lemma NoneThere(objs: Objects, c: Call)
    requires c.request.SplitEntity? && NewIds(c.request) !! objs.Keys
    ensures forall i :: 0 <= i < |c.request.into| ==> c.request.into[i].id !in objs
  {
    forall i | 0 <= i < |c.request.into| ensures c.request.into[i].id !in objs {
      assert c.request.into[i].id in NewIds(c.request);
    }
  }

  lemma SplitTogether(before: Objects, mid: Objects, after: Objects, entity: Id, into: seq<Obj>)
    requires entity in before && entity in mid && mid == before[entity := mid[entity]] && AllPut(mid, after, into)
    requires forall i :: 0 <= i < |into| ==> into[i].id !in before
    ensures entity in after && after[entity] == mid[entity]
    ensures OnlyAt(before, after, {entity} + set o | o in into :: o.id)
  {
    forall o | o in into ensures o.id != entity {
      var i :| 0 <= i < |into| && into[i] == o;
    }
    assert entity !in set o | o in into :: o.id;
  }

  /******* Calls of two events *******/

  lemma ReplaceDone(objs: Objects, c: Call, f: Id, reason: Option<string>, n: Obj, after: Objects)
    requires f in objs && objs[f].kind == Fact && objs[f].txTo.None? && n.id !in objs
    requires Transacted(objs, Replace(c, f, reason, n)) == Applied(after, true)
    ensures {f, n.id} <= after.Keys && OnlyAt(objs, after, {f, n.id})
    ensures after[f] == objs[f].(txTo := Some(c.ts), status := Superseded) && after[n.id] == n
  {
    var es := Replace(c, f, reason, n);
    var closed := CloseFact(Some(c.ts), Superseded);
    SingleEdit(objs, es[0]);
    assert Apply(objs, es[0]).ok && es[1..] == [es[1]];
    var mid := objs[f := Perform(objs[f], closed)];
    assert Apply(objs, es[0]).objects == mid;
    OneEdit(mid, es[1], Put(n));
  }

  lemma SupersedeDone(objs: Objects, c: Call, after: Objects)
    requires Leaves(objs, c, after) && c.request.Supersede? && c.request.newId !in objs && Keyed(objs)
    ensures Does(objs, after, c)
  {
    var f, newId, v := c.request.factId, c.request.newId, c.request.value;
    ReplaceDone(objs, c, f, c.request.reason, Replacement(objs[f], newId, c.ts, v, c.request.source), after);
  }

  lemma CorrectDone(objs: Objects, c: Call, after: Objects)
    requires Leaves(objs, c, after) && c.request.CorrectValidity? && c.request.newId !in objs && Keyed(objs)
    ensures Does(objs, after, c)
  {
    var f, newId, r := c.request.factId, c.request.newId, c.request;
    ReplaceDone(objs, c, f, r.reason,
                Corrected(objs[f], newId, c.ts, r.validFrom, r.validTo, r.source, r.reason), after);
  }

  /******* Served calls *******/

  lemma AllDone(objs: Objects, c: Call, after: Objects)
    requires Leaves(objs, c, after) && NewIds(c.request) !! objs.Keys && Keyed(objs)
    ensures Does(objs, after, c)
  {
    match c.request
    case Create(_, _) => PutDone(objs, c, after);
    case Supersede(_, _, _, _, _) => SupersedeDone(objs, c, after);
    case CorrectValidity(_, _, _, _, _, _) => CorrectDone(objs, c, after);
    case Retract(_, _) => RetractDone(objs, c, after);
    case Contradict(_, _, _) => ContradictDone(objs, c, after);
    case ConfirmFact(_, _, _) => ConfirmDone(objs, c, after);
    case MergeEntities(_, _, _) => MergeDone(objs, c, after);
    case SplitEntity(_, _) => SplitDone(objs, c, after);
    case GrantCapability(_, _, _) => PutDone(objs, c, after);
    case RevokeCapability(_, _) => RevokeDone(objs, c, after);
    case PlaceObject(_, _, _, _) => PlaceDone(objs, c, after);
    case RetractClaim(_, _) => RetractClaimDone(objs, c, after);
    case AttachEvidence(_, _, _) => AttachDone(objs, c, after);
    case GovernClaim(_, _, _) => GovernDone(objs, c, after);
  }

  lemma {:induction false} ServedInvariant(h: Hash, calls: seq<Call>)
    ensures Commits.Quiet(h, Serial.Served(h, calls))
    decreases |calls|
  {
    if calls == [] {
      Serial.StartSerene(h, 0);
    } else {
      var front, c := calls[..|calls| - 1], calls[|calls| - 1];
      ServedInvariant(h, front);
      Serial.ServeInvariant(h, Serial.Served(h, front), c);
    }
  }

  /** The call passes its check, and does not revoke a grant that another namespace wrote last. */
  predicate TakesEffect(s: System, c: Call) {
    Fresh(s.used, c.request) && Guard(s.objects, c) && !Commits.RegrantedElsewhere(s.objects, c)
  }

  lemma EffectIsAccepted(h: Hash, s: System, c: Call)
    requires Commits.Quiet(h, s)
    ensures Serial.Accepted(s, c) <==> TakesEffect(s, c)
  {
    if Fresh(s.used, c.request) && Guard(s.objects, c) {
      Commits.CheckedCallCommits(s.objects, s.used, c);
    }
  }

  lemma AcceptedDoes(h: Hash, s: System, c: Call)
    requires Commits.Quiet(h, s) && Serial.Accepted(s, c)
    ensures Does(s.objects, Transacted(s.objects, Plan(s.objects, c)).objects, c)
    ensures |Plan(s.objects, c)| > 0
  {
    NewIdsAreNew(s.objects, s.used, c);
    AllDone(s.objects, c, Transacted(s.objects, Plan(s.objects, c)).objects);
  }

  /** Serving one more call does what its request asks for, and writes it down, or else changes nothing. */
  lemma ServedDoes(h: Hash, calls: seq<Call>, c: Call)
    ensures var s, later := Serial.Served(h, calls), Serial.Served(h, calls + [c]);
            if TakesEffect(s, c) then Does(s.objects, later.objects, c) && |later.ledger| > |s.ledger|
            else later.objects == s.objects && later.ledger == s.ledger
  {
    var s := Serial.Served(h, calls);
    ServedInvariant(h, calls);
    Serial.ServedNext(h, calls, c);
    Serial.ServeInvariant(h, s, c);
    EffectIsAccepted(h, s, c);
    if TakesEffect(s, c) {
      AcceptedDoes(h, s, c);
      ExtendedHolds(h, s.ledger, Plan(s.objects, c));
    }
  }

  /******* What is written down *******/

  /** Who did it, for whom, where and when. */
  predicate Signed(e: Event, c: Call, op: Op) {
    && e.op == op && e.ts == c.ts && e.tenant == c.who.tenant && e.namespace == c.who.namespace
    && e.actor == c.who.agent && e.principal == c.who.principal
  }

  predicate WritesOne(es: seq<Event>, c: Call, op: Op, p: Payload) {
    |es| == 1 && Signed(es[0], c, op) && es[0].payload == p
  }

  /** A replacement is written as the closing of the old fact and the new fact, in this order. */
  predicate WritesTwo(es: seq<Event>, c: Call, f: Id, reason: Option<string>, n: Obj) {
    && |es| == 2 && Signed(es[0], c, FactSuperseded) && Signed(es[1], c, FactAsserted)
    && es[0].payload == FactClosed(f, Some(c.ts), Superseded, reason, Some(n.id)) && es[1].payload == Whole(n)
  }

  /** The records that a call writes, given the objects before and after it. */
  ghost predicate Writes(before: Objects, after: Objects, c: Call, es: seq<Event>)
    requires Does(before, after, c)
  {
    match c.request
    case Create(op, obj) => WritesOne(es, c, op, Whole(obj))
    case Supersede(f, newId, _, _, reason) => WritesTwo(es, c, f, reason, after[newId])
    case CorrectValidity(f, newId, _, _, _, reason) => WritesTwo(es, c, f, reason, after[newId])
    case Retract(f, reason) =>
      WritesOne(es, c, FactRetracted, FactClosed(f, Some(c.ts), Retracted, reason, None))
    case Contradict(a, b, note) => WritesOne(es, c, ContradictionRecorded, Contradiction(a, b, note))
    case ConfirmFact(f, backing, _) =>
      WritesOne(es, c, FactConfirmed, FactConfirm(f, Some(backing), after[f].confidence))
    case MergeEntities(canonical, duplicates, names) =>
      && |es| == 1 && Signed(es[0], c, EntityMerged) && es[0].payload.Merge?
      && es[0].payload.canonical == canonical && es[0].payload.duplicates == duplicates
      && AddedInTurn(before[canonical].aliases, names, es[0].payload.mergeAliases)
    case SplitEntity(entity, into) => WritesOne(es, c, EntitySplit, Split(entity, into))
    case GrantCapability(_, _, grant) => WritesOne(es, c, CapabilityGranted, Whole(grant))
    case RevokeCapability(space, agent) =>
      WritesOne(es, c, CapabilityRevoked, Revoke("grant_" + space + "_" + agent, space, agent))
    case PlaceObject(promote, placed, destination, reason) =>
      WritesOne(es, c, if promote then KnowledgePromoted else KnowledgeShared,
                Place(placed, destination, before[placed].spaces, c.who.agent, reason))
    case RetractClaim(claim, reason) =>
      WritesOne(es, c, ClaimRetracted, ClaimClosed(claim, Retracted, Some(c.ts), reason))
    case AttachEvidence(claim, evidence, relation) =>
      WritesOne(es, c, EvidenceAttached, Attach(claim, evidence, relation))
    case GovernClaim(accept, claim, reason) =>
      WritesOne(es, c, if accept then ClaimAccepted else ClaimRejected, Govern(claim, reason))
  }

  lemma ReplacementWritten(objs: Objects, c: Call, after: Objects)
    requires Leaves(objs, c, after) && Keyed(objs) && NewIds(c.request) !! objs.Keys && Does(objs, after, c)
    requires c.request.Supersede? || c.request.CorrectValidity?
    ensures Writes(objs, after, c, Plan(objs, c))
  {
    var f, newId, r := c.request.factId, c.request.newId, c.request;
    var n := if r.Supersede? then Replacement(objs[f], newId, c.ts, r.value, r.source)
             else Corrected(objs[f], newId, c.ts, r.validFrom, r.validTo, r.source, r.reason);
    ReplaceDone(objs, c, f, r.reason, n, after);
  }

  lemma MergeWritten(objs: Objects, c: Call, after: Objects)
    requires Leaves(objs, c, after) && Does(objs, after, c) && c.request.MergeEntities?
    ensures Writes(objs, after, c, Plan(objs, c))
  {
    TakesTurns(objs[c.request.canonical].aliases, c.request.names);
  }

  lemma RevocationWritten(objs: Objects, c: Call, after: Objects)
    requires Leaves(objs, c, after) && Does(objs, after, c) && c.request.RevokeCapability?
    ensures Writes(objs, after, c, Plan(objs, c))
  {
    assert "grant_" + c.request.space + "_" + c.request.agent == GrantId(c.request.space, c.request.agent);
  }

  lemma PlanWritten(objs: Objects, c: Call, after: Objects)
    requires Leaves(objs, c, after) && Keyed(objs) && NewIds(c.request) !! objs.Keys && Does(objs, after, c)
    ensures Writes(objs, after, c, Plan(objs, c))
  {
    if c.request.Supersede? || c.request.CorrectValidity? {
      ReplacementWritten(objs, c, after);
    } else if c.request.MergeEntities? {
      MergeWritten(objs, c, after);
    } else if c.request.RevokeCapability? {
      RevocationWritten(objs, c, after);
    } else {
      OthersWritten(objs, c, after);
    }
  }

  lemma OthersWritten(objs: Objects, c: Call, after: Objects)
    requires Leaves(objs, c, after) && Does(objs, after, c)
    requires !c.request.Supersede? && !c.request.CorrectValidity? && !c.request.MergeEntities?
    requires !c.request.RevokeCapability?
    ensures Writes(objs, after, c, Plan(objs, c))
  {
  }

  function NewEvents(ledger: seq<Record>, longer: seq<Record>): (es: seq<Event>)
    requires ledger <= longer
    ensures |es| == |longer| - |ledger| && forall i :: 0 <= i < |es| ==> es[i] == longer[|ledger| + i].event
  {
    seq(|longer| - |ledger|, i requires 0 <= i < |longer| - |ledger| => longer[|ledger| + i].event)
  }

  lemma NewEventsAre(ledger: seq<Record>, longer: seq<Record>, es: seq<Event>)
    requires ledger <= longer && |longer| == |ledger| + |es|
    requires forall i :: 0 <= i < |es| ==> longer[|ledger| + i].event == es[i]
    ensures NewEvents(ledger, longer) == es
  {
  }

  lemma AcceptedWrites(h: Hash, s: System, c: Call, after: Objects)
    requires Commits.Quiet(h, s) && Serial.Accepted(s, c) && after == Transacted(s.objects, Plan(s.objects, c)).objects
    ensures Does(s.objects, after, c) && Writes(s.objects, after, c, Plan(s.objects, c))
  {
    AcceptedDoes(h, s, c);
    NewIdsAreNew(s.objects, s.used, c);
    PlanWritten(s.objects, c, after);
  }

  lemma ServePlan(h: Hash, s: System, later: System, c: Call)
    requires Commits.Quiet(h, s) && Serial.Accepted(s, c) && later == Serial.Serve(h, s, c)
    ensures later.objects == Transacted(s.objects, Plan(s.objects, c)).objects
    ensures s.ledger <= later.ledger && NewEvents(s.ledger, later.ledger) == Plan(s.objects, c)
  {
    Serial.ServeInvariant(h, s, c);
    ExtendedEvents(h, s.ledger, later.ledger, Plan(s.objects, c));
  }

  lemma ExtendedEvents(h: Hash, ledger: seq<Record>, longer: seq<Record>, es: seq<Event>)
    requires longer == Extended(h, ledger, es)
    ensures ledger <= longer && NewEvents(ledger, longer) == es
  {
    ExtendedHolds(h, ledger, es);
    NewEventsAre(ledger, longer, es);
  }

  lemma ServeWrites(h: Hash, s: System, later: System, c: Call)
    requires Commits.Quiet(h, s) && Serial.Accepted(s, c) && later == Serial.Serve(h, s, c)
    ensures Does(s.objects, later.objects, c) && s.ledger <= later.ledger
    ensures Writes(s.objects, later.objects, c, NewEvents(s.ledger, later.ledger))
  {
    ServePlan(h, s, later, c);
    AcceptedWrites(h, s, c, later.objects);
  }

  /** A call that takes effect writes down what was asked, by whom, and what came of it. */
  lemma ServedWrites(h: Hash, calls: seq<Call>, c: Call)
    requires TakesEffect(Serial.Served(h, calls), c)
    ensures var s, later := Serial.Served(h, calls), Serial.Served(h, calls + [c]);
            && Does(s.objects, later.objects, c) && s.ledger <= later.ledger
            && Writes(s.objects, later.objects, c, NewEvents(s.ledger, later.ledger))
  {
    ServedInvariant(h, calls);
    Serial.ServedNext(h, calls, c);
    EffectIsAccepted(h, Serial.Served(h, calls), c);
    ServeWrites(h, Serial.Served(h, calls), Serial.Served(h, calls + [c]), c);
  }

  /******* What is refused *******/

  predicate Here(objs: Objects, who: Who, id: Id) {
    id in objs && objs[id].tenant == who.tenant && objs[id].namespace == who.namespace
  }

  predicate OpenHere(objs: Objects, who: Who, f: Id) {
    Here(objs, who, f) && objs[f].kind == Fact && objs[f].txTo.None?
  }

  predicate SpaceThere(objs: Objects, who: Who, s: Id) {
    s in objs && objs[s].kind == Space && objs[s].tenant == who.tenant
  }

  predicate ClaimHere(objs: Objects, who: Who, c: Id) {
    Here(objs, who, c) && objs[c].kind == Claim
  }

  /** What every request must find: the objects it names in the caller's scope, of the right kind, open when it would
      close them, and not itself as its own other. */
  predicate Finds(objs: Objects, c: Call) {
    match c.request
    case Create(_, _) => true
    case Supersede(f, _, _, source, _) => OpenHere(objs, c.who, f) && (source.Some? ==> Here(objs, c.who, source.value))
    case CorrectValidity(f, _, _, _, source, _) =>
      OpenHere(objs, c.who, f) && (source.Some? ==> Here(objs, c.who, source.value))
    case Retract(f, _) => OpenHere(objs, c.who, f)
    case Contradict(a, b, _) => Here(objs, c.who, a) && Here(objs, c.who, b) && a != b
    case ConfirmFact(f, backing, delta) =>
      Here(objs, c.who, f) && objs[f].kind == Fact && Here(objs, c.who, backing) && delta >= 0.0
    case MergeEntities(canonical, duplicates, _) =>
      Here(objs, c.who, canonical) && duplicates != [] && canonical !in duplicates &&
      forall d :: d in duplicates ==> Here(objs, c.who, d)
    case SplitEntity(entity, into) => Here(objs, c.who, entity) && into != []
    case GrantCapability(space, _, _) => SpaceThere(objs, c.who, space)
    case RevokeCapability(space, _) => SpaceThere(objs, c.who, space)
    case PlaceObject(_, placed, destination, _) => Here(objs, c.who, placed) && SpaceThere(objs, c.who, destination)
    case RetractClaim(claim, _) => ClaimHere(objs, c.who, claim) && objs[claim].status == Open
    case AttachEvidence(claim, evidence, _) =>
      ClaimHere(objs, c.who, claim) && Here(objs, c.who, evidence) && objs[evidence].kind == Evidence
    case GovernClaim(_, claim, _) => ClaimHere(objs, c.who, claim)
  }

  lemma GuardFinds(objs: Objects, c: Call)
    requires Guard(objs, c)
    ensures c.allowed && Finds(objs, c)
  {
    if c.request.MergeEntities? {
      forall d | d in c.request.duplicates ensures Here(objs, c.who, d) {
        var i :| 0 <= i < |c.request.duplicates| && c.request.duplicates[i] == d;
        assert RefInScope(objs, c.who, c.request.duplicates[i]);
      }
    }
  }

  /** A call that is not allowed, or does not find what it must, changes nothing. */
  lemma RefusedChangesNothing(h: Hash, calls: seq<Call>, c: Call)
    requires !c.allowed || !Finds(Serial.Served(h, calls).objects, c)
    ensures var s, later := Serial.Served(h, calls), Serial.Served(h, calls + [c]);
            later.objects == s.objects && later.ledger == s.ledger
  {
    ServedDoes(h, calls, c);
    if Guard(Serial.Served(h, calls).objects, c) {
      GuardFinds(Serial.Served(h, calls).objects, c);
      assert false;
    }
  }
}
