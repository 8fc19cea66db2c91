/** The export of one scope: which records it holds, and when it can be imported again. */
module Exports {
  import opened Model
  import opened Projection
  import opened Ledger
  import opened Operations
  import opened Live
  import opened Scopes
  import Confirmations
  import Runs
  import Serial
  import TimeTravel

  /******* The selected records *******/

  /** The object a record pertains to. The key that names a claim in the records about its retraction, its
      evidence and its governance is not among those looked up. */
  function EventObject(p: Payload): Option<Id> {
    match p
    case Whole(o) => Some(o.id)
    case FactClosed(f, _, _, _, _) => Some(f)
    case FactConfirm(f, _, _) => Some(f)
    case Contradiction(a, _, _) => Some(a)
    case Place(x, _, _, _, _) => Some(x)
    case Split(entity, _) => Some(entity)
    case Merge(canonical, _, _) => Some(canonical)
    case _ => None
  }

  /** Records of the caller's scope about objects that it may read now. */
  predicate Exported(who: Who, readable: set<Id>, r: Record) {
    && r.event.tenant == who.tenant && r.event.namespace == who.namespace
    && EventObject(r.event.payload).Some? && EventObject(r.event.payload).value in readable
  }

  function Keeps(who: Who, readable: set<Id>): Record -> bool {
    (r: Record) => Exported(who, readable, r)
  }

  /** The selected records, sealed into a chain of their own. */
  method ScopedExport(h: Hash, ledger: seq<Record>, who: Who, readable: set<Id>) returns (resealed: seq<Record>)
    ensures Chain(h, resealed)
    ensures Events(resealed) == Events(Select(ledger, Keeps(who, readable)))
  {
    var selected := [];
    for i := 0 to |ledger|
      invariant selected == Select(ledger[..i], Keeps(who, readable))
    {
      assert ledger[..i + 1][..i] == ledger[..i];
      if Exported(who, readable, ledger[i]) {
        selected := selected + [ledger[i]];
      }
    }
    assert ledger[..|ledger|] == ledger;
    resealed := Reseal(h, selected);
  }

  lemma EventsFront(ledger: seq<Record>)
    requires ledger != []
    ensures var n := |ledger| - 1;
            && |Events(ledger)| == n + 1 && Events(ledger)[n] == ledger[n].event
            && Events(ledger[..n]) == Events(ledger)[..n]
  {
  }

  /** Replay looks at events only. */
  lemma {:induction false} ReplayByEvents(a: seq<Record>, b: seq<Record>)
    requires Events(a) == Events(b)
    ensures Replay(a) == Replay(b)
    decreases |a|
  {
    assert |a| == |Events(a)| == |Events(b)| == |b|;
    if a != [] {
      EventsFront(a);
      EventsFront(b);
      ReplayByEvents(a[..|a| - 1], b[..|b| - 1]);
    }
  }

  /******* Records of one scope, replayed alone *******/

  ghost predicate AllHome(objs: Objects, who: Who) {
    forall id :: id in objs ==> InScope(objs[id], who.tenant, who.namespace)
  }

  predicate PutsHome(es: seq<Edit>, who: Who) {
    forall k :: 0 <= k < |es| && es[k].Put? ==> InScope(es[k].obj, who.tenant, who.namespace)
  }

  predicate Finds(objs: Objects, e: Edit) {
    e.Modify? ==> e.id in objs
  }

  predicate PutAmong(es: seq<Edit>, id: Id) {
    exists k :: 0 <= k < |es| && es[k].Put? && es[k].obj.id == id
  }

  lemma HomeEdit(objs: Objects, who: Who, e: Edit)
    requires Keyed(objs) && AllHome(objs, who) && (e.Put? ==> InScope(e.obj, who.tenant, who.namespace))
    ensures var a := ApplyEdit(objs, who.tenant, who.namespace, e);
            && (a.ok <==> Finds(objs, e))
            && Keyed(a.objects) && AllHome(a.objects, who)
            && (a.ok ==> forall id :: id in a.objects <==> id in objs || (e.Put? && e.obj.id == id))
  {
  }

  lemma {:induction false} HomeEdits(objs: Objects, who: Who, es: seq<Edit>)
    requires Keyed(objs) && AllHome(objs, who) && PutsLast(es) && PutsHome(es, who)
    ensures var a := ApplyEdits(objs, who.tenant, who.namespace, es);
            && (a.ok <==> forall k :: 0 <= k < |es| ==> Finds(objs, es[k]))
            && (a.ok ==> Keyed(a.objects) && AllHome(a.objects, who) &&
                         forall id :: id in a.objects <==> id in objs || PutAmong(es, id))
    decreases |es|
  {
    if es != [] {
      HomeEdit(objs, who, es[0]);
      var a := ApplyEdit(objs, who.tenant, who.namespace, es[0]);
      if a.ok {
        HomeEdits(a.objects, who, es[1..]);
        forall k | 0 <= k < |es[1..]| ensures Finds(a.objects, es[1..][k]) <==> Finds(objs, es[k + 1]) {
          assert es[k + 1].Modify? ==> !es[0].Put?;
        }
        FindsSplit(objs, a.objects, es);
        forall id ensures PutAmong(es, id) <==> (es[0].Put? && es[0].obj.id == id) || PutAmong(es[1..], id) {
          PutAmongSplit(es, id);
        }
      } else {
        assert !Finds(objs, es[0]);
      }
    }
  }

  lemma FindsSplit(objs: Objects, mid: Objects, es: seq<Edit>)
    requires es != [] && Finds(objs, es[0])
    requires forall k :: 0 <= k < |es[1..]| ==> (Finds(mid, es[1..][k]) <==> Finds(objs, es[k + 1]))
    ensures (forall k :: 0 <= k < |es| ==> Finds(objs, es[k])) <==>
            (forall k :: 0 <= k < |es[1..]| ==> Finds(mid, es[1..][k]))
  {
    if forall k :: 0 <= k < |es[1..]| ==> Finds(mid, es[1..][k]) {
      forall k | 0 <= k < |es| ensures Finds(objs, es[k]) {
        if k > 0 {
          assert Finds(mid, es[1..][k - 1]);
        }
      }
    }
  }

  lemma PutAmongSplit(es: seq<Edit>, id: Id)
    requires es != []
    ensures PutAmong(es, id) <==> (es[0].Put? && es[0].obj.id == id) || PutAmong(es[1..], id)
  {
    if PutAmong(es[1..], id) {
      var k :| 0 <= k < |es[1..]| && es[1..][k].Put? && es[1..][k].obj.id == id;
      assert es[k + 1] == es[1..][k];
    }
    if PutAmong(es, id) && !(es[0].Put? && es[0].obj.id == id) {
      var k :| 0 <= k < |es| && es[k].Put? && es[k].obj.id == id;
      assert es[1..][k - 1] == es[k];
    }
  }

  predicate Modifies(e: Event, id: Id) {
    exists k :: 0 <= k < |Edits(e)| && Edits(e)[k].Modify? && Edits(e)[k].id == id
  }

  predicate HomeRecord(e: Event, who: Who) {
    e.tenant == who.tenant && e.namespace == who.namespace && Readable(e.op, e.payload) && PutsHome(Edits(e), who)
  }

  /** On objects of its own scope a record applies exactly when it finds every object it changes. */
  lemma HomeApplies(objs: Objects, who: Who, e: Event)
    requires Keyed(objs) && AllHome(objs, who) && HomeRecord(e, who)
    ensures var a := Apply(objs, e);
            && (a.ok <==> forall id :: Modifies(e, id) ==> id in objs)
            && (a.ok ==> Keyed(a.objects) && AllHome(a.objects, who) &&
                         forall id :: id in a.objects <==> id in objs || Puts(e, id))
  {
    EventPutsLast(e);
    HomeEdits(objs, who, Edits(e));
    if forall id :: Modifies(e, id) ==> id in objs {
      forall k | 0 <= k < |Edits(e)| ensures Finds(objs, Edits(e)[k]) {
        assert Edits(e)[k].Modify? ==> Modifies(e, Edits(e)[k].id);
      }
    }
    assert forall id :: Puts(e, id) <==> PutAmong(Edits(e), id);
  }

  predicate KeptMaker(keep: Record -> bool, r: Record, id: Id) {
    keep(r) && Puts(r.event, id)
  }

  /** A selected record made this object. */
  predicate MakerKept(ledger: seq<Record>, keep: Record -> bool, id: Id) {
    exists j :: 0 <= j < |ledger| && KeptMaker(keep, ledger[j], id)
  }

  /** Whatever the record changes was made by a selected record before it. */
  ghost predicate CarriedAt(ledger: seq<Record>, keep: Record -> bool, i: nat)
    requires i < |ledger|
  {
    keep(ledger[i]) ==> forall id :: Modifies(ledger[i].event, id) ==> MakerKept(ledger[..i], keep, id)
  }

  lemma AnySnoc(ledger: seq<Record>, good: Record -> bool)
    requires ledger != []
    ensures var n := |ledger| - 1;
            (exists j :: 0 <= j < |ledger| && good(ledger[j])) <==>
            (exists j :: 0 <= j < n && good(ledger[..n][j])) || good(ledger[n])
  {
    var n := |ledger| - 1;
    if j :| 0 <= j < n && good(ledger[..n][j]) {
      assert good(ledger[j]);
    }
    if j :| 0 <= j < |ledger| && good(ledger[j]) {
      assert j < n ==> good(ledger[..n][j]);
    }
  }

  lemma MakerKeptSnoc(ledger: seq<Record>, keep: Record -> bool, id: Id)
    requires ledger != []
    ensures var n := |ledger| - 1;
            MakerKept(ledger, keep, id) <==> MakerKept(ledger[..n], keep, id) || KeptMaker(keep, ledger[n], id)
  {
    var n, good := |ledger| - 1, (r: Record) => KeptMaker(keep, r, id);
    AnySnoc(ledger, good);
    assert MakerKept(ledger, keep, id) <==> exists j :: 0 <= j < |ledger| && good(ledger[j]);
    assert MakerKept(ledger[..n], keep, id) <==> exists j :: 0 <= j < n && good(ledger[..n][j]);
  }

  lemma CarriedSnoc(ledger: seq<Record>, keep: Record -> bool)
    requires ledger != []
    ensures var n := |ledger| - 1;
            (forall i :: 0 <= i < |ledger| ==> CarriedAt(ledger, keep, i)) <==>
            (forall i :: 0 <= i < n ==> CarriedAt(ledger[..n], keep, i)) && CarriedAt(ledger, keep, n)
  {
    var n := |ledger| - 1;
    forall i | 0 <= i < n ensures CarriedAt(ledger, keep, i) <==> CarriedAt(ledger[..n], keep, i) {
      assert ledger[..n][..i] == ledger[..i] && ledger[..n][i] == ledger[i];
    }
    if (forall i :: 0 <= i < n ==> CarriedAt(ledger[..n], keep, i)) && CarriedAt(ledger, keep, n) {
      forall i | 0 <= i < |ledger| ensures CarriedAt(ledger, keep, i) {
        if i < n {
          assert CarriedAt(ledger[..n], keep, i);
        }
      }
    }
  }

  /** Selected records of one scope replay alone exactly when each finds what it changes. */
  lemma {:induction false} SelectReplays(ledger: seq<Record>, keep: Record -> bool, who: Who)
    requires forall i :: 0 <= i < |ledger| && keep(ledger[i]) ==> HomeRecord(ledger[i].event, who)
    ensures Replay(Select(ledger, keep)).Some? <==> forall i :: 0 <= i < |ledger| ==> CarriedAt(ledger, keep, i)
    ensures Replay(Select(ledger, keep)).Some? ==>
              var objs := Replay(Select(ledger, keep)).value;
              Keyed(objs) && AllHome(objs, who) && forall id :: id in objs <==> MakerKept(ledger, keep, id)
    decreases |ledger|
  {
    if ledger != [] {
      var n := |ledger| - 1;
      var front := ledger[..n];
      forall i | 0 <= i < n && keep(front[i]) ensures HomeRecord(front[i].event, who) {
        assert front[i] == ledger[i];
      }
      SelectReplays(front, keep, who);
      CarriedSnoc(ledger, keep);
      SelectStep(ledger, keep, who);
    }
  }

  lemma SelectStep(ledger: seq<Record>, keep: Record -> bool, who: Who)
    requires ledger != [] && (keep(ledger[|ledger| - 1]) ==> HomeRecord(ledger[|ledger| - 1].event, who))
    requires Replay(Select(ledger[..|ledger| - 1], keep)).Some? ==>
               var objs := Replay(Select(ledger[..|ledger| - 1], keep)).value;
               Keyed(objs) && AllHome(objs, who) &&
               forall id :: id in objs <==> MakerKept(ledger[..|ledger| - 1], keep, id)
    ensures Replay(Select(ledger, keep)).Some? <==>
            Replay(Select(ledger[..|ledger| - 1], keep)).Some? && CarriedAt(ledger, keep, |ledger| - 1)
    ensures Replay(Select(ledger, keep)).Some? ==>
              var objs := Replay(Select(ledger, keep)).value;
              Keyed(objs) && AllHome(objs, who) && forall id :: id in objs <==> MakerKept(ledger, keep, id)
  {
    var n := |ledger| - 1;
    var rest, r := Select(ledger[..n], keep), ledger[n];
    forall id ensures MakerKept(ledger, keep, id) <==>
                      MakerKept(ledger[..n], keep, id) || KeptMaker(keep, r, id)
    {
      MakerKeptSnoc(ledger, keep, id);
    }
    if keep(r) {
      ReplaySnoc(rest, r);
      if Replay(rest).Some? {
        HomeApplies(Replay(rest).value, who, r.event);
      }
    }
  }

  /******* Exports of live ledgers *******/

  /** What the caller may read: no spaces and no grants. */
  ghost predicate ReadableNow(objs: Objects, readable: set<Id>) {
    forall id :: id in readable ==> id in objs && objs[id].kind != Space && objs[id].kind != Grant
  }

  lemma NextRecord(ledger: seq<Record>, r: Record)
    requires LiveLedger(ledger + [r])
    ensures Replay(ledger).Some? && Tidy(Replay(ledger).value)
    ensures Proper(Replay(ledger).value, r.event) && Apply(Replay(ledger).value, r.event).ok
  {
    assert (ledger + [r])[..|ledger|] == ledger;
    LiveTidy(ledger);
  }

  lemma LiveRecord(ledger: seq<Record>, i: nat)
    requires LiveLedger(ledger) && i < |ledger|
    ensures Replay(ledger[..i]).Some? && Tidy(Replay(ledger[..i]).value)
    ensures Proper(Replay(ledger[..i]).value, ledger[i].event) && Apply(Replay(ledger[..i]).value, ledger[i].event).ok
  {
    LiveUpTo(ledger, i);
    NextRecord(ledger[..i], ledger[i]);
  }

  lemma LiveUpTo(ledger: seq<Record>, i: nat)
    requires LiveLedger(ledger) && i < |ledger|
    ensures LiveLedger(ledger[..i] + [ledger[i]])
  {
    LivePrefix(ledger, i + 1);
    UpTo(ledger, i);
  }

  lemma UpTo<T>(s: seq<T>, i: nat)
    requires i < |s|
    ensures s[..i + 1] == s[..i] + [s[i]]
  {
  }

  lemma AppliedIsHome(objs: Objects, e: Event, who: Who)
    requires Apply(objs, e).ok && e.tenant == who.tenant && e.namespace == who.namespace
    ensures HomeRecord(e, who)
  {
    forall k | 0 <= k < |Edits(e)| && Edits(e)[k].Put? ensures InScope(Edits(e)[k].obj, who.tenant, who.namespace) {
      PutInScope(objs, e.tenant, e.namespace, Edits(e), k);
    }
  }

  /** A record that applies finds what it changes. */
  lemma {:induction false} ModifiedIsHeld(objs: Objects, tenant: string, namespace: string, es: seq<Edit>, k: nat)
    requires ApplyEdits(objs, tenant, namespace, es).ok && PutsLast(es) && k < |es| && es[k].Modify?
    ensures es[k].id in objs
    decreases |es|
  {
    if k > 0 {
      assert !es[0].Put?;
      ModifiedIsHeld(ApplyEdit(objs, tenant, namespace, es[0]).objects, tenant, namespace, es[1..], k - 1);
    }
  }

  /** What an exported record makes is no grant, and is made only once. */
  lemma MadeOnce(ledger: seq<Record>, who: Who, readable: set<Id>, j: nat, id: Id)
    requires LiveLedger(ledger) && Replay(ledger).Some? && ReadableNow(Replay(ledger).value, readable)
    requires j < |ledger| && Exported(who, readable, ledger[j]) && Puts(ledger[j].event, id)
    ensures Replay(ledger[..j]).Some? && id !in Replay(ledger[..j]).value
  {
    LiveRecord(ledger, j);
    var objs, e := Replay(ledger[..j]).value, ledger[j].event;
    if e.op == CapabilityGranted {
      GrantStays(ledger, j);
      assert false;
    } else {
      Runs.CreatedIsNew(objs, e, id);
    }
  }

  lemma GrantIsPut(objs: Objects, e: Event)
    requires Proper(objs, e) && Apply(objs, e).ok && e.op == CapabilityGranted
    ensures e.payload.Whole? && Apply(objs, e).objects == objs[e.payload.obj.id := e.payload.obj]
    ensures e.payload.obj.kind == Grant
  {
    SingleEdit(objs, e);
  }

  /** A granted object is a grant ever after. */
  lemma GrantStays(ledger: seq<Record>, j: nat)
    requires LiveLedger(ledger) && j < |ledger| && ledger[j].event.op == CapabilityGranted
    ensures Replay(ledger).Some? && ledger[j].event.payload.Whole?
    ensures var id := ledger[j].event.payload.obj.id;
            id in Replay(ledger).value && Replay(ledger).value[id].kind == Grant
  {
    LiveRecord(ledger, j);
    GrantIsPut(Replay(ledger[..j]).value, ledger[j].event);
    var upto := ledger[..j + 1];
    WriteOnce(ledger, j + 1);
    assert upto[..j] == ledger[..j] && upto[j] == ledger[j];
    var id := ledger[j].event.payload.obj.id;
    assert Evolves(Replay(upto).value[id], Replay(ledger).value[id]);
  }

  /** In a live ledger the record that made an object comes before every record that changes it. */
  lemma MakerIsEarlier(ledger: seq<Record>, who: Who, readable: set<Id>, i: nat, id: Id)
    requires LiveLedger(ledger) && Replay(ledger).Some? && ReadableNow(Replay(ledger).value, readable)
    requires i < |ledger| && Modifies(ledger[i].event, id)
    requires MakerKept(ledger, Keeps(who, readable), id)
    ensures MakerKept(ledger[..i], Keeps(who, readable), id)
  {
    var keep := Keeps(who, readable);
    var j :| 0 <= j < |ledger| && KeptMaker(keep, ledger[j], id);
    if j < i {
      assert KeptMaker(keep, ledger[..i][j], id);
    } else {
      MadeOnce(ledger, who, readable, j, id);
      ModifiedBefore(ledger, i, j, id);
    }
  }

  lemma ModifiedAt(ledger: seq<Record>, i: nat, id: Id)
    requires LiveLedger(ledger) && i < |ledger| && Modifies(ledger[i].event, id)
    ensures Replay(ledger[..i]).Some? && id in Replay(ledger[..i]).value
  {
    LiveRecord(ledger, i);
    var e := ledger[i].event;
    var k :| 0 <= k < |Edits(e)| && Edits(e)[k].Modify? && Edits(e)[k].id == id;
    EventPutsLast(e);
    ModifiedIsHeld(Replay(ledger[..i]).value, e.tenant, e.namespace, Edits(e), k);
  }

  lemma HeldLater(ledger: seq<Record>, early: seq<Record>, id: Id)
    requires LiveLedger(ledger) && early <= ledger && Replay(early).Some? && id in Replay(early).value
    ensures Replay(ledger).Some? && id in Replay(ledger).value
  {
    assert ledger[..|early|] == early;
    LiveTidy(ledger);
    ReplayGrows(ledger, |early|);
  }

  lemma ModifiedBefore(ledger: seq<Record>, i: nat, j: nat, id: Id)
    requires LiveLedger(ledger) && i <= j < |ledger| && Modifies(ledger[i].event, id)
    ensures Replay(ledger[..j]).Some? && id in Replay(ledger[..j]).value
  {
    ModifiedAt(ledger, i, id);
    LivePrefix(ledger, j);
    assert ledger[..i] <= ledger[..j];
    HeldLater(ledger[..j], ledger[..i], id);
  }

  /** Every object that an exported record changes was made by an exported record. */
  ghost predicate SelfContained(ledger: seq<Record>, who: Who, readable: set<Id>) {
    forall i, id :: 0 <= i < |ledger| && Exported(who, readable, ledger[i]) && Modifies(ledger[i].event, id) ==>
      MakerKept(ledger, Keeps(who, readable), id)
  }

  /** The export of a scope verifies always, and replays (so that an empty engine accepts it) if and only if every
      object that an exported record changes was made by an exported record. */
  lemma ScopedExportReplaysIff(h: Hash, ledger: seq<Record>, who: Who, readable: set<Id>, resealed: seq<Record>)
    requires LiveLedger(ledger) && Replay(ledger).Some? && ReadableNow(Replay(ledger).value, readable)
    requires Events(resealed) == Events(Select(ledger, Keeps(who, readable)))
    ensures Replay(resealed).Some? <==> SelfContained(ledger, who, readable)
  {
    var keep := Keeps(who, readable);
    ReplayByEvents(resealed, Select(ledger, keep));
    forall i | 0 <= i < |ledger| && keep(ledger[i]) ensures HomeRecord(ledger[i].event, who) {
      LiveRecord(ledger, i);
      AppliedIsHome(Replay(ledger[..i]).value, ledger[i].event, who);
    }
    SelectReplays(ledger, keep, who);
    if forall i :: 0 <= i < |ledger| ==> CarriedAt(ledger, keep, i) {
      forall i, id | 0 <= i < |ledger| && Exported(who, readable, ledger[i]) && Modifies(ledger[i].event, id)
        ensures MakerKept(ledger, keep, id)
      {
        assert CarriedAt(ledger, keep, i);
        var j :| 0 <= j < |ledger[..i]| && KeptMaker(keep, ledger[..i][j], id);
        assert KeptMaker(keep, ledger[j], id);
      }
    }
    if SelfContained(ledger, who, readable) {
      forall i | 0 <= i < |ledger| ensures CarriedAt(ledger, keep, i) {
        forall id | keep(ledger[i]) && Modifies(ledger[i].event, id) ensures MakerKept(ledger[..i], keep, id) {
          assert Exported(who, readable, ledger[i]);
          MakerIsEarlier(ledger, who, readable, i, id);
        }
      }
    }
  }

  /** A contradiction whose other object, say a fact, the caller may not read makes the export of the scope
      impossible to import. Only an entity may also have come with the entity it was split from. */
  lemma ContradictionNeedsBoth(h: Hash, ledger: seq<Record>, who: Who, readable: set<Id>, resealed: seq<Record>, i: nat)
    requires LiveLedger(ledger) && Replay(ledger).Some? && ReadableNow(Replay(ledger).value, readable)
    requires Events(resealed) == Events(Select(ledger, Keeps(who, readable)))
    requires i < |ledger| && Exported(who, readable, ledger[i]) && ledger[i].event.payload.Contradiction?
    requires var id := ledger[i].event.payload.second;
             id !in readable && id in Replay(ledger).value && Replay(ledger).value[id].kind != Entity
    ensures Replay(resealed).None?
  {
    var id := ledger[i].event.payload.second;
    ScopedExportReplaysIff(h, ledger, who, readable, resealed);
    assert Edits(ledger[i].event)[1].Modify? && Edits(ledger[i].event)[1].id == id;
    assert Modifies(ledger[i].event, id);
    if MakerKept(ledger, Keeps(who, readable), id) {
      var j :| 0 <= j < |ledger| && KeptMaker(Keeps(who, readable), ledger[j], id);
      PutsWholeOrSplit(ledger[j].event, id);
      TimeTravel.PutsAre(ledger[j].event, id);
      assert TimeTravel.SplitMade(ledger, id);
      TimeTravel.SplitIsEntity(ledger, id);
    }
  }

  lemma PutsWholeOrSplit(e: Event, id: Id)
    requires Puts(e, id)
    ensures e.payload.Split? || EventObject(e.payload) == Some(id)
  {
    var k :| 0 <= k < |Edits(e)| && Edits(e)[k].Put? && Edits(e)[k].obj.id == id;
    if k > 0 {
      LaterEdit(e, k);
    }
  }

  function ContradictCall(a: Id, b: Id, who: Who): Call {
    Call(who, 5, Contradict(a, b, None), true)
  }

  lemma ContradictionApplies(objs: Objects, a: Id, b: Id, who: Who)
    requires RefInScope(objs, who, a) && RefInScope(objs, who, b) && a != b && Keyed(objs)
    ensures var c := ContradictCall(a, b, who);
            && Guard(objs, c) && |Plan(objs, c)| == 1 && Plan(objs, c)[0].payload == Contradiction(a, b, None)
            && Plan(objs, c)[0].tenant == who.tenant && Plan(objs, c)[0].namespace == who.namespace
            && Apply(objs, Plan(objs, c)[0]).ok
  {
    var e := Plan(objs, ContradictCall(a, b, who))[0];
    PairOfEdits(objs, who, Edits(e)[0], Edits(e)[1]);
    assert Edits(e) == [Edits(e)[0], Edits(e)[1]];
  }

  lemma PairOfEdits(objs: Objects, who: Who, x: Edit, y: Edit)
    requires Keyed(objs) && x.Modify? && y.Modify? && RefInScope(objs, who, x.id) && RefInScope(objs, who, y.id)
    ensures ApplyEdits(objs, who.tenant, who.namespace, [x, y]).ok
  {
    var mid := ApplyEdit(objs, who.tenant, who.namespace, x).objects;
    assert [x, y][1..] == [y] && [y][1..] == [];
    assert ApplyEdits(mid, who.tenant, who.namespace, [y]).ok;
  }

  /** The system after two facts were asserted and one was recorded to contradict the other. */
  function Contradicted(h: Hash, f: Obj, g: Obj, who: Who): Runs.System {
    Serial.Served(h, [Confirmations.AssertCall(f, who, 1), Confirmations.AssertCall(g, who, 2),
                      ContradictCall(f.id, g.id, who)])
  }

  /** Of two facts of one scope that contradict each other, whoever may read just the first gets an export that
      verifies and cannot be imported. */
  lemma HalfReadableContradiction(h: Hash, f: Obj, g: Obj, who: Who, resealed: seq<Record>)
    requires f.id != g.id
    requires Confirmations.NewFact(f, who, 1, map[]) && Confirmations.NewFact(g, who, 2, map[f.id := f])
    requires Events(resealed) == Events(Select(Contradicted(h, f, g, who).ledger, Keeps(who, {f.id})))
    ensures LiveLedger(Contradicted(h, f, g, who).ledger) && Replay(resealed).None?
  {
    var c, d := Confirmations.AssertCall(f, who, 1), Confirmations.AssertCall(g, who, 2);
    var e := ContradictCall(f.id, g.id, who);
    Serial.ServedThree(h, c, d, e);
    Serial.StartSerene(h, 0);
    var s1 := Serial.Serve(h, Runs.START, c);
    Confirmations.TwoFacts(h, Runs.START, s1, f, g, who);
    ContradictionExported(h, Serial.Serve(h, s1, d), f, g, who, resealed);
  }

  lemma ContradictionExported(h: Hash, s: Runs.System, f: Obj, g: Obj, who: Who, resealed: seq<Record>)
    requires Runs.Invariant(h, s) && s.pending == map[] && s.objects == map[][f.id := f][g.id := g] && f.id != g.id
    requires f.kind == Fact && g.kind == Fact
    requires InScope(f, who.tenant, who.namespace) && InScope(g, who.tenant, who.namespace)
    requires Events(resealed) ==
             Events(Select(Serial.Serve(h, s, ContradictCall(f.id, g.id, who)).ledger, Keeps(who, {f.id})))
    ensures LiveLedger(Serial.Serve(h, s, ContradictCall(f.id, g.id, who)).ledger) && Replay(resealed).None?
  {
    var c := ContradictCall(f.id, g.id, who);
    ContradictionApplies(s.objects, f.id, g.id, who);
    Serial.ServeOne(h, s, c);
    HalfExported(h, s.ledger, Serial.Serve(h, s, c).ledger, f, g, who, resealed);
  }

  lemma HalfExported(h: Hash, ledger: seq<Record>, later: seq<Record>, f: Obj, g: Obj, who: Who, resealed: seq<Record>)
    requires LiveLedger(later) && ledger <= later && |later| == |ledger| + 1
    requires Replay(ledger) == Some(map[][f.id := f][g.id := g]) && f.id != g.id
    requires f.kind == Fact && g.kind == Fact
    requires var e := later[|ledger|].event;
             e.payload == Contradiction(f.id, g.id, None) && e.tenant == who.tenant && e.namespace == who.namespace
    requires Events(resealed) == Events(Select(later, Keeps(who, {f.id})))
    ensures Replay(resealed).None?
  {
    KindsStay(ledger, later, f.id);
    KindsStay(ledger, later, g.id);
    ContradictionNeedsBoth(h, later, who, {f.id}, resealed, |ledger|);
  }

  lemma KindsStay(ledger: seq<Record>, later: seq<Record>, id: Id)
    requires LiveLedger(later) && ledger <= later && Replay(ledger).Some? && id in Replay(ledger).value
    ensures Replay(later).Some? && id in Replay(later).value
    ensures Replay(later).value[id].kind == Replay(ledger).value[id].kind
  {
    assert later[..|ledger|] == ledger;
    WriteOnce(later, |ledger|);
    assert Evolves(Replay(ledger).value[id], Replay(later).value[id]);
  }

  /******* What the import of a scoped export shows *******/

  /** The slice's objects are the ledger's, as far as kinds go, and its claims are open. */
  ghost predicate Fresh(slice: Objects, objs: Objects) {
    forall id :: id in slice ==>
      id in objs && slice[id].kind == objs[id].kind && (slice[id].kind == Claim ==> slice[id].status == Open)
  }

  predicate Opens(e: Edit) {
    match e
    case Put(o) => o.kind == Claim ==> o.status == Open
    case Modify(_, c) => !c.CloseClaim?
    case ModifyIfPresent(_, c) => !c.CloseClaim? && !c.CloseFact?
  }

  lemma FreshPut(slice: Objects, objs: Objects, o: Obj)
    requires Fresh(slice, objs) && (o.kind == Claim ==> o.status == Open)
    ensures Fresh(slice[o.id := o], objs[o.id := o])
  {
  }

  lemma FreshChange(slice: Objects, objs: Objects, id: Id, c: Change)
    requires Fresh(slice, objs) && id in slice && !c.CloseClaim? && (c.CloseFact? ==> objs[id].kind == Fact)
    ensures Fresh(slice[id := Perform(slice[id], c)], objs[id := Perform(objs[id], c)])
  {
  }

  lemma FreshEdit(slice: Objects, objs: Objects, tenant: string, namespace: string, e: Edit)
    requires Keyed(slice) && Keyed(objs) && Fresh(slice, objs) && Opens(e) && Fits(objs, tenant, e)
    requires ApplyEdit(slice, tenant, namespace, e).ok && ApplyEdit(objs, tenant, namespace, e).ok
    ensures Fresh(ApplyEdit(slice, tenant, namespace, e).objects, ApplyEdit(objs, tenant, namespace, e).objects)
    ensures Keyed(ApplyEdit(slice, tenant, namespace, e).objects)
    ensures Keyed(ApplyEdit(objs, tenant, namespace, e).objects)
  {
    match e
    case Put(o) => FreshPut(slice, objs, o);
    case Modify(id, c) => FreshChange(slice, objs, id, c);
    case ModifyIfPresent(id, c) =>
      if id in slice {
        FreshChange(slice, objs, id, c);
      }
  }

  lemma {:induction false} FreshEdits(slice: Objects, objs: Objects, tenant: string, namespace: string, es: seq<Edit>)
    requires Keyed(slice) && Keyed(objs) && Fresh(slice, objs) && AllFit(objs, tenant, es)
    requires forall k :: 0 <= k < |es| ==> Opens(es[k])
    requires ApplyEdits(slice, tenant, namespace, es).ok && ApplyEdits(objs, tenant, namespace, es).ok
    ensures Fresh(ApplyEdits(slice, tenant, namespace, es).objects, ApplyEdits(objs, tenant, namespace, es).objects)
    decreases |es|
  {
    if es != [] {
      assert Opens(es[0]) && Fits(objs, tenant, es[0]);
      FreshEdit(slice, objs, tenant, namespace, es[0]);
      RestFits(objs, tenant, namespace, es);
      FreshEdits(ApplyEdit(slice, tenant, namespace, es[0]).objects, ApplyEdit(objs, tenant, namespace, es[0]).objects,
                 tenant, namespace, es[1..]);
    }
  }

  /** The records that retract a claim, attach evidence to it or govern it are in no scoped export. */
  lemma ExportedOpens(objs: Objects, who: Who, readable: set<Id>, r: Record)
    requires Exported(who, readable, r) && Proper(objs, r.event)
    ensures forall k :: 0 <= k < |Edits(r.event)| ==> Opens(Edits(r.event)[k])
  {
    forall k | 0 <= k < |Edits(r.event)| ensures Opens(Edits(r.event)[k]) {
      if k > 0 {
        LaterEdit(r.event, k);
        assert r.event.payload.Split? ==> ProperNew(objs, r.event.payload.into[k - 1], r.event);
      }
    }
  }

  lemma FreshLater(slice: Objects, objs: Objects, later: Objects)
    requires Fresh(slice, objs) && AllEvolve(objs, later)
    ensures Fresh(slice, later)
  {
    forall id | id in slice ensures id in later && slice[id].kind == later[id].kind {
      assert Evolves(objs[id], later[id]);
    }
  }

  lemma {:induction false} SliceIsFresh(ledger: seq<Record>, who: Who, readable: set<Id>)
    requires LiveLedger(ledger) && Replay(Select(ledger, Keeps(who, readable))).Some?
    ensures Replay(ledger).Some? && Fresh(Replay(Select(ledger, Keeps(who, readable))).value, Replay(ledger).value)
    decreases |ledger|
  {
    LiveTidy(ledger);
    if ledger != [] {
      var n, keep := |ledger| - 1, Keeps(who, readable);
      var front, r := ledger[..n], ledger[n];
      if keep(r) {
        ReplaySnoc(Select(front, keep), r);
      }
      SliceIsFresh(front, who, readable);
      LiveTidy(front);
      var slice, objs := Replay(Select(front, keep)).value, Replay(front).value;
      if keep(r) {
        ExportedOpens(objs, who, readable, r);
        ProperFits(objs, r.event);
        ReplayKeyed(Select(front, keep));
        FreshEdits(slice, objs, r.event.tenant, r.event.namespace, Edits(r.event));
      } else {
        LastRecordEvolves(ledger);
        FreshLater(slice, objs, Replay(ledger).value);
      }
    }
  }

  /** Whoever imports a scoped export sees every claim open. A claim has kept its status if and only if it
      was never retracted. */
  lemma ImportedClaimsAreOpen(ledger: seq<Record>, who: Who, readable: set<Id>, resealed: seq<Record>, id: Id)
    requires LiveLedger(ledger) && Events(resealed) == Events(Select(ledger, Keeps(who, readable)))
    requires Replay(resealed).Some? && id in Replay(resealed).value && Replay(resealed).value[id].kind == Claim
    ensures Replay(ledger).Some? && id in Replay(ledger).value
    ensures Replay(resealed).value[id].status == Open
    ensures Replay(resealed).value[id].status == Replay(ledger).value[id].status <==>
            Replay(ledger).value[id].status == Open
  {
    ReplayByEvents(resealed, Select(ledger, Keeps(who, readable)));
    SliceIsFresh(ledger, who, readable);
  }
}
