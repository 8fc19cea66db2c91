/** The status of a claim as the panel shows it and as replay projects it, on any ledger that replays: imports may
    hold records that the engine itself never writes. */
module ClaimStatus {
  import opened Model
  import opened Projection
  import opened Ledger
  import opened Scopes
  import opened TimeTravel
  import Live
  import Store

  /******* The records that decide *******/

  predicate Closes(e: Event, c: Id) {
    e.payload.ClaimClosed? && e.payload.claimId == c
  }

  /** What an operation says the claim becomes. */
  function ClosedAs(op: Op): Status {
    if op == ClaimSuperseded then Superseded else Retracted
  }

  /** The record asserts claims open, closes this one as its operation says, and does not end it as if it were a
      fact. */
  predicate Plain(e: Event, c: Id) {
    match e.payload
    case Whole(o) => o.id == c && o.kind == Claim ==> o.status == Open
    case Split(_, into) =>
      forall i :: 0 <= i < |into| && into[i].id == c && into[i].kind == Claim ==> into[i].status == Open
    case FactClosed(f, _, _, _, _) => f != c
    case ClaimClosed(x, status, _, _) => x == c ==> status == ClosedAs(e.op)
    case _ => true
  }

  predicate AllPlain(ledger: seq<Record>, c: Id) {
    forall i :: 0 <= i < |ledger| ==> Plain(ledger[i].event, c)
  }

  /** The number of records up to the last one that asserts the claim. */
  function AssertedBy(ledger: seq<Record>, c: Id): (n: nat)
    ensures n <= |ledger|
    decreases |ledger|
  {
    if ledger == [] || Puts(ledger[|ledger| - 1].event, c) then |ledger| else AssertedBy(ledger[..|ledger| - 1], c)
  }

  predicate ClosedAt(ledger: seq<Record>, c: Id, i: nat) {
    i < |ledger| && Closes(ledger[i].event, c)
  }

  /** The first record that closes the claim since it was last asserted. */
  predicate FirstClosedAt(ledger: seq<Record>, c: Id, i: nat) {
    && AssertedBy(ledger, c) <= i && ClosedAt(ledger, c, i)
    && forall k :: AssertedBy(ledger, c) <= k < i ==> !ClosedAt(ledger, c, k)
  }

  predicate ClosedSince(ledger: seq<Record>, c: Id) {
    exists i :: AssertedBy(ledger, c) <= i < |ledger| && ClosedAt(ledger, c, i)
  }

  /** A record closed the claim by this operation. */
  predicate ClosedBy(ledger: seq<Record>, c: Id, op: Op) {
    exists i :: 0 <= i < |ledger| && ClosedAt(ledger, c, i) && ledger[i].event.op == op
  }

  /******* Replay *******/

  /** The status that the records leave a claim in. */
  function StatusAfter(ledger: seq<Record>, c: Id): Status
    decreases |ledger|
  {
    if ledger == [] then Open
    else
      var before, e := StatusAfter(ledger[..|ledger| - 1], c), ledger[|ledger| - 1].event;
      if Puts(e, c) then Open
      else if Closes(e, c) && before == Open then e.payload.claimStatus
      else before
  }

  predicate OpenClaim(objs: Objects, c: Id) {
    c in objs && (objs[c].kind == Claim ==> objs[c].status == Open)
  }

  predicate OpenPut(e: Edit, c: Id) {
    e.Put? && (e.obj.id == c && e.obj.kind == Claim ==> e.obj.status == Open)
  }

  lemma {:induction false} PutsKeepOpen(objs: Objects, tenant: string, namespace: string, es: seq<Edit>, c: Id)
    requires ApplyEdits(objs, tenant, namespace, es).ok && OpenClaim(objs, c)
    requires forall k :: 0 <= k < |es| ==> OpenPut(es[k], c)
    ensures OpenClaim(ApplyEdits(objs, tenant, namespace, es).objects, c)
    decreases |es|
  {
    if es != [] {
      assert OpenPut(es[0], c);
      PutsKeepOpen(ApplyEdit(objs, tenant, namespace, es[0]).objects, tenant, namespace, es[1..], c);
    }
  }

  /** After the edits that put the claim it is open. */
  lemma {:induction false} PutOpens(objs: Objects, tenant: string, namespace: string, es: seq<Edit>, c: Id, k: nat)
    requires ApplyEdits(objs, tenant, namespace, es).ok && PutsLast(es) && k < |es| && es[k].Put? && es[k].obj.id == c
    requires forall j :: 0 <= j < |es| && es[j].Put? ==> OpenPut(es[j], c)
    ensures OpenClaim(ApplyEdits(objs, tenant, namespace, es).objects, c)
    decreases |es|
  {
    var mid := ApplyEdit(objs, tenant, namespace, es[0]).objects;
    if k == 0 {
      assert OpenPut(es[0], c);
      forall j | 0 <= j < |es[1..]| ensures OpenPut(es[1..][j], c) {
        assert es[j + 1].Put?;
      }
      PutsKeepOpen(mid, tenant, namespace, es[1..], c);
    } else {
      PutOpens(mid, tenant, namespace, es[1..], c, k - 1);
    }
  }

  /** The edit leaves kind and status of the claim alone. */
  predicate Spares(e: Edit, c: Id) {
    match e
    case Put(o) => o.id != c
    case Modify(id, change) => id == c ==> !change.CloseClaim? && !change.CloseFact?
    case ModifyIfPresent(id, change) => id == c ==> !change.CloseClaim? && !change.CloseFact?
  }

  predicate SameStatus(objs: Objects, later: Objects, c: Id) {
    (c in later <==> c in objs) && (c in objs ==> later[c].kind == objs[c].kind && later[c].status == objs[c].status)
  }

  lemma {:induction false} SparingKeeps(objs: Objects, tenant: string, namespace: string, es: seq<Edit>, c: Id)
    requires Keyed(objs) && forall k :: 0 <= k < |es| ==> Spares(es[k], c)
    ensures SameStatus(objs, ApplyEdits(objs, tenant, namespace, es).objects, c)
    decreases |es|
  {
    if es != [] {
      assert Spares(es[0], c);
      var a := ApplyEdit(objs, tenant, namespace, es[0]);
      if a.ok {
        SparingKeeps(a.objects, tenant, namespace, es[1..], c);
      }
    }
  }

  lemma RecordSpares(e: Event, c: Id)
    requires Plain(e, c) && !Puts(e, c) && !Closes(e, c)
    ensures forall k :: 0 <= k < |Edits(e)| ==> Spares(Edits(e)[k], c)
  {
    forall k | 0 <= k < |Edits(e)| ensures Spares(Edits(e)[k], c) {
      if Edits(e)[k].Put? {
        assert Edits(e)[k].obj.id == c ==> Puts(e, c);
      } else if k > 0 {
        LaterEdit(e, k);
      }
    }
  }

  lemma PutRecordOpens(objs: Objects, e: Event, c: Id)
    requires Plain(e, c) && Puts(e, c) && Apply(objs, e).ok
    ensures OpenClaim(Apply(objs, e).objects, c)
  {
    EventPutsLast(e);
    forall j | 0 <= j < |Edits(e)| && Edits(e)[j].Put? ensures OpenPut(Edits(e)[j], c) {
      if j > 0 {
        LaterEdit(e, j);
      }
    }
    var k :| 0 <= k < |Edits(e)| && Edits(e)[k].Put? && Edits(e)[k].obj.id == c;
    PutOpens(objs, e.tenant, e.namespace, Edits(e), c, k);
  }

  /** One record, on the status of a claim. */
  lemma RecordStatus(objs: Objects, e: Event, c: Id)
    requires Keyed(objs) && Plain(e, c) && Apply(objs, e).ok
    ensures var later := Apply(objs, e).objects;
            c in later && later[c].kind == Claim ==>
              if Puts(e, c) then later[c].status == Open
              else
                c in objs && objs[c].kind == Claim &&
                later[c].status == if Closes(e, c) && objs[c].status == Open then e.payload.claimStatus
                                   else objs[c].status
  {
    if Puts(e, c) {
      PutRecordOpens(objs, e, c);
    } else if Closes(e, c) {
      SingleEdit(objs, e);
    } else {
      RecordSpares(e, c);
      SparingKeeps(objs, e.tenant, e.namespace, Edits(e), c);
    }
  }

  lemma {:induction false} ReplayedStatus(ledger: seq<Record>, c: Id)
    requires Replay(ledger).Some? && AllPlain(ledger, c)
    requires c in Replay(ledger).value && Replay(ledger).value[c].kind == Claim
    ensures Replay(ledger).value[c].status == StatusAfter(ledger, c)
    decreases |ledger|
  {
    var n := |ledger| - 1;
    var front, e := ledger[..n], ledger[n].event;
    assert forall i :: 0 <= i < n ==> front[i] == ledger[i];
    ReplayKeyed(front);
    RecordStatus(Replay(front).value, e, c);
    if !Puts(e, c) {
      ReplayedStatus(front, c);
    }
  }

  /******* Which record decided *******/

  lemma ClosedFront(ledger: seq<Record>, c: Id)
    requires ledger != []
    ensures forall i: nat :: i < |ledger| - 1 ==> ClosedAt(ledger[..|ledger| - 1], c, i) == ClosedAt(ledger, c, i)
  {
  }

  /** The status is open when nothing closed the claim since it was last asserted, and otherwise what the first such
      record says. */
  lemma {:induction false} StatusIsFirst(ledger: seq<Record>, c: Id)
    requires AllPlain(ledger, c)
    ensures !ClosedSince(ledger, c) ==> StatusAfter(ledger, c) == Open
    ensures ClosedSince(ledger, c) ==>
              exists i: nat :: FirstClosedAt(ledger, c, i) && StatusAfter(ledger, c) == ClosedAs(ledger[i].event.op)
    decreases |ledger|
  {
    if ledger != [] {
      var n := |ledger| - 1;
      var front, e := ledger[..n], ledger[n].event;
      if !Puts(e, c) {
        assert forall i :: 0 <= i < n ==> front[i] == ledger[i];
        StatusIsFirst(front, c);
        ClosedFront(ledger, c);
        FirstSnoc(ledger, c);
      }
    }
  }

  lemma FirstSnoc(ledger: seq<Record>, c: Id)
    requires ledger != [] && !Puts(ledger[|ledger| - 1].event, c)
    ensures var n := |ledger| - 1;
            && AssertedBy(ledger, c) == AssertedBy(ledger[..n], c)
            && (ClosedSince(ledger, c) <==> ClosedSince(ledger[..n], c) || ClosedAt(ledger, c, n))
            && (forall i: nat :: FirstClosedAt(ledger[..n], c, i) ==> FirstClosedAt(ledger, c, i))
            && (!ClosedSince(ledger[..n], c) && ClosedAt(ledger, c, n) ==> FirstClosedAt(ledger, c, n))
  {
    var n := |ledger| - 1;
    ClosedFront(ledger, c);
    if ClosedSince(ledger[..n], c) {
      var i :| AssertedBy(ledger[..n], c) <= i < n && ClosedAt(ledger[..n], c, i);
      assert ClosedAt(ledger, c, i);
    }
    if ClosedSince(ledger, c) && !ClosedAt(ledger, c, n) {
      var i :| AssertedBy(ledger, c) <= i < |ledger| && ClosedAt(ledger, c, i);
      assert ClosedAt(ledger[..n], c, i);
    }
  }

  /******* The scan *******/

  function UpTo(t: Time): Record -> bool {
    (r: Record) => r.event.ts <= t
  }

  /** The scan sees the records stamped up to the instant, and no other. */
  lemma {:induction false} ScanSelects(ledger: seq<Record>, t: Time)
    ensures Collected(ledger, t) == Collected(Select(ledger, UpTo(t)), t)
    ensures forall i :: 0 <= i < |Select(ledger, UpTo(t))| ==> Select(ledger, UpTo(t))[i].event.ts <= t
    decreases |ledger|
  {
    if ledger != [] {
      var front, r := ledger[..|ledger| - 1], ledger[|ledger| - 1];
      ScanSelects(front, t);
      var kept := Select(front, UpTo(t));
      assert (kept + [r])[..|kept|] == kept;
    }
  }

  lemma LastIsReadable(ledger: seq<Record>)
    requires ledger != [] && Replay(ledger).Some?
    ensures Replay(ledger[..|ledger| - 1]).Some?
    ensures Readable(ledger[|ledger| - 1].event.op, ledger[|ledger| - 1].event.payload)
  {
  }

  lemma ClosedBySnoc(ledger: seq<Record>, c: Id, op: Op)
    requires ledger != []
    ensures var n := |ledger| - 1;
            ClosedBy(ledger, c, op) <==>
            ClosedBy(ledger[..n], c, op) || (Closes(ledger[n].event, c) && ledger[n].event.op == op)
  {
    var n := |ledger| - 1;
    ClosedFront(ledger, c);
    if ClosedBy(ledger[..n], c, op) {
      var i :| 0 <= i < n && ClosedAt(ledger[..n], c, i) && ledger[..n][i].event.op == op;
      assert ClosedAt(ledger, c, i);
    }
    if ClosedBy(ledger, c, op) && !(Closes(ledger[n].event, c) && ledger[n].event.op == op) {
      var i :| 0 <= i < |ledger| && ClosedAt(ledger, c, i) && ledger[i].event.op == op;
      assert ClosedAt(ledger[..n], c, i);
    }
    assert Closes(ledger[n].event, c) ==> ClosedAt(ledger, c, n);
  }

  lemma SeenCloses(a: AsOf, e: Event, c: Id)
    requires Readable(e.op, e.payload)
    ensures c in Seen(a, e).retracted <==> c in a.retracted || (Closes(e, c) && e.op == ClaimRetracted)
    ensures c in Seen(a, e).superseded <==> c in a.superseded || (Closes(e, c) && e.op == ClaimSuperseded)
  {
  }

  /** Over a ledger that replays the scan collects exactly the claims that some record retracts or supersedes. */
  lemma {:induction false} ScanCloses(ledger: seq<Record>, t: Time, c: Id)
    requires Replay(ledger).Some? && forall i :: 0 <= i < |ledger| ==> ledger[i].event.ts <= t
    ensures c in Collected(ledger, t).retracted <==> ClosedBy(ledger, c, ClaimRetracted)
    ensures c in Collected(ledger, t).superseded <==> ClosedBy(ledger, c, ClaimSuperseded)
    decreases |ledger|
  {
    if ledger != [] {
      var n := |ledger| - 1;
      assert forall i :: 0 <= i < n ==> ledger[..n][i] == ledger[i];
      LastIsReadable(ledger);
      ScanCloses(ledger[..n], t, c);
      SeenCloses(Collected(ledger[..n], t), ledger[n].event, c);
      ClosedBySnoc(ledger, c, ClaimRetracted);
      ClosedBySnoc(ledger, c, ClaimSuperseded);
    }
  }

  lemma {:induction false} ClosingOps(ledger: seq<Record>, c: Id, i: nat)
    requires Replay(ledger).Some? && ClosedAt(ledger, c, i)
    ensures ledger[i].event.op == ClaimRetracted || ledger[i].event.op == ClaimSuperseded
    decreases |ledger|
  {
    LastIsReadable(ledger);
    if i < |ledger| - 1 {
      ClosedFront(ledger, c);
      ClosingOps(ledger[..|ledger| - 1], c, i);
    }
  }

  /******* When the two differ *******/

  /** Since it was last asserted, the claim was first closed by a retraction. */
  predicate RetractedFirst(ledger: seq<Record>, c: Id) {
    exists i :: 0 <= i < |ledger| && FirstClosedAt(ledger, c, i) && ledger[i].event.op == ClaimRetracted
  }

  /** The claim was closed, asserted again, and not closed since. */
  predicate Reopened(ledger: seq<Record>, c: Id) {
    (ClosedBy(ledger, c, ClaimRetracted) || ClosedBy(ledger, c, ClaimSuperseded)) && !ClosedSince(ledger, c)
  }

  lemma OnlyFirst(ledger: seq<Record>, c: Id, i: nat, j: nat)
    requires FirstClosedAt(ledger, c, i) && FirstClosedAt(ledger, c, j)
    ensures i == j
  {
  }

  lemma FirstIsSince(ledger: seq<Record>, c: Id, i: nat)
    requires FirstClosedAt(ledger, c, i)
    ensures ClosedSince(ledger, c) && ClosedBy(ledger, c, ledger[i].event.op)
  {
  }

  lemma DiffersIff(ledger: seq<Record>, t: Time, c: Id)
    requires Replay(ledger).Some? && AllPlain(ledger, c) && forall i :: 0 <= i < |ledger| ==> ledger[i].event.ts <= t
    requires c in Replay(ledger).value && Replay(ledger).value[c].kind == Claim
    ensures Replay(ledger).value[c].status != ShownStatus(Collected(ledger, t), c) <==>
            Reopened(ledger, c) || (RetractedFirst(ledger, c) && ClosedBy(ledger, c, ClaimSuperseded))
  {
    ReplayedStatus(ledger, c);
    StatusIsFirst(ledger, c);
    ScanCloses(ledger, t, c);
    if ClosedSince(ledger, c) {
      var i: nat :| FirstClosedAt(ledger, c, i) && StatusAfter(ledger, c) == ClosedAs(ledger[i].event.op);
      ClosingOps(ledger, c, i);
      FirstIsSince(ledger, c, i);
      forall j: nat | FirstClosedAt(ledger, c, j) ensures i == j {
        OnlyFirst(ledger, c, i, j);
      }
    } else {
      forall j: nat ensures !FirstClosedAt(ledger, c, j) {
        if FirstClosedAt(ledger, c, j) {
          FirstIsSince(ledger, c, j);
        }
      }
    }
  }

  /** On any ledger whose records up to an instant replay, whatever their order in time: the status shown for a claim
      at that instant differs from the replayed one if and only if, among these records, the claim was closed, asserted
      again and not closed since, or was first closed by a retraction and is superseded by some record. */
  lemma ShownDiffersIff(ledger: seq<Record>, t: Time, c: Id)
    requires var past := Select(ledger, UpTo(t));
             && Replay(past).Some? && AllPlain(past, c)
             && c in Replay(past).value && Replay(past).value[c].kind == Claim
    ensures var past := Select(ledger, UpTo(t));
            Replay(past).value[c].status != ShownStatus(Collected(ledger, t), c) <==>
            Reopened(past, c) || (RetractedFirst(past, c) && ClosedBy(past, c, ClaimSuperseded))
  {
    ScanSelects(ledger, t);
    DiffersIff(Select(ledger, UpTo(t)), t, c);
  }

  /******* Claims that are asserted once *******/

  predicate OncePut(ledger: seq<Record>, c: Id) {
    forall i, j :: 0 <= i < j < |ledger| && Puts(ledger[i].event, c) ==> !Puts(ledger[j].event, c)
  }

  lemma {:induction false} AssertedByPuts(ledger: seq<Record>, c: Id, i: nat)
    requires i < AssertedBy(ledger, c)
    ensures Puts(ledger[AssertedBy(ledger, c) - 1].event, c)
    decreases |ledger|
  {
    if !Puts(ledger[|ledger| - 1].event, c) {
      AssertedByPuts(ledger[..|ledger| - 1], c, i);
    }
  }

  lemma ThereIsPut(ledger: seq<Record>, c: Id)
    requires Replay(ledger).Some? && c in Replay(ledger).value
    ensures exists k :: 0 <= k < |ledger| && Puts(ledger[k].event, c)
  {
    ReplayCreated(ledger, (tenant: string, namespace: string) => true);
  }

  lemma ClosedIsThere(ledger: seq<Record>, c: Id)
    requires ledger != [] && Replay(ledger).Some? && Closes(ledger[|ledger| - 1].event, c)
    ensures Replay(ledger[..|ledger| - 1]).Some? && c in Replay(ledger[..|ledger| - 1]).value
  {
    LastIsReadable(ledger);
    SingleEdit(Replay(ledger[..|ledger| - 1]).value, ledger[|ledger| - 1].event);
  }

  /** What is closed was put by a record before. */
  lemma ClosedWasPut(ledger: seq<Record>, c: Id, i: nat)
    requires Replay(ledger).Some? && ClosedAt(ledger, c, i)
    ensures exists k :: 0 <= k < i && Puts(ledger[k].event, c)
  {
    ReplayPrefix(ledger, i + 1);
    var upto := ledger[..i + 1];
    assert upto[..i] == ledger[..i] && upto[i] == ledger[i];
    ClosedIsThere(upto, c);
    ThereIsPut(ledger[..i], c);
    var k :| 0 <= k < i && Puts(ledger[..i][k].event, c);
    assert ledger[..i][k] == ledger[k];
  }

  lemma ClosedAfterPut(ledger: seq<Record>, c: Id, i: nat)
    requires Replay(ledger).Some? && OncePut(ledger, c) && ClosedAt(ledger, c, i)
    ensures AssertedBy(ledger, c) <= i
  {
    ClosedWasPut(ledger, c, i);
    if i < AssertedBy(ledger, c) {
      AssertedByPuts(ledger, c, i);
    }
  }

  predicate RetractedThenSuperseded(ledger: seq<Record>, c: Id, i: nat, j: nat) {
    && ClosedAt(ledger, c, i) && ledger[i].event.op == ClaimRetracted
    && (forall k :: 0 <= k < i ==> !ClosedAt(ledger, c, k))
    && ClosedAt(ledger, c, j) && ledger[j].event.op == ClaimSuperseded && i < j
  }

  /** When all that closes the claim comes after its assertion, first closed by a retraction and superseded somewhere
      means first closed by a retraction and superseded later. */
  lemma SupersededLater(ledger: seq<Record>, c: Id)
    requires forall k: nat :: ClosedAt(ledger, c, k) ==> AssertedBy(ledger, c) <= k
    ensures RetractedFirst(ledger, c) && ClosedBy(ledger, c, ClaimSuperseded) <==>
              exists i, j :: 0 <= i < j < |ledger| && RetractedThenSuperseded(ledger, c, i, j)
  {
    if RetractedFirst(ledger, c) && ClosedBy(ledger, c, ClaimSuperseded) {
      var i :| 0 <= i < |ledger| && FirstClosedAt(ledger, c, i) && ledger[i].event.op == ClaimRetracted;
      var j :| 0 <= j < |ledger| && ClosedAt(ledger, c, j) && ledger[j].event.op == ClaimSuperseded;
      assert RetractedThenSuperseded(ledger, c, i, j);
    }
    if i, j :| 0 <= i < j < |ledger| && RetractedThenSuperseded(ledger, c, i, j) {
      assert FirstClosedAt(ledger, c, i);
      assert RetractedFirst(ledger, c) && ClosedBy(ledger, c, ClaimSuperseded);
    }
  }

  lemma NeverReopened(ledger: seq<Record>, c: Id)
    requires forall k: nat :: ClosedAt(ledger, c, k) ==> AssertedBy(ledger, c) <= k
    ensures !Reopened(ledger, c)
  {
  }

  /** A claim that is asserted once is shown with another status than it replays to if and only if the first record
      that closes it is a retraction and a later one a supersession. */
  lemma OnceDiffersIff(ledger: seq<Record>, t: Time, c: Id)
    requires var past := Select(ledger, UpTo(t));
             && Replay(past).Some? && AllPlain(past, c) && OncePut(past, c)
             && c in Replay(past).value && Replay(past).value[c].kind == Claim
    ensures var past := Select(ledger, UpTo(t));
            Replay(past).value[c].status != ShownStatus(Collected(ledger, t), c) <==>
            exists i, j :: 0 <= i < j < |past| && RetractedThenSuperseded(past, c, i, j)
  {
    var past := Select(ledger, UpTo(t));
    ShownDiffersIff(ledger, t, c);
    forall k: nat | ClosedAt(past, c, k) ensures AssertedBy(past, c) <= k {
      ClosedAfterPut(past, c, k);
    }
    NeverReopened(past, c);
    SupersededLater(past, c);
  }

  /******* An import that shows it *******/

  /** A claim is asserted, retracted, and superseded later. */
  predicate ClosedTwice(o: Obj, assertion: Event, retraction: Event, supersession: Event) {
    && o.kind == Claim && o.status == Open
    && assertion.op == ClaimAsserted && assertion.payload == Whole(o)
    && retraction.op == ClaimRetracted
    && retraction.payload == ClaimClosed(o.id, Retracted, Some(retraction.ts), None)
    && supersession.op == ClaimSuperseded
    && supersession.payload == ClaimClosed(o.id, Superseded, Some(supersession.ts), None)
    && InScope(o, assertion.tenant, assertion.namespace) && InScope(o, retraction.tenant, retraction.namespace)
    && InScope(o, supersession.tenant, supersession.namespace)
    && assertion.ts <= retraction.ts <= supersession.ts
  }

  function Imported(h: Hash, a: Event, b: Event, c: Event): seq<Record> {
    Store.Extended(h, [], [a, b, c])
  }

  /** A chain of three records that replays, and so imports into an empty engine: from the supersession on the panel
      shows the claim as superseded, and replay has it retracted. The engine itself writes no such record. */
  lemma LaterSupersessionDiffers(h: Hash, o: Obj, a: Event, b: Event, c: Event, t: Time)
    requires ClosedTwice(o, a, b, c) && c.ts <= t
    ensures var ledger := Imported(h, a, b, c);
            && Chain(h, ledger) && |ledger| == 3 && Replay(ledger).Some?
            && o.id in Replay(ledger).value && Replay(ledger).value[o.id].status == Retracted
            && ShownStatus(Collected(ledger, t), o.id) == Superseded
  {
    var ledger := Imported(h, a, b, c);
    ThreeApply(o, a, b, c);
    ImportedHolds(h, a, b, c);
    ScanCloses(ledger, t, o.id);
    assert ClosedAt(ledger, o.id, 2);
  }

  lemma ImportedHolds(h: Hash, a: Event, b: Event, c: Event)
    ensures var ledger := Imported(h, a, b, c);
            && Chain(h, ledger) && |ledger| == 3
            && ledger[0].event == a && ledger[1].event == b && ledger[2].event == c
            && (Store.Transacted(map[], [a, b, c]).ok ==>
                  Replay(ledger) == Some(Store.Transacted(map[], [a, b, c]).objects))
  {
    var none: seq<Record>, events := [], [a, b, c];
    Store.ExtendedIsReplayed(h, none, events);
    var ledger := Imported(h, a, b, c);
    forall i | 0 <= i < 3 ensures ledger[i].event == events[i] {
      assert ledger[|none| + i].event == events[i];
    }
  }

  lemma ThreeApply(o: Obj, a: Event, b: Event, c: Event)
    requires ClosedTwice(o, a, b, c)
    ensures var r := Store.Transacted(map[], [a, b, c]);
            r.ok && o.id in r.objects && r.objects[o.id].status == Retracted
  {
    var one: Objects := map[o.id := o];
    var two: Objects := map[o.id := Perform(o, CloseClaim(Retracted, Some(b.ts)))];
    SingleEdit(map[], a);
    assert Apply(map[], a) == Applied(one, true);
    SingleEdit(one, b);
    assert one[o.id := Perform(o, CloseClaim(Retracted, Some(b.ts)))] == two;
    SingleEdit(two, c);
    assert [a, b, c][1..] == [b, c] && [b, c][1..] == [c] && [c][1..] == [];
    assert Store.Transacted(two, [c]) == Apply(two, c) by {
      assert Store.Transacted(Apply(two, c).objects, []) == Applied(Apply(two, c).objects, true);
    }
  }
}
