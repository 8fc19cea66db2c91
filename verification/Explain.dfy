/** The genealogy of an object, answered by scanning or through the provenance index. */
module Explain {
  import opened Model
  import opened Projection
  import opened Operations
  import opened IndexHealth
  import opened ProvenanceIndex
  import opened Selection
  import References

  /******* The tree *******/

  datatype Activity = Activity(
    seqno: int, op: Op, ts: Time, actor: string, principal: Option<string>, entryHash: Digest)

  datatype SourceView = NoSource | SourceMissing(id: Id) | SourceOutOfScope(id: Id) | SourceShown(id: Id, trust: real)

  datatype Statement = Statement(
    subject: Option<string>, pred: Option<string>, target: Option<string>,
    validFrom: Option<Time>, validTo: Option<Time>, txFrom: Option<Time>, txTo: Option<Time>, status: Status)

  datatype Node =
    | Missing(id: Id)
    | OutOfScope(id: Id)
    | Elided(id: Id, kind: Kind)
    | Node(id: Id, kind: Kind, confidence: real, owner: string, createdAt: Time,
           statement: Option<Statement>, source: SourceView, activities: seq<Activity>,
           derivedFrom: seq<Node>, supersedes: seq<Node>, contradicts: seq<Id>, supersededBy: seq<Id>)

  /** What a walk reads: the ledger, the objects and the order the store lists them in, the scope
      it stays within, and the caller's read decision. */
  datatype View = View(
    ledger: seq<Record>, objs: Objects, order: seq<Id>, tenant: string, namespace: string, canRead: Obj -> bool)

  /******* The scan forms *******/

  function ActivityOf(r: Record): Activity {
    Activity(r.seqno, r.event.op, r.event.ts, r.event.actor, r.event.principal, r.entryHash)
  }

  predicate OfScope(v: View, r: Record) {
    r.event.tenant == v.tenant && r.event.namespace == v.namespace
  }

  /** The activities of the records that a condition selects, in ledger order. */
  function Activities(ledger: seq<Record>, selects: Record -> bool): seq<Activity>
    decreases |ledger|
  {
    if ledger == [] then []
    else
      var front := Activities(ledger[..|ledger| - 1], selects);
      var r := ledger[|ledger| - 1];
      if selects(r) then front + [ActivityOf(r)] else front
  }

  predicate Mentions(r: Record, id: Id) {
    RefsId(PayloadJson(r.event.payload), id)
  }

  function ScannedActivities(v: View, id: Id): seq<Activity> {
    Activities(v.ledger, (r: Record) => OfScope(v, r) && Mentions(r, id))
  }

  predicate Supersedes(o: Obj, id: Id) {
    o.kind == Fact && id in o.body.supersedes
  }

  /** The facts of the scope that list an id among those they supersede, in the store's order. */
  function ScannedSuperseders(v: View, order: seq<Id>, id: Id): seq<Id>
    decreases |order|
  {
    if order == [] then []
    else
      var front := ScannedSuperseders(v, order[..|order| - 1], id);
      var f := order[|order| - 1];
      if f in v.objs && InScope(v.objs[f], v.tenant, v.namespace) && Supersedes(v.objs[f], id)
      then front + [f] else front
  }

  function SourceOf(v: View, o: Obj): SourceView {
    if o.body.source.None? || o.body.source.value == "" then NoSource
    else
      var s := o.body.source.value;
      if s !in v.objs then SourceMissing(s)
      else if !InScope(v.objs[s], v.tenant, v.namespace) then SourceOutOfScope(s)
      else SourceShown(s, v.objs[s].body.trust)
  }

  function StatementOf(o: Obj): Option<Statement> {
    if o.kind != Fact then None
    else Some(Statement(o.body.subject, o.body.pred, o.body.target, o.body.validFrom, o.body.validTo,
                        o.body.txFrom, o.txTo, o.status))
  }

  /** The remaining depth as a natural number. */
  function Left(depth: int): nat {
    if depth < 0 then 0 else depth + 1
  }

  /** The tree of an object and the ids seen so far. The walk goes depth first and shares the seen
      ids between siblings; an id seen before, or beyond the depth, is elided. */
  function Explained(v: View, id: Id, depth: int, seen: set<Id>): (Node, set<Id>)
    decreases Left(depth), 0, 0
  {
    if id !in v.objs then (Missing(id), seen)
    else
      var o := v.objs[id];
      if !InScope(o, v.tenant, v.namespace) || !v.canRead(o) then (OutOfScope(id), seen)
      else if id in seen || depth < 0 then (Elided(id, o.kind), seen)
      else
        var (derived, seen1) := Walked(v, o.body.derivedFrom, depth - 1, seen + {id});
        var (superseded, seen2) := Walked(v, o.body.supersedes, depth - 1, seen1);
        (Node(id, o.kind, o.confidence, o.owner, o.createdAt, StatementOf(o), SourceOf(v, o),
              ScannedActivities(v, id), derived, superseded, o.contradicts,
              ScannedSuperseders(v, v.order, id)), seen2)
  }

  function Walked(v: View, ids: seq<Id>, depth: int, seen: set<Id>): (seq<Node>, set<Id>)
    decreases Left(depth), 1, |ids|
  {
    if ids == [] then ([], seen)
    else
      var (node, seen1) := Explained(v, ids[0], depth, seen);
      var (nodes, seen2) := Walked(v, ids[1..], depth, seen1);
      ([node] + nodes, seen2)
  }

  /******* What a genealogy is, said of the tree alone *******/

  /** The caller may see the object. */
  predicate MayShow(v: View, id: Id) {
    id in v.objs && InScope(v.objs[id], v.tenant, v.namespace) && v.canRead(v.objs[id])
  }

  predicate Describes(a: Activity, r: Record) {
    && a.seqno == r.seqno && a.op == r.event.op && a.ts == r.event.ts && a.actor == r.event.actor
    && a.principal == r.event.principal && a.entryHash == r.entryHash
  }

  /** The activities are those of the records at these positions. */
  ghost predicate ListsRecords(ledger: seq<Record>, acts: seq<Activity>, at: seq<nat>) {
    |acts| == |at| && forall k :: 0 <= k < |at| ==> at[k] < |ledger| && Describes(acts[k], ledger[at[k]])
  }

  /** Exactly the records of the scope that mention the id, in ledger order. */
  ghost predicate AreActivities(v: View, id: Id, acts: seq<Activity>) {
    exists at :: Keeps(v.ledger, (r: Record) => OfScope(v, r) && RefsId(PayloadJson(r.event.payload), id), at) &&
                 ListsRecords(v.ledger, acts, at)
  }

  /** Exactly the facts of the scope whose `supersedes` lists the id, in the store's order. */
  ghost predicate AreSuperseders(v: View, id: Id, ids: seq<Id>) {
    exists at :: Keeps(v.order, (f: Id) => f in v.objs && InScope(v.objs[f], v.tenant, v.namespace) &&
                                           v.objs[f].kind == Fact && id in v.objs[f].body.supersedes, at) &&
                 Picked(v.order, at, ids)
  }

  predicate ShowsSource(v: View, source: Option<Id>, shown: SourceView) {
    match shown
    case NoSource => source.None? || source.value == ""
    case SourceMissing(s) => s != "" && source == Some(s) && s !in v.objs
    case SourceOutOfScope(s) =>
      s != "" && source == Some(s) && s in v.objs && !InScope(v.objs[s], v.tenant, v.namespace)
    case SourceShown(s, trust) =>
      s != "" && source == Some(s) && s in v.objs && InScope(v.objs[s], v.tenant, v.namespace) &&
      trust == v.objs[s].body.trust
  }

  predicate ShowsStatement(o: Obj, shown: Option<Statement>) {
    && (shown.Some? <==> o.kind == Fact)
    && (shown.Some? ==>
          var s := shown.value;
          && s.subject == o.body.subject && s.pred == o.body.pred && s.target == o.body.target
          && s.validFrom == o.body.validFrom && s.validTo == o.body.validTo
          && s.txFrom == o.body.txFrom && s.txTo == o.txTo && s.status == o.status)
  }

  function NodeIds(nodes: seq<Node>): (ids: seq<Id>)
    ensures |ids| == |nodes| && forall i :: 0 <= i < |nodes| ==> ids[i] == nodes[i].id
  {
    seq(|nodes|, i requires 0 <= i < |nodes| => nodes[i].id)
  }

  /** A full node shows its object: what it was derived from and what it supersedes each in its own place. */
  ghost predicate ShowsObject(v: View, o: Obj, node: Node) {
    && node.Node? && node.kind == o.kind
    && node.confidence == o.confidence && node.owner == o.owner && node.createdAt == o.createdAt
    && ShowsStatement(o, node.statement) && ShowsSource(v, o.body.source, node.source)
    && NodeIds(node.derivedFrom) == o.body.derivedFrom && NodeIds(node.supersedes) == o.body.supersedes
    && node.contradicts == o.contradicts
    && AreActivities(v, node.id, node.activities) && AreSuperseders(v, node.id, node.supersededBy)
  }

  /** A node of the tree, and the depth that was left when the walk came to it. */
  datatype Visit = Visit(node: Node, depth: int)

  /** The nodes of a tree in the order of the walk: what an object was derived from before what it supersedes. */
  function Visits(node: Node, depth: int): seq<Visit>
    decreases node
  {
    [Visit(node, depth)] +
    if node.Node? then VisitsOf(node.derivedFrom, depth - 1) + VisitsOf(node.supersedes, depth - 1) else []
  }

  function VisitsOf(nodes: seq<Node>, depth: int): seq<Visit>
    decreases nodes
  {
    if nodes == [] then [] else Visits(nodes[0], depth) + VisitsOf(nodes[1..], depth)
  }

  /** The ids that are shown in full. */
  function Expanded(visits: seq<Visit>): set<Id> {
    set x | x in visits && x.node.Node? :: x.node.id
  }

  /** A node is missing, out of scope or elided exactly when it must be: elided when its id was seen before, also
      earlier in the walk, or the depth is used up. */
  ghost predicate VisitedWell(v: View, x: Visit, seen: set<Id>) {
    var id := x.node.id;
    && (x.node.Missing? <==> id !in v.objs)
    && (x.node.OutOfScope? <==> id in v.objs && !MayShow(v, id))
    && (x.node.Elided? <==> MayShow(v, id) && (id in seen || x.depth < 0))
    && (x.node.Elided? ==> x.node.kind == v.objs[id].kind)
    && (x.node.Node? ==> ShowsObject(v, v.objs[id], x.node))
  }

  ghost predicate AllVisitedWell(v: View, visits: seq<Visit>, seen: set<Id>) {
    forall k :: 0 <= k < |visits| ==> VisitedWell(v, visits[k], seen + Expanded(visits[..k]))
  }

  /** The tree of an object, and the ids seen after the walk. */
  ghost predicate Genealogy(v: View, id: Id, depth: int, seen: set<Id>, node: Node, seen': set<Id>) {
    && node.id == id
    && AllVisitedWell(v, Visits(node, depth), seen)
    && seen' == seen + Expanded(Visits(node, depth))
  }

  lemma ExpandedConcat(a: seq<Visit>, b: seq<Visit>)
    ensures Expanded(a + b) == Expanded(a) + Expanded(b)
  {
  }

  lemma VisitedConcat(v: View, a: seq<Visit>, b: seq<Visit>, seen: set<Id>)
    requires AllVisitedWell(v, a, seen) && AllVisitedWell(v, b, seen + Expanded(a))
    ensures AllVisitedWell(v, a + b, seen)
  {
    var all := a + b;
    forall k | 0 <= k < |all| ensures VisitedWell(v, all[k], seen + Expanded(all[..k])) {
      if k < |a| {
        assert all[k] == a[k] && all[..k] == a[..k];
      } else {
        var j := k - |a|;
        assert all[k] == b[j] && all[..k] == a + b[..j];
        ExpandedConcat(a, b[..j]);
        assert seen + Expanded(a) + Expanded(b[..j]) == seen + Expanded(all[..k]);
      }
    }
  }

  /** No id is shown in full twice in one tree. */
  lemma ExpandedOnce(v: View, visits: seq<Visit>, seen: set<Id>, j: nat, k: nat)
    requires AllVisitedWell(v, visits, seen) && j < k < |visits| && visits[j].node.Node? && visits[k].node.Node?
    ensures visits[j].node.id != visits[k].node.id && visits[k].node.id !in seen
  {
    assert VisitedWell(v, visits[k], seen + Expanded(visits[..k]));
    assert visits[..k][j] == visits[j];
  }

  lemma {:induction false} ActivitiesKept(ledger: seq<Record>, p: Record -> bool) returns (at: seq<nat>)
    ensures Keeps(ledger, p, at) && ListsRecords(ledger, Activities(ledger, p), at)
    decreases |ledger|
  {
    if ledger == [] {
      at := [];
    } else {
      var n := |ledger| - 1;
      var front, r := ledger[..n], ledger[n];
      var before := ActivitiesKept(front, p);
      at := if p(r) then before + [n] else before;
      assert front + [r] == ledger;
      KeepsSnoc(front, r, p, before);
      RecordsSnoc(front, r, Activities(front, p), before);
    }
  }

  lemma RecordsSnoc(front: seq<Record>, r: Record, acts: seq<Activity>, at: seq<nat>)
    requires ListsRecords(front, acts, at)
    ensures ListsRecords(front + [r], acts, at)
    ensures ListsRecords(front + [r], acts + [ActivityOf(r)], at + [|front|])
  {
    assert forall i :: 0 <= i < |front| ==> (front + [r])[i] == front[i];
  }

  lemma {:induction false} SupersedersKept(v: View, order: seq<Id>, id: Id, p: Id -> bool) returns (at: seq<nat>)
    requires forall f :: p(f) <==>
               f in v.objs && InScope(v.objs[f], v.tenant, v.namespace) && v.objs[f].kind == Fact &&
               id in v.objs[f].body.supersedes
    ensures Keeps(order, p, at) && Picked(order, at, ScannedSuperseders(v, order, id))
    decreases |order|
  {
    if order == [] {
      at := [];
    } else {
      var n := |order| - 1;
      var front, f := order[..n], order[n];
      var before := SupersedersKept(v, front, id, p);
      at := if p(f) then before + [n] else before;
      assert front + [f] == order;
      KeepsSnoc(front, f, p, before);
      PickedSnoc(front, f, before, ScannedSuperseders(v, front, id));
    }
  }

  lemma ScansAreExact(v: View, id: Id)
    ensures AreActivities(v, id, ScannedActivities(v, id))
    ensures AreSuperseders(v, id, ScannedSuperseders(v, v.order, id))
  {
    var p := (r: Record) => OfScope(v, r) && RefsId(PayloadJson(r.event.payload), id);
    ActivitiesAgree(v.ledger, p, (r: Record) => OfScope(v, r) && Mentions(r, id));
    var at := ActivitiesKept(v.ledger, p);
    var q := (f: Id) => f in v.objs && InScope(v.objs[f], v.tenant, v.namespace) &&
                        v.objs[f].kind == Fact && id in v.objs[f].body.supersedes;
    var listed := SupersedersKept(v, v.order, id, q);
  }

  lemma OneVisited(v: View, x: Visit, seen: set<Id>)
    requires VisitedWell(v, x, seen)
    ensures AllVisitedWell(v, [x], seen)
  {
    assert [x][..0] == [] && seen + Expanded([]) == seen;
  }

  /** One visit, and then the walks of its two lists of children one after the other. */
  lemma ThreeVisited(v: View, x: Visit, first: seq<Visit>, second: seq<Visit>, seen: set<Id>)
    requires x.node.Node? && VisitedWell(v, x, seen)
    requires AllVisitedWell(v, first, seen + {x.node.id})
    requires AllVisitedWell(v, second, seen + {x.node.id} + Expanded(first))
    ensures AllVisitedWell(v, [x] + (first + second), seen)
    ensures Expanded([x] + (first + second)) == {x.node.id} + Expanded(first) + Expanded(second)
  {
    OneVisited(v, x, seen);
    VisitedConcat(v, first, second, seen + {x.node.id});
    assert Expanded([x]) == {x.node.id};
    VisitedConcat(v, [x], first + second, seen);
    ExpandedConcat(first, second);
    ExpandedConcat([x], first + second);
  }

  lemma FullNode(v: View, node: Node, depth: int, seen: set<Id>)
    requires node.Node? && MayShow(v, node.id) && node.id !in seen && depth >= 0
    requires ShowsObject(v, v.objs[node.id], node)
    requires var derived := VisitsOf(node.derivedFrom, depth - 1);
             && AllVisitedWell(v, derived, seen + {node.id})
             && AllVisitedWell(v, VisitsOf(node.supersedes, depth - 1), seen + {node.id} + Expanded(derived))
    ensures Genealogy(v, node.id, depth, seen, node,
                      seen + {node.id} + Expanded(VisitsOf(node.derivedFrom, depth - 1)) +
                      Expanded(VisitsOf(node.supersedes, depth - 1)))
  {
    assert VisitedWell(v, Visit(node, depth), seen);
    ThreeVisited(v, Visit(node, depth), VisitsOf(node.derivedFrom, depth - 1), VisitsOf(node.supersedes, depth - 1),
                 seen);
  }

  lemma LeafNode(v: View, node: Node, depth: int, seen: set<Id>)
    requires !node.Node? && VisitedWell(v, Visit(node, depth), seen)
    ensures Genealogy(v, node.id, depth, seen, node, seen)
  {
    OneVisited(v, Visit(node, depth), seen);
    assert Visits(node, depth) == [Visit(node, depth)];
    assert Expanded([Visit(node, depth)]) == {};
  }

  /** The walk builds the genealogy. */
  lemma {:induction false} ExplainedWell(v: View, id: Id, depth: int, seen: set<Id>)
    ensures Genealogy(v, id, depth, seen, Explained(v, id, depth, seen).0, Explained(v, id, depth, seen).1)
    decreases Left(depth), 0, 0
  {
    var node := Explained(v, id, depth, seen).0;
    if node.Node? {
      var o := v.objs[id];
      var seen1 := Walked(v, o.body.derivedFrom, depth - 1, seen + {id}).1;
      WalkedWell(v, o.body.derivedFrom, depth - 1, seen + {id});
      WalkedWell(v, o.body.supersedes, depth - 1, seen1);
      ScansAreExact(v, id);
      FullNode(v, node, depth, seen);
    } else {
      LeafNode(v, node, depth, seen);
    }
  }

  lemma {:induction false} WalkedWell(v: View, ids: seq<Id>, depth: int, seen: set<Id>)
    ensures var (nodes, seen') := Walked(v, ids, depth, seen);
            && NodeIds(nodes) == ids
            && AllVisitedWell(v, VisitsOf(nodes, depth), seen)
            && seen' == seen + Expanded(VisitsOf(nodes, depth))
    decreases Left(depth), 1, |ids|
  {
    if ids != [] {
      var (node, seen1) := Explained(v, ids[0], depth, seen);
      var (nodes, seen2) := Walked(v, ids[1..], depth, seen1);
      ExplainedWell(v, ids[0], depth, seen);
      WalkedWell(v, ids[1..], depth, seen1);
      VisitedConcat(v, Visits(node, depth), VisitsOf(nodes, depth), seen);
      ExpandedConcat(Visits(node, depth), VisitsOf(nodes, depth));
      assert ([node] + nodes)[1..] == nodes;
    }
  }

  /******* What the index needs of the store *******/

  /** The record with which a fact was asserted. */
  predicate Asserts(r: Record, id: Id) {
    r.event.payload.Whole? && r.event.payload.obj.kind == Fact && r.event.payload.obj.id == id
  }

  ghost predicate AssertedOnce(ledger: seq<Record>) {
    forall i, j, id ::
      0 <= i < |ledger| && 0 <= j < |ledger| && Asserts(ledger[i], id) && Asserts(ledger[j], id) ==> i == j
  }

  /** Each fact object was asserted by exactly one record, of its scope and with its fields. */
  ghost predicate FactsRecorded(ledger: seq<Record>, objs: Objects) {
    && (forall id :: id in objs && objs[id].kind == Fact ==> exists i :: 0 <= i < |ledger| && Asserts(ledger[i], id))
    && (forall i :: 0 <= i < |ledger| && ledger[i].event.payload.Whole? && ledger[i].event.payload.obj.kind == Fact ==>
          var o := ledger[i].event.payload.obj;
          o.id in objs && objs[o.id].kind == Fact && objs[o.id].body == o.body &&
          InScope(objs[o.id], ledger[i].event.tenant, ledger[i].event.namespace))
    && AssertedOnce(ledger)
  }

  ghost predicate Numbered(ledger: seq<Record>) {
    forall i, j :: 0 <= i < j < |ledger| ==> ledger[i].seqno != ledger[j].seqno
  }

  predicate NoRepeat(s: seq<Id>) {
    forall i, j :: 0 <= i < j < |s| ==> s[i] != s[j]
  }

  /** The store lists every object once. */
  ghost predicate Enumerates(order: seq<Id>, objs: Objects) {
    && (forall id :: id in objs <==> id in order)
    && NoRepeat(order)
  }

  ghost predicate SoundView(v: View) {
    Numbered(v.ledger) && FactsRecorded(v.ledger, v.objs) && Enumerates(v.order, v.objs)
  }

  /** No two facts supersede the same fact. */
  ghost predicate OneSuperseder(objs: Objects) {
    forall a, b, id :: a in objs && b in objs && Supersedes(objs[a], id) && Supersedes(objs[b], id) ==> a == b
  }

  /******* The indexed forms *******/

  function IndexedActivities(v: View, seqs: set<int>): seq<Activity> {
    Activities(v.ledger, (r: Record) => r.seqno in seqs && OfScope(v, r))
  }

  /** The superseders found among the records with these numbers, in ledger order. */
  function IndexedSuperseders(v: View, ledger: seq<Record>, seqs: set<int>, id: Id): seq<Id>
    decreases |ledger|
  {
    if ledger == [] then []
    else
      var front := IndexedSuperseders(v, ledger[..|ledger| - 1], seqs, id);
      var r := ledger[|ledger| - 1];
      if r.seqno in seqs && OfScope(v, r) && r.event.payload.Whole? && Supersedes(r.event.payload.obj, id)
      then front + [r.event.payload.obj.id] else front
  }

  function SeqsOf(rows: Rows, id: Id): set<int> {
    set row | row in rows && row.0 == id :: row.1
  }

  lemma {:induction false} ActivitiesAgree(ledger: seq<Record>, p: Record -> bool, q: Record -> bool)
    requires forall i :: 0 <= i < |ledger| ==> p(ledger[i]) == q(ledger[i])
    ensures Activities(ledger, p) == Activities(ledger, q)
    decreases |ledger|
  {
    if ledger != [] {
      var front := ledger[..|ledger| - 1];
      assert forall i :: 0 <= i < |front| ==> front[i] == ledger[i];
      ActivitiesAgree(front, p, q);
    }
  }

  lemma SeqsAreMentions(v: View, rows: Rows, id: Id, i: nat)
    requires SoundView(v) && Exact(v.ledger, rows) && IdShape(id) && i < |v.ledger|
    ensures v.ledger[i].seqno in SeqsOf(rows, id) <==> Mentions(v.ledger[i], id)
  {
    ExactFindsMentions(v.ledger, rows, id, i);
    assert v.ledger[i].seqno in SeqsOf(rows, id) <==> (id, v.ledger[i].seqno) in rows;
  }

  /** Looking activities up gives the list the scan gives. */
  lemma ActivityParity(v: View, rows: Rows, id: Id)
    requires SoundView(v) && Exact(v.ledger, rows) && IdShape(id)
    ensures IndexedActivities(v, SeqsOf(rows, id)) == ScannedActivities(v, id)
  {
    var seqs := SeqsOf(rows, id);
    forall i | 0 <= i < |v.ledger|
      ensures (v.ledger[i].seqno in seqs && OfScope(v, v.ledger[i])) ==
              (OfScope(v, v.ledger[i]) && Mentions(v.ledger[i], id))
    {
      SeqsAreMentions(v, rows, id, i);
    }
    ActivitiesAgree(v.ledger, (r: Record) => r.seqno in seqs && OfScope(v, r),
                    (r: Record) => OfScope(v, r) && Mentions(r, id));
  }

  lemma {:induction false} ScannedAre(v: View, order: seq<Id>, id: Id)
    ensures forall f :: f in ScannedSuperseders(v, order, id) <==>
              f in order && f in v.objs && InScope(v.objs[f], v.tenant, v.namespace) && Supersedes(v.objs[f], id)
    ensures NoRepeat(order) ==> NoRepeat(ScannedSuperseders(v, order, id))
    decreases |order|
  {
    if order != [] {
      var front := order[..|order| - 1];
      assert order == front + [order[|order| - 1]];
      ScannedAre(v, front, id);
    }
  }

  /** A record that asserts a fact mentions every fact it supersedes. */
  lemma AssertionMentions(r: Record, id: Id)
    requires r.event.payload.Whole? && id in r.event.payload.obj.body.supersedes
    ensures Mentions(r, id)
  {
    References.ReferredAreMentioned(r.event.payload.obj, id);
  }

  /** Some record of the list asserts `f` as a superseder of `id` within the scope. */
  ghost predicate Found(v: View, ledger: seq<Record>, seqs: set<int>, id: Id, f: Id) {
    exists i :: 0 <= i < |ledger| && ledger[i].seqno in seqs && OfScope(v, ledger[i]) &&
      Asserts(ledger[i], f) && Supersedes(ledger[i].event.payload.obj, id)
  }

  lemma {:induction false} IndexedAre(v: View, ledger: seq<Record>, seqs: set<int>, id: Id)
    ensures forall f :: f in IndexedSuperseders(v, ledger, seqs, id) <==> Found(v, ledger, seqs, id, f)
    decreases |ledger|
  {
    if ledger != [] {
      var n := |ledger| - 1;
      var front, r := ledger[..n], ledger[n];
      IndexedAre(v, front, seqs, id);
      var all := IndexedSuperseders(v, ledger, seqs, id);
      forall f ensures f in all <==> Found(v, ledger, seqs, id, f) {
        FoundSnoc(v, front, r, seqs, id, f);
        assert ledger == front + [r];
      }
    }
  }

  lemma FoundSnoc(v: View, front: seq<Record>, r: Record, seqs: set<int>, id: Id, f: Id)
    ensures Found(v, front + [r], seqs, id, f) <==>
            Found(v, front, seqs, id, f) ||
            (r.seqno in seqs && OfScope(v, r) && Asserts(r, f) && Supersedes(r.event.payload.obj, id))
  {
    var all := front + [r];
    if Found(v, front, seqs, id, f) {
      var i :| 0 <= i < |front| && front[i].seqno in seqs && OfScope(v, front[i]) &&
        Asserts(front[i], f) && Supersedes(front[i].event.payload.obj, id);
      assert all[i] == front[i];
    }
    assert all[|front|] == r;
  }

  /** The index finds the superseders that the scan finds, whatever the interleaving was. */
  lemma SupersederSets(v: View, rows: Rows, id: Id, f: Id)
    requires SoundView(v) && Exact(v.ledger, rows) && IdShape(id)
    ensures f in IndexedSuperseders(v, v.ledger, SeqsOf(rows, id), id) <==> f in ScannedSuperseders(v, v.order, id)
  {
    var seqs := SeqsOf(rows, id);
    IndexedAre(v, v.ledger, seqs, id);
    ScannedAre(v, v.order, id);
    if f in v.objs && InScope(v.objs[f], v.tenant, v.namespace) && Supersedes(v.objs[f], id) {
      SupersederIsFound(v, rows, id, f);
    }
  }

  lemma SupersederIsFound(v: View, rows: Rows, id: Id, f: Id)
    requires SoundView(v) && Exact(v.ledger, rows) && IdShape(id)
    requires f in v.objs && InScope(v.objs[f], v.tenant, v.namespace) && Supersedes(v.objs[f], id)
    ensures Found(v, v.ledger, SeqsOf(rows, id), id, f)
  {
    var i :| 0 <= i < |v.ledger| && Asserts(v.ledger[i], f);
    AssertionMentions(v.ledger[i], id);
    SeqsAreMentions(v, rows, id, i);
  }

  lemma {:induction false} IndexedCount(v: View, ledger: seq<Record>, seqs: set<int>, id: Id)
    requires AssertedOnce(ledger)
    ensures NoRepeat(IndexedSuperseders(v, ledger, seqs, id))
    decreases |ledger|
  {
    if ledger != [] {
      var n := |ledger| - 1;
      var front, r := ledger[..n], ledger[n];
      assert forall i :: 0 <= i < n ==> front[i] == ledger[i];
      IndexedCount(v, front, seqs, id);
      IndexedAre(v, front, seqs, id);
      var s := IndexedSuperseders(v, front, seqs, id);
      if r.event.payload.Whole? && Supersedes(r.event.payload.obj, id) {
        var f := r.event.payload.obj.id;
        assert Asserts(ledger[n], f);
        assert f !in s;
      }
    }
  }

  /******* The order of several superseders *******/

  ghost predicate Earlier(s: seq<Id>, f: Id, g: Id) {
    exists i, j :: 0 <= i < j < |s| && s[i] == f && s[j] == g
  }

  lemma EarlierSnoc(s: seq<Id>, x: Id, f: Id, g: Id)
    ensures Earlier(s + [x], f, g) <==> Earlier(s, f, g) || (g == x && f in s)
  {
    var all := s + [x];
    if Earlier(s, f, g) {
      var i, j :| 0 <= i < j < |s| && s[i] == f && s[j] == g;
      assert all[i] == f && all[j] == g;
    }
    if g == x && f in s {
      var i :| 0 <= i < |s| && s[i] == f;
      assert all[i] == f && all[|s|] == g;
    }
    if Earlier(all, f, g) {
      var i, j :| 0 <= i < j < |all| && all[i] == f && all[j] == g;
      assert s[i] == f;
      assert j < |s| ==> s[j] == g;
    }
  }

  /** The record that asserts `f` comes before the one that asserts `g`. */
  ghost predicate AssertedBefore(ledger: seq<Record>, f: Id, g: Id) {
    exists i, j :: 0 <= i < j < |ledger| && Asserts(ledger[i], f) && Asserts(ledger[j], g)
  }

  ghost predicate AssertedIn(ledger: seq<Record>, f: Id) {
    exists i :: 0 <= i < |ledger| && Asserts(ledger[i], f)
  }

  lemma AssertedBeforeSnoc(front: seq<Record>, r: Record, f: Id, g: Id)
    ensures AssertedBefore(front + [r], f, g) <==>
            AssertedBefore(front, f, g) || (Asserts(r, g) && AssertedIn(front, f))
  {
    var all := front + [r];
    if AssertedBefore(front, f, g) {
      var i, j :| 0 <= i < j < |front| && Asserts(front[i], f) && Asserts(front[j], g);
      assert all[i] == front[i] && all[j] == front[j];
    }
    if Asserts(r, g) && AssertedIn(front, f) {
      var i :| 0 <= i < |front| && Asserts(front[i], f);
      assert all[i] == front[i] && all[|front|] == r;
    }
    if AssertedBefore(all, f, g) {
      var i, j :| 0 <= i < j < |all| && Asserts(all[i], f) && Asserts(all[j], g);
      assert all[i] == front[i];
      assert j < |front| ==> all[j] == front[j];
    }
  }

  /** The scan keeps the order of the listing. */
  lemma {:induction false} ScannedOrder(v: View, order: seq<Id>, id: Id, f: Id, g: Id)
    requires NoRepeat(order)
    ensures var s := ScannedSuperseders(v, order, id);
            Earlier(s, f, g) <==> f in s && g in s && Earlier(order, f, g)
    decreases |order|
  {
    if order != [] {
      var front, x := order[..|order| - 1], order[|order| - 1];
      var s, t := ScannedSuperseders(v, front, id), ScannedSuperseders(v, order, id);
      assert order == front + [x];
      ScannedOrder(v, front, id, f, g);
      ScannedAre(v, front, id);
      EarlierSnoc(front, x, f, g);
      EarlierSnoc(s, x, f, g);
      if f == x || g == x {
        NotEarlier(front, x);
      }
    }
  }

  lemma NotEarlier(s: seq<Id>, x: Id)
    requires x !in s
    ensures forall f :: !Earlier(s, f, x) && !Earlier(s, x, f)
  {
  }

  /** The index keeps the order of the ledger. */
  lemma {:induction false} IndexedOrder(v: View, ledger: seq<Record>, seqs: set<int>, id: Id, f: Id, g: Id)
    requires AssertedOnce(ledger)
    ensures var s := IndexedSuperseders(v, ledger, seqs, id);
            Earlier(s, f, g) <==> f in s && g in s && AssertedBefore(ledger, f, g)
    decreases |ledger|
  {
    if ledger != [] {
      var n := |ledger| - 1;
      var front, r := ledger[..n], ledger[n];
      assert ledger == front + [r];
      OnceBefore(ledger);
      IndexedOrder(v, front, seqs, id, f, g);
      AssertedBeforeSnoc(front, r, f, g);
      IndexedKnown(v, front, seqs, id);
      var s := IndexedSuperseders(v, front, seqs, id);
      if r.event.payload.Whole? {
        EarlierSnoc(s, r.event.payload.obj.id, f, g);
      }
      OnlyLast(ledger, f, g);
    }
  }

  lemma OnceBefore(ledger: seq<Record>)
    requires AssertedOnce(ledger) && ledger != []
    ensures AssertedOnce(ledger[..|ledger| - 1])
  {
    var front := ledger[..|ledger| - 1];
    assert forall i :: 0 <= i < |front| ==> front[i] == ledger[i];
  }

  lemma IndexedKnown(v: View, ledger: seq<Record>, seqs: set<int>, id: Id)
    ensures forall f :: f in IndexedSuperseders(v, ledger, seqs, id) ==> AssertedIn(ledger, f)
  {
    IndexedAre(v, ledger, seqs, id);
  }

  /** What the last record asserts, no record before it asserted. */
  lemma OnlyLast(ledger: seq<Record>, f: Id, g: Id)
    requires AssertedOnce(ledger) && ledger != []
    ensures var n := |ledger| - 1;
            && (Asserts(ledger[n], f) ==> !AssertedIn(ledger[..n], f) && !AssertedBefore(ledger[..n], f, g))
            && (Asserts(ledger[n], g) ==> !AssertedIn(ledger[..n], g) && !AssertedBefore(ledger[..n], f, g))
  {
    var n := |ledger| - 1;
    assert forall i :: 0 <= i < n ==> ledger[..n][i] == ledger[i];
  }

  /** Two repetition-free lists of the same elements in the same order are the same list. */
  lemma {:induction false} SameOrder(s: seq<Id>, t: seq<Id>)
    requires NoRepeat(s) && NoRepeat(t) && forall f :: f in s <==> f in t
    requires forall f, g :: Earlier(s, f, g) ==> Earlier(t, f, g)
    ensures s == t
    decreases |s|
  {
    FirstIn(s, t);
    if s != [] {
      LastIsLast(s, t);
      var front, back, x := s[..|s| - 1], t[..|t| - 1], s[|s| - 1];
      assert s == front + [x] && t == back + [x];
      forall f ensures f in front <==> f in back {
        assert f in front <==> f in s && f != x;
        assert f in back <==> f in t && f != x;
      }
      forall f, g | Earlier(front, f, g) ensures Earlier(back, f, g) {
        EarlierSnoc(front, x, f, g);
        EarlierSnoc(back, x, f, g);
      }
      SameOrder(front, back);
    }
  }

  lemma FirstIn(s: seq<Id>, t: seq<Id>)
    requires forall f :: f in s <==> f in t
    ensures s == [] <==> t == []
  {
    assert t == [] || t[0] in t;
    assert s == [] || s[0] in s;
  }

  lemma LastIsLast(s: seq<Id>, t: seq<Id>)
    requires NoRepeat(s) && NoRepeat(t) && s != [] && t != [] && forall f :: f in s <==> f in t
    requires forall f, g :: Earlier(s, f, g) ==> Earlier(t, f, g)
    ensures s[|s| - 1] == t[|t| - 1]
  {
    assert t[|t| - 1] in t;
    BeforeLast(s, t[|t| - 1]);
    NothingAfterLast(t, s[|s| - 1]);
  }

  lemma BeforeLast(s: seq<Id>, y: Id)
    requires s != []
    ensures y in s && y != s[|s| - 1] ==> Earlier(s, y, s[|s| - 1])
  {
    if i :| 0 <= i < |s| && s[i] == y {
      assert i < |s| - 1 ==> Earlier(s, y, s[|s| - 1]);
    }
  }

  lemma NothingAfterLast(t: seq<Id>, x: Id)
    requires NoRepeat(t) && t != []
    ensures !Earlier(t, t[|t| - 1], x)
  {
  }

  /** The store lists the superseders of each fact in the order in which they were asserted. */
  ghost predicate ListedAsAsserted(v: View, id: Id) {
    var s := ScannedSuperseders(v, v.order, id);
    forall f, g :: f in s && g in s && Earlier(v.order, f, g) ==> AssertedBefore(v.ledger, f, g)
  }

  /** The indexed and the scanned superseders are the same list if and only if the store lists them in the order
      in which they were asserted. */
  lemma SupersederParity(v: View, rows: Rows, id: Id)
    requires SoundView(v) && Exact(v.ledger, rows) && IdShape(id)
    ensures IndexedSuperseders(v, v.ledger, SeqsOf(rows, id), id) == ScannedSuperseders(v, v.order, id) <==>
            ListedAsAsserted(v, id)
  {
    var indexed, scanned := IndexedSuperseders(v, v.ledger, SeqsOf(rows, id), id), ScannedSuperseders(v, v.order, id);
    forall f ensures f in indexed <==> f in scanned {
      SupersederSets(v, rows, id, f);
    }
    ScannedAre(v, v.order, id);
    IndexedCount(v, v.ledger, SeqsOf(rows, id), id);
    forall f, g
      ensures Earlier(scanned, f, g) <==> f in scanned && g in scanned && Earlier(v.order, f, g)
      ensures Earlier(indexed, f, g) <==> f in indexed && g in indexed && AssertedBefore(v.ledger, f, g)
    {
      ScannedOrder(v, v.order, id, f, g);
      IndexedOrder(v, v.ledger, SeqsOf(rows, id), id, f, g);
    }
    if ListedAsAsserted(v, id) {
      SameOrder(scanned, indexed);
    }
  }

  /** With at most one superseder for each fact there is nothing to order. */
  lemma OneIsListed(v: View, id: Id)
    requires SoundView(v) && OneSuperseder(v.objs)
    ensures ListedAsAsserted(v, id)
  {
    ScannedAre(v, v.order, id);
    forall f, g | f in ScannedSuperseders(v, v.order, id) && g in ScannedSuperseders(v, v.order, id)
      ensures !Earlier(v.order, f, g)
    {
      assert f == g;
    }
  }

  /******* The walk with an index that may fail at any query *******/

  ghost predicate Usable(v: View, state: Health, rows: Rows) {
    SoundView(v) && (forall id :: ListedAsAsserted(v, id)) && (state == Healthy ==> Exact(v.ledger, rows))
  }

  /** A query may find the index broken; nothing else about it changes. */
  predicate OnlyDegrades(before: Health, after: Health) {
    after == before || (before == Healthy && after == Degraded)
  }

  /** The activities among the records with these numbers. */
  method LookUpActivities(v: View, seqs: set<int>) returns (acts: seq<Activity>)
    ensures acts == IndexedActivities(v, seqs)
  {
    acts := [];
    for i := 0 to |v.ledger|
      invariant acts == Activities(v.ledger[..i], (r: Record) => r.seqno in seqs && OfScope(v, r))
    {
      assert v.ledger[..i + 1][..i] == v.ledger[..i];
      var r := v.ledger[i];
      if r.seqno !in seqs || !OfScope(v, r) { continue; }
      acts := acts + [ActivityOf(r)];
    }
    assert v.ledger[..|v.ledger|] == v.ledger;
  }

  method ScanActivities(v: View, id: Id) returns (acts: seq<Activity>)
    ensures acts == ScannedActivities(v, id)
  {
    acts := [];
    for i := 0 to |v.ledger|
      invariant acts == Activities(v.ledger[..i], (r: Record) => OfScope(v, r) && Mentions(r, id))
    {
      assert v.ledger[..i + 1][..i] == v.ledger[..i];
      var r := v.ledger[i];
      if OfScope(v, r) && Mentions(r, id) {
        acts := acts + [ActivityOf(r)];
      }
    }
    assert v.ledger[..|v.ledger|] == v.ledger;
  }

  method ActivitiesFor(v: View, index: Index, id: Id) returns (acts: seq<Activity>)
    requires Usable(v, index.state, index.rows)
    modifies index`state
    ensures acts == ScannedActivities(v, id)
    ensures OnlyDegrades(old(index.state), index.state)
  {
    if index.UsableFor(id) {
      var ok, seqs := index.SeqsFor(id);
      if ok {
        ActivityParity(v, index.rows, id);
        acts := LookUpActivities(v, seqs);
        return;
      }
      index.MarkDegraded();
    }
    acts := ScanActivities(v, id);
  }

  /** The superseders among the records with these numbers. */
  method LookUpSuperseders(v: View, seqs: set<int>, id: Id) returns (ids: seq<Id>)
    ensures ids == IndexedSuperseders(v, v.ledger, seqs, id)
  {
    ids := [];
    for i := 0 to |v.ledger|
      invariant ids == IndexedSuperseders(v, v.ledger[..i], seqs, id)
    {
      assert v.ledger[..i + 1][..i] == v.ledger[..i];
      var r := v.ledger[i];
      if r.seqno !in seqs || !OfScope(v, r) { continue; }
      if r.event.payload.Whole? && Supersedes(r.event.payload.obj, id) {
        ids := ids + [r.event.payload.obj.id];
      }
    }
    assert v.ledger[..|v.ledger|] == v.ledger;
  }

  method ScanSuperseders(v: View, id: Id) returns (ids: seq<Id>)
    ensures ids == ScannedSuperseders(v, v.order, id)
  {
    ids := [];
    for i := 0 to |v.order|
      invariant ids == ScannedSuperseders(v, v.order[..i], id)
    {
      assert v.order[..i + 1][..i] == v.order[..i];
      var f := v.order[i];
      if f in v.objs && InScope(v.objs[f], v.tenant, v.namespace) && Supersedes(v.objs[f], id) {
        ids := ids + [f];
      }
    }
    assert v.order[..|v.order|] == v.order;
  }

  method SupersededBy(v: View, index: Index, id: Id) returns (ids: seq<Id>)
    requires Usable(v, index.state, index.rows)
    modifies index`state
    ensures ids == ScannedSuperseders(v, v.order, id)
    ensures OnlyDegrades(old(index.state), index.state)
  {
    if index.UsableFor(id) {
      var ok, seqs := index.SeqsFor(id);
      if ok {
        SupersederParity(v, index.rows, id);
        ids := LookUpSuperseders(v, seqs, id);
        return;
      }
      index.MarkDegraded();
    }
    ids := ScanSuperseders(v, id);
  }

  /** Index independence: whatever the health of the index, and whichever of its queries fail on
      the way, the whole tree is the one the scans give. */
  method Explain(v: View, index: Index, id: Id, depth: int, seen: set<Id>) returns (node: Node, seen': set<Id>)
    requires Usable(v, index.state, index.rows)
    modifies index`state
    ensures Genealogy(v, id, depth, seen, node, seen')
    ensures (node, seen') == Explained(v, id, depth, seen)
    ensures OnlyDegrades(old(index.state), index.state)
    decreases Left(depth), 0, 0
  {
    ExplainedWell(v, id, depth, seen);
    if id !in v.objs {
      return Missing(id), seen;
    }
    var o := v.objs[id];
    if !InScope(o, v.tenant, v.namespace) || !v.canRead(o) {
      return OutOfScope(id), seen;
    }
    if id in seen || depth < 0 {
      return Elided(id, o.kind), seen;
    }
    var acts := ActivitiesFor(v, index, id);
    var derived, superseded, superseders;
    derived, seen' := Walk(v, index, o.body.derivedFrom, depth - 1, seen + {id});
    superseded, seen' := Walk(v, index, o.body.supersedes, depth - 1, seen');
    superseders := SupersededBy(v, index, id);
    node := Node(id, o.kind, o.confidence, o.owner, o.createdAt, StatementOf(o), SourceOf(v, o), acts,
                 derived, superseded, o.contradicts, superseders);
  }

  lemma WalkedCons(v: View, ids: seq<Id>, i: nat, depth: int, seen: set<Id>)
    requires i < |ids|
    ensures var (node, seen1) := Explained(v, ids[i], depth, seen);
            var (nodes, seen2) := Walked(v, ids[i + 1..], depth, seen1);
            Walked(v, ids[i..], depth, seen) == ([node] + nodes, seen2)
  {
    assert ids[i..][1..] == ids[i + 1..];
  }

  method Walk(v: View, index: Index, ids: seq<Id>, depth: int, seen: set<Id>) returns (nodes: seq<Node>, seen': set<Id>)
    requires Usable(v, index.state, index.rows)
    modifies index`state
    ensures (nodes, seen') == Walked(v, ids, depth, seen)
    ensures OnlyDegrades(old(index.state), index.state)
    decreases Left(depth), 1, |ids|
  {
    nodes, seen' := [], seen;
    ghost var whole := Walked(v, ids, depth, seen);
    assert ids[0..] == ids && [] + whole.0 == whole.0;
    for i := 0 to |ids|
      invariant OnlyDegrades(old(index.state), index.state)
      invariant nodes + Walked(v, ids[i..], depth, seen').0 == whole.0
      invariant Walked(v, ids[i..], depth, seen').1 == whole.1
    {
      WalkedCons(v, ids, i, depth, seen');
      var node;
      node, seen' := Explain(v, index, ids[i], depth, seen');
      ghost var rest := Walked(v, ids[i + 1..], depth, seen').0;
      assert nodes + ([node] + rest) == (nodes + [node]) + rest;
      nodes := nodes + [node];
    }
    assert ids[|ids|..] == [] && nodes + [] == nodes;
  }
}
