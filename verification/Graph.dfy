/** The bounded walks over the relation graph and over the panel's edges. */
module Graph {
  import opened Model
  import opened Reach

  datatype Direction = Outgoing | Incoming | Both

  /** Who looks at which objects, along which relations. */
  datatype View = View(objs: Objects, tenant: string, namespace: string, canRead: Obj -> bool, direction: Direction,
                       relType: Option<string>)

  datatype Edge = Edge(id: Id, source: Id, target: Id, relType: Option<string>)

  datatype Found = Found(nodes: set<Id>, edges: seq<Edge>, truncated: bool) | NotFound | BadHops

  predicate InScope(v: View, o: Obj) {
    o.tenant == v.tenant && o.namespace == v.namespace
  }

  /** Every relation names its two entities. */
  ghost predicate WellFormed(v: View) {
    && (forall id :: id in v.objs ==> v.objs[id].id == id)
    && (forall id :: id in v.objs && v.objs[id].kind == Relation ==>
          v.objs[id].body.sourceEntity.Some? && v.objs[id].body.targetEntity.Some?)
  }

  predicate Leaves(r: Obj, node: Id) {
    r.body.sourceEntity == Some(node)
  }

  predicate Enters(r: Obj, node: Id) {
    r.body.targetEntity == Some(node)
  }

  /** The end of a relation that is not the given node. */
  function Far(r: Obj, node: Id): Option<Id> {
    if Leaves(r, node) then r.body.targetEntity else r.body.sourceEntity
  }

  /** A relation that may be followed from a node: in scope and readable, in the asked direction and of the
      asked type, and not leading to an object that may not be read. */
  predicate Follows(v: View, r: Obj, node: Id) {
    && r.kind == Relation && InScope(v, r) && v.canRead(r)
    && (v.relType.Some? ==> r.body.relType == v.relType)
    && ((v.direction != Incoming && Leaves(r, node)) || (v.direction != Outgoing && Enters(r, node)))
    && (Far(r, node).Some? && Far(r, node).value in v.objs ==> v.canRead(v.objs[Far(r, node).value]))
  }

  /** The relations followed from a node. */
  function Incident(v: View, node: Id): set<Id> {
    set id | id in v.objs && Follows(v, v.objs[id], node)
  }

  function Ends(r: Obj): set<Id> {
    (if r.body.sourceEntity.Some? then {r.body.sourceEntity.value} else {})
    + (if r.body.targetEntity.Some? then {r.body.targetEntity.value} else {})
  }

  function Adjacent(v: View): Step {
    (node: Id) => set id, n | id in Incident(v, node) && n in Ends(v.objs[id]) :: n
  }

  function EdgeOf(r: Obj): Edge
    requires r.body.sourceEntity.Some? && r.body.targetEntity.Some?
  {
    Edge(r.id, r.body.sourceEntity.value, r.body.targetEntity.value, r.body.relType)
  }

  /******* What is followed, said of the objects alone *******/

  /** The relation joins the node to the other one, in the direction that is asked for. */
  predicate Joins(v: View, r: Obj, node: Id, other: Id) {
    || (v.direction != Incoming && r.body.sourceEntity == Some(node) && r.body.targetEntity == Some(other))
    || (v.direction != Outgoing && r.body.targetEntity == Some(node) && r.body.sourceEntity == Some(other))
  }

  /** A relation of the scope that may be read, of the asked type, joining the node to one that, if it is there at all,
      may be read. */
  ghost predicate Neighbouring(v: View, id: Id, node: Id) {
    && id in v.objs && v.objs[id].kind == Relation
    && v.objs[id].tenant == v.tenant && v.objs[id].namespace == v.namespace && v.canRead(v.objs[id])
    && (v.relType.Some? ==> v.objs[id].body.relType == v.relType)
    && exists other :: Joins(v, v.objs[id], node, other) && (other in v.objs ==> v.canRead(v.objs[other]))
  }

  lemma IncidentIff(v: View, id: Id, node: Id)
    requires WellFormed(v)
    ensures id in Incident(v, node) <==> Neighbouring(v, id, node)
  {
    if id in Incident(v, node) {
      var far := Far(v.objs[id], node).value;
      assert Joins(v, v.objs[id], node, far) && (far in v.objs ==> v.canRead(v.objs[far]));
    }
    if Neighbouring(v, id, node) {
      var other :| Joins(v, v.objs[id], node, other) && (other in v.objs ==> v.canRead(v.objs[other]));
      assert Far(v.objs[id], node) == Some(other);
      assert Follows(v, v.objs[id], node);
    }
  }

  /** One step leads to the ends of the relations at a node. */
  lemma AdjacentIff(v: View, node: Id, other: Id)
    requires WellFormed(v)
    ensures other in Adjacent(v)(node) <==>
            exists id :: Neighbouring(v, id, node) &&
                         (v.objs[id].body.sourceEntity == Some(other) || v.objs[id].body.targetEntity == Some(other))
  {
    if other in Adjacent(v)(node) {
      var id :| id in Incident(v, node) && other in Ends(v.objs[id]);
      IncidentIff(v, id, node);
    }
    if id :| Neighbouring(v, id, node) &&
             (v.objs[id].body.sourceEntity == Some(other) || v.objs[id].body.targetEntity == Some(other)) {
      IncidentIff(v, id, node);
      assert other in Ends(v.objs[id]);
      assert other in Adjacent(v)(node);
    }
  }

  ghost predicate Listed(v: View, order: seq<Id>) {
    forall id :: id in order <==> id in v.objs
  }

  /** Relations of a node, read as `neighbors` does: outgoing ones first. */
  method Neighbors(v: View, order: seq<Id>, node: Id) returns (found: Option<seq<Id>>)
    requires WellFormed(v) && Listed(v, order)
    ensures found.None? <==> node !in v.objs || !InScope(v, v.objs[node]) || !v.canRead(v.objs[node])
    ensures found.Some? ==> forall id :: id in found.value <==> Neighbouring(v, id, node)
    ensures found.Some? ==> forall id :: id in found.value <==> id in Incident(v, node)
  {
    if node !in v.objs || !InScope(v, v.objs[node]) || !v.canRead(v.objs[node]) {
      return None;
    }
    var all := [];
    if v.direction != Incoming {
      for i := 0 to |order|
        invariant forall id :: id in all <==> id in order[..i] && Candidate(v, v.objs[id]) && Leaves(v.objs[id], node)
      {
        assert order[..i + 1] == order[..i] + [order[i]];
        if Candidate(v, v.objs[order[i]]) && Leaves(v.objs[order[i]], node) {
          all := all + [order[i]];
        }
      }
    }
    assert order[..|order|] == order;
    ghost var outgoing := all;
    if v.direction != Outgoing {
      for i := 0 to |order|
        invariant forall id :: id in all <==>
                    || id in outgoing
                    || (id in order[..i] && Candidate(v, v.objs[id]) && Enters(v.objs[id], node))
      {
        assert order[..i + 1] == order[..i] + [order[i]];
        if Candidate(v, v.objs[order[i]]) && Enters(v.objs[order[i]], node) {
          all := all + [order[i]];
        }
      }
    }
    var kept := [];
    for i := 0 to |all|
      invariant forall id :: id in kept <==> id in all[..i] && Follows(v, v.objs[id], node)
    {
      assert all[..i + 1] == all[..i] + [all[i]];
      var r := v.objs[all[i]];
      if !v.canRead(r) {
        continue;
      }
      var other := if Leaves(r, node) then r.body.targetEntity.value else r.body.sourceEntity.value;
      if other in v.objs && !v.canRead(v.objs[other]) {
        continue;
      }
      kept := kept + [all[i]];
    }
    assert all[..|all|] == all;
    found := Some(kept);
    forall id ensures id in kept <==> Neighbouring(v, id, node) {
      IncidentIff(v, id, node);
    }
  }

  predicate Candidate(v: View, r: Obj) {
    r.kind == Relation && InScope(v, r) && (v.relType.Some? ==> r.body.relType == v.relType)
  }

  /******* One node, one level, the whole walk *******/

  function Larger(limit: int): (r: nat)
    ensures r >= 1 && r >= limit && (r == 1 || r == limit)
  {
    if limit > 1 then limit else 1
  }

  /** The state of the walk: nodes visited, nodes to expand next, relations collected, in order. */
  datatype Front = Front(visited: set<Id>, next: seq<Id>, edges: seq<Id>, truncated: bool)

  function EndsOf(v: View, rels: set<Id>): set<Id> {
    set id, n | id in rels && id in v.objs && n in Ends(v.objs[id]) :: n
  }

  /** What following some relations to the end adds. */
  ghost predicate Followed(v: View, before: Front, rels: set<Id>, after: Front) {
    && !after.truncated
    && after.visited == before.visited + EndsOf(v, rels)
    && (forall n :: n in after.next <==> n in before.next || (n in after.visited && n !in before.visited))
    && (forall id :: id in after.edges <==> id in before.edges || id in rels)
  }

  /** What following some relations adds when the node budget runs out. */
  ghost predicate CutShort(v: View, before: Front, rels: set<Id>, limit: int, after: Front) {
    && after.truncated && |after.visited| >= limit
    && before.visited <= after.visited && after.visited < before.visited + EndsOf(v, rels)
    && (forall id :: id in after.edges ==> id in before.edges || id in rels)
  }

  method Visit(n: Id, limit: int, before: Front) returns (after: Front)
    requires !before.truncated && before.visited != {} && |before.visited| <= Larger(limit)
    ensures after.truncated <==> n !in before.visited && |before.visited| >= limit
    ensures after.truncated ==> after == before.(truncated := true)
    ensures !after.truncated ==> after.visited == before.visited + {n} && after.edges == before.edges
    ensures !after.truncated ==> forall m :: m in after.next <==> m in before.next || (m == n && n !in before.visited)
    ensures |after.visited| <= Larger(limit)
  {
    if n in before.visited {
      assert before.visited + {n} == before.visited;
      return before;
    }
    if |before.visited| >= limit {
      return before.(truncated := true);
    }
    after := before.(visited := before.visited + {n}, next := before.next + [n]);
  }

  method FollowOne(v: View, r: Id, limit: int, before: Front) returns (after: Front)
    requires WellFormed(v) && r in v.objs && v.objs[r].kind == Relation
    requires !before.truncated && before.visited != {} && |before.visited| <= Larger(limit)
    ensures |after.visited| <= Larger(limit)
    ensures if after.truncated then CutShort(v, before, {r}, limit, after) else Followed(v, before, {r}, after)
  {
    var source, target := v.objs[r].body.sourceEntity.value, v.objs[r].body.targetEntity.value;
    assert Ends(v.objs[r]) == {source, target};
    assert r in {r} && EndsOf(v, {r}) == Ends(v.objs[r]);
    after := before.(edges := before.edges + [r]);
    after := Visit(source, limit, after);
    if !after.truncated {
      after := Visit(target, limit, after);
    }
  }

  lemma Further(v: View, a: Front, done: set<Id>, b: Front, more: set<Id>, limit: int, c: Front)
    requires Followed(v, a, done, b)
    ensures Followed(v, b, more, c) ==> Followed(v, a, done + more, c)
    ensures CutShort(v, b, more, limit, c) ==> CutShort(v, a, done + more, limit, c)
  {
    assert EndsOf(v, done + more) == EndsOf(v, done) + EndsOf(v, more);
  }

  /** Cut short among some relations is cut short among more of them. */
  lemma CutShortMore(v: View, a: Front, rels: set<Id>, all: set<Id>, limit: int, b: Front)
    requires CutShort(v, a, rels, limit, b) && rels <= all
    ensures CutShort(v, a, all, limit, b)
  {
    assert EndsOf(v, rels) <= EndsOf(v, all);
  }

  predicate Visible(v: View, node: Id) {
    node in v.objs && InScope(v, v.objs[node]) && v.canRead(v.objs[node])
  }

  lemma FollowStep(v: View, before: Front, rels: seq<Id>, i: nat, was: Front, limit: int, after: Front)
    requires i < |rels| && Followed(v, before, NodeSet(rels[..i]), was)
    requires if after.truncated then CutShort(v, was, {rels[i]}, limit, after) else Followed(v, was, {rels[i]}, after)
    ensures if after.truncated then CutShort(v, before, NodeSet(rels), limit, after)
            else Followed(v, before, NodeSet(rels[..i + 1]), after)
  {
    assert rels[..i + 1] == rels[..i] + [rels[i]];
    assert NodeSet(rels[..i + 1]) == NodeSet(rels[..i]) + {rels[i]};
    Further(v, before, NodeSet(rels[..i]), was, {rels[i]}, limit, after);
    if after.truncated {
      CutShortMore(v, before, NodeSet(rels[..i + 1]), NodeSet(rels), limit, after);
    }
  }

  /** Follows some relations in turn. */
  method FollowAll(v: View, rels: seq<Id>, limit: int, before: Front) returns (after: Front)
    requires WellFormed(v) && forall r :: r in rels ==> r in v.objs && v.objs[r].kind == Relation
    requires !before.truncated && before.visited != {} && |before.visited| <= Larger(limit)
    ensures |after.visited| <= Larger(limit)
    ensures if after.truncated then CutShort(v, before, NodeSet(rels), limit, after)
            else Followed(v, before, NodeSet(rels), after)
  {
    after := before;
    assert EndsOf(v, {}) == {};
    for i := 0 to |rels|
      invariant |after.visited| <= Larger(limit) && after.visited != {}
      invariant Followed(v, before, NodeSet(rels[..i]), after)
    {
      ghost var was := after;
      after := FollowOne(v, rels[i], limit, after);
      FollowStep(v, before, rels, i, was, limit, after);
      if after.truncated {
        return;
      }
    }
    assert rels[..|rels|] == rels;
  }

  method Follow(v: View, order: seq<Id>, node: Id, limit: int, before: Front) returns (found: bool, after: Front)
    requires WellFormed(v) && Listed(v, order)
    requires !before.truncated && before.visited != {} && |before.visited| <= Larger(limit)
    ensures found <==> Visible(v, node)
    ensures |after.visited| <= Larger(limit)
    ensures found ==> if after.truncated then CutShort(v, before, Incident(v, node), limit, after)
                      else Followed(v, before, Incident(v, node), after)
  {
    var rels := Neighbors(v, order, node);
    if rels.None? {
      return false, before;
    }
    assert NodeSet(rels.value) == Incident(v, node);
    found := true;
    after := FollowAll(v, rels.value, limit, before);
  }

  function IncidentAll(v: View, nodes: set<Id>): set<Id> {
    set n, id | n in nodes && id in Incident(v, n) :: id
  }

  function NodeSet(nodes: seq<Id>): set<Id> {
    set n | n in nodes
  }

  lemma IncidentSplit(v: View, a: set<Id>, b: set<Id>)
    ensures IncidentAll(v, a + b) == IncidentAll(v, a) + IncidentAll(v, b)
  {
  }

  /** The ends of the relations at some nodes are what one step from them reaches. */
  lemma EndsAreSteps(v: View, nodes: set<Id>)
    ensures EndsOf(v, IncidentAll(v, nodes)) == StepAll(Adjacent(v), nodes)
  {
    forall m ensures m in EndsOf(v, IncidentAll(v, nodes)) <==> m in StepAll(Adjacent(v), nodes) {
      if m in EndsOf(v, IncidentAll(v, nodes)) {
        var id :| id in IncidentAll(v, nodes) && id in v.objs && m in Ends(v.objs[id]);
        var n :| n in nodes && id in Incident(v, n);
        assert m in Adjacent(v)(n);
      }
      if m in StepAll(Adjacent(v), nodes) {
        var n :| n in nodes && m in Adjacent(v)(n);
        var id :| id in Incident(v, n) && m in Ends(v.objs[id]);
        assert id in IncidentAll(v, nodes);
      }
    }
  }

  lemma LevelStep(v: View, before: Front, frontier: seq<Id>, i: nat, was: Front, limit: int, after: Front)
    requires i < |frontier| && Followed(v, before, IncidentAll(v, NodeSet(frontier[..i])), was)
    requires if after.truncated then CutShort(v, was, Incident(v, frontier[i]), limit, after)
             else Followed(v, was, Incident(v, frontier[i]), after)
    ensures if after.truncated then CutShort(v, before, IncidentAll(v, NodeSet(frontier)), limit, after)
            else Followed(v, before, IncidentAll(v, NodeSet(frontier[..i + 1])), after)
  {
    var done := NodeSet(frontier[..i]);
    assert frontier[..i + 1] == frontier[..i] + [frontier[i]];
    assert NodeSet(frontier[..i + 1]) == done + {frontier[i]};
    assert IncidentAll(v, {frontier[i]}) == Incident(v, frontier[i]);
    IncidentSplit(v, done, {frontier[i]});
    Further(v, before, IncidentAll(v, done), was, Incident(v, frontier[i]), limit, after);
    if after.truncated {
      assert NodeSet(frontier) == done + {frontier[i]} + NodeSet(frontier);
      IncidentSplit(v, done + {frontier[i]}, NodeSet(frontier));
      CutShortMore(v, before, IncidentAll(v, done + {frontier[i]}), IncidentAll(v, NodeSet(frontier)), limit, after);
    }
  }

  function VisibleNodes(v: View): set<Id> {
    set n | n in v.objs && Visible(v, n)
  }

  lemma VisibleSnoc(v: View, nodes: seq<Id>, i: nat)
    requires i < |nodes| && NodeSet(nodes[..i]) <= VisibleNodes(v)
    ensures if Visible(v, nodes[i]) then NodeSet(nodes[..i + 1]) <= VisibleNodes(v)
            else !(NodeSet(nodes) <= VisibleNodes(v))
  {
    assert nodes[..i + 1] == nodes[..i] + [nodes[i]];
    assert nodes[i] in NodeSet(nodes);
  }

  /** Expands every node of one level. */
  method Level(v: View, order: seq<Id>, frontier: seq<Id>, limit: int, before: Front) returns (found: bool,
               after: Front)
    requires WellFormed(v) && Listed(v, order)
    requires !before.truncated && before.visited != {} && |before.visited| <= Larger(limit)
    ensures |after.visited| <= Larger(limit)
    ensures !found ==> !(NodeSet(frontier) <= VisibleNodes(v))
    ensures found && !after.truncated ==> NodeSet(frontier) <= VisibleNodes(v)
    ensures found ==> if after.truncated then CutShort(v, before, IncidentAll(v, NodeSet(frontier)), limit, after)
                      else Followed(v, before, IncidentAll(v, NodeSet(frontier)), after)
  {
    after := before;
    found := true;
    assert EndsOf(v, {}) == {} && IncidentAll(v, {}) == {};
    for i := 0 to |frontier|
      invariant |after.visited| <= Larger(limit) && after.visited != {}
      invariant Followed(v, before, IncidentAll(v, NodeSet(frontier[..i])), after)
      invariant NodeSet(frontier[..i]) <= VisibleNodes(v)
    {
      ghost var was := after;
      VisibleSnoc(v, frontier, i);
      found, after := Follow(v, order, frontier[i], limit, after);
      if !found {
        return;
      }
      LevelStep(v, before, frontier, i, was, limit, after);
      if after.truncated {
        return;
      }
    }
    assert frontier[..|frontier|] == frontier;
  }

  /** The relations at nodes nearer than k steps. */
  function EdgesWithin(v: View, start: Id, k: nat): set<Id> {
    if k == 0 then {} else IncidentAll(v, Within(Adjacent(v), start, k - 1))
  }

  /** The walk after h levels. */
  ghost predicate AfterLevels(v: View, start: Id, h: nat, s: Front) {
    && !s.truncated
    && s.visited == Within(Adjacent(v), start, h)
    && NodeSet(s.next) <= s.visited
    && NodeSet(s.edges) == EdgesWithin(v, start, h)
    && IncidentAll(v, s.visited - NodeSet(s.next)) <= NodeSet(s.edges)
    && StepAll(Adjacent(v), s.visited - NodeSet(s.next)) <= s.visited
    && s.visited - NodeSet(s.next) <= Nearer(Adjacent(v), start, h)
  }

  /** The nodes nearer than k steps. */
  function Nearer(step: Step, start: Id, k: nat): set<Id> {
    if k == 0 then {} else Within(step, start, k - 1)
  }

  lemma EdgesGrow(v: View, start: Id, j: nat, k: nat)
    requires j <= k
    ensures EdgesWithin(v, start, j) <= EdgesWithin(v, start, k)
  {
    if 0 < j {
      EdgesGrowFrom(v, start, j - 1, k - 1);
    }
  }

  lemma EdgesGrowFrom(v: View, start: Id, j: nat, k: nat)
    requires j <= k
    ensures EdgesWithin(v, start, j + 1) <= EdgesWithin(v, start, k + 1)
  {
    var nearer, farther := Within(Adjacent(v), start, j), Within(Adjacent(v), start, k);
    WithinGrows(Adjacent(v), start, j, k);
    IncidentGrows(v, nearer, farther);
    LastEdges(v, start, j, nearer);
    LastEdges(v, start, k, farther);
  }

  lemma IncidentGrows(v: View, a: set<Id>, b: set<Id>)
    requires a <= b
    ensures IncidentAll(v, a) <= IncidentAll(v, b)
  {
  }

  lemma StepSplit(step: Step, a: set<Id>, b: set<Id>)
    ensures StepAll(step, a + b) == StepAll(step, a) + StepAll(step, b)
  {
  }

  /** Expanding the frontier reaches what expanding everything would. */
  lemma NextNodes(step: Step, start: Id, h: nat, visited: set<Id>, frontier: set<Id>)
    requires visited == Within(step, start, h) && frontier <= visited && StepAll(step, visited - frontier) <= visited
    ensures visited + StepAll(step, frontier) == Within(step, start, h + 1)
  {
    assert (visited - frontier) + frontier == visited;
    StepSplit(step, visited - frontier, frontier);
  }

  lemma NextEdges(v: View, start: Id, h: nat, visited: set<Id>, frontier: set<Id>)
    requires visited == Within(Adjacent(v), start, h) && frontier <= visited
    requires IncidentAll(v, visited - frontier) <= EdgesWithin(v, start, h)
    ensures EdgesWithin(v, start, h) + IncidentAll(v, frontier) == EdgesWithin(v, start, h + 1)
    ensures IncidentAll(v, visited) == EdgesWithin(v, start, h + 1)
  {
    assert (visited - frontier) + frontier == visited;
    IncidentSplit(v, visited - frontier, frontier);
    EdgesGrow(v, start, h, h + 1);
  }

  lemma NextLevel(v: View, start: Id, h: nat, s: Front, after: Front)
    requires AfterLevels(v, start, h, s)
    requires Followed(v, s.(next := []), IncidentAll(v, NodeSet(s.next)), after)
    ensures AfterLevels(v, start, h + 1, after)
  {
    var frontier := NodeSet(s.next);
    EndsAreSteps(v, frontier);
    NextNodes(Adjacent(v), start, h, s.visited, frontier);
    NextEdges(v, start, h, s.visited, frontier);
    assert NodeSet(after.edges) == NodeSet(s.edges) + IncidentAll(v, frontier) by {
      forall id ensures id in NodeSet(after.edges) <==> id in NodeSet(s.edges) + IncidentAll(v, frontier) {
        assert id in after.edges <==> id in s.edges || id in IncidentAll(v, frontier);
      }
    }
    assert after.visited - NodeSet(after.next) == s.visited by {
      forall n ensures n in after.visited - NodeSet(after.next) <==> n in s.visited {
        assert n in after.next <==> n in after.visited && n !in s.visited;
      }
    }
    assert StepAll(Adjacent(v), s.visited) <= Within(Adjacent(v), start, h + 1);
  }

  lemma NothingLeft(v: View, start: Id, h: nat, s: Front)
    requires AfterLevels(v, start, h, s) && s.next == []
    ensures StepAll(Adjacent(v), s.visited) <= s.visited && IncidentAll(v, s.visited) <= NodeSet(s.edges)
    ensures s.visited <= Nearer(Adjacent(v), start, h)
  {
    assert s.visited - NodeSet(s.next) == s.visited by {
      assert NodeSet(s.next) == {};
    }
  }

  /** When nothing is left to expand, further levels change nothing. */
  lemma Settled(v: View, start: Id, h: nat, s: Front, hops: nat)
    requires AfterLevels(v, start, h, s) && s.next == [] && h < hops
    ensures s.visited == Within(Adjacent(v), start, hops) && NodeSet(s.edges) == EdgesWithin(v, start, hops)
  {
    NothingLeft(v, start, h, s);
    SettledNodes(Adjacent(v), start, h, s.visited, hops);
    SettledEdges(v, start, h, s.visited, NodeSet(s.edges), hops - 1, hops);
  }

  lemma SettledNodes(step: Step, start: Id, h: nat, visited: set<Id>, hops: nat)
    requires h <= hops && visited == Within(step, start, h) && StepAll(step, visited) <= visited
    ensures visited == Within(step, start, hops)
  {
    WithinSettles(step, start, h, hops);
  }

  lemma SettledEdges(v: View, start: Id, h: nat, visited: set<Id>, edges: set<Id>, k: nat, hops: nat)
    requires h <= k && hops == k + 1 && visited == Within(Adjacent(v), start, h) && edges == EdgesWithin(v, start, h)
    requires StepAll(Adjacent(v), visited) <= visited && IncidentAll(v, visited) <= edges
    ensures edges == EdgesWithin(v, start, hops)
  {
    SettledNodes(Adjacent(v), start, h, visited, k);
    LastEdges(v, start, k, visited);
    EdgesGrow(v, start, h, k + 1);
  }

  lemma LastEdges(v: View, start: Id, k: nat, within: set<Id>)
    requires Within(Adjacent(v), start, k) == within
    ensures EdgesWithin(v, start, k + 1) == IncidentAll(v, within)
  {
  }

  /** What a walk that was not cut short finds. */
  ghost predicate Complete(v: View, start: Id, hops: nat, s: Front) {
    && !s.truncated
    && s.visited == Within(Adjacent(v), start, hops)
    && NodeSet(s.edges) == EdgesWithin(v, start, hops)
  }

  /** What a walk that was cut short finds: part of the nodes, more of which there are than allowed. */
  ghost predicate Partial(v: View, start: Id, hops: nat, limit: int, s: Front) {
    && s.truncated
    && |s.visited| == Larger(limit)
    && s.visited < Within(Adjacent(v), start, hops)
    && NodeSet(s.edges) <= EdgesWithin(v, start, hops)
  }

  lemma CutLevel(v: View, start: Id, h: nat, s: Front, limit: int, after: Front, hops: nat)
    requires AfterLevels(v, start, h, s) && h < hops && |after.visited| <= Larger(limit) && s.visited != {}
    requires CutShort(v, s.(next := []), IncidentAll(v, NodeSet(s.next)), limit, after)
    ensures Partial(v, start, hops, limit, after)
  {
    EndsAreSteps(v, NodeSet(s.next));
    CutNodes(Adjacent(v), start, h, NodeSet(s.next), after.visited);
    WithinGrows(Adjacent(v), start, h + 1, hops);
    CutEdges(v, start, h, s, limit, after);
    EdgesGrow(v, start, h + 1, hops);
    NotEmpty(s.visited, after.visited);
  }

  lemma CutNodes(step: Step, start: Id, h: nat, frontier: set<Id>, visited: set<Id>)
    requires frontier <= Within(step, start, h) && visited < Within(step, start, h) + StepAll(step, frontier)
    ensures visited < Within(step, start, h + 1)
  {
    assert StepAll(step, frontier) <= StepAll(step, Within(step, start, h));
    assert Within(step, start, h) + StepAll(step, frontier) <= Within(step, start, h + 1);
  }

  lemma CutEdges(v: View, start: Id, h: nat, s: Front, limit: int, after: Front)
    requires AfterLevels(v, start, h, s)
    requires CutShort(v, s.(next := []), IncidentAll(v, NodeSet(s.next)), limit, after)
    ensures NodeSet(after.edges) <= EdgesWithin(v, start, h + 1)
  {
    EdgesGrow(v, start, h, h + 1);
    IncidentSplit(v, s.visited, NodeSet(s.next));
    assert s.visited + NodeSet(s.next) == s.visited;
    forall id | id in NodeSet(after.edges) ensures id in EdgesWithin(v, start, h + 1) {
      assert id in after.edges;
      assert id in s.edges ==> id in NodeSet(s.edges);
    }
  }

  lemma NotEmpty<T>(a: set<T>, b: set<T>)
    requires a != {} && a <= b
    ensures |b| >= 1
  {
    assert b != {};
  }

  lemma StartLevel(v: View, start: Id)
    ensures AfterLevels(v, start, 0, Front({start}, [start], [], false))
  {
    assert NodeSet([start]) == {start} && {start} - {start} == {};
    assert IncidentAll(v, {}) == {} && StepAll(Adjacent(v), {}) == {};
  }

  /** The nodes at which a walk of h levels looked for relations are visible. */
  ghost predicate Clear(v: View, start: Id, h: nat) {
    Nearer(Adjacent(v), start, h) <= VisibleNodes(v)
  }

  lemma NextClear(step: Step, start: Id, h: nat, visited: set<Id>, next: set<Id>, good: set<Id>)
    requires visited == Within(step, start, h) && visited - next <= Nearer(step, start, h)
    requires Nearer(step, start, h) <= good && next <= good
    ensures Nearer(step, start, h + 1) <= good
  {
    forall n | n in visited ensures n in good {
      assert n in next || n in visited - next;
    }
  }

  lemma SettledNearer(step: Step, start: Id, h: nat, visited: set<Id>, k: nat, good: set<Id>)
    requires visited == Within(step, start, h) && StepAll(step, visited) <= visited && h <= k && visited <= good
    ensures Nearer(step, start, k + 1) <= good
  {
    SettledNodes(step, start, h, visited, k);
    NearerAfter(step, start, k, visited);
  }

  lemma NearerAfter(step: Step, start: Id, k: nat, visited: set<Id>)
    requires Within(step, start, k) == visited
    ensures Nearer(step, start, k + 1) == visited
  {
  }

  lemma NearerGrows(step: Step, start: Id, h: nat, hops: nat)
    requires h < hops
    ensures Within(step, start, h) <= Nearer(step, start, hops)
  {
    WithinGrows(step, start, h, hops - 1);
  }

  /** A walk that got through to its end. */
  lemma WalkEnds(v: View, start: Id, h: nat, s: Front, hops: nat)
    requires AfterLevels(v, start, h, s) && Clear(v, start, h) && h <= hops && (h == hops || s.next == [])
    ensures Complete(v, start, hops, s) && Clear(v, start, hops)
  {
    if h < hops {
      Settled(v, start, h, s, hops);
      NothingLeft(v, start, h, s);
      SettledNearer(Adjacent(v), start, h, s.visited, hops - 1, VisibleNodes(v));
    }
  }

  /** One level more. */
  method Deeper(v: View, order: seq<Id>, ghost start: Id, ghost h: nat, ghost hops: nat, limit: int, s: Front)
    returns (found: bool, after: Front)
    requires WellFormed(v) && Listed(v, order) && h < hops && |s.visited| <= Larger(limit) && s.visited != {}
    requires AfterLevels(v, start, h, s) && Clear(v, start, h)
    ensures |after.visited| <= Larger(limit)
    ensures !found ==> !Clear(v, start, hops)
    ensures found && after.truncated ==> Partial(v, start, hops, limit, after)
    ensures found && !after.truncated ==>
              after.visited != {} && AfterLevels(v, start, h + 1, after) && Clear(v, start, h + 1)
  {
    found, after := Level(v, order, s.next, limit, s.(next := []));
    if !found {
      NearerGrows(Adjacent(v), start, h, hops);
    } else {
      if after.truncated {
        CutLevel(v, start, h, s, limit, after, hops);
      } else {
        NextLevel(v, start, h, s, after);
        NextClear(Adjacent(v), start, h, s.visited, NodeSet(s.next), VisibleNodes(v));
      }
    }
  }

  method Walked(v: View, order: seq<Id>, start: Id, hops: nat, limit: int) returns (found: bool, s: Front)
    requires WellFormed(v) && Listed(v, order)
    ensures !found ==> !Clear(v, start, hops)
    ensures found ==> Partial(v, start, hops, limit, s) || (Complete(v, start, hops, s) && Clear(v, start, hops))
    ensures |s.visited| <= Larger(limit)
  {
    s := Front({start}, [start], [], false);
    found := true;
    var h := 0;
    StartLevel(v, start);
    while h < hops && s.next != []
      invariant found && h <= hops && |s.visited| <= Larger(limit) && s.visited != {}
      invariant AfterLevels(v, start, h, s) && Clear(v, start, h)
      decreases hops - h
    {
      found, s := Deeper(v, order, start, h, hops, limit, s);
      if !found || s.truncated {
        return;
      }
      h := h + 1;
    }
    WalkEnds(v, start, h, s, hops);
  }

  /** Keeps the first occurrence of every relation. */
  method DistinctEdges(v: View, rels: seq<Id>) returns (edges: seq<Edge>)
    requires WellFormed(v) && forall id :: id in rels ==> id in v.objs && v.objs[id].kind == Relation
    ensures forall e :: e in edges <==> e.id in rels && e == EdgeOf(v.objs[e.id])
    ensures forall i, j :: 0 <= i < j < |edges| ==> edges[i].id != edges[j].id
  {
    edges := [];
    var seen: set<Id> := {};
    for i := 0 to |rels|
      invariant forall id :: id in seen <==> id in rels[..i]
      invariant forall e :: e in edges <==> e.id in rels[..i] && e == EdgeOf(v.objs[e.id])
      invariant forall k, j :: 0 <= k < j < |edges| ==> edges[k].id != edges[j].id
    {
      assert rels[..i + 1] == rels[..i] + [rels[i]];
      if rels[i] !in seen {
        seen := seen + {rels[i]};
        edges := edges + [EdgeOf(v.objs[rels[i]])];
      }
    }
    assert rels[..|rels|] == rels;
  }

  predicate IsEdge(v: View, e: Edge) {
    && e.id in v.objs && v.objs[e.id].kind == Relation
    && v.objs[e.id].body.sourceEntity.Some? && v.objs[e.id].body.targetEntity.Some?
    && e == EdgeOf(v.objs[e.id])
  }

  /** The edge tells its relation. */
  predicate TellsRelation(v: View, e: Edge) {
    && e.id in v.objs && v.objs[e.id].kind == Relation && v.objs[e.id].body.sourceEntity == Some(e.source)
    && v.objs[e.id].body.targetEntity == Some(e.target) && v.objs[e.id].body.relType == e.relType
  }

  /** The relations of an answer are these, each once. */
  ghost predicate Shows(v: View, edges: seq<Edge>, rels: set<Id>) {
    && (forall e :: e in edges ==> e.id in rels && IsEdge(v, e))
    && (forall id :: id in rels ==> exists e :: e in edges && e.id == id)
    && (forall i, j :: 0 <= i < j < |edges| ==> edges[i].id != edges[j].id)
  }

  function Least(a: int, b: int): (r: int)
    ensures r <= a && r <= b && (r == a || r == b)
  {
    if a <= b then a else b
  }

  /** The walk starts out of scope, or comes to expand a node that is not visible. */
  ghost predicate Strays(v: View, start: Id, hops: int) {
    || start !in v.objs || !InScope(v, v.objs[start])
    || (hops >= 0 && !Clear(v, start, hops))
  }

  /** What a walk answers. When it is not truncated these are exactly the nodes within the given number of steps, and
      the relations at the nearer ones; it is truncated exactly when there are more nodes than allowed, and it never
      returns more. */
  ghost predicate Answers(v: View, start: Id, hops: nat, nodeLimit: int, r: Found) {
    r.Found? &&
    var reach := Within(Adjacent(v), start, hops);
    && |r.nodes| <= Larger(nodeLimit)
    && (r.truncated <==> |reach| > Larger(nodeLimit))
    && (if r.truncated then r.nodes < reach else r.nodes == reach)
    && (forall e :: e in r.edges ==> TellsRelation(v, e))
    && (!r.truncated ==> Shows(v, r.edges, EdgesWithin(v, start, hops)))
  }

  /** The answer of a walk that did not fail. */
  method Presented(v: View, ghost start: Id, ghost hops: nat, ghost nodeLimit: int, s: Front) returns (r: Found)
    requires WellFormed(v) && |s.visited| <= Larger(nodeLimit)
    requires Complete(v, start, hops, s) || Partial(v, start, hops, nodeLimit, s)
    ensures Answers(v, start, hops, nodeLimit, r) && r.truncated == s.truncated
  {
    EdgesAreRelations(v, start, hops);
    forall id | id in s.edges ensures id in v.objs && v.objs[id].kind == Relation {
      assert id in NodeSet(s.edges);
    }
    var edges := DistinctEdges(v, s.edges);
    if s.truncated {
      SmallerCard(s.visited, Within(Adjacent(v), start, hops));
    } else {
      forall id | id in EdgesWithin(v, start, hops) ensures exists e :: e in edges && e.id == id {
        assert id in NodeSet(s.edges);
        assert EdgeOf(v.objs[id]) in edges;
      }
      forall e | e in edges ensures e.id in EdgesWithin(v, start, hops) {
        assert e.id in NodeSet(s.edges);
      }
    }
    r := Found(s.visited, edges, s.truncated);
  }

  /** The bounded breadth-first walk: its answer, and exactly when it fails. It fails only when it strays; and when it
      strays it fails, unless there are more nodes than allowed, so that it may be cut short before. */
  method QueryGraph(v: View, order: seq<Id>, start: Id, maxHops: int, hopLimit: int, nodeLimit: int) returns (r: Found)
    requires WellFormed(v) && Listed(v, order)
    ensures r.BadHops? <==> start in v.objs && InScope(v, v.objs[start]) && Least(maxHops, hopLimit) < 0
    ensures r.Found? ==>
              Least(maxHops, hopLimit) >= 0 && Answers(v, start, Least(maxHops, hopLimit), nodeLimit, r)
    ensures r.NotFound? ==> Strays(v, start, Least(maxHops, hopLimit))
    ensures FewEnough(v, start, Least(maxHops, hopLimit), nodeLimit) ==>
              (r.NotFound? <==> Strays(v, start, Least(maxHops, hopLimit)))
    ensures Closed(v) && Visible(v, start) && Least(maxHops, hopLimit) >= 0 ==> r.Found?
  {
    if start !in v.objs || !InScope(v, v.objs[start]) {
      return NotFound;
    }
    var hops := Least(maxHops, hopLimit);
    if hops < 0 {
      return BadHops;
    }
    var found, s := Walked(v, order, start, hops, nodeLimit);
    if !found {
      NeverStrays(v, start, hops);
      return NotFound;
    }
    r := Presented(v, start, hops, nodeLimit, s);
  }

  /** There are no more nodes within the given number of steps than allowed. */
  predicate FewEnough(v: View, start: Id, hops: int, nodeLimit: int) {
    hops >= 0 ==> |Within(Adjacent(v), start, hops)| <= Larger(nodeLimit)
  }

  lemma NeverStrays(v: View, start: Id, hops: nat)
    requires Strays(v, start, hops)
    ensures !(Closed(v) && Visible(v, start))
  {
    if Closed(v) && Visible(v, start) && hops > 0 {
      ReachIsVisible(v, start, hops - 1);
    }
  }

  lemma EdgesAreRelations(v: View, start: Id, k: nat)
    ensures forall id :: id in EdgesWithin(v, start, k) ==> id in v.objs && v.objs[id].kind == Relation
  {
  }

  lemma SmallerCard<T>(a: set<T>, b: set<T>)
    requires a < b
    ensures |a| < |b|
  {
    var x :| x in b && x !in a;
    assert b == a + (b - a);
    assert x in b - a;
    assert |b - a| >= 1;
  }

  /******* When the walk cannot fail *******/

  /** Relations of the scope join objects of the scope. */
  ghost predicate Closed(v: View) {
    forall id, n :: id in v.objs && v.objs[id].kind == Relation && InScope(v, v.objs[id]) && n in Ends(v.objs[id]) ==>
      n in v.objs && InScope(v, v.objs[n])
  }

  lemma StepIsVisible(v: View, m: Id, n: Id)
    requires Closed(v) && Visible(v, m) && n in Adjacent(v)(m)
    ensures Visible(v, n)
  {
    var id :| id in Incident(v, m) && n in Ends(v.objs[id]);
    var r := v.objs[id];
    assert n in v.objs && InScope(v, v.objs[n]);
    assert n == m || Far(r, m) == Some(n);
  }

  /** From a visible start, over relations that join objects of the scope, only visible nodes are reached, so
      that the walk never fails. */
  lemma {:induction false} ReachIsVisible(v: View, start: Id, k: nat)
    requires Closed(v) && Visible(v, start)
    ensures forall n :: n in Within(Adjacent(v), start, k) ==> Visible(v, n)
    decreases k
  {
    if k > 0 {
      ReachIsVisible(v, start, k - 1);
      forall n | n in StepAll(Adjacent(v), Within(Adjacent(v), start, k - 1)) ensures Visible(v, n) {
        var m :| m in Within(Adjacent(v), start, k - 1) && n in Adjacent(v)(m);
        StepIsVisible(v, m, n);
      }
    }
  }
}
